/** The outside world as the handlers see it: the messages posted to the
    staff channel and the calls made to the case-management backend
    (`app/bitrix_api.py`), recorded as an abstract trace in call order. */
module Effects {
  import opened Wrappers
  import opened Helpers
  import opened Keyboards

  /** `crm_fields["categoryId"]`: the number when the configured text parses, the text otherwise. */
  datatype CategoryField = NumericCategory(n: int) | TextCategory(s: string)

  /** The fields sent with `crm.item.add`. */
  datatype CrmFields = CrmFields(
    title: string,
    assignedById: int,
    categoryId: Option<CategoryField>,
    stageId: Option<string>)

  datatype Effect =
    /** The card posted to the staff channel, with its two inline buttons. */
    | PostCard(text: string, buttons: seq<InlineButton>)
    /** One attachment forwarded to the staff channel as a reply to the card. */
    | PostAttachment(kind: MediaKind, fileId: string, replyTo: int)
    /** `bitrix_crm_item_add`. */
    | CreateCrmItem(entity: int, fields: CrmFields)
    /** `bitrix_task_add`. */
    | CreateTask(title: string, description: string, responsible: int)
    /** `bitrix_crm_timeline_comment`. */
    | CrmComment(entity: int, item: int, comment: string)
    /** `bitrix_task_comment`. */
    | TaskComment(task: int, comment: string)
    /** `bitrix_task_complete`. */
    | TaskComplete(task: int)
    /** A plain message to the staff channel (the backend-error notice). */
    | ChannelNotice(text: string)
    /** An edit of the card's text; a failing edit is ignored. */
    | EditCard(text: string)

  /** The effects that call the backend. */
  predicate BackendCall(e: Effect) {
    e.CreateCrmItem? || e.CreateTask? || e.CrmComment? || e.TaskComment? || e.TaskComplete?
  }

  /** The effects that create a backend entity. */
  predicate Creates(e: Effect) {
    e.CreateCrmItem? || e.CreateTask?
  }

  /** Python truthiness of an optional id: present and not zero. */
  predicate Truthy(x: Option<int>) {
    x.Some? && x.value != 0
  }
}
