/** The keyboards of `app/keyboards.py`: the labels each reply keyboard offers,
    in order, and the two inline buttons of the staff-channel card. */
module Keyboards {
  import opened Wrappers
  import opened Strings
  import opened Localization

  /** `kb_languages`: each language's own name for itself. */
  function LanguageLabels(loc: Locale): seq<string> {
    [loc.t(LangRu, "RU"), loc.t(LangUz, "UZ"), loc.t(LangEn, "EN")]
  }

  /** `kb_consent`. */
  function ConsentLabels(loc: Locale, lang: string): seq<string> {
    [loc.t(ConsentAgree, lang)]
  }

  /** `kb_categories`: the categories of `lang`, in order; `CATEGORIES_BY_LANG[lang]`
      raises for a language the table does not have. */
  function CategoryLabels(loc: Locale, lang: string): (labels: Option<seq<string>>)
    ensures labels.Some? <==> lang in loc.categories
    ensures labels.Some? ==> labels.value == CategoriesOf(loc, lang)
  {
    if lang in loc.categories then Some(loc.categories[lang]) else None
  }

  /** `kb_attachments`. */
  function AttachmentLabels(loc: Locale, lang: string): seq<string> {
    [loc.t(BtnDone, lang), loc.t(BtnSkip, lang)]
  }

  /** `kb_review`. */
  function ReviewLabels(loc: Locale, lang: string): seq<string> {
    [loc.t(BtnEdit, lang), loc.t(BtnSend, lang)]
  }

  /** `kb_edit_menu`. */
  function EditMenuLabels(loc: Locale, lang: string): seq<string> {
    [loc.t(EditName, lang), loc.t(EditPhone, lang), loc.t(EditCategory, lang),
     loc.t(EditText, lang), loc.t(EditAttachments, lang)]
  }

  /** `kb_after_submit`. */
  function AfterSubmitLabels(loc: Locale, lang: string): seq<string> {
    [loc.t(BtnNewRequest, lang)]
  }

  /** An inline button: its caption and the callback data pressing it sends. */
  datatype InlineButton = InlineButton(caption: string, callbackData: string)

  const WorkAction: string := "work"
  const CloseAction: string := "close"

  /** The callback data of a card button: `adm:{action}:{external_id}`. */
  function CallbackData(action: string, id: string): string {
    "adm:" + action + ":" + id
  }

  /** `kb_admin_card`: take the case into work, or close it. */
  function AdminCardButtons(id: string): (buttons: seq<InlineButton>)
    ensures |buttons| == 2
    ensures buttons[0].callbackData == CallbackData(WorkAction, id)
    ensures buttons[1].callbackData == CallbackData(CloseAction, id)
    ensures forall i :: 0 <= i < 2 ==> "adm:" <= buttons[i].callbackData
  {
    [InlineButton("🛠 В работу", CallbackData(WorkAction, id)),
     InlineButton("✅ Закрыть", CallbackData(CloseAction, id))]
  }

  /** Splitting the callback data on `:` gives back the prefix, the action and
      the id, as three parts, whenever neither the action nor the id holds `:`. */
  lemma CallbackRoundTrip(action: string, id: string)
    requires ':' !in action && ':' !in id
    ensures SplitOn(CallbackData(action, id), ':') == ["adm", action, id]
  {
    var parts := ["adm", action, id];
    assert parts[1..][1..] == [id];
    assert Join(parts[1..], ':') == action + [':'] + id;
    assert Join(parts, ':') == "adm" + [':'] + (action + [':'] + id);
    assert CallbackData(action, id) == Join(parts, ':');
    SplitJoin(parts, ':');
  }

  /** Both card buttons decode to their own action and the card's id. */
  lemma CardButtonsDecode(id: string)
    requires ':' !in id
    ensures forall b :: b in AdminCardButtons(id) ==>
              exists action :: action in [WorkAction, CloseAction]
                               && SplitOn(b.callbackData, ':') == ["adm", action, id]
  {
    CallbackRoundTrip(WorkAction, id);
    CallbackRoundTrip(CloseAction, id);
    var bs := AdminCardButtons(id);
    assert SplitOn(bs[0].callbackData, ':') == ["adm", WorkAction, id];
    assert SplitOn(bs[1].callbackData, ':') == ["adm", CloseAction, id];
  }
}
