/** Sending the reviewed form (`review_send` in `app/handlers_user.py`): the
    card and the attachments go to the staff channel, one backend entity is
    created, the storage records the submission and the user's form is
    cleared. The backend's answer and the values the transport supplies are
    parameters. */
module Submission {
  import opened Wrappers
  import opened Strings
  import opened Helpers
  import opened Localization
  import opened Keyboards
  import opened Effects
  import opened Config
  import opened BotCore
  import opened Conversation

  /** What the outside world supplies: the current year, the id and date of
      the posted card, and the id the backend answered with (the CRM item in
      CRM mode, the task otherwise; `None` when the call failed). */
  datatype SendEnv = SendEnv(year: nat, cardMessageId: int, cardDate: int, created: Option<int>)

  datatype SendOutcome =
    /** The handler ran to its end. */
    | Sent(store: Store, session: Session, effects: seq<Effect>)
    /** `int(BITRIX_SMART_ENTITY_ID)` raised: the counter was already raised
        and the card posted, nothing was recorded and the form stays as it was. */
    | SendCrashed(store: Store, effects: seq<Effect>)

  /** The draft's fields as the handler reads them: `(data.get(key) or "").strip()`. */
  datatype Fields = Fields(lang: string, name: string, phone: string, category: string, text: string)

  function FieldsOf(d: Draft): Fields {
    Fields(LangOf(d), StrippedOr(d.name), StrippedOr(d.phone), StrippedOr(d.category), StrippedOr(d.text))
  }

  /** `(value or "").strip()` for a stored value that may be missing. */
  function StrippedOr(v: Option<string>): (r: string)
    ensures v.None? ==> r == ""
    ensures v.Some? ==> r == Strip(v.value)
  {
    if v.Some? then Strip(v.value) else ""
  }

  /** The backend title: `Жалоба {name} ({phone}) — {external_id}`. */
  function Title(name: string, phone: string, id: string): string {
    "Жалоба " + name + " (" + phone + ") — " + id
  }

  /** `categoryId`: left out when the setting is empty, a number when it parses, the text otherwise. */
  function CategoryFieldOf(raw: string): (c: Option<CategoryField>)
    ensures raw == "" <==> c.None?
    ensures c.Some? && ParseInt(raw).Some? ==> c.value == NumericCategory(ParseInt(raw).value)
    ensures c.Some? && ParseInt(raw).None? ==> c.value == TextCategory(raw)
  {
    if raw == "" then None
    else match ParseInt(raw)
      case Some(n) => Some(NumericCategory(n))
      case None => Some(TextCategory(raw))
  }

  function CrmFieldsOf(cfg: Settings, title: string): CrmFields {
    CrmFields(title, cfg.responsibleId, CategoryFieldOf(cfg.smartCategoryId),
              if cfg.smartStageId == "" then None else Some(cfg.smartStageId))
  }

  /** The attachments forwarded to the channel, in order, each as a reply to the card. */
  function AttachmentPosts(atts: seq<Attachment>, replyTo: int): (posts: seq<Effect>)
    ensures |posts| == |atts|
    ensures forall i :: 0 <= i < |atts| ==> posts[i] == PostAttachment(atts[i].kind, atts[i].fileId, replyTo)
    ensures forall e :: e in posts ==> e.PostAttachment?
  {
    if |atts| == 0 then [] else [PostAttachment(atts[0].kind, atts[0].fileId, replyTo)] + AttachmentPosts(atts[1..], replyTo)
  }

  /** The line added to the card: the CRM item when there is a truthy one, else
      the task when there is a truthy one, else nothing. */
  function ExtraLine(task: Option<int>, crm: Option<int>): (line: string)
    ensures line == "" <==> !Truthy(crm) && !Truthy(task)
  {
    if Truthy(crm) then "\n🧩 CRM item: " + IntToString(crm.value)
    else if Truthy(task) then "\n🧩 Task ID: " + IntToString(task.value)
    else ""
  }

  /** The task id the entry keeps: the backend's answer outside CRM mode. */
  function TaskRef(cfg: Settings, env: SendEnv): Option<int> {
    if CrmMode(cfg) then None else env.created
  }

  /** The CRM item id the entry keeps: the backend's answer in CRM mode. */
  function CrmRef(cfg: Settings, env: SendEnv): Option<int> {
    if CrmMode(cfg) then env.created else None
  }

  /** Whether the backend's answer counts as a failure: a falsy item id in CRM
      mode, a missing task id otherwise (a task id of 0 is no failure, though
      it adds no line to the card). */
  predicate BackendFailed(cfg: Settings, env: SendEnv) {
    if CrmMode(cfg) then !Truthy(env.created) else env.created.None?
  }

  /** The backend calls and the failure notice: the creation call, then what
      follows from its answer. */
  function Bridge(cfg: Settings, loc: Locale, lang: string, title: string, description: string, env: SendEnv): seq<Effect>
    requires CrmMode(cfg) ==> ParseInt(cfg.smartEntityId).Some?
  {
    [Creation(cfg, title, description)] + FollowUp(cfg, loc, lang, description, env)
  }

  /** The one creation call: a CRM item in CRM mode, a task otherwise. */
  function Creation(cfg: Settings, title: string, description: string): (e: Effect)
    requires CrmMode(cfg) ==> ParseInt(cfg.smartEntityId).Some?
    ensures Creates(e)
    ensures e.CreateCrmItem? <==> CrmMode(cfg)
    ensures e.CreateCrmItem? ==> e.fields.title == title && e.entity == ParseInt(cfg.smartEntityId).value
    ensures e.CreateTask? ==> e.title == title && e.description == description
  {
    if CrmMode(cfg) then CreateCrmItem(ParseInt(cfg.smartEntityId).value, CrmFieldsOf(cfg, title))
    else CreateTask(title, description, cfg.responsibleId)
  }

  /** After the creation call: in CRM mode a truthy item id gets the
      description as a timeline comment; a failed answer (a falsy item id, or
      a missing task id) gets the error notice in the channel. */
  function FollowUp(cfg: Settings, loc: Locale, lang: string, description: string, env: SendEnv): (f: seq<Effect>)
    requires CrmMode(cfg) ==> ParseInt(cfg.smartEntityId).Some?
    ensures |f| <= 1
    ensures forall e :: e in f ==> e.ChannelNotice? || e.CrmComment?
    ensures f != [] && f[0].ChannelNotice? <==> BackendFailed(cfg, env)
    ensures f != [] && f[0].CrmComment? <==> CrmMode(cfg) && Truthy(env.created)
    ensures f != [] && f[0].CrmComment? ==> f[0] == CrmComment(ParseInt(cfg.smartEntityId).value, env.created.value, description)
  {
    if CrmMode(cfg) then
      if Truthy(env.created) then [CrmComment(ParseInt(cfg.smartEntityId).value, env.created.value, description)]
      else [ChannelNotice(loc.t(BitrixError, lang))]
    else if env.created.None? then [ChannelNotice(loc.t(BitrixError, lang))]
    else []
  }

  /** `review_send`. */
  function ReviewSend(cfg: Settings, loc: Locale, st: Store, s: Session, env: SendEnv): SendOutcome {
    var minted := GenerateExternalId(cfg.idPrefix, env.year, st.counter);
    var posted := Posted(loc, s.draft, minted.1, env);
    if CrmMode(cfg) && ParseInt(cfg.smartEntityId).None? then
      SendCrashed(st.(counter := minted.0), posted)
    else
      Finish(st, minted.0, minted.1, FieldsOf(s.draft), s.draft.attachments, NewStatus(loc, s.draft),
             CardOf(loc, s.draft, minted.1), TaskRef(cfg, env), CrmRef(cfg, env), env,
             posted + BridgeOf(cfg, loc, s.draft, minted.1, env))
  }

  /** `t("card_status_new", lang)`. */
  function NewStatus(loc: Locale, d: Draft): string {
    loc.t(CardStatusNew, LangOf(d))
  }

  /** The card posted for the draft under external id `id`. */
  function CardOf(loc: Locale, d: Draft, id: string): string {
    var f := FieldsOf(d);
    CardText(f.lang, id, f.name, f.phone, f.category, f.text, NewStatus(loc, d))
  }

  /** The card with its buttons, then the attachments replying to it. */
  function Posted(loc: Locale, d: Draft, id: string, env: SendEnv): seq<Effect> {
    [PostCard(CardOf(loc, d, id), AdminCardButtons(id))] + AttachmentPosts(d.attachments, env.cardMessageId)
  }

  /** The backend part of the send for the draft under external id `id`. */
  function BridgeOf(cfg: Settings, loc: Locale, d: Draft, id: string, env: SendEnv): seq<Effect>
    requires CrmMode(cfg) ==> ParseInt(cfg.smartEntityId).Some?
  {
    var f := FieldsOf(d);
    Bridge(cfg, loc, f.lang, Title(f.name, f.phone, id),
           BuildDescription(f.lang, f.name, f.phone, f.category, f.text, d.attachments, id), env)
  }

  /** The end of `review_send`: the card edit with the backend id, the index
      entry, the history record and the cleared form. */
  function Finish(st: Store, counter: nat, id: string, f: Fields, atts: seq<Attachment>, status: string,
                  card: string, task: Option<int>, crm: Option<int>, env: SendEnv, effects: seq<Effect>): SendOutcome
  {
    var entry := Entry(task, crm, env.cardMessageId, status);
    var rec := Record(id, env.cardDate, f.lang, f.name, f.phone, f.category, status, |f.text|, |atts|);
    Sent(Store(counter, DequeAppend(st.history, rec, st.lookback), st.index[id := entry], st.lookback),
         Session(None, EmptyDraft),
         effects + CardEdit(card, task, crm))
  }

  /** The edit adding the backend id to the card, when there is a truthy one. */
  function CardEdit(card: string, task: Option<int>, crm: Option<int>): (edit: seq<Effect>)
    ensures |edit| <= 1
    ensures edit == [] <==> !Truthy(crm) && !Truthy(task)
    ensures forall e :: e in edit ==> e.EditCard?
  {
    var extra := ExtraLine(task, crm);
    if extra == "" then [] else [EditCard(card + extra)]
  }

  // ---------------------------------------------------------------------------
  // what sending promises

  /** The id a send mints: the configured prefix, the year and the next counter value. */
  function MintedId(cfg: Settings, st: Store, env: SendEnv): string {
    FormatExternalId(cfg.idPrefix, env.year, st.counter + 1)
  }

  /** With every channel send succeeding (the model's transport never fails),
      the handler stops half-way exactly when CRM mode is on and the entity id
      is not a number; then only the counter has moved. */
  lemma SendCrashesOnlyOnBadEntity(cfg: Settings, loc: Locale, st: Store, s: Session, env: SendEnv)
    ensures ReviewSend(cfg, loc, st, s, env).SendCrashed? <==> CrmMode(cfg) && ParseInt(cfg.smartEntityId).None?
    ensures ReviewSend(cfg, loc, st, s, env).SendCrashed? ==>
              ReviewSend(cfg, loc, st, s, env).store == st.(counter := st.counter + 1)
  {
  }

  /** A completed send is the end step applied to the freshly minted id, the
      stripped fields, the "new" status and the backend answer kept in the
      mode's slot. */
  lemma SendFinishes(cfg: Settings, loc: Locale, st: Store, s: Session, env: SendEnv)
    requires !(CrmMode(cfg) && ParseInt(cfg.smartEntityId).None?)
    ensures var id := MintedId(cfg, st, env);
            ReviewSend(cfg, loc, st, s, env)
            == Finish(st, st.counter + 1, id, FieldsOf(s.draft), s.draft.attachments, NewStatus(loc, s.draft),
                      CardOf(loc, s.draft, id), TaskRef(cfg, env), CrmRef(cfg, env), env,
                      Posted(loc, s.draft, id, env) + BridgeOf(cfg, loc, s.draft, id, env))
  {
    MintedIs(cfg, st, env);
  }

  /** The id and counter value `generate_external_id` hands to the send. */
  lemma MintedIs(cfg: Settings, st: Store, env: SendEnv)
    ensures GenerateExternalId(cfg.idPrefix, env.year, st.counter) == (st.counter + 1, MintedId(cfg, st, env))
  {
  }

  /** The minted id carries the next counter value, so the index does not hold it yet. */
  lemma MintedFresh(cfg: Settings, st: Store, env: SendEnv)
    requires Valid(st)
    ensures SequenceOf(MintedId(cfg, st, env)) == Some(st.counter + 1)
    ensures MintedId(cfg, st, env) !in st.index
  {
    SequenceRoundTrip(cfg.idPrefix, env.year, st.counter + 1);
    FreshId(st, MintedId(cfg, st, env));
  }

  /** The index entry a completed send writes. */
  function SendEntry(cfg: Settings, loc: Locale, d: Draft, env: SendEnv): Entry {
    Entry(TaskRef(cfg, env), CrmRef(cfg, env), env.cardMessageId, NewStatus(loc, d))
  }

  /** The history record a completed send appends. */
  function SendRecord(cfg: Settings, loc: Locale, st: Store, d: Draft, env: SendEnv): Record {
    var f := FieldsOf(d);
    Record(MintedId(cfg, st, env), env.cardDate, f.lang, f.name, f.phone, f.category,
           NewStatus(loc, d), |f.text|, |d.attachments|)
  }

  /** The storage and session a completed send leaves: the counter moved on,
      the record appended, the entry written under the minted id, the form cleared. */
  lemma SendStore(cfg: Settings, loc: Locale, st: Store, s: Session, env: SendEnv)
    requires !(CrmMode(cfg) && ParseInt(cfg.smartEntityId).None?)
    ensures var r := ReviewSend(cfg, loc, st, s, env);
            && r.Sent?
            && r.store == Store(st.counter + 1, DequeAppend(st.history, SendRecord(cfg, loc, st, s.draft, env), st.lookback),
                                st.index[MintedId(cfg, st, env) := SendEntry(cfg, loc, s.draft, env)], st.lookback)
            && r.session == Session(None, EmptyDraft)
  {
    SendFinishes(cfg, loc, st, s, env);
  }

  /** Sending mints one fresh id and writes exactly one index entry for it,
      with the "new" status of the user's language and the card's message id,
      leaving every other entry as it was; the form is cleared. */
  lemma SendWritesOneEntry(cfg: Settings, loc: Locale, st: Store, s: Session, env: SendEnv)
    requires Valid(st)
    requires !(CrmMode(cfg) && ParseInt(cfg.smartEntityId).None?)
    ensures var r := ReviewSend(cfg, loc, st, s, env);
            var id := MintedId(cfg, st, env);
            && r.Sent?
            && r.store.counter == st.counter + 1
            && id !in st.index
            && r.store.index.Keys == st.index.Keys + {id}
            && (forall k :: k in st.index ==> r.store.index[k] == st.index[k])
            && r.store.index[id] == Entry(TaskRef(cfg, env), CrmRef(cfg, env), env.cardMessageId,
                                          loc.t(CardStatusNew, LangOf(s.draft)))
            && r.session == Session(None, EmptyDraft)
  {
    MintedFresh(cfg, st, env);
    SendStore(cfg, loc, st, s, env);
    RecordWritesOneEntry(st, MintedId(cfg, st, env), SendEntry(cfg, loc, s.draft, env), SendRecord(cfg, loc, st, s.draft, env));
  }

  /** Sending appends exactly one history record, carrying the same status, the
      length of the stripped text and the number of attachments. */
  lemma SendAppendsOneRecord(cfg: Settings, loc: Locale, st: Store, s: Session, env: SendEnv)
    requires !(CrmMode(cfg) && ParseInt(cfg.smartEntityId).None?)
    ensures var r := ReviewSend(cfg, loc, st, s, env);
            var f := FieldsOf(s.draft);
            && r.Sent?
            && r.store.history == DequeAppend(st.history,
                 Record(MintedId(cfg, st, env), env.cardDate, f.lang, f.name, f.phone, f.category,
                        loc.t(CardStatusNew, f.lang), |StrippedOr(s.draft.text)|, |s.draft.attachments|),
                 st.lookback)
  {
    SendFinishes(cfg, loc, st, s, env);
  }

  /** The entry keeps at most one backend reference; a CRM item only in CRM
      mode; and it is written whatever the backend answered, `None` included. */
  lemma SendReferences(cfg: Settings, loc: Locale, st: Store, s: Session, env: SendEnv)
    requires !(CrmMode(cfg) && ParseInt(cfg.smartEntityId).None?)
    ensures MintedId(cfg, st, env) in ReviewSend(cfg, loc, st, s, env).store.index
    ensures var e := ReviewSend(cfg, loc, st, s, env).store.index[MintedId(cfg, st, env)];
            && !(e.taskId.Some? && e.crmItemId.Some?)
            && (e.crmItemId.Some? ==> CrmMode(cfg))
            && (CrmMode(cfg) ==> e.crmItemId == env.created && e.taskId.None?)
            && (!CrmMode(cfg) ==> e.taskId == env.created && e.crmItemId.None?)
  {
    SendStore(cfg, loc, st, s, env);
  }

  /** Sending keeps the storage invariant, whether the handler finishes or stops half-way. */
  lemma SendKeepsValid(cfg: Settings, loc: Locale, st: Store, s: Session, env: SendEnv)
    requires Valid(st)
    ensures Valid(ReviewSend(cfg, loc, st, s, env).store)
    ensures Grows(st, ReviewSend(cfg, loc, st, s, env).store)
  {
    if !(CrmMode(cfg) && ParseInt(cfg.smartEntityId).None?) {
      MintedFresh(cfg, st, env);
      SendStore(cfg, loc, st, s, env);
      RecordKeepsValid(st, MintedId(cfg, st, env), SendEntry(cfg, loc, s.draft, env), SendRecord(cfg, loc, st, s.draft, env));
    }
  }

  /** The effects of a completed send: the posts, the backend part, and the
      card edit when the backend returned a truthy id. */
  lemma SendEffectsAre(cfg: Settings, loc: Locale, st: Store, s: Session, env: SendEnv)
    requires !(CrmMode(cfg) && ParseInt(cfg.smartEntityId).None?)
    ensures var id := MintedId(cfg, st, env);
            && ReviewSend(cfg, loc, st, s, env).Sent?
            && ReviewSend(cfg, loc, st, s, env).effects
               == Posted(loc, s.draft, id, env) + BridgeOf(cfg, loc, s.draft, id, env)
                  + CardEdit(CardOf(loc, s.draft, id), TaskRef(cfg, env), CrmRef(cfg, env))
  {
    SendFinishes(cfg, loc, st, s, env);
  }

  /** The shape of the trace of a completed send with `n` attachments: the
      card first, exactly one creation call right after the attachments, an
      error notice somewhere exactly when `failed`, and the card edit last
      exactly when `edited`. */
  predicate SendTraceShape(effs: seq<Effect>, n: nat, failed: bool, edited: bool) {
    && |effs| >= n + 2
    && effs[0].PostCard?
    && (forall i :: 0 <= i < |effs| ==> (Creates(effs[i]) <==> i == n + 1))
    && ((exists i :: 0 <= i < |effs| && effs[i].ChannelNotice?) <==> failed)
    && (effs[|effs| - 1].EditCard? <==> edited)
  }

  /** A trace made of the card, its attachments, the creation call, what
      follows it and the edit has that shape, with the card and the
      attachments in their places. */
  lemma TraceLayout(card: Effect, posts: seq<Effect>, create: Effect, follow: seq<Effect>, edit: seq<Effect>)
    requires card.PostCard? && Creates(create)
    requires forall e :: e in posts ==> e.PostAttachment?
    requires |follow| <= 1 && forall e :: e in follow ==> e.ChannelNotice? || e.CrmComment?
    requires |edit| <= 1 && forall e :: e in edit ==> e.EditCard?
    ensures var all := [card] + posts + ([create] + follow) + edit;
            && SendTraceShape(all, |posts|, follow != [] && follow[0].ChannelNotice?, edit != [])
            && all[0] == card
            && (forall i :: 0 <= i < |posts| ==> all[1 + i] == posts[i])
  {
    var all := [card] + posts + ([create] + follow) + edit;
    var n := |posts|;
    forall i | 0 <= i < |all|
      ensures Creates(all[i]) <==> i == n + 1
      ensures all[i].ChannelNotice? <==> i == n + 2 && follow != [] && follow[0].ChannelNotice?
    {
      if i == 0 {
        assert all[i] == card;
      } else if i <= n {
        assert all[i] == posts[i - 1];
        assert posts[i - 1] in posts;
      } else if i == n + 1 {
        assert all[i] == create;
      } else if i == n + 2 && follow != [] {
        assert all[i] == follow[0];
        assert follow[0] in follow;
      } else {
        assert all[i] == edit[0];
        assert edit[0] in edit;
      }
    }
    if follow != [] && follow[0].ChannelNotice? {
      assert all[n + 2].ChannelNotice?;
    }
    if edit == [] {
      if follow == [] {
        assert all[|all| - 1] == create;
      } else {
        assert all[|all| - 1] == follow[0];
        assert follow[0] in follow;
      }
    } else {
      assert all[|all| - 1] == edit[0];
      assert edit[0] in edit;
    }
  }

  /** A completed send posts the card with its two buttons first and then every
      attachment, in order, as a reply to the card. */
  lemma SendPostsCardThenAttachments(cfg: Settings, loc: Locale, st: Store, s: Session, env: SendEnv)
    requires !(CrmMode(cfg) && ParseInt(cfg.smartEntityId).None?)
    ensures var r := ReviewSend(cfg, loc, st, s, env);
            var id := MintedId(cfg, st, env);
            var atts := s.draft.attachments;
            && r.Sent?
            && |r.effects| >= |atts| + 2
            && r.effects[0] == PostCard(CardOf(loc, s.draft, id), AdminCardButtons(id))
            && (forall i :: 0 <= i < |atts| ==> r.effects[1 + i] == PostAttachment(atts[i].kind, atts[i].fileId, env.cardMessageId))
  {
    SendEffectsAre(cfg, loc, st, s, env);
    PlannedTrace(cfg, loc, s.draft, MintedId(cfg, st, env), env);
  }

  /** A completed send makes exactly one creation call, right after the
      attachments; it posts the error notice exactly when the backend's answer
      failed; and it ends with the card edit exactly when a truthy id came back. */
  lemma SendCallsBackendOnce(cfg: Settings, loc: Locale, st: Store, s: Session, env: SendEnv)
    requires !(CrmMode(cfg) && ParseInt(cfg.smartEntityId).None?)
    ensures ReviewSend(cfg, loc, st, s, env).Sent?
    ensures SendTraceShape(ReviewSend(cfg, loc, st, s, env).effects, |s.draft.attachments|,
                           BackendFailed(cfg, env), Truthy(CrmRef(cfg, env)) || Truthy(TaskRef(cfg, env)))
  {
    SendEffectsAre(cfg, loc, st, s, env);
    PlannedTrace(cfg, loc, s.draft, MintedId(cfg, st, env), env);
  }

  /** The trace a completed send produces, laid out by its parts. */
  lemma PlannedTrace(cfg: Settings, loc: Locale, d: Draft, id: string, env: SendEnv)
    requires !(CrmMode(cfg) && ParseInt(cfg.smartEntityId).None?)
    ensures var atts := d.attachments;
            var all := Posted(loc, d, id, env) + BridgeOf(cfg, loc, d, id, env)
                       + CardEdit(CardOf(loc, d, id), TaskRef(cfg, env), CrmRef(cfg, env));
            && SendTraceShape(all, |atts|, BackendFailed(cfg, env), Truthy(CrmRef(cfg, env)) || Truthy(TaskRef(cfg, env)))
            && all[0] == PostCard(CardOf(loc, d, id), AdminCardButtons(id))
            && (forall i :: 0 <= i < |atts| ==> all[1 + i] == PostAttachment(atts[i].kind, atts[i].fileId, env.cardMessageId))
  {
    var f := FieldsOf(d);
    var description := BuildDescription(f.lang, f.name, f.phone, f.category, f.text, d.attachments, id);
    var card := PostCard(CardOf(loc, d, id), AdminCardButtons(id));
    var posts := AttachmentPosts(d.attachments, env.cardMessageId);
    var create := Creation(cfg, Title(f.name, f.phone, id), description);
    var follow := FollowUp(cfg, loc, f.lang, description, env);
    var edit := CardEdit(CardOf(loc, d, id), TaskRef(cfg, env), CrmRef(cfg, env));
    assert BridgeOf(cfg, loc, d, id, env) == [create] + follow;
    assert Posted(loc, d, id, env) == [card] + posts;
    TraceLayout(card, posts, create, follow, edit);
  }
}
