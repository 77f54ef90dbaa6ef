/** The staff side of `app/handlers_admin.py`: the two buttons on a card
    (`admin_card_action`), which move a submission to "in work" or "closed"
    in the card, in the storage and in the backend, and the counting done by
    `/stats`. */
module Admin {
  import opened Wrappers
  import opened Strings
  import opened Helpers
  import opened Localization
  import opened Keyboards
  import opened Effects
  import opened Config
  import opened BotCore

  /** A press on an inline button: who pressed it, its callback data and the
      text of the message it sits on (`None` when the message or its text is
      not available). */
  datatype Callback = Callback(userId: int, data: string, cardText: Option<string>)

  /** The two actions a card offers. */
  datatype Action = Work | Close

  /** What `callback.answer` shows. */
  datatype CardReply = NoAccess | BadData | NotFound | UnknownAction | StatusUpdated

  datatype ActionOutcome =
    /** The handler ran to its end (or returned early) and answered the press. */
    | Answered(store: Store, effects: seq<Effect>, reply: CardReply)
    /** `int(BITRIX_SMART_ENTITY_ID)` raised after the storage and the card
        were already updated. */
    | ActionCrashed(store: Store, effects: seq<Effect>)

  /** The text shown for each answer; the fixed ones are Russian whatever the card's language. */
  function ReplyText(loc: Locale, r: CardReply): string {
    match r
    case NoAccess => loc.t(AdminNoAccess, "RU")
    case BadData => "Некорректные данные"
    case NotFound => "Карточка не найдена"
    case UnknownAction => "Неизвестное действие"
    case StatusUpdated => "Статус обновлён"
  }

  /** The action named in callback data. */
  function ActionOf(s: string): (a: Option<Action>)
    ensures a == Some(Work) <==> s == WorkAction
    ensures a == Some(Close) <==> s == CloseAction
    ensures a.None? <==> s != WorkAction && s != CloseAction
  {
    if s == WorkAction then Some(Work) else if s == CloseAction then Some(Close) else None
  }

  /** The status an action sets, in the card's language. */
  function TargetStatus(loc: Locale, a: Action, lang: string): string {
    match a
    case Work => loc.t(CardStatusWork, lang)
    case Close => loc.t(CardStatusClosed, lang)
  }

  /** The comment the backend receives for an action. */
  function ActionComment(a: Action): string {
    match a
    case Work => "Заявка взята в работу из Telegram"
    case Close => "Заявка закрыта из Telegram"
  }

  /** The statuses the buttons set can stand as `re.sub` templates in every
      language (no backslash, no leading digit). */
  ghost predicate StatusTemplatesPlain(loc: Locale) {
    forall lang :: PlainReplacement(loc.t(CardStatusWork, lang)) && PlainReplacement(loc.t(CardStatusClosed, lang))
  }

  // ---------------------------------------------------------------------------
  // the card's language

  /** The language read back from a card: what follows the first `🌐` on the
      second line, stripped; `RU` when there is no such line. */
  function CardLanguage(text: string): (lang: string)
    ensures Stripped(lang)
  {
    var lines := SplitLines(text);
    if |lines| >= 2 && '🌐' in lines[1] then Strip(AfterFirst(lines[1], '🌐')) else DefaultLanguage
  }

  const DefaultLanguage: string := "RU"

  /** On a card rendered by `card_text`, the language read back is the
      submission's language. Only the first two lines are read, so the name,
      phone, category, text and status may hold line breaks of their own. */
  lemma CardLanguageOfCard(lang: string, id: string, name: string, phone: string,
                           category: string, text: string, status: string)
    requires SingleLine(lang) && SingleLine(id) && Stripped(lang)
    ensures CardLanguage(CardText(lang, id, name, phone, category, text, status)) == lang
  {
    CardSecondLine(lang, id, name, phone, category, text, status);
    LanguageLine(lang);
  }

  /** The second line of a card is its language line. */
  lemma CardSecondLine(lang: string, id: string, name: string, phone: string,
                       category: string, text: string, status: string)
    requires SingleLine(lang) && SingleLine(id)
    ensures var lines := SplitLines(CardText(lang, id, name, phone, category, text, status));
            |lines| >= 2 && lines[1] == "🌐 " + lang
  {
    CardLines(lang, id, name, phone, category, text, status);
    var tail := ("👤 " + name) + ("\n" + (("📞 " + phone) + ("\n" + (("📂 " + category) + ("\n"
                + ((StatusMarker + " " + status) + ("\n" + ("" + ("\n" + text)))))))));
    SingleLineConcat("🆔 <b>", id);
    SingleLineConcat("🆔 <b>" + id, "</b>");
    SingleLineConcat("🌐 ", lang);
    SplitLinesSecond("🆔 <b>" + id + "</b>", "🌐 " + lang, tail);
  }

  /** The language read back from a language line. */
  lemma LanguageLine(lang: string)
    requires Stripped(lang)
    ensures var line := "🌐 " + lang;
            '🌐' in line && Strip(AfterFirst(line, '🌐')) == lang
  {
    var line := "🌐 " + lang;
    assert line[0] == '🌐';
    assert AfterFirst(line, '🌐') == " " + lang;
    StripLeadingSpace(' ', lang);
  }

  // ---------------------------------------------------------------------------
  // the storage update

  /** Record `i` is the newest one carrying `id`. */
  predicate NewestWith(h: seq<Record>, id: string, i: int)
    requires 0 <= i < |h|
  {
    h[i].id == id && forall j :: i < j < |h| ==> h[j].id != id
  }

  /** The history after the status update: scanning from the newest record,
      the first one carrying `id` gets the new status. */
  function SetNewestStatus(h: seq<Record>, id: string, status: string): (h2: seq<Record>)
    ensures |h2| == |h|
    ensures forall i :: 0 <= i < |h| ==> h2[i] == if NewestWith(h, id, i) then h[i].(status := status) else h[i]
  {
    if |h| == 0 then []
    else
      var last := h[|h| - 1];
      var init := h[..|h| - 1];
      if last.id == id then init + [last.(status := status)]
      else
        var rest := SetNewestStatus(init, id, status);
        assert forall i :: 0 <= i < |init| ==> (NewestWith(init, id, i) <==> NewestWith(h, id, i));
        rest + [last]
  }

  /** When ids are distinct, the one record carrying `id` gets the status and
      every other record is untouched; with no such record (it was evicted)
      the history stays as it was. */
  lemma SetStatusOfDistinct(h: seq<Record>, id: string, status: string)
    requires forall i, j :: 0 <= i < |h| && 0 <= j < |h| && i != j ==> h[i].id != h[j].id
    ensures forall i :: 0 <= i < |h| ==>
              SetNewestStatus(h, id, status)[i] == if h[i].id == id then h[i].(status := status) else h[i]
    ensures (forall i :: 0 <= i < |h| ==> h[i].id != id) ==> SetNewestStatus(h, id, status) == h
  {
    var h2 := SetNewestStatus(h, id, status);
    forall i | 0 <= i < |h| && h[i].id == id
      ensures NewestWith(h, id, i)
    {
    }
  }

  /** The storage after an action on `id`: the entry's status and the newest
      history record's status, nothing else. */
  function SetStatus(st: Store, id: string, status: string): (st2: Store)
    requires id in st.index
    ensures st2.counter == st.counter && st2.lookback == st.lookback
    ensures st2.index.Keys == st.index.Keys
    ensures st2.index[id] == st.index[id].(status := status)
    ensures forall k :: k in st.index && k != id ==> st2.index[k] == st.index[k]
    ensures st2.history == SetNewestStatus(st.history, id, status)
  {
    Store(st.counter, SetNewestStatus(st.history, id, status), st.index[id := st.index[id].(status := status)], st.lookback)
  }

  /** Setting the same status twice is setting it once. */
  lemma SetStatusIdempotent(st: Store, id: string, status: string)
    requires id in st.index
    ensures SetStatus(SetStatus(st, id, status), id, status) == SetStatus(st, id, status)
  {
    var h := st.history;
    var h1 := SetNewestStatus(h, id, status);
    var h2 := SetNewestStatus(h1, id, status);
    forall i | 0 <= i < |h|
      ensures h2[i] == h1[i]
    {
      assert h1[i].id == h[i].id;
      assert NewestWith(h1, id, i) <==> NewestWith(h, id, i) by {
        assert forall j :: 0 <= j < |h| ==> h1[j].id == h[j].id;
      }
    }
  }

  /** A status change keeps the storage invariant and loses nothing. */
  lemma SetStatusKeepsValid(st: Store, id: string, status: string)
    requires Valid(st) && id in st.index
    ensures Valid(SetStatus(st, id, status)) && Grows(st, SetStatus(st, id, status))
  {
    var h := st.history;
    var h2 := SetNewestStatus(h, id, status);
    assert forall i :: 0 <= i < |h| ==> h2[i].id == h[i].id;
    SameIdsKeepValid(st, SetStatus(st, id, status));
  }

  // ---------------------------------------------------------------------------
  // the handler

  /** The CRM item a press comments on: in CRM mode (the setting alone, not
      the entity id) when the entry holds a truthy item id. */
  predicate UsesCrm(cfg: Settings, e: Entry) {
    cfg.mode == "CRM" && Truthy(e.crmItemId)
  }

  /** A press that passes every check of the handler: an admin, data of
      three `:`-parts naming an indexed id and a known action, and a card with
      text. */
  predicate Accepted(cfg: Settings, st: Store, cb: Callback) {
    var parts := SplitOn(cb.data, ':');
    && IsAdmin(cfg.adminIds, cb.userId)
    && |parts| == 3
    && parts[2] in st.index
    && cb.cardText.Some? && cb.cardText.value != ""
    && ActionOf(parts[1]).Some?
  }

  /** The id and the action an accepted press names. */
  function PressedId(cfg: Settings, st: Store, cb: Callback): string
    requires Accepted(cfg, st, cb)
  {
    SplitOn(cb.data, ':')[2]
  }

  function PressedAction(cfg: Settings, st: Store, cb: Callback): Action
    requires Accepted(cfg, st, cb)
  {
    ActionOf(SplitOn(cb.data, ':')[1]).value
  }

  /** The status an accepted press sets: the action's, in the card's language. */
  function PressedStatus(cfg: Settings, loc: Locale, st: Store, cb: Callback): string
    requires Accepted(cfg, st, cb)
  {
    TargetStatus(loc, PressedAction(cfg, st, cb), CardLanguage(cb.cardText.value))
  }

  /** `admin_card_action`. */
  function CardAction(cfg: Settings, loc: Locale, st: Store, cb: Callback): ActionOutcome
    requires StatusTemplatesPlain(loc)
  {
    if Accepted(cfg, st, cb) then
      Perform(cfg, loc, st, PressedId(cfg, st, cb), cb.cardText.value, PressedAction(cfg, st, cb))
    else Answered(st, [], Rejection(cfg, st, cb))
  }

  /** The answer to a press that fails a check: the first failing check in
      the handler's order decides it. */
  function Rejection(cfg: Settings, st: Store, cb: Callback): (r: CardReply)
    requires !Accepted(cfg, st, cb)
    ensures r != StatusUpdated
    ensures var parts := SplitOn(cb.data, ':');
            && (r == NoAccess <==> !IsAdmin(cfg.adminIds, cb.userId))
            && (r == BadData <==> IsAdmin(cfg.adminIds, cb.userId) && |parts| != 3)
            && (r == NotFound <==>
                  IsAdmin(cfg.adminIds, cb.userId) && |parts| == 3
                  && (parts[2] !in st.index || cb.cardText.None? || cb.cardText.value == ""))
            && (r == UnknownAction <==>
                  IsAdmin(cfg.adminIds, cb.userId) && |parts| == 3
                  && parts[2] in st.index && cb.cardText.Some? && cb.cardText.value != ""
                  && ActionOf(parts[1]).None?)
  {
    var parts := SplitOn(cb.data, ':');
    if !IsAdmin(cfg.adminIds, cb.userId) then NoAccess
    else if |parts| != 3 then BadData
    else if parts[2] !in st.index || cb.cardText.None? || cb.cardText.value == "" then NotFound
    else UnknownAction
  }

  /** The part of `admin_card_action` after the checks: the card edit, the
      storage update, then the backend calls. */
  function Perform(cfg: Settings, loc: Locale, st: Store, id: string, text: string, a: Action): ActionOutcome
    requires StatusTemplatesPlain(loc)
    requires id in st.index
  {
    var status := TargetStatus(loc, a, CardLanguage(text));
    var st2 := SetStatus(st, id, status);
    var edit := [EditCard(ReplaceStatusLine(text, status))];
    match BackendCalls(cfg, st.index[id], a)
    case None => ActionCrashed(st2, edit)
    case Some(calls) => Answered(st2, edit + calls, StatusUpdated)
  }

  /** The backend calls for an action on an entry, `None` when
      `int(BITRIX_SMART_ENTITY_ID)` raises. A CRM item gets one timeline
      comment; otherwise a truthy task id gets a comment and, when closing,
      the completion; an entry without a usable reference gets nothing. */
  function BackendCalls(cfg: Settings, e: Entry, a: Action): (calls: Option<seq<Effect>>)
    ensures calls.None? <==> UsesCrm(cfg, e) && ParseInt(cfg.smartEntityId).None?
    ensures calls.Some? ==> forall c :: c in calls.value ==> BackendCall(c)
    ensures calls.Some? && UsesCrm(cfg, e) ==>
              calls.value == [CrmComment(ParseInt(cfg.smartEntityId).value, e.crmItemId.value, ActionComment(a))]
    ensures !UsesCrm(cfg, e) && Truthy(e.taskId) && a == Close ==>
              calls == Some([TaskComment(e.taskId.value, ActionComment(a)), TaskComplete(e.taskId.value)])
    ensures !UsesCrm(cfg, e) && Truthy(e.taskId) && a == Work ==>
              calls == Some([TaskComment(e.taskId.value, ActionComment(a))])
    ensures !UsesCrm(cfg, e) && !Truthy(e.taskId) ==> calls == Some([])
  {
    if UsesCrm(cfg, e) then
      match ParseInt(cfg.smartEntityId)
      case None => None
      case Some(entity) => Some([CrmComment(entity, e.crmItemId.value, ActionComment(a))])
    else if Truthy(e.taskId) then
      var task := e.taskId.value;
      if a == Close then Some([TaskComment(task, ActionComment(a)), TaskComplete(task)])
      else Some([TaskComment(task, ActionComment(a))])
    else Some([])
  }

  /** Only a close completes a task, and only one the entry refers to when no
      CRM item is used. */
  lemma OnlyCloseCompletes(cfg: Settings, e: Entry, a: Action)
    requires BackendCalls(cfg, e, a).Some?
    ensures (exists c :: c in BackendCalls(cfg, e, a).value && c.TaskComplete?)
            <==> a == Close && !UsesCrm(cfg, e) && Truthy(e.taskId)
  {
    var calls := BackendCalls(cfg, e, a).value;
    if a == Close && !UsesCrm(cfg, e) && Truthy(e.taskId) {
      assert calls[1].TaskComplete?;
    }
  }

  // ---------------------------------------------------------------------------
  // what a press promises

  /** A press is answered early exactly when it fails a check, and then it
      leaves the storage as it was and does nothing else. */
  lemma RejectedPressChangesNothing(cfg: Settings, loc: Locale, st: Store, cb: Callback)
    requires StatusTemplatesPlain(loc)
    ensures var r := CardAction(cfg, loc, st, cb);
            r.Answered? && r.reply != StatusUpdated <==> !Accepted(cfg, st, cb)
    ensures !Accepted(cfg, st, cb) ==> CardAction(cfg, loc, st, cb) == Answered(st, [], Rejection(cfg, st, cb))
  {
  }

  /** An accepted press sets the entry's status and the newest history
      record's status to the action's status in the card's language, edits
      the card's status line to it, and changes nothing else in the storage. */
  lemma AcceptedPressSetsStatus(cfg: Settings, loc: Locale, st: Store, cb: Callback)
    requires StatusTemplatesPlain(loc) && Accepted(cfg, st, cb)
    ensures var id := PressedId(cfg, st, cb);
            var status := PressedStatus(cfg, loc, st, cb);
            var r := CardAction(cfg, loc, st, cb);
            && r.store == SetStatus(st, id, status)
            && |r.effects| >= 1
            && r.effects[0] == EditCard(ReplaceStatusLine(cb.cardText.value, status))
            && (r.ActionCrashed? <==> UsesCrm(cfg, st.index[id]) && ParseInt(cfg.smartEntityId).None?)
            && (r.Answered? ==> r.reply == StatusUpdated)
            && (r.Answered? ==> r.effects[1..] == BackendCalls(cfg, st.index[id], PressedAction(cfg, st, cb)).value)
  {
    assert CardAction(cfg, loc, st, cb)
           == Perform(cfg, loc, st, PressedId(cfg, st, cb), cb.cardText.value, PressedAction(cfg, st, cb));
  }

  /** Pressing the same button again, on the card as the first press left
      it, leaves the storage as the first press left it (when the edit keeps
      the language line, as it does on the cards this bot posts). */
  lemma PressTwice(cfg: Settings, loc: Locale, st: Store, cb: Callback)
    requires StatusTemplatesPlain(loc) && Accepted(cfg, st, cb)
    requires var edited := ReplaceStatusLine(cb.cardText.value, PressedStatus(cfg, loc, st, cb));
             CardLanguage(edited) == CardLanguage(cb.cardText.value)
    ensures var st1 := CardAction(cfg, loc, st, cb).store;
            var edited := ReplaceStatusLine(cb.cardText.value, PressedStatus(cfg, loc, st, cb));
            CardAction(cfg, loc, st1, cb.(cardText := Some(edited))).store == st1
  {
    var id := PressedId(cfg, st, cb);
    var status := PressedStatus(cfg, loc, st, cb);
    var edited := ReplaceStatusLine(cb.cardText.value, status);
    var cb2 := cb.(cardText := Some(edited));
    AcceptedPressSetsStatus(cfg, loc, st, cb);
    var st1 := SetStatus(st, id, status);
    if edited == "" {
      assert !Accepted(cfg, st1, cb2);
    } else {
      assert Accepted(cfg, st1, cb2);
      assert PressedStatus(cfg, loc, st1, cb2) == status;
      AcceptedPressSetsStatus(cfg, loc, st1, cb2);
      SetStatusIdempotent(st, id, status);
    }
  }

  /** Pressing a button of a card this bot posted (its callback data and its
      rendered text) acts on that card's submission, in that card's language,
      and rewrites exactly its status line. */
  lemma PressOnPostedCard(cfg: Settings, loc: Locale, st: Store, user: int, a: Action,
                          lang: string, id: string, name: string, phone: string,
                          category: string, text: string, status: string)
    requires StatusTemplatesPlain(loc)
    requires IsAdmin(cfg.adminIds, user) && id in st.index
    requires ':' !in id
    requires SingleLine(lang) && SingleLine(id) && Stripped(lang)
    requires CardFieldsWithoutMarker(lang, id, name, phone, category, text)
    requires StatusValue(status)
    ensures var action := if a == Work then WorkAction else CloseAction;
            var card := CardText(lang, id, name, phone, category, text, status);
            var r := CardAction(cfg, loc, st, Callback(user, CallbackData(action, id), Some(card)));
            && |r.effects| >= 1
            && r.store == SetStatus(st, id, TargetStatus(loc, a, lang))
            && r.effects[0] == EditCard(CardText(lang, id, name, phone, category, text, TargetStatus(loc, a, lang)))
  {
    var action := if a == Work then WorkAction else CloseAction;
    var card := CardText(lang, id, name, phone, category, text, status);
    CallbackRoundTrip(action, id);
    CardLanguageOfCard(lang, id, name, phone, category, text, status);
    CardStatusRewrite(lang, id, name, phone, category, text, status, TargetStatus(loc, a, lang));
    assert card != "" by {
      assert card[0] == "🆔 <b>"[0];
    }
    AcceptedPressSetsStatus(cfg, loc, st, Callback(user, CallbackData(action, id), Some(card)));
  }

  /** A press keeps the storage invariant and loses nothing, whatever its outcome. */
  lemma PressKeepsValid(cfg: Settings, loc: Locale, st: Store, cb: Callback)
    requires StatusTemplatesPlain(loc) && Valid(st)
    ensures Valid(CardAction(cfg, loc, st, cb).store)
    ensures Grows(st, CardAction(cfg, loc, st, cb).store)
  {
    if Accepted(cfg, st, cb) {
      AcceptedPressSetsStatus(cfg, loc, st, cb);
      SetStatusKeepsValid(st, PressedId(cfg, st, cb), PressedStatus(cfg, loc, st, cb));
    } else {
      RejectedPressChangesNothing(cfg, loc, st, cb);
    }
  }

  // ---------------------------------------------------------------------------
  // the CRM references

  /** Every truthy CRM item id in the index was stored while CRM mode was on
      with a numeric entity id. */
  ghost predicate CrmRefsConsistent(cfg: Settings, st: Store) {
    forall id :: id in st.index && Truthy(st.index[id].crmItemId) ==> CrmMode(cfg) && ParseInt(cfg.smartEntityId).Some?
  }

  /** Under consistent references a press never reaches the failing
      `int(BITRIX_SMART_ENTITY_ID)`, and it keeps the references consistent. */
  lemma PressNeverCrashes(cfg: Settings, loc: Locale, st: Store, cb: Callback)
    requires StatusTemplatesPlain(loc) && CrmRefsConsistent(cfg, st)
    ensures CardAction(cfg, loc, st, cb).Answered?
    ensures CrmRefsConsistent(cfg, CardAction(cfg, loc, st, cb).store)
  {
    if Accepted(cfg, st, cb) {
      var id := PressedId(cfg, st, cb);
      AcceptedPressSetsStatus(cfg, loc, st, cb);
      assert UsesCrm(cfg, st.index[id]) ==> Truthy(st.index[id].crmItemId);
      var st2 := SetStatus(st, id, PressedStatus(cfg, loc, st, cb));
      assert forall k :: k in st2.index ==> st2.index[k].crmItemId == st.index[k].crmItemId;
    }
  }

  // ---------------------------------------------------------------------------
  // /stats

  /** The number of history records whose status is exactly `status`. */
  function CountStatus(h: seq<Record>, status: string): (n: nat)
    ensures n <= |h|
    ensures n == 0 <==> forall i :: 0 <= i < |h| ==> h[i].status != status
  {
    if |h| == 0 then 0
    else
      var rest := CountStatus(h[..|h| - 1], status);
      assert forall i :: 0 <= i < |h| - 1 ==> h[..|h| - 1][i] == h[i];
      rest + (if h[|h| - 1].status == status then 1 else 0)
  }

  /** The statuses of the history, oldest first. */
  function StatusesOf(h: seq<Record>): (ss: seq<string>)
    ensures |ss| == |h|
  {
    seq(|h|, i requires 0 <= i < |h| => h[i].status)
  }

  /** The count is the multiplicity of `status` among the history's statuses,
      which is what `sum(1 for r in HISTORY if r["status"] == ...)` adds up. */
  lemma {:induction false} CountStatusIsMultiplicity(h: seq<Record>, status: string)
    ensures CountStatus(h, status) == multiset(StatusesOf(h))[status]
  {
    if |h| > 0 {
      var init := h[..|h| - 1];
      CountStatusIsMultiplicity(init, status);
      assert StatusesOf(h) == StatusesOf(init) + [h[|h| - 1].status];
    } else {
      assert StatusesOf(h) == [];
    }
  }

  /** The three counts of `/stats`, against the Russian status texts. */
  datatype StatusCounts = StatusCounts(total: nat, newCount: nat, workCount: nat, closedCount: nat)

  function StatusCountsOf(loc: Locale, h: seq<Record>): StatusCounts {
    StatusCounts(|h|,
                 CountStatus(h, loc.t(CardStatusNew, "RU")),
                 CountStatus(h, loc.t(CardStatusWork, "RU")),
                 CountStatus(h, loc.t(CardStatusClosed, "RU")))
  }

  /** Records whose status is none of the Russian texts (set in another
      language) are counted in none of the three, so with distinct Russian
      texts the counts add up to at most the history length. */
  lemma {:induction false} StatusCountsBounded(loc: Locale, h: seq<Record>)
    requires RussianStatusesDistinct(loc)
    ensures var c := StatusCountsOf(loc, h);
            c.newCount + c.workCount + c.closedCount <= c.total
  {
    if |h| > 0 {
      StatusCountsBounded(loc, h[..|h| - 1]);
    }
  }

  /** The per-category record counts of `/stats`; records without a category are skipped. */
  function CategoryCounts(h: seq<Record>): (m: map<string, nat>)
    ensures forall c :: c in m ==> c != "" && m[c] >= 1
  {
    if |h| == 0 then map[]
    else
      var m := CategoryCounts(h[..|h| - 1]);
      var c := h[|h| - 1].category;
      if c == "" then m
      else m[c := (if c in m then m[c] else 0) + 1]
  }

  /** The records of `h` in category `c`. */
  function CountCategory(h: seq<Record>, c: string): nat {
    if |h| == 0 then 0 else CountCategory(h[..|h| - 1], c) + (if h[|h| - 1].category == c then 1 else 0)
  }

  /** The categories of the history, oldest first. */
  function CategoriesOfHistory(h: seq<Record>): (cs: seq<string>)
    ensures |cs| == |h|
  {
    seq(|h|, i requires 0 <= i < |h| => h[i].category)
  }

  /** The per-category count is the multiplicity of the category among the
      history's categories. */
  lemma {:induction false} CountCategoryIsMultiplicity(h: seq<Record>, c: string)
    ensures CountCategory(h, c) == multiset(CategoriesOfHistory(h))[c]
  {
    if |h| > 0 {
      var init := h[..|h| - 1];
      CountCategoryIsMultiplicity(init, c);
      assert CategoriesOfHistory(h) == CategoriesOfHistory(init) + [h[|h| - 1].category];
    } else {
      assert CategoriesOfHistory(h) == [];
    }
  }

  /** The counter holds exactly the non-empty categories that occur, each
      with the number of records carrying it. */
  lemma {:induction false} CategoryCountsExact(h: seq<Record>, c: string)
    ensures c in CategoryCounts(h) <==> c != "" && CountCategory(h, c) > 0
    ensures c in CategoryCounts(h) ==> CategoryCounts(h)[c] == CountCategory(h, c)
  {
    if |h| > 0 {
      CategoryCountsExact(h[..|h| - 1], c);
    }
  }
}
