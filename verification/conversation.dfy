/** The complaint conversation of `app/handlers_user.py` as a pure state
    machine: the form states of `app/states.py`, the draft kept in the FSM
    storage, the router's first-match choice of handler, and one step per
    incoming message. Sending the finished form (`review_send`) changes the
    shared storage and lives in the submission module. */
module Conversation {
  import opened Wrappers
  import opened Strings
  import opened Helpers
  import opened Localization

  /** `Form` of `app/states.py`. */
  datatype FormState = Lang | Consent | Name | Phone | Category | Text | Attachments | Review | EditChoice

  /** At most this many attachments are collected. */
  const MaxAttachments: nat := 10

  /** The shortest complaint text accepted, once stripped. */
  const MinTextLength: nat := 15

  /** The FSM storage of one user. `None` is a key that was never set (or set to
      `None`); the attachments list defaults to empty. */
  datatype Draft = Draft(
    lang: Option<string>,
    name: Option<string>,
    phone: Option<string>,
    category: Option<string>,
    text: Option<string>,
    attachments: seq<Attachment>)

  /** The storage after `state.clear()`. */
  const EmptyDraft: Draft := Draft(None, None, None, None, None, [])

  /** The FSM context of one user: the current state (none before `/start` and
      after sending) and the stored data. */
  datatype Session = Session(state: Option<FormState>, draft: Draft)

  /** An incoming message: text, one of the four collected media kinds, or
      anything else (a sticker, a contact, ...), which has no text. */
  datatype Message = TextMsg(body: string) | MediaMsg(kind: MediaKind, fileId: string) | OtherMsg

  /** `message.text`. */
  function TextOf(m: Message): Option<string> {
    if m.TextMsg? then Some(m.body) else None
  }

  /** `(message.text or "").strip()`. */
  function Input(m: Message): (t: string)
    ensures Stripped(t)
    ensures m.TextMsg? ==> t == Strip(m.body)
    ensures !m.TextMsg? ==> t == ""
  {
    Strip(TextOf(m).GetOr(""))
  }

  /** `data.get("lang", "RU")`. */
  function LangOf(d: Draft): string {
    d.lang.GetOr("RU")
  }

  /** The labels `attachments_done` reacts to: done and skip in every language. */
  function DoneSkipLabels(loc: Locale): set<string> {
    LabelSet(loc, BtnDone) + LabelSet(loc, BtnSkip)
  }

  /** The message handlers, in registration order (user handlers first, since
      `app/main.py` imports them before the admin ones), and the case where no
      handler matches. */
  datatype Handler =
    | CmdStart | SetLang | ConsentStep | NameStep | PhoneStep | CategoryStep | TextStep
    | AttachmentsDone | AttachmentsCollect | ReviewEdit | EditChoiceStep | ReviewSend
    | NewRequest | CmdWhereAmI | CmdStats | CmdExport
    | Unhandled

  /** The registered handlers in the order the router tries them. */
  const Registered: seq<Handler> := [
    CmdStart, SetLang, ConsentStep, NameStep, PhoneStep, CategoryStep, TextStep,
    AttachmentsDone, AttachmentsCollect, ReviewEdit, EditChoiceStep, ReviewSend,
    NewRequest, CmdWhereAmI, CmdStats, CmdExport]

  /** The filters in each handler's decorator. */
  predicate Accepts(loc: Locale, h: Handler, st: Option<FormState>, m: Message) {
    var txt := TextOf(m);
    match h
    case CmdStart => txt == Some("/start")
    case SetLang => st == Some(Lang)
    case ConsentStep => st == Some(Consent)
    case NameStep => st == Some(Name)
    case PhoneStep => st == Some(Phone)
    case CategoryStep => st == Some(Category)
    case TextStep => st == Some(Text)
    case AttachmentsDone => st == Some(Attachments) && txt.Some? && txt.value in DoneSkipLabels(loc)
    case AttachmentsCollect => st == Some(Attachments) && m.MediaMsg?
    case ReviewEdit => st == Some(Review) && txt.Some? && txt.value in LabelSet(loc, BtnEdit)
    case EditChoiceStep => st == Some(EditChoice)
    case ReviewSend => st == Some(Review) && txt.Some? && txt.value in LabelSet(loc, BtnSend)
    case NewRequest => txt.Some? && txt.value in LabelSet(loc, BtnNewRequest)
    case CmdWhereAmI => txt == Some("/whereami")
    case CmdStats => txt == Some("/stats")
    case CmdExport => txt == Some("/export")
    case Unhandled => false
  }

  /** The handler the router runs for a message in state `st`. */
  function Route(loc: Locale, st: Option<FormState>, m: Message): Handler {
    var txt := TextOf(m);
    if txt == Some("/start") then CmdStart
    else if st == Some(Lang) then SetLang
    else if st == Some(Consent) then ConsentStep
    else if st == Some(Name) then NameStep
    else if st == Some(Phone) then PhoneStep
    else if st == Some(Category) then CategoryStep
    else if st == Some(Text) then TextStep
    else if st == Some(Attachments) && txt.Some? && txt.value in DoneSkipLabels(loc) then AttachmentsDone
    else if st == Some(Attachments) && m.MediaMsg? then AttachmentsCollect
    else if st == Some(Review) && txt.Some? && txt.value in LabelSet(loc, BtnEdit) then ReviewEdit
    else if st == Some(EditChoice) then EditChoiceStep
    else if st == Some(Review) && txt.Some? && txt.value in LabelSet(loc, BtnSend) then ReviewSend
    else if txt.Some? && txt.value in LabelSet(loc, BtnNewRequest) then NewRequest
    else if txt == Some("/whereami") then CmdWhereAmI
    else if txt == Some("/stats") then CmdStats
    else if txt == Some("/export") then CmdExport
    else Unhandled
  }

  /** The state `edit_choice` jumps to for a label. The labels are the keys of a
      dict literal, so when two of them coincide the later entry wins. */
  function EditTarget(loc: Locale, lang: string, t: string): Option<FormState> {
    if t == loc.t(EditAttachments, lang) then Some(Attachments)
    else if t == loc.t(EditText, lang) then Some(Text)
    else if t == loc.t(EditCategory, lang) then Some(Category)
    else if t == loc.t(EditPhone, lang) then Some(Phone)
    else if t == loc.t(EditName, lang) then Some(Name)
    else None
  }

  /** One message handled by a handler that touches only the user's own
      session (every handler but `review_send`; the admin commands leave the
      session as it is). */
  function Step(loc: Locale, s: Session, m: Message): Session
    requires Route(loc, s.state, m) != ReviewSend
  {
    Apply(loc, s, m, Route(loc, s.state, m))
  }

  /** The effect of handler `h` on the session. */
  function Apply(loc: Locale, s: Session, m: Message, h: Handler): (r: Session)
    requires h != ReviewSend
    requires h == AttachmentsCollect ==> m.MediaMsg?
    ensures var a, b := s.draft.attachments, r.draft.attachments;
            b == a || b == [] || (h == AttachmentsCollect && b == a + [Attachment(m.kind, m.fileId)] && |a| < MaxAttachments)
  {
    match h
    case CmdStart => Session(Some(Lang), EmptyDraft)
    case SetLang => ChooseLanguage(s, Input(m))
    case ConsentStep => Agree(loc, s, Input(m))
    case NameStep => GiveName(s, Input(m))
    case PhoneStep => GivePhone(s, Input(m))
    case CategoryStep => GiveCategory(loc, s, Input(m))
    case TextStep => GiveText(s, Input(m))
    case AttachmentsDone => s.(state := Some(Review))
    case AttachmentsCollect => Collect(s, m.kind, m.fileId)
    case ReviewEdit => s.(state := Some(EditChoice))
    case EditChoiceStep => ChooseEdit(loc, s, Input(m))
    case NewRequest => Session(Some(Lang), EmptyDraft)
    case _ => s
  }

  /** `set_lang`. */
  function ChooseLanguage(s: Session, t: string): (r: Session)
    ensures r == s || r.draft.attachments == []
  {
    if IsLanguage(t) then Session(Some(Consent), s.draft.(lang := Some(t), attachments := [], category := None))
    else s
  }

  /** `consent_step`. */
  function Agree(loc: Locale, s: Session, t: string): (r: Session)
    ensures r.draft.attachments == s.draft.attachments
  {
    if t == loc.t(ConsentAgree, LangOf(s.draft)) then s.(state := Some(Name)) else s
  }

  /** `name_step`. */
  function GiveName(s: Session, t: string): (r: Session)
    ensures r.draft.attachments == s.draft.attachments
  {
    if ValidName(t) then Session(Some(Phone), s.draft.(name := Some(t))) else s
  }

  /** `phone_step`. */
  function GivePhone(s: Session, t: string): (r: Session)
    ensures r.draft.attachments == s.draft.attachments
  {
    if ValidPhone(t) then Session(Some(Category), s.draft.(phone := Some(t))) else s
  }

  /** `category_step`. */
  function GiveCategory(loc: Locale, s: Session, t: string): (r: Session)
    ensures r.draft.attachments == s.draft.attachments
  {
    if t in CategoriesOf(loc, LangOf(s.draft)) then Session(Some(Text), s.draft.(category := Some(t))) else s
  }

  /** `text_step`. */
  function GiveText(s: Session, t: string): (r: Session)
    ensures r.draft.attachments == s.draft.attachments
  {
    if |t| >= MinTextLength then Session(Some(Attachments), s.draft.(text := Some(t))) else s
  }

  /** `attachments_collect`. */
  function Collect(s: Session, kind: MediaKind, fileId: string): (r: Session)
    ensures r == s || (|s.draft.attachments| < MaxAttachments
                       && r.draft.attachments == s.draft.attachments + [Attachment(kind, fileId)])
  {
    if |s.draft.attachments| >= MaxAttachments then s
    else s.(draft := s.draft.(attachments := s.draft.attachments + [Attachment(kind, fileId)]))
  }

  /** `edit_choice`. */
  function ChooseEdit(loc: Locale, s: Session, t: string): (r: Session)
    ensures r.draft.attachments == s.draft.attachments || r.draft.attachments == []
  {
    match EditTarget(loc, LangOf(s.draft), t)
    case None => s
    case Some(target) =>
      if target == Attachments then Session(Some(Attachments), s.draft.(attachments := []))
      else s.(state := Some(target))
  }
}
