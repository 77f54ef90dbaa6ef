/** The bot as a whole (`app/bot_core.py` and the router every handler is
    registered on): each user's conversation, the shared storage, and one
    update at a time dispatched to the conversation, the send or the card
    buttons. */
module Bot {
  import opened Wrappers
  import opened Strings
  import opened Helpers
  import opened Localization
  import opened Effects
  import opened Config
  import opened BotCore
  import opened Conversation
  import opened ConversationFlow
  import opened Submission
  import opened Admin

  /** An update from the transport: a message from a user, or a press on an inline button. */
  datatype Update = MessageFrom(user: int, m: Message) | Press(cb: Callback)

  /** The FSM storage of every user and the shared storage. */
  datatype World = World(sessions: map<int, Session>, store: Store)

  datatype StepResult =
    /** The handler finished. */
    | Handled(world: World, effects: seq<Effect>)
    /** The handler raised half-way; what it changed before stays changed. */
    | Crashed(world: World, effects: seq<Effect>)

  /** A user's context; one never seen is in no state with empty data. */
  function SessionOf(w: World, user: int): Session {
    if user in w.sessions then w.sessions[user] else Session(None, EmptyDraft)
  }

  /** The world after start-up, `None` when the history bound is negative. */
  function Boot(cfg: Settings): Option<World> {
    match NewStore(cfg.exportLookback)
    case None => None
    case Some(st) => Some(World(map[], st))
  }

  /** One update. Messages go through the router; presses whose data does not
      start with `adm:` reach no handler. */
  function Receive(cfg: Settings, loc: Locale, w: World, u: Update, env: SendEnv): StepResult
    requires StatusTemplatesPlain(loc)
  {
    match u
    case MessageFrom(user, m) =>
      var s := SessionOf(w, user);
      if Route(loc, s.state, m) == ReviewSend then
        match Submission.ReviewSend(cfg, loc, w.store, s, env)
        case Sent(st2, s2, effs) => Handled(World(w.sessions[user := s2], st2), effs)
        case SendCrashed(st2, effs) => Crashed(w.(store := st2), effs)
      else Handled(w.(sessions := w.sessions[user := Step(loc, s, m)]), [])
    case Press(cb) =>
      if !("adm:" <= cb.data) then Handled(w, [])
      else match CardAction(cfg, loc, w.store, cb)
        case Answered(st2, effs, _) => Handled(w.(store := st2), effs)
        case ActionCrashed(st2, effs) => Crashed(w.(store := st2), effs)
  }

  // ---------------------------------------------------------------------------
  // what every update keeps

  /** The invariant of the world: the storage invariant, consistent CRM
      references, and no draft over the attachment limit. */
  ghost predicate Good(cfg: Settings, w: World) {
    && Valid(w.store)
    && CrmRefsConsistent(cfg, w.store)
    && forall user :: user in w.sessions ==> Bounded(w.sessions[user])
  }

  /** The world after start-up is good. */
  lemma BootGood(cfg: Settings)
    requires cfg.exportLookback >= 0
    ensures Boot(cfg).Some? && Good(cfg, Boot(cfg).value)
  {
  }

  /** A message touches only its sender's context; a press touches no context. */
  lemma OthersUntouched(cfg: Settings, loc: Locale, w: World, u: Update, env: SendEnv, other: int)
    requires StatusTemplatesPlain(loc)
    requires u.MessageFrom? ==> other != u.user
    ensures SessionOf(Receive(cfg, loc, w, u, env).world, other) == SessionOf(w, other)
  {
  }

  /** Sending keeps the CRM references consistent. */
  lemma SendKeepsCrmRefs(cfg: Settings, loc: Locale, st: Store, s: Session, env: SendEnv)
    requires Valid(st) && CrmRefsConsistent(cfg, st)
    ensures CrmRefsConsistent(cfg, Submission.ReviewSend(cfg, loc, st, s, env).store)
  {
    if !(CrmMode(cfg) && ParseInt(cfg.smartEntityId).None?) {
      SendStore(cfg, loc, st, s, env);
      var e := SendEntry(cfg, loc, s.draft, env);
      assert Truthy(e.crmItemId) ==> CrmMode(cfg);
      RefsWithEntry(cfg, st, MintedId(cfg, st, env), e, Submission.ReviewSend(cfg, loc, st, s, env).store);
    } else {
      SendCrashesOnlyOnBadEntity(cfg, loc, st, s, env);
    }
  }

  /** Writing an entry whose CRM item id is falsy, or written in CRM mode
      with a numeric entity id, keeps the references consistent. */
  lemma RefsWithEntry(cfg: Settings, st: Store, id: string, e: Entry, st2: Store)
    requires CrmRefsConsistent(cfg, st)
    requires Truthy(e.crmItemId) ==> CrmMode(cfg) && ParseInt(cfg.smartEntityId).Some?
    requires st2.index == st.index[id := e]
    ensures CrmRefsConsistent(cfg, st2)
  {
  }

  /** Every update keeps the world good, and the storage only grows. */
  lemma ReceiveKeepsGood(cfg: Settings, loc: Locale, w: World, u: Update, env: SendEnv)
    requires StatusTemplatesPlain(loc) && Good(cfg, w)
    ensures Good(cfg, Receive(cfg, loc, w, u, env).world)
    ensures Grows(w.store, Receive(cfg, loc, w, u, env).world.store)
  {
    match u
    case MessageFrom(user, m) =>
      var s := SessionOf(w, user);
      if Route(loc, s.state, m) == ReviewSend {
        SendKeepsGood(cfg, loc, w, user, env);
      } else {
        StepKeepsGood(cfg, loc, w, user, m);
      }
    case Press(cb) =>
      if "adm:" <= cb.data {
        PressKeepsGood(cfg, loc, w, cb);
      }
  }

  /** A press keeps the world good and never raises. */
  lemma PressKeepsGood(cfg: Settings, loc: Locale, w: World, cb: Callback)
    requires StatusTemplatesPlain(loc) && Good(cfg, w)
    ensures CardAction(cfg, loc, w.store, cb).Answered?
    ensures Good(cfg, w.(store := CardAction(cfg, loc, w.store, cb).store))
    ensures Grows(w.store, CardAction(cfg, loc, w.store, cb).store)
  {
    PressKeepsValid(cfg, loc, w.store, cb);
    PressNeverCrashes(cfg, loc, w.store, cb);
  }

  /** A conversation step keeps every draft within the attachment limit. */
  lemma StepKeepsGood(cfg: Settings, loc: Locale, w: World, user: int, m: Message)
    requires Good(cfg, w)
    requires Route(loc, SessionOf(w, user).state, m) != ReviewSend
    ensures Good(cfg, w.(sessions := w.sessions[user := Step(loc, SessionOf(w, user), m)]))
  {
    StepKeepsBounded(loc, SessionOf(w, user), m);
  }

  /** The send keeps the world good, whether it finishes or raises. */
  lemma SendKeepsGood(cfg: Settings, loc: Locale, w: World, user: int, env: SendEnv)
    requires Good(cfg, w)
    ensures var r := Submission.ReviewSend(cfg, loc, w.store, SessionOf(w, user), env);
            && Valid(r.store) && CrmRefsConsistent(cfg, r.store) && Grows(w.store, r.store)
            && (r.Sent? ==> Bounded(r.session))
  {
    var s := SessionOf(w, user);
    SendKeepsValid(cfg, loc, w.store, s, env);
    SendKeepsCrmRefs(cfg, loc, w.store, s, env);
  }

  /** From a good world, and with the transport never failing, a handler can
      only raise in the send, and only when CRM mode is on with an entity id
      that is not a number. */
  lemma OnlyBadEntityCrashes(cfg: Settings, loc: Locale, w: World, u: Update, env: SendEnv)
    requires StatusTemplatesPlain(loc) && Good(cfg, w)
    ensures Receive(cfg, loc, w, u, env).Crashed? ==>
              u.MessageFrom? && CrmMode(cfg) && ParseInt(cfg.smartEntityId).None?
  {
    match u
    case MessageFrom(user, m) =>
      if Route(loc, SessionOf(w, user).state, m) == ReviewSend {
        SendCrashesOnlyOnBadEntity(cfg, loc, w.store, SessionOf(w, user), env);
      }
    case Press(cb) =>
      if "adm:" <= cb.data {
        PressNeverCrashes(cfg, loc, w.store, cb);
      }
  }
}
