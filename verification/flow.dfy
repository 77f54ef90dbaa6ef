/** What the conversation promises: which handler a message reaches, how
    each step moves the form, and that every button the bot offers is taken
    by the handler that runs next. */
module ConversationFlow {
  import opened Wrappers
  import opened Strings
  import opened Helpers
  import opened Localization
  import opened Keyboards
  import opened Conversation

  // ---------------------------------------------------------------------------
  // routing

  /** The router runs the first registered handler whose filters accept the
      message, and reports no handler only when none accepts it. */
  lemma RouteIsFirstMatch(loc: Locale, st: Option<FormState>, m: Message)
    ensures var h := Route(loc, st, m);
            h != Unhandled ==> h in Registered && Accepts(loc, h, st, m)
    ensures var h := Route(loc, st, m);
            forall i :: 0 <= i < |Registered| && Registered[i] != h && Accepts(loc, Registered[i], st, m)
                        ==> exists j :: 0 <= j < i && Registered[j] == h
    ensures Route(loc, st, m) == Unhandled <==> forall h :: h in Registered ==> !Accepts(loc, h, st, m)
  {
    var h := Route(loc, st, m);
    forall i | 0 <= i < |Registered| && Registered[i] != h && Accepts(loc, Registered[i], st, m)
      ensures exists j :: 0 <= j < i && Registered[j] == h
    {
      var j := RegisteredIndex(h);
      assert Registered[j] == h;
    }
  }

  /** A routed message takes the step of the handler it reached. */
  lemma StepVia(loc: Locale, s: Session, m: Message, h: Handler)
    requires Route(loc, s.state, m) == h && h != ReviewSend
    ensures Step(loc, s, m) == Apply(loc, s, m, h)
  {
  }

  /** Where a handler sits in the registration order. */
  function RegisteredIndex(h: Handler): (i: nat)
    requires h != Unhandled
    ensures i < |Registered| && Registered[i] == h
  {
    match h
    case CmdStart => 0
    case SetLang => 1
    case ConsentStep => 2
    case NameStep => 3
    case PhoneStep => 4
    case CategoryStep => 5
    case TextStep => 6
    case AttachmentsDone => 7
    case AttachmentsCollect => 8
    case ReviewEdit => 9
    case EditChoiceStep => 10
    case ReviewSend => 11
    case NewRequest => 12
    case CmdWhereAmI => 13
    case CmdStats => 14
    case CmdExport => 15
  }

  /** `/start` wins in every state and starts a fresh form. */
  lemma StartResets(loc: Locale, s: Session, m: Message)
    requires TextOf(m) == Some("/start")
    ensures Route(loc, s.state, m) == CmdStart
    ensures Step(loc, s, m) == Session(Some(Lang), EmptyDraft)
  {
  }

  /** The new-request label starts a fresh form, but only when no state
      handler took the message first. */
  lemma NewRequestResets(loc: Locale, s: Session, m: Message)
    requires Route(loc, s.state, m) == NewRequest
    ensures TextOf(m).Some? && TextOf(m).value in LabelSet(loc, BtnNewRequest)
    ensures s.state !in {Some(Lang), Some(Consent), Some(Name), Some(Phone), Some(Category),
                         Some(Text), Some(EditChoice)}
    ensures Step(loc, s, m) == Session(Some(Lang), EmptyDraft)
  {
  }

  /** Outside any form the new-request label (other than `/start`) reaches its handler. */
  lemma NewRequestWhenIdle(loc: Locale, s: Session, m: Message)
    requires s.state.None?
    requires TextOf(m).Some? && TextOf(m).value in LabelSet(loc, BtnNewRequest) && TextOf(m) != Some("/start")
    ensures Route(loc, s.state, m) == NewRequest
  {
  }

  /** While a name is asked for, the new-request label is taken as the name. */
  lemma NewRequestLabelIsAName(loc: Locale, s: Session, m: Message)
    requires s.state == Some(Name)
    requires TextOf(m).Some? && TextOf(m).value in LabelSet(loc, BtnNewRequest) && TextOf(m) != Some("/start")
    ensures Route(loc, s.state, m) == NameStep
    ensures ValidName(Input(m)) ==> Step(loc, s, m) == Session(Some(Phone), s.draft.(name := Some(Input(m))))
  {
    NameGate(loc, s, m);
  }

  // ---------------------------------------------------------------------------
  // language and consent

  /** In `Lang` only a stripped `RU`, `UZ` or `EN` moves on, to `Consent`,
      choosing that language and resetting the attachments and the category;
      anything else leaves the session as it is. */
  lemma LanguageStep(loc: Locale, s: Session, m: Message)
    requires s.state == Some(Lang) && TextOf(m) != Some("/start")
    ensures Route(loc, s.state, m) == SetLang
    ensures IsLanguage(Input(m)) ==>
              Step(loc, s, m) == Session(Some(Consent), s.draft.(lang := Some(Input(m)), attachments := [], category := None))
    ensures !IsLanguage(Input(m)) ==> Step(loc, s, m) == s
  {
    assert Route(loc, s.state, m) == SetLang;
    StepVia(loc, s, m, SetLang);
    assert Step(loc, s, m) == ChooseLanguage(s, Input(m));
  }

  /** `Consent` moves to `Name` exactly on the localized agree label; the
      draft is never touched. */
  lemma ConsentGate(loc: Locale, s: Session, m: Message)
    requires s.state == Some(Consent) && TextOf(m) != Some("/start")
    ensures Route(loc, s.state, m) == ConsentStep
    ensures Step(loc, s, m).draft == s.draft
    ensures Step(loc, s, m).state == Some(Name) <==> Input(m) == loc.t(ConsentAgree, LangOf(s.draft))
    ensures Input(m) != loc.t(ConsentAgree, LangOf(s.draft)) ==> Step(loc, s, m) == s
  {
    assert Route(loc, s.state, m) == ConsentStep;
    StepVia(loc, s, m, ConsentStep);
    assert Step(loc, s, m) == Agree(loc, s, Input(m));
  }

  // ---------------------------------------------------------------------------
  // the four fields

  /** `Name`: a valid name is stored stripped and the form moves to `Phone`;
      otherwise nothing changes. */
  lemma NameGate(loc: Locale, s: Session, m: Message)
    requires s.state == Some(Name) && TextOf(m) != Some("/start")
    ensures Route(loc, s.state, m) == NameStep
    ensures ValidName(Input(m)) ==> Step(loc, s, m) == Session(Some(Phone), s.draft.(name := Some(Input(m))))
    ensures !ValidName(Input(m)) ==> Step(loc, s, m) == s
  {
    assert Route(loc, s.state, m) == NameStep;
    StepVia(loc, s, m, NameStep);
    assert Step(loc, s, m) == GiveName(s, Input(m));
  }

  /** `Phone`: a valid phone is stored stripped and the form moves to `Category`;
      otherwise nothing changes. */
  lemma PhoneGate(loc: Locale, s: Session, m: Message)
    requires s.state == Some(Phone) && TextOf(m) != Some("/start")
    ensures Route(loc, s.state, m) == PhoneStep
    ensures ValidPhone(Input(m)) ==> Step(loc, s, m) == Session(Some(Category), s.draft.(phone := Some(Input(m))))
    ensures !ValidPhone(Input(m)) ==> Step(loc, s, m) == s
  {
    assert Route(loc, s.state, m) == PhoneStep;
    StepVia(loc, s, m, PhoneStep);
    assert Step(loc, s, m) == GivePhone(s, Input(m));
  }

  /** `Category`: one of the language's categories is stored and the form
      moves to `Text`; otherwise nothing changes. */
  lemma CategoryGate(loc: Locale, s: Session, m: Message)
    requires s.state == Some(Category) && TextOf(m) != Some("/start")
    ensures Route(loc, s.state, m) == CategoryStep
    ensures Input(m) in CategoriesOf(loc, LangOf(s.draft)) ==>
              Step(loc, s, m) == Session(Some(Text), s.draft.(category := Some(Input(m))))
    ensures Input(m) !in CategoriesOf(loc, LangOf(s.draft)) ==> Step(loc, s, m) == s
  {
    assert Route(loc, s.state, m) == CategoryStep;
    StepVia(loc, s, m, CategoryStep);
    assert Step(loc, s, m) == GiveCategory(loc, s, Input(m));
  }

  /** `Text`: a stripped text of at least 15 characters is stored and the form
      moves to `Attachments`; otherwise nothing changes. */
  lemma TextGate(loc: Locale, s: Session, m: Message)
    requires s.state == Some(Text) && TextOf(m) != Some("/start")
    ensures Route(loc, s.state, m) == TextStep
    ensures |Input(m)| >= MinTextLength ==> Step(loc, s, m) == Session(Some(Attachments), s.draft.(text := Some(Input(m))))
    ensures |Input(m)| < MinTextLength ==> Step(loc, s, m) == s
  {
    assert Route(loc, s.state, m) == TextStep;
    StepVia(loc, s, m, TextStep);
    assert Step(loc, s, m) == GiveText(s, Input(m));
  }

  // ---------------------------------------------------------------------------
  // attachments

  /** Media in `Attachments` is appended at the end with its kind, unless ten
      are already collected, in which case nothing changes. */
  lemma CollectAttachment(loc: Locale, s: Session, kind: MediaKind, fileId: string)
    requires s.state == Some(Attachments)
    ensures Route(loc, s.state, MediaMsg(kind, fileId)) == AttachmentsCollect
    ensures |s.draft.attachments| >= MaxAttachments ==> Step(loc, s, MediaMsg(kind, fileId)) == s
    ensures |s.draft.attachments| < MaxAttachments ==>
              Step(loc, s, MediaMsg(kind, fileId))
              == s.(draft := s.draft.(attachments := s.draft.attachments + [Attachment(kind, fileId)]))
  {
  }

  /** The done or skip label of any language moves `Attachments` to `Review`
      and keeps the draft. */
  lemma DoneOrSkip(loc: Locale, s: Session, m: Message)
    requires s.state == Some(Attachments) && TextOf(m) != Some("/start")
    requires TextOf(m).Some? && TextOf(m).value in DoneSkipLabels(loc)
    ensures Route(loc, s.state, m) == AttachmentsDone
    ensures Step(loc, s, m) == Session(Some(Review), s.draft)
  {
    assert Route(loc, s.state, m) == AttachmentsDone;
    StepVia(loc, s, m, AttachmentsDone);
  }

  /** A session with at most ten attachments. */
  predicate Bounded(s: Session) {
    |s.draft.attachments| <= MaxAttachments
  }

  /** No step ever collects an eleventh attachment. */
  lemma StepKeepsBounded(loc: Locale, s: Session, m: Message)
    requires Route(loc, s.state, m) != ReviewSend
    requires Bounded(s)
    ensures Bounded(Step(loc, s, m))
  {
    AttachmentsOnlyGrowByCollecting(loc, s, m);
  }

  /** Only collecting media adds attachments, one at a time and at the end. */
  lemma AttachmentsOnlyGrowByCollecting(loc: Locale, s: Session, m: Message)
    requires Route(loc, s.state, m) != ReviewSend
    ensures var a, b := s.draft.attachments, Step(loc, s, m).draft.attachments;
            b == a || b == [] || (Route(loc, s.state, m) == AttachmentsCollect && b == a + [Attachment(m.kind, m.fileId)]
                                   && |a| < MaxAttachments)
  {
  }

  // ---------------------------------------------------------------------------
  // review and editing

  /** In `Review` the edit label of any language opens the edit menu. */
  lemma ReviewEditOpensMenu(loc: Locale, s: Session, m: Message)
    requires s.state == Some(Review) && TextOf(m) != Some("/start")
    requires TextOf(m).Some? && TextOf(m).value in LabelSet(loc, BtnEdit)
    ensures Route(loc, s.state, m) == ReviewEdit
    ensures Step(loc, s, m) == Session(Some(EditChoice), s.draft)
  {
    assert Route(loc, s.state, m) == ReviewEdit;
  }

  /** A label is an edit choice exactly when it is on the edit menu. */
  lemma EditTargetOnMenu(loc: Locale, lang: string, t: string)
    ensures EditTarget(loc, lang, t).Some? <==> t in EditMenuLabels(loc, lang)
  {
  }

  /** With five distinct labels each menu entry leads to its own field, in
      menu order: name, phone, category, text, attachments. */
  lemma EditMenuTargets(loc: Locale, lang: string)
    requires EditLabelsDistinct(loc, lang)
    ensures var labels := EditMenuLabels(loc, lang);
            && |labels| == 5
            && EditTarget(loc, lang, labels[0]) == Some(Name)
            && EditTarget(loc, lang, labels[1]) == Some(Phone)
            && EditTarget(loc, lang, labels[2]) == Some(Category)
            && EditTarget(loc, lang, labels[3]) == Some(Text)
            && EditTarget(loc, lang, labels[4]) == Some(Attachments)
  {
  }

  /** In `EditChoice` an unknown label stays put; a known one jumps to its
      field, clearing the attachments only for the attachments choice and
      keeping every other part of the draft. */
  lemma EditChoiceJump(loc: Locale, s: Session, m: Message)
    requires s.state == Some(EditChoice) && TextOf(m) != Some("/start")
    ensures Route(loc, s.state, m) == EditChoiceStep
    ensures EditTarget(loc, LangOf(s.draft), Input(m)).None? ==> Step(loc, s, m) == s
    ensures EditTarget(loc, LangOf(s.draft), Input(m)) == Some(Attachments) ==>
              Step(loc, s, m) == Session(Some(Attachments), s.draft.(attachments := []))
    ensures var target := EditTarget(loc, LangOf(s.draft), Input(m));
            target.Some? && target != Some(Attachments) ==> Step(loc, s, m) == Session(target, s.draft)
  {
    assert Route(loc, s.state, m) == EditChoiceStep;
    StepVia(loc, s, m, EditChoiceStep);
    assert Step(loc, s, m) == ChooseEdit(loc, s, Input(m));
  }

  /** Editing the category resumes the form forward: after a valid category
      the next state is `Text`, not `Review`, and the other fields are kept. */
  lemma EditCategoryResumesForward(loc: Locale, s: Session, choice: Message, answer: Message)
    requires s.state == Some(EditChoice) && TextOf(choice) != Some("/start") && TextOf(answer) != Some("/start")
    requires EditTarget(loc, LangOf(s.draft), Input(choice)) == Some(Category)
    requires Input(answer) in CategoriesOf(loc, LangOf(s.draft))
    ensures Route(loc, s.state, choice) == EditChoiceStep
    ensures var s1 := Step(loc, s, choice);
            && s1 == Session(Some(Category), s.draft)
            && Route(loc, s1.state, answer) == CategoryStep
            && Step(loc, s1, answer) == Session(Some(Text), s.draft.(category := Some(Input(answer))))
  {
    EditChoiceJump(loc, s, choice);
    CategoryGate(loc, Session(Some(Category), s.draft), answer);
  }

  // ---------------------------------------------------------------------------
  // every offered button is taken by the next handler

  /** Pressing the consent button (a label `strip` leaves alone) moves on to `Name`. */
  lemma ConsentButtonAccepted(loc: Locale, s: Session)
    requires s.state == Some(Consent)
    requires var b := loc.t(ConsentAgree, LangOf(s.draft)); PressableLabel(b) && b != "/start"
    ensures var m := TextMsg(ConsentLabels(loc, LangOf(s.draft))[0]);
            Step(loc, s, m) == s.(state := Some(Name))
  {
  }

  /** Every category button of the language, when `strip` leaves it alone,
      is accepted by the category step. */
  lemma CategoryButtonsAccepted(loc: Locale, s: Session, i: nat)
    requires s.state == Some(Category)
    requires CategoryLabels(loc, LangOf(s.draft)).Some?
    requires var labels := CategoryLabels(loc, LangOf(s.draft)).value;
             i < |labels| && PressableLabel(labels[i]) && labels[i] != "/start"
    ensures var c := CategoryLabels(loc, LangOf(s.draft)).value[i];
            Step(loc, s, TextMsg(c)) == Session(Some(Text), s.draft.(category := Some(c)))
  {
    var c := CategoryLabels(loc, LangOf(s.draft)).value[i];
    assert Input(TextMsg(c)) == c;
    CategoryGate(loc, s, TextMsg(c));
  }

  /** Both attachment buttons of any language reach `attachments_done`. */
  lemma AttachmentButtonsAccepted(loc: Locale, s: Session, lang: string, i: nat)
    requires s.state == Some(Attachments)
    requires IsLanguage(lang) && i < 2
    requires AttachmentLabels(loc, lang)[i] != "/start"
    ensures AttachmentLabels(loc, lang)[i] in DoneSkipLabels(loc)
    ensures Step(loc, s, TextMsg(AttachmentLabels(loc, lang)[i])) == Session(Some(Review), s.draft)
  {
    var b := AttachmentLabels(loc, lang)[i];
    assert b in DoneSkipLabels(loc) by {
      if i == 0 {
        assert b in LabelSet(loc, BtnDone);
      } else {
        assert b in LabelSet(loc, BtnSkip);
      }
    }
    assert Route(loc, s.state, TextMsg(b)) == AttachmentsDone;
  }

  /** The review buttons of any language reach `review_edit` and, unless the
      send label is also an edit label, `review_send`. */
  lemma ReviewButtonsRouted(loc: Locale, s: Session, lang: string)
    requires s.state == Some(Review) && IsLanguage(lang)
    requires forall b :: b in ReviewLabels(loc, lang) ==> b != "/start"
    ensures Route(loc, s.state, TextMsg(ReviewLabels(loc, lang)[0])) == ReviewEdit
    ensures ReviewLabels(loc, lang)[1] !in LabelSet(loc, BtnEdit) ==>
              Route(loc, s.state, TextMsg(ReviewLabels(loc, lang)[1])) == ReviewSend
  {
    assert ReviewLabels(loc, lang)[0] in ReviewLabels(loc, lang);
    assert ReviewLabels(loc, lang)[1] in ReviewLabels(loc, lang);
  }

  /** Every edit-menu button (distinct, and left alone by `strip`) reaches its
      field: the i-th button leads to the i-th field of name, phone, category,
      text, attachments. */
  lemma EditMenuButtonsAccepted(loc: Locale, s: Session, i: nat)
    requires s.state == Some(EditChoice) && i < 5
    requires var lang := LangOf(s.draft);
             EditLabelsDistinct(loc, lang) && PressableLabel(EditMenuLabels(loc, lang)[i])
             && EditMenuLabels(loc, lang)[i] != "/start"
    ensures Step(loc, s, TextMsg(EditMenuLabels(loc, LangOf(s.draft))[i])).state == Some(MenuField(i))
  {
    var lang := LangOf(s.draft);
    var b := EditMenuLabels(loc, lang)[i];
    MenuFieldTarget(loc, lang, i);
    assert Input(TextMsg(b)) == b;
    EditChoiceJump(loc, s, TextMsg(b));
  }

  /** The i-th edit-menu label is the choice of the i-th field. */
  lemma MenuFieldTarget(loc: Locale, lang: string, i: nat)
    requires EditLabelsDistinct(loc, lang) && i < 5
    ensures EditTarget(loc, lang, EditMenuLabels(loc, lang)[i]) == Some(MenuField(i))
  {
    EditMenuTargets(loc, lang);
    if i == 0 {
    } else if i == 1 {
    } else if i == 2 {
    } else if i == 3 {
    } else {
    }
  }

  /** The field the i-th edit-menu button stands for. */
  function MenuField(i: nat): FormState
    requires i < 5
  {
    if i == 0 then Name else if i == 1 then Phone else if i == 2 then Category else if i == 3 then Text else Attachments
  }

  /** After sending, the new-request button starts a new form. */
  lemma AfterSubmitButtonAccepted(loc: Locale, lang: string)
    requires IsLanguage(lang)
    requires AfterSubmitLabels(loc, lang)[0] != "/start"
    ensures var m := TextMsg(AfterSubmitLabels(loc, lang)[0]);
            Route(loc, None, m) == NewRequest && Step(loc, Session(None, EmptyDraft), m) == Session(Some(Lang), EmptyDraft)
  {
    var m := TextMsg(AfterSubmitLabels(loc, lang)[0]);
    assert TextOf(m).value in LabelSet(loc, BtnNewRequest);
    assert Route(loc, None, m) == NewRequest;
    StepVia(loc, Session(None, EmptyDraft), m, NewRequest);
  }
}
