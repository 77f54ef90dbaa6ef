# Telegram complaint-intake bot, modelled in Dafny

The bot collects complaints through a Telegram conversation and posts each one to a staff channel as a card. It opens a matching case in a Bitrix24 backend, either a task or a CRM smart-process item. Staff then move the case to "in work" or "closed" with the two buttons on the card.

This project models that core as pure functions over immutable data:

- **Helpers** (`helpers.dfy`): the input validators, truncation, external-id minting and the card renderer. It also holds the regex rewrite of the card's status line and the backend description.
- **Conversation** (`conversation.dfy`, `flow.dfy`): the conversation is a state machine. The form states are there, plus "no state". Handlers are chosen first-match in registration order, and each message is one step on the user's session (state plus draft).
- **Submission** (`submission.dfy`): sending the reviewed form is a function on the shared storage. It returns the resulting storage, the cleared session and the ordered trace of channel posts and backend calls. The backend's answer, the year and the posted card's id and date are parameters.
- **Storage** (`store.dfy`): the shared storage is the id counter, the bounded history (deque semantics) and the index from external id to backend references.
- **Admin** (`admin.dfy`): the card buttons are a storage transformer. They parse the callback, check access, recover the card's language, rewrite the status in the card, the index and the newest history record, and select the backend calls. The `/stats` counts are folds over the history.
- **Config** (`config.dfy`): configuration is a function of a given environment map.
- **Keyboards** (`keyboards.dfy`): the label lists and the card's callback data.
- **Bot** (`bot.dfy`): the world (every session plus the storage) receives one update at a time. `Bot.Good` is the invariant every update keeps.

The localisation table's contents are not part of this model. `Localization.Locale` stands for it as an uninterpreted lookup `t(key, lang)` plus the category lists. Properties that depend on its contents state their assumptions as preconditions, for example that labels are distinct, that strip leaves them unchanged, or that none of them is `/start`.

Shared string machinery lives in `strings.dfy`. It covers Python's `strip`, `split`/`join`, `splitlines`, `int()`, `str()` and `upper()`, plus zero padding. `wrappers.dfy` holds `Option` and `Result`.

## Model

| member | source | states |
|---|---|---|
| Strings.Strip | app/helpers.py:16 | the result has no leading or trailing whitespace, is no longer than the input, and leaves an already stripped string unchanged; its contents are pinned by `Strings.StripContents` |
| Strings.StripContents | app/helpers.py:16 | the result is the stretch of the input that starts after its leading whitespace and is followed by nothing but whitespace; with the result being stripped, this determines it |
| Strings.StripIdempotent | app/helpers.py:16 | stripping a stripped result changes nothing |
| Strings.SplitOn | app/handlers_admin.py:47 | splitting yields at least one part, no part contains the separator, and joining the parts with it gives back the input |
| Strings.SplitJoin | app/config.py:19 | splitting the join of separator-free parts gives back exactly those parts (split is the inverse of join) |
| Strings.SplitLines | app/handlers_admin.py:64 | every line is free of line breaks, there are no lines exactly when the text is empty, and a non-empty text without a break is its own single line; `Strings.SplitLinesBreak` and `SplitLinesCrLf` give every boundary |
| Strings.SplitLinesBreak | app/handlers_admin.py:64 | any one line-break character (other than a `\r` directly followed by `\n`) ends the first line, and the rest splits on its own; a final break adds no empty line |
| Strings.SplitLinesCrLf | app/handlers_admin.py:64 | `\r\n` is a single boundary: it ends the first line and adds no empty line between |
| Strings.SplitLinesSecond | app/handlers_admin.py:64-65 | the second line of `splitlines()` is the text between the first two newlines, whatever follows them |
| Strings.SplitPrefixLines | app/handlers_admin.py:64 | splitting single lines joined by newlines in front of a rest yields those lines followed by the lines of the rest |
| Strings.NatToString | app/helpers.py:34 | `str(n)` is a non-empty digit string with no leading zero, starting with `0` exactly for zero; `Strings.DecimalRoundTrip` reads it back |
| Strings.ZeroPad | app/helpers.py:34 | the padded number has only digits, reads back as the number, and is exactly the width long, or as long as `str(n)` when that is longer |
| Strings.DecimalRoundTrip | app/helpers.py:34 | reading back the decimal rendering of a natural number gives that number |
| Strings.LeadingZeros | app/helpers.py:34 | leading zeros do not change the value of a digit string |
| Strings.ParseIntRoundTrip | app/config.py:19 | `int()` of the decimal rendering of any integer, negative ones included, gives back that integer |
| Strings.Upper | app/config.py:31 | upper-casing keeps the length and maps each character by itself |
| Strings.AfterFirst | app/handlers_admin.py:66 | the result is the suffix following the first occurrence of the separator; the part before it contains no separator |
| Helpers.PhoneAcceptance | app/helpers.py:19-26 | an accepted phone is 7 to 20 characters once stripped, and acceptance is exactly shape plus at least 7 digits (the upper digit bound never rejects) |
| Helpers.PhoneOfStripped | app/helpers.py:21-26 | for a stripped input with a known digit count, acceptance is exactly the regex shape plus 7 to 20 digits |
| Helpers.ShortPhoneRejected | app/helpers.py:21-26 | `+123456` has the regex shape but only 6 digits, so it is rejected |
| Helpers.FullPhoneAccepted | app/helpers.py:21-26 | `+998901234567` is accepted |
| Helpers.DigitCountAllDigits | app/helpers.py:25 | a digit string's digit count is its length |
| Helpers.PyPrefix | app/helpers.py:30 | Python slicing `s[:k]` yields a prefix of `s`, of length `k` when `0 <= k <= len(s)` |
| Helpers.Truncate | app/helpers.py:28-30 | a stripped input that fits is returned unchanged; otherwise the result is a prefix of it plus an ellipsis, exactly `n` long for `n >= 1` |
| Helpers.GenerateExternalId | app/helpers.py:32-34 | the counter rises by exactly one and the minted id's sequence number reads back as the new counter |
| Helpers.SequenceRoundTrip | app/helpers.py:34 | the sequence number can be read back from any formatted id, whatever the prefix |
| Helpers.DistinctIds | app/helpers.py:32-34 | ids minted from different counter values differ, whatever the prefixes and years |
| Helpers.FirstExternalId | app/bot_core.py:27 | with the counter at its initial 0, the first id ends in `-000001` |
| Helpers.FirstSequenceDigits | app/helpers.py:34 | 1 padded to width 6 is `000001` |
| Helpers.MatchStatusLine | app/helpers.py:50 | the match splits the text into the marker plus following whitespace, the rest of that line, and the remainder starting at a newline |
| Helpers.ReplaceWithoutMarker | app/helpers.py:49-50 | text without the status marker is returned unchanged |
| Helpers.ReplaceSkips | app/helpers.py:50 | a prefix with no marker occurrence passes through the rewrite unchanged |
| Helpers.CardLayout | app/helpers.py:37-47 | a card's line 0 holds the id, line 1 `🌐 lang`, line 5 the status line, line 6 is blank and the body's lines follow |
| Helpers.CardHeaderLines | app/helpers.py:37-47 | the card is its six header lines and a blank line, each followed by a newline, then the body |
| Helpers.CardStatusRewrite | app/helpers.py:37-50 | rewriting the status line of a rendered card gives the card rendered with the new status (the encode/edit pair commutes) |
| Helpers.CardStatusRewriteIdempotent | app/helpers.py:49-50 | rewriting a rewritten card with the same status changes nothing |
| Helpers.AttachmentLines | app/helpers.py:69-70 | one line per attachment, in order, numbered consecutively from the given start |
| Helpers.DescriptionTailLines | app/helpers.py:67-72 | no attachments gives the single "none" line; otherwise the header then the numbered lines, none containing a newline |
| Helpers.DescriptionTail | app/helpers.py:56-73 | the description's last line is "none" without attachments; otherwise it ends with the header and attachment `i` on its own line numbered `i+1` |
| Config.NonBlank | app/config.py:19 | keeps exactly the entries that are not blank once stripped, dropping no non-blank one; order and repetitions follow from `Config.NonBlankAppend` and `Config.NonBlankOne` |
| Config.NonBlankAppend | app/config.py:19 | filtering the concatenation of two lists is the concatenation of their filterings, so kept entries stay in order and keep their duplicates |
| Config.NonBlankOne | app/config.py:19 | a one-entry list keeps its entry exactly when the entry is not blank once stripped |
| Config.ParseEach | app/config.py:19 | a parsed list has one id per entry |
| Config.ParseEachValues | app/config.py:19 | each parsed id is `int()` of the corresponding entry, in order |
| Config.ParseEachFails | app/config.py:19 | parsing fails exactly when some entry is not an integer |
| Config.ParseEachRoundTrip | app/config.py:19 | entries that parse to given ids parse together to exactly that list |
| Config.EmptyAdminIds | app/config.py:19 | an empty variable gives an empty admin list |
| Config.AdminIdsRoundTrip | app/config.py:19 | any list of ids written comma-separated is read back as the same list |
| Config.TrimSlashes | app/config.py:26 | the result is the input minus all of its trailing slashes |
| Config.NormalizeBase | app/config.py:26 | the base ends in exactly one slash, preceded by a prefix of the raw value after which the raw value holds only slashes, which is `rstrip("/") + "/"` |
| Config.NormalizeBaseIdempotent | app/config.py:26 | normalising a normalised base changes nothing |
| Config.NormalizeBaseSlashes | app/config.py:26 | any number of extra trailing slashes gives the same base |
| Config.TokenOf | app/config.py:13 | the token is stripped and empty when unset |
| Config.IdPrefixOf | app/config.py:21 | the prefix is the stripped variable, `HR` when unset |
| Config.ModeOf | app/config.py:31 | the mode is the upper-cased variable, `TASKS` when unset |
| Config.BaseOf | app/config.py:26 | the base ends in exactly one slash and is `/` when unset |
| Config.AdminIdsOf | app/config.py:19 | an unset admin variable gives nobody |
| Config.LoadAfterToken | app/config.py:18-38 | the only start-up failures after the token are integer conversions |
| Config.TokenRequired | app/config.py:13-16 | start-up stops with the empty-token error exactly when the stripped token is empty |
| Config.SettingsRead | app/config.py:13-38 | loaded settings carry the admin list, prefix, mode and base read from the environment; an unparsable admin list stops start-up |
| Config.ModeSpelling | app/config.py:31 | upper-casing is idempotent and `crm`, `Crm`, `CRM` all give `CRM` |
| BotCore.NewStore | app/bot_core.py:27-36 | the storage starts with counter 0, empty history and empty index, and is rejected exactly for a negative history bound |
| BotCore.DequeAppend | app/bot_core.py:31 | the history never exceeds its bound and is the newest records of the old history plus the new one |
| BotCore.AppendNotFull | app/bot_core.py:31 | appending to a history that is not full keeps every record and puts the new one last |
| BotCore.AppendFull | app/bot_core.py:31 | appending to a full history drops exactly the oldest record and puts the new one last |
| BotCore.AppendNoRoom | app/bot_core.py:31 | with bound 0 the history stays empty |
| BotCore.HistoryIdsDistinct | app/bot_core.py:31 | in valid storage no two history records share an id |
| BotCore.FreshId | app/bot_core.py:33-36 | an id whose sequence number exceeds the counter is not yet in the index |
| BotCore.AppendOrdered | app/bot_core.py:31 | appending the next minted record keeps the history in minting order |
| BotCore.RecordKeepsValid | app/handlers_user.py:468-488 | writing the entry and appending the record of a freshly minted id keeps the storage valid |
| BotCore.RecordWritesOneEntry | app/handlers_user.py:468-474 | that write adds exactly one new key and leaves every other entry as it was |
| BotCore.SameIdsKeepValid | app/handlers_admin.py:86-94 | changing fields other than ids keeps the storage valid, and the index keys stay the same |
| Localization.CategoriesOf | app/handlers_user.py:142 | an unknown language has no categories |
| Keyboards.CategoryLabels | app/keyboards.py:21-26 | the category keyboard exists exactly for languages in the table and lists their categories in order |
| Keyboards.AdminCardButtons | app/keyboards.py:53-57 | the card has two buttons carrying `adm:work:id` and `adm:close:id` |
| Keyboards.CallbackRoundTrip | app/keyboards.py:53-57 | for an id without `:`, the callback data splits into exactly `adm`, the action and the id |
| Keyboards.CardButtonsDecode | app/keyboards.py:53-57 | each card button decodes to `adm`, a known action and its id |
| Conversation.Input | app/handlers_user.py:64 | the input read from a message is stripped text, empty for a non-text message |
| Conversation.Apply | app/handlers_user.py:52-320 | a handler either keeps the attachment list, clears it, or (only when collecting) appends the new attachment below the limit |
| Conversation.ChooseLanguage | app/handlers_user.py:62-75 | the session either stays or is moved on with attachments reset |
| Conversation.Agree | app/handlers_user.py:81-97 | the consent step never touches the attachments |
| Conversation.GiveName | app/handlers_user.py:100-112 | the name step never touches the attachments |
| Conversation.GivePhone | app/handlers_user.py:115-130 | the phone step never touches the attachments |
| Conversation.GiveCategory | app/handlers_user.py:136-154 | the category step never touches the attachments |
| Conversation.GiveText | app/handlers_user.py:157-172 | the text step never touches the attachments |
| Conversation.Collect | app/handlers_user.py:225-244 | collecting either rejects at the limit or appends the new attachment at the end |
| Conversation.ChooseEdit | app/handlers_user.py:271-320 | an edit choice keeps the attachments or clears them |
| ConversationFlow.RouteIsFirstMatch | app/handlers_user.py:52-520 | the chosen handler accepts the message, every earlier registered handler rejects it, and nothing is handled exactly when no handler accepts |
| ConversationFlow.StartResets | app/handlers_user.py:52-59 | `/start` wins in every state, clears the draft and enters the language state |
| ConversationFlow.NewRequestResets | app/handlers_user.py:505-520 | the shortcut fires only outside the states whose handlers take any text; it clears the draft and enters the language state |
| ConversationFlow.NewRequestWhenIdle | app/handlers_user.py:505-520 | with no state, the shortcut label starts a new request |
| ConversationFlow.NewRequestLabelIsAName | app/handlers_user.py:100-112 | in the name state the shortcut label is taken as a name |
| ConversationFlow.LanguageStep | app/handlers_user.py:62-75 | only `RU`, `UZ`, `EN` move on to consent, resetting attachments and category; other input changes nothing |
| ConversationFlow.ConsentGate | app/handlers_user.py:81-97 | consent moves on exactly on the localised agree label, never changing the draft |
| ConversationFlow.NameGate | app/handlers_user.py:100-112 | a valid name is stored stripped and the phone state follows; an invalid one changes nothing |
| ConversationFlow.PhoneGate | app/handlers_user.py:115-130 | a valid phone is stored stripped and the category state follows; an invalid one changes nothing |
| ConversationFlow.CategoryGate | app/handlers_user.py:136-154 | a category of the draft's language is stored and the text state follows; anything else changes nothing |
| ConversationFlow.TextGate | app/handlers_user.py:157-172 | a stripped text of at least 15 characters is stored and attachments follow; a shorter one changes nothing |
| ConversationFlow.CollectAttachment | app/handlers_user.py:214-244 | media is appended at the end below 10 attachments and rejected with the list unchanged at 10 |
| ConversationFlow.DoneOrSkip | app/handlers_user.py:178-196 | a done or skip label of any language moves to review with the draft unchanged |
| ConversationFlow.StepKeepsBounded | app/handlers_user.py:225-232 | no step takes the attachment list above 10 |
| ConversationFlow.AttachmentsOnlyGrowByCollecting | app/handlers_user.py:214-244 | a step keeps or clears the attachments, or appends exactly the collected one |
| ConversationFlow.ReviewEditOpensMenu | app/handlers_user.py:250-268 | an edit label in review opens the edit menu with the draft unchanged |
| ConversationFlow.EditTargetOnMenu | app/handlers_user.py:277-285 | a label has an edit target exactly when it is on the edit menu |
| ConversationFlow.EditMenuTargets | app/keyboards.py:42-50 | the menu offers five labels, in order name, phone, category, text, attachments, each jumping to its field |
| ConversationFlow.EditChoiceJump | app/handlers_user.py:271-320 | an unknown label changes nothing; a known one jumps to its field, clearing attachments only for the attachments choice |
| ConversationFlow.EditCategoryResumesForward | app/handlers_user.py:271-320 | after editing the category a valid answer leads to the text state, not back to review, keeping the other fields |
| ConversationFlow.ConsentButtonAccepted | app/keyboards.py:16-19 | pressing the consent button moves on to the name state |
| ConversationFlow.CategoryButtonsAccepted | app/keyboards.py:21-26 | pressing any category button stores that category and moves on |
| ConversationFlow.AttachmentButtonsAccepted | app/keyboards.py:28-33 | both attachment buttons are in the done/skip set and lead to review |
| ConversationFlow.ReviewButtonsRouted | app/keyboards.py:35-40 | the review buttons reach the edit and the send handlers |
| ConversationFlow.EditMenuButtonsAccepted | app/keyboards.py:42-50 | pressing edit-menu button `i` moves to that button's field |
| ConversationFlow.AfterSubmitButtonAccepted | app/keyboards.py:60-64 | after sending, the new-request button starts a new request |
| Submission.StrippedOr | app/handlers_user.py:340-343 | a missing stored value reads as empty, a present one stripped |
| Submission.CategoryFieldOf | app/handlers_user.py:416-420 | the CRM category is omitted when empty, a number when it parses, and the raw text otherwise |
| Submission.AttachmentPosts | app/handlers_user.py:356-393 | one post per attachment, in order, each replying to the card |
| Submission.ExtraLine | app/handlers_user.py:451-455 | the card gets an extra line exactly when the CRM item or the task id is truthy |
| Submission.Creation | app/handlers_user.py:410-446 | exactly one creation call, a CRM item exactly in CRM mode and a task otherwise, carrying the title |
| Submission.FollowUp | app/handlers_user.py:431-448 | the error notice appears exactly on a failed answer; the timeline comment with the description appears exactly for a truthy CRM item |
| Submission.CardEdit | app/handlers_user.py:451-466 | at most one card edit, present exactly when a truthy reference exists |
| Submission.SendCrashesOnlyOnBadEntity | app/handlers_user.py:410-429 | with every channel send succeeding, the send raises exactly in CRM mode with a non-numeric entity id, having moved only the counter |
| Submission.SendFinishes | app/handlers_user.py:336-499 | otherwise the send finishes with the minted id, the drafted fields and the backend references |
| Submission.MintedFresh | app/handlers_user.py:346 | the minted id carries the next counter value and is new to the index |
| Submission.SendStore | app/handlers_user.py:468-499 | the send raises the counter, writes the index entry, appends the history record and clears the session |
| Submission.SendWritesOneEntry | app/handlers_user.py:468-474 | exactly one new index entry with the "new" status, every other entry unchanged, the draft cleared |
| Submission.SendAppendsOneRecord | app/handlers_user.py:476-488 | exactly one history record with the "new" status, the stripped text's length and the attachment count |
| Submission.SendReferences | app/handlers_user.py:407-474 | the entry holds at most one backend reference, a CRM item only in CRM mode, and is written even when the backend answered nothing |
| Submission.SendKeepsValid | app/handlers_user.py:468-488 | sending keeps the storage valid and only grows it |
| Submission.SendEffectsAre | app/handlers_user.py:349-466 | the trace is the card and attachments, then the backend part, then the card edit |
| Submission.SendPostsCardThenAttachments | app/handlers_user.py:349-393 | the card with its buttons comes first, then each attachment in order, replying to the card |
| Submission.SendCallsBackendOnce | app/handlers_user.py:395-466 | the trace has the send shape: one creation, at most one follow-up, at most one edit |
| Submission.PlannedTrace | app/handlers_user.py:349-466 | the planned trace of a draft has that shape, starts with the card and lists the attachments next |
| Admin.ActionOf | app/handlers_admin.py:68-76 | `work` and `close` are the only known actions |
| Admin.CardLanguage | app/handlers_admin.py:62-66 | the recovered language is stripped |
| Admin.CardLanguageOfCard | app/handlers_admin.py:62-66 | on a rendered card with a single-line language and id, the recovered language is the submission's language, whatever line breaks the name, phone, category, text or status hold |
| Admin.CardSecondLine | app/handlers_admin.py:64-65 | the second line of a rendered card is its `🌐` language line |
| Admin.LanguageLine | app/handlers_admin.py:65-66 | reading the language back from a language line gives the stripped language |
| Admin.SetNewestStatus | app/handlers_admin.py:91-94 | exactly the newest record with the id gets the status; all others are untouched |
| Admin.SetStatusOfDistinct | app/handlers_admin.py:91-94 | with distinct ids the record with the id gets the status, and an evicted id leaves the history unchanged |
| Admin.SetStatus | app/handlers_admin.py:86-94 | only the pressed entry's status changes, the keys stay, and the history gets the newest-record update |
| Admin.SetStatusIdempotent | app/handlers_admin.py:86-94 | setting the same status twice gives the same storage as once |
| Admin.SetStatusKeepsValid | app/handlers_admin.py:86-94 | a status update keeps the storage valid and only grows it |
| Admin.Rejection | app/handlers_admin.py:44-76 | the first failing check in order picks the answer: no access, bad data, card not found, unknown action |
| Admin.BackendCalls | app/handlers_admin.py:96-117 | a CRM item gets one timeline comment; otherwise a truthy task gets a comment and, on close, a completion; no reference gets no call |
| Admin.OnlyCloseCompletes | app/handlers_admin.py:97-117 | a task is completed exactly on close of a task-backed entry |
| Admin.RejectedPressChangesNothing | app/handlers_admin.py:42-76 | a rejected press changes nothing and calls nothing, and a press is rejected exactly when a check fails |
| Admin.AcceptedPressSetsStatus | app/handlers_admin.py:78-119 | an accepted press edits the card first, updates the storage and then calls the backend, raising only on a non-numeric entity id in CRM use |
| Admin.PressTwice | app/handlers_admin.py:68-94 | pressing the same button again on the edited card leaves the storage as it is |
| Admin.PressOnPostedCard | app/handlers_admin.py:62-94 | pressing a button on a posted card re-renders it with the target status in the card's own language and sets that status in the storage; the name, phone, category and text may span lines, and the target status is any plain template |
| Admin.PressKeepsValid | app/handlers_admin.py:42-119 | every press keeps the storage valid and only grows it |
| Admin.PressNeverCrashes | app/handlers_admin.py:96-117 | with consistent CRM references and `callback.answer` succeeding, a press never raises |
| Admin.CountStatus | app/handlers_admin.py:149-151 | the count is at most the history length and zero exactly when no record has the status; its value is fixed by `Admin.CountStatusIsMultiplicity` |
| Admin.CountStatusIsMultiplicity | app/handlers_admin.py:149-151 | the count `/stats` reports for a status is the multiplicity of that status in the multiset of the history's statuses |
| Admin.StatusCountsBounded | app/handlers_admin.py:143-151 | with distinct Russian status texts the three counts add up to at most the history length |
| Admin.CategoryCounts | app/handlers_admin.py:153 | every counted category is non-empty with a positive count |
| Admin.CategoryCountsExact | app/handlers_admin.py:153 | the counter holds exactly the non-empty categories present, each with its number of records |
| Admin.CountCategoryIsMultiplicity | app/handlers_admin.py:153 | a category's number of records is its multiplicity in the multiset of the history's categories |
| Bot.BootGood | app/bot_core.py:27-36 | the storage at start-up satisfies the world invariant |
| Bot.OthersUntouched | app/handlers_user.py:52-520 | a message changes only its sender's session; a button press changes none |
| Bot.SendKeepsCrmRefs | app/handlers_user.py:407-474 | sending keeps every CRM reference consistent with CRM mode and a numeric entity id |
| Bot.ReceiveKeepsGood | app/bot_core.py:27-36 | every update keeps the world invariant and only grows the storage |
| Bot.PressKeepsGood | app/handlers_admin.py:42-119 | a press from a good world is answered and keeps the world good |
| Bot.StepKeepsGood | app/handlers_user.py:225-244 | a conversation step keeps every draft within the attachment limit |
| Bot.SendKeepsGood | app/handlers_user.py:336-499 | the send keeps the storage valid and the references consistent, whether it finishes or raises |
| Bot.OnlyBadEntityCrashes | app/handlers_user.py:425-429 | with every channel send succeeding, from a good world only the send can raise, and only in CRM mode with a non-numeric entity id |
| Conversation.Route | app/handlers_user.py:52-520 | the handler chosen for a message; `ConversationFlow.RouteIsFirstMatch` proves it is the first registered handler whose filters accept the message |
| Conversation.Step | app/handlers_user.py:52-320 | one message on the user's own session; `ConversationFlow.StepKeepsBounded` bounds the attachments, and the gate lemmas (`ConsentGate`, `NameGate`, `PhoneGate`, `CategoryGate`, `TextGate`, `EditChoiceJump`) give each state's move |
| Submission.ReviewSend | app/handlers_user.py:336-499 | the send of the reviewed form; `Submission.SendCrashesOnlyOnBadEntity`, `SendFinishes`, `SendStore`, `SendEffectsAre` and `SendKeepsValid` state its outcome, storage changes and trace |
| Admin.CardAction | app/handlers_admin.py:42-119 | a press on a card button; `Admin.RejectedPressChangesNothing`, `AcceptedPressSetsStatus`, `PressKeepsValid` and `PressNeverCrashes` state its outcome |
| Helpers.CardText | app/helpers.py:37-47 | the card text; `Helpers.CardLayout` and `CardHeaderLines` give its lines |
| Helpers.ReplaceStatusLine | app/helpers.py:49-50 | the status-line substitution; `Helpers.CardStatusRewrite` proves that on a rendered card it re-renders the card with the new status |
| Helpers.BuildDescription | app/helpers.py:52-73 | the backend description; `Helpers.DescriptionTail` and `DescriptionTailLines` give its attachment part |
| Helpers.ValidName | app/helpers.py:15-17 | a name is valid when 2 to 120 characters long once stripped; `ConversationFlow.NameGate` states the step it guards |
| Helpers.ValidPhone | app/helpers.py:19-26 | the phone check; `Helpers.PhoneAcceptance` and `PhoneOfStripped` characterise it |
| Helpers.IsAdmin | app/helpers.py:12-13 | membership in the admin list; `Admin.Rejection` shows a press by anybody else is refused and changes nothing |
| Config.ParseAdminIds | app/config.py:19 | the admin list; `Config.AdminIdsRoundTrip`, `EmptyAdminIds` and `ParseEachFails` state its value and its failure |
| Config.LoadSettings | app/config.py:13-38 | the settings module; `Config.TokenRequired` and `SettingsRead` state its error and what it reads |
| Keyboards.AttachmentLabels | app/keyboards.py:28-33 | the attachment keyboard's labels; `ConversationFlow.AttachmentButtonsAccepted` shows both lead to review |
| Keyboards.ReviewLabels | app/keyboards.py:35-40 | the review keyboard's labels; `ConversationFlow.ReviewButtonsRouted` shows where each is routed |
| Keyboards.EditMenuLabels | app/keyboards.py:42-50 | the edit menu's labels; `ConversationFlow.EditMenuTargets` and `EditMenuButtonsAccepted` give the field each one opens |
| Bot.Receive | app/bot_core.py:19-21 | one update dispatched to the conversation, the send or the card buttons; `Bot.ReceiveKeepsGood`, `OthersUntouched` and `OnlyBadEntityCrashes` state what it keeps |

## Behaviour of the code

Some behaviours of the code are easy to misread. The model follows the code in each of them:

- **Phone shape:** the first character must be `+` or a digit (`app/helpers.py:19`).
- **Truncation:** the length test and the cut apply to the stripped input (`app/helpers.py:29-30`).
- **Id sequence:** the sequence number is padded to at least six digits and grows past six (`app/helpers.py:34`).
- **Done/skip labels:** the done and skip labels of all three languages are accepted whatever the draft's language (`app/handlers_user.py:178-196`).
- **New-request shortcut:** it is registered after the state handlers, so it fires only when no state handler took the message (`app/handlers_user.py:505-520`).
- **Backend reference:** the index entry holds a task id, a CRM item id, or neither when the backend answered nothing (`app/handlers_user.py:468-474`).
- **Non-numeric entity id:** in CRM mode, `int(BITRIX_SMART_ENTITY_ID)` on a non-numeric id raises (`app/handlers_user.py:425-429`). The submission's handler then stops after minting the id and posting the card (`Submission.SendCrashed`). A card press on a CRM-backed entry would raise in the same way (`app/handlers_admin.py:98-104`, `Admin.ActionCrashed`). `Admin.PressNeverCrashes` shows that no stored entry can reach that press path.

## Left out

- **Backend calls:** `app/bitrix_api.py` is not part of this model. Each creation call is an oracle answer (`SendEnv.created`). The results of comment and completion calls are ignored by the bot and so are not modelled.
- **Unused backend functions:** `bitrix_task_update_status` and `bitrix_crm_item_update` are imported but never called.
- **Bootstrap:** `app/main.py`, the Bot/Dispatcher construction and polling are process setup.
- **Replies to the user:**
  - The reply texts and reply keyboards as transport objects are not modelled.
  - The review summary built in `attachments_done` is not modelled; only `Truncate`, which it uses, is.
  - The answer texts of the admin callbacks are listed (`Admin.ReplyText`), but their delivery is not modelled.
- **Concurrent attachment sends:** the sends with `asyncio.gather` are a sequential, ordered list of effects. The model is one update at a time, with no concurrency or locking.
- **Submission.SendCrashesOnlyOnBadEntity:** every channel send is assumed to succeed. `review_send` awaits `bot.send_message` for the card and for the backend-error notice, and `asyncio.gather` over the attachment sends without `return_exceptions` (`app/handlers_user.py:349-393`, 438, 447). A transport failure there stops the handler after the counter was moved, with no index entry and no history record. That outcome is not modelled, so the send's "raises exactly when" covers only the entity-id conversion.
- **Bot.OnlyBadEntityCrashes:** for the same reason, "only the send can raise" assumes that channel sends, the user's replies and `callback.answer` never fail. The backend wrappers in `app/bitrix_api.py` swallow their own errors, so transport failures are the only raising path left out.
- **Admin.PressNeverCrashes:** the answers to the press (`callback.answer`, `app/handlers_admin.py:49, 56, 75, 119`) are assumed to succeed; only the `int()` conversions are modelled as raising.
- **Swallowed card edits:** a failing edit is an `EditCard` effect with no consequence for the storage.
- **HTML markup:** the transport's rendering is not modelled. The model takes the text read back from a card to be the text posted, `<b>` tags included. Only line 0 carries markup.
- **`/whereami` and `/export`:** both are file and transport I/O. They leave every session as it is.
- **`/stats` formatting:** the reply's text formatting and `most_common` ordering are not modelled. Only the counts are.
- **Localisation table:** its contents are not modelled. It is uninterpreted, so the model cannot check whether the language buttons' labels equal `RU`/`UZ`/`EN`, and `Keyboards.LanguageLabels` has no acceptance lemma.
- **Wall clock:** `datetime.utcnow().year` and the card's date are parameters.
- **Character classes:** Python's Unicode `\s` and `\d` and Unicode `str.upper`/`str.strip` are ASCII approximations. Whitespace is space, tab, newline, carriage return, vertical tab and form feed.
- **Strings.ParseIntRoundTrip:** `int()` is modelled as optional surrounding whitespace, an optional sign and ASCII digits. Python also accepts digit-group underscores and non-ASCII digits, so such configuration values are start-up errors here.
- **Helpers.CardStatusRewrite:** it assumes a new status with no backslash and no leading digit (`Helpers.PlainReplacement`). Other statuses are template escapes in `re.sub`, which are not modelled.
- **Callback data limit:** Telegram's 64-byte limit on callback data is a transport constraint and is not modelled.
- **Channel chat id:** `SUPPORT_CHAT_ID` is the chat of every channel effect of the send: the card, the attachments, the backend-error notices and the card edit (`app/handlers_user.py:351`, 362-386, 439, 448, 460). The model has one channel and leaves that chat implicit in the effects.
- **Unused settings:** `BITRIX_SMART_STAGE_WORK` and `BITRIX_SMART_STAGE_CLOSED` are read but never used by the core.
- **`load_dotenv` and `sys.exit`:** configuration is a function of a given environment map, and the exit is the `EmptyBotToken` error.
