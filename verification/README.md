# Verified models of the Vexlife browser reference and foundation trainer

This project models, in Dafny, the algorithms and protocols that lie under the user interface of the Vexlife browser
reference, and the receipts of its foundation trainer, and proves what they promise. Code that edits state in place
is a class with the same fields and methods, each tied to a function on values; the promises are proved about those
functions, over every input, every interleaving and every run.

| module | what it is about |
|---|---|
| `GuidePlacement` | the placement solver of the guide window |
| `TurnStream` | the reader of a streamed companion turn |
| `AdaptiveReveal` | the paced reveal of streamed text |
| `InterfaceCurrentness` | concurrent observations, the derived READY state, the send gate |
| `DraftTransactions` | optimistic draft transactions with receipts |
| `FoundationTraining` | the optimizer loops and the truth reported on failure |
| `CandidateReceipt` | the trainer's receipt and its verification |
| `ScopeKeys` | percent-encoded storage keys, drafts and preferences |
| `MessageList` | the references messages carry, the conversation head, and what a turn does to the list |
| `CompanionTurn` | sending a message, and what becomes of its text |
| `FamilyRoom` | the family rooms projected into the shared chat state |
| `ClosedAlpha` | the closed-alpha delivery machine |
| `Common` | optional values, JSON values, text trimming |

`dafny verify dfyconfig.toml` checks everything.

## Where a promise does not hold as stated

The code is modelled as it is. For each of these the exact condition is proved, for all inputs, and for most a witness:

- The placement search drops a candidate whose coordinates agree with an earlier one to two decimals
  (guide-controller.js:281), before it looks at safety. It answers the best position of the viewport if and only if
  that position is the first visited with its key (`SearchOptimalExactly`); `KeyCollisionLosesSafety` gives a viewport
  of whole pixels in which a safe position exists and none is found. With distinct keys, in particular when all input
  geometry is in whole hundredths of a pixel, the search is complete and globally optimal.
- A resize keeps the opposite edge only within the viewport border (`ResizeFromCorner`).
- A window that was moved out of the way can move once more, to its preferred place, when the stored geometry lacks
  left or top, and exactly when that place has become safe (`DecideSettles`).
- The promise of a reveal's `finish()` is made once and never renewed: while text is hidden, a finish returns a pending
  promise if and only if that one promise was not resolved by an earlier finish (`ReturnedPromiseExactly`).
  `SecondFinishUntrue`: after push, finish, two frames and another push, the next finish returns a resolved promise with
  the new text still hidden.
- A receipt window of limit zero keeps every receipt, since `slice(-0)` keeps all (`WindowExactly`); the changed
  fields of a patch or reset are the real difference only when the platform list is not involved
  (`PatchReportsDifference`, `ResetReportsDifference`).
- A successful training run is accepted by the verifier exactly when the host is documented beyond what the trainer
  itself checks, and no checkpoint file carries the evaluation receipt's name (`ProducerVerifierAgree`).
- The number of steps a failure reports is that of the gradient clears performed: one too low when a step completed and
  the clear after it raised, never too high (`ExecuteAndReport`).
- A message taken back is in the draft afterwards exactly when the session storage works (`RequestReply`). With no
  storage the composer still shows the text, at least when the channel is the current one, and no draft holds it; with a
  storage that refuses, the call rejects.
- A message is sent under a computed reference, `message.demo.` with the channel and a number that starts at 0 again
  while the conversation reads ABSENT or EMPTY, and is taken back by removing the first message that carries it, twice
  when something throws after the first removal. The earlier messages stay and the sent one is taken out if and only if
  no earlier message carries the reference (`NewestTakenBackExactly`, `SentTakenBackExactly`); the sent one stays exactly
  when earlier carriers use up the removals (`OwnStaysExactly`). `SecondSendTakesFirst`: after a completed answer without
  references in a conversation that reads ABSENT, the next failing send removes the first message and leaves its own.
  While completed answers bring both references the computed one is always fresh (`RunFresh`).
- Message lists are kept under unescaped keys, which can coincide (`ConversationKeysCollide`): a key belongs to one
  scope alone if and only if it can be cut into three non-empty parts only at that scope's own borders
  (`KeyUnambiguousExactly`).
- Family projections are reversible exactly when the snapshot's companion keys and message lists are free in the base
  (`ReversibleExactly`). A member key of an installed snapshot, of any number of rooms, names its own member if and only
  if the member is nameable after the base and the rooms before (`RoomKeysExactly`); `TwoRoomsMisname` is a snapshot of
  two rooms in which one is not. Refreshes may overlap: the chat is always the base with the snapshot in force
  (`OverlapsProject`), but messages that arrive for a room already taken out end their refresh held, and that takes out
  the snapshot a later refresh installed (`FillOrHold`).
- Closed-alpha delivery does not consult presence. Delivery can be reached without a reset and without touching the
  presence, whatever it is, if and only if nothing was revoked, withdrawn or disconnected (`PresenceIgnoredExactly`);
  the failure an unreachable peer sets holds delivery exactly until an event decides otherwise (`PeerHeld`), and an
  unavailable route that recovers is one way out (`UnreachableButDelivering`).

## Model

| member | source | states |
|---|---|---|
| `GuidePlacement.NormalizePlacement` | reference/browser/modules/guide-controller.js:88-101 | a normalized placement lies inside the viewport margins, and fits when the viewport can hold the minimum size |
| `GuidePlacement.NormalizeIdempotent` | reference/browser/modules/guide-controller.js:88-101 | normalizing a normalized placement changes nothing |
| `GuidePlacement.GridMembers` | reference/browser/modules/guide-controller.js:278 | the nested loops visit exactly the product of the candidate lines |
| `GuidePlacement.SortedHead` | reference/browser/modules/guide-controller.js:286-291 | the first element after sorting is least under the comparator: distance, then top, then left |
| `GuidePlacement.LeastUnique` | reference/browser/modules/guide-controller.js:286-290 | the comparator never leaves two distinct positions tied |
| `GuidePlacement.ScanMeaning` | reference/browser/modules/guide-controller.js:277-285 | the kept candidates are exactly the safe positions that are first of their two-decimal key |
| `GuidePlacement.GridDominates` | reference/browser/modules/guide-controller.js:268-285 | every safe position of the continuous box is matched by a safe grid position that the comparator does not put later |
| `GuidePlacement.SearchSound` | reference/browser/modules/guide-controller.js:266-295 | with no condition: an answer is in the box, safe, and least among the kept candidates; no answer means no kept candidate |
| `GuidePlacement.OptimumOnGrid` | reference/browser/modules/guide-controller.js:268-291 | as soon as any position of the box is safe, a globally best one exists and lies on the grid |
| `GuidePlacement.SearchOptimalExactly` | reference/browser/modules/guide-controller.js:277-291 | the search answers the global optimum if and only if the optimum is the first visited position of its key |
| `GuidePlacement.SearchComplete` | reference/browser/modules/guide-controller.js:266-295 | with separate keys: the answer is optimal over the whole box, and there is no answer exactly when no position at all is safe |
| `GuidePlacement.HundredthsKeysSeparate` | reference/browser/modules/guide-controller.js:281 | geometry in whole hundredths of a pixel has separate keys |
| `GuidePlacement.KeyCollisionLosesSafety` | reference/browser/modules/guide-controller.js:281-292 | a viewport of whole pixels with a safe position for which the search finds none |
| `GuidePlacement.DecideSound` | reference/browser/modules/guide-controller.js:244-295 | the result is safe exactly unless NO_SAFE_CANDIDATE is reported; moves stay in the box; PREFERRED_SAFE exactly when recovery was asked for and is safe |
| `GuidePlacement.DecideOptimal` | reference/browser/modules/guide-controller.js:244-295 | from the place wanted in the numbers of the inputs, AUTO_OBSTRUCTION_RESOLVED is the clear place nearest to it, then highest, then furthest left, and NO_SAFE_CANDIDATE means no place inside is clear |
| `GuidePlacement.WantedExactly` | reference/browser/modules/guide-controller.js:88-101 | there is one wanted place: the stored left and top, each missing one from the window, brought inside for the size shown; with none stored the lower left of a dock screen, or the window where it is |
| `GuidePlacement.DecidedInNumbers` | reference/browser/modules/guide-controller.js:244-295 | every resolution and its geometry in the numbers of the inputs: which place is taken, when the window stays, and what the search is to find |
| `GuidePlacement.DecideSettles` | reference/browser/modules/guide-controller.js:244-295 | deciding again moves the window exactly when its preferred place, completed from where it is, has become safe; with left and top stored it never moves, and a third decision never moves it |
| `GuidePlacement.GuideWindow.AvoidDeclaredControls` | reference/browser/modules/guide-controller.js:244-296 | the method writes the decided resolution, told in numbers from the stored geometry, the viewport and the rectangles, and the style; it reports a change exactly when it searched or moves by more than half a pixel; hidden and compact windows too |
| `GuidePlacement.GuideWindow.ApplyPlacement` | reference/browser/modules/guide-controller.js:102-109 | the inline style after a placement, with the minimum size |
| `GuidePlacement.CandidateLines` | reference/browser/modules/guide-controller.js:271-276 | the loop over the obstacles collects the candidate lines |
| `GuidePlacement.SafeCandidates` | reference/browser/modules/guide-controller.js:277-285 | the nested loops keep what the scan of the grid keeps |
| `GuidePlacement.FindTarget` | reference/browser/modules/guide-controller.js:268-291 | the loops, the sort and the first element answer the search |
| `GuidePlacement.ResizeFromCorner` | reference/browser/modules/guide-controller.js:423-427 | place and size after a drag of any corner; the opposite edge stays put exactly as far as the viewport lets it; the result stays within the four-pixel inset |
| `TurnStream.LinesJoin` | reference/browser/modules/chat-controller.js:276-281 | lines and tail join back to the text |
| `TurnStream.LinesFree` | reference/browser/modules/chat-controller.js:276-281 | no line and no tail holds a newline |
| `TurnStream.LinesAppend` | reference/browser/modules/chat-controller.js:275-281 | splitting text in two pieces equals splitting the whole |
| `TurnStream.ReadOn` | reference/browser/modules/chat-controller.js:273-307 | a later chunk only continues the reading of the earlier text |
| `TurnStream.Reader.Accept` | reference/browser/modules/chat-controller.js:274-305 | after each chunk the reading is that of the whole text so far and the buffer is its tail |
| `TurnStream.Reader.Read` | reference/browser/modules/chat-controller.js:273-310 | for any chunks the result is the reading of their concatenation |
| `TurnStream.ReadTurn` | reference/browser/modules/chat-controller.js:265-311 | however the text is cut, a turn is returned exactly when every line that is not blank holds a well-formed frame, no callback throws, and the text ends with the last terminal frame carrying something; then that is returned and the callbacks saw the payloads of their own frames in order |
| `TurnStream.ReadTwice` | reference/browser/modules/chat-controller.js:265-311 | chunk invariance: two cuttings of one text give the same callbacks, terminal frame and failure |
| `TurnStream.PrefixRead` | reference/browser/modules/chat-controller.js:273-307 | a stream that breaks off made exactly a prefix of the callbacks of the complete one |
| `TurnStream.TerminalIsLast` | reference/browser/modules/chat-controller.js:303 | the terminal payload is that of the last terminal line |
| `TurnStream.LinesSucceedExactly` | reference/browser/modules/chat-controller.js:279-305 | lines are consumed without failure if and only if all are admitted and no callback throws |
| `TurnStream.ReadSucceedsExactly` | reference/browser/modules/chat-controller.js:279-310 | a turn is read if and only if every line is admitted, no callback throws, the tail is blank and the last terminal payload is truthy; then the callbacks are exactly those due |
| `TurnStream.LineJudged` | reference/browser/modules/chat-controller.js:279-304 | a line is admitted exactly when its JSON members make it a frame of one of the five kinds, and then its own callback is due its payload; otherwise the failure says what is wrong first |
| `TurnStream.TurnReadExactly` | reference/browser/modules/chat-controller.js:279-310 | the condition and the result of a returned turn, in terms of the JSON members of the lines alone |
| `TurnStream.BadLineThrows` | reference/browser/modules/chat-controller.js:280-304 | the first line that holds no frame ends the turn with its failure, after the callbacks of the lines before it |
| `TurnStream.CallbackThrows` | reference/browser/modules/chat-controller.js:283-302 | the first callback that throws ends the turn |
| `TurnStream.EndThrows` | reference/browser/modules/chat-controller.js:308-310 | a text left with a partial frame, or without a terminal frame that carries something, throws at its end |
| `AdaptiveReveal.NextKeeps` | reference/browser/modules/chat-controller.js:130-260 | every push, frame, finish and cancel keeps the invariant and only extends what was rendered |
| `AdaptiveReveal.ResolvedWhy` | reference/browser/modules/chat-controller.js:137-142 | the step that resolves the promise is one after which all text is shown or the reveal is cancelled |
| `AdaptiveReveal.RunKeeps` | reference/browser/modules/chat-controller.js:130-260 | the same over every run |
| `AdaptiveReveal.RunSafe` | reference/browser/modules/chat-controller.js:130-260 | over every run: shown text is a prefix of the deltas and only grows, hidden text implies a pending frame, promises resolve once |
| `AdaptiveReveal.CancelStops` | reference/browser/modules/chat-controller.js:248-260 | after a cancel nothing is shown again whatever happens, no frame is due, and the open promise is resolved once |
| `AdaptiveReveal.ShownAtOnce` | reference/browser/modules/chat-controller.js:149-164 | under reduced motion, on a hidden page, or without frames, every push, frame and finish shows all the text there is |
| `AdaptiveReveal.ShownLater` | reference/browser/modules/chat-controller.js:154-169 | on a visible page a push and a finish show nothing by themselves and leave a frame pending |
| `AdaptiveReveal.ArriveMoves` | reference/browser/modules/chat-controller.js:216-229 | what an arrival does to rate and credit: the first keeps the default and grants one credit while nothing is shown, later ones move the rate 35 per cent, none without a clock reading |
| `AdaptiveReveal.PushInNumbers` | reference/browser/modules/chat-controller.js:210-234 | units, rate, credit and clock after a push, whatever the page answers |
| `AdaptiveReveal.PressureHelps` | reference/browser/modules/chat-controller.js:189-198 | a longer backlog is never revealed more slowly |
| `AdaptiveReveal.SpendConserves` | reference/browser/modules/chat-controller.js:198-200 | one frame conserves credit and leaves a proper fraction |
| `AdaptiveReveal.FramePaces` | reference/browser/modules/chat-controller.js:170-208 | a pacing frame shows its budget, bounded by the backlog |
| `AdaptiveReveal.FrameInNumbers` | reference/browser/modules/chat-controller.js:178-206 | units shown, credit and clock after one frame, from the time between 8 and 50 milliseconds and the five steps of the backlog |
| `AdaptiveReveal.FrameRenders` | reference/browser/modules/chat-controller.js:202-207 | a frame renders exactly when it shows more, and asks for the next exactly while text is hidden |
| `AdaptiveReveal.PacingConserves` | reference/browser/modules/chat-controller.js:170-208 | over any run of frames, credit before plus added equals credit after plus granted, and the backlog falls by what was granted |
| `AdaptiveReveal.AddsEnough` | reference/browser/modules/chat-controller.js:179-198 | while text is hidden each frame adds at least eight times the rate |
| `AdaptiveReveal.QuotaIs` | reference/browser/modules/chat-controller.js:181-198 | the quota of n frames is eight times the rate times n |
| `AdaptiveReveal.Drains` | reference/browser/modules/chat-controller.js:179-208 | with no more pushes everything is shown after a number of frames bounded by backlog and rate |
| `AdaptiveReveal.FinishBound` | reference/browser/modules/chat-controller.js:184-187 | two frames after a finish everything is shown and no promise is open, whatever the page answers, and the one promise has resolved once; on a visible page half is shown in the first frame and the returned promise is pending exactly until then |
| `AdaptiveReveal.ReturnedPromiseExactly` | reference/browser/modules/chat-controller.js:236-246 | while text is hidden, the promise a finish returns is pending if and only if the reveal's one promise was not resolved before |
| `AdaptiveReveal.FinishIdle` | reference/browser/modules/chat-controller.js:236-240 | with nothing hidden, or after a cancel, a finish only notes that it was asked for and returns a resolved promise |
| `AdaptiveReveal.SecondFinishUntrue` | reference/browser/modules/chat-controller.js:243-245 | for any deltas: push, finish, two frames, push; the next finish returns a resolved promise with text hidden |
| `AdaptiveReveal.Reveal.TakeBudget` | reference/browser/modules/chat-controller.js:178-201 | the budget of a frame and the new pacing state |
| `AdaptiveReveal.Reveal.FinishNow` | reference/browser/modules/chat-controller.js:236-246 | the finish on the fields, and whether the promise it returns is pending |
| `AdaptiveReveal.Replay` | reference/browser/modules/chat-controller.js:101-263 | any sequence of events on the controller is the run of the functions |
| `InterfaceCurrentness.AcceptPartKeeps` | reference/browser/modules/interface-currentness.js:246-275 | between the inputs of an admission the state is never READY |
| `InterfaceCurrentness.AdmitKeeps` | reference/browser/modules/interface-currentness.js:246-275 | the fourth input completes the admission with the invariant kept |
| `InterfaceCurrentness.NextKeeps` | reference/browser/modules/interface-currentness.js:207-290 | every step of every observation, disposal and scope change keeps the invariant |
| `InterfaceCurrentness.RunKeeps` | reference/browser/modules/interface-currentness.js:207-290 | the same over every interleaving |
| `InterfaceCurrentness.ReadyCoherent` | reference/browser/modules/interface-currentness.js:77-114 | READY, in the store or emitted, means: equal hashes, ready companion, ready conversation of the same scope, all read by one observation, the last admitted |
| `InterfaceCurrentness.NoStaleWins` | reference/browser/modules/interface-currentness.js:207-290 | admitted generations strictly increase and emitted ones never go back |
| `InterfaceCurrentness.StaleRejected` | reference/browser/modules/interface-currentness.js:242-245 | reads of an overtaken, disposed or out-of-scope observation leave no trace |
| `InterfaceCurrentness.CurrentAdmitted` | reference/browser/modules/interface-currentness.js:246-275 | reads of a current observation are admitted; READY holds then if and only if hashes, companion, conversation and scope agree, and otherwise the kind tells what failed first |
| `InterfaceCurrentness.AdmittedMembers` | reference/browser/modules/interface-currentness.js:246-277 | the other members of the state are what was read, a rejected read counting as unavailable |
| `InterfaceCurrentness.AdmittedEmits` | reference/browser/modules/interface-currentness.js:236-289 | the admission followed by its callback emits the derived state exactly once, with the generation; with no turn pending the channel of that scope is then open if and only if the reads agree, and no other companion channel is; a callback that throws emits nothing |
| `InterfaceCurrentness.ObservedCloses` | reference/browser/modules/interface-currentness.js:226-234 | an observation that begins closes every companion channel at once and is the one awaited |
| `InterfaceCurrentness.ObservedInVain` | reference/browser/modules/interface-currentness.js:219-225 | without a complete scope it only counts and emits again; after disposal it does nothing |
| `InterfaceCurrentness.ObservationDecidesGate` | reference/browser/modules/interface-currentness.js:219-289 | from every state without an admission under way, one whole observation opens the gate of its scope if and only if its reads agree |
| `InterfaceCurrentness.InitialShut` | reference/browser/modules/interface-currentness.js:193-212 | the first emission is UNOBSERVED, and a loaded hash counts only if it is a digest |
| `InterfaceCurrentness.DisposedQuiet` | reference/browser/modules/interface-currentness.js:214-216 | after disposal nothing is admitted and nothing derived, over any run |
| `InterfaceCurrentness.SendGate` | reference/browser/modules/chat-controller.js:998-1008 | the send gate opens only for the exact scope of the one observation behind READY, with no later one begun for any scope |
| `InterfaceCurrentness.RefreshNotStale` | reference/browser/modules/chat-controller.js:669-695 | a message list is replaced if and only if a body arrived, no observation began since, nothing was disposed and the scope is unchanged; no other list changes |
| `InterfaceCurrentness.GenerationCounts` | reference/browser/modules/interface-currentness.js:219-227 | the generation counts the observations begun |
| `InterfaceCurrentness.Controller.EmitState` | reference/browser/modules/interface-currentness.js:207-212 | emits the derived state with the generation |
| `InterfaceCurrentness.Controller.ObserveStart` | reference/browser/modules/interface-currentness.js:219-234 | observe up to its first await, on the fields |
| `InterfaceCurrentness.Controller.ReadsSettled` | reference/browser/modules/interface-currentness.js:236-277 | from the settled reads to the admission callback: stale exactly when not current, else the four accepts in order |
| `InterfaceCurrentness.Controller.CallbackEnd` | reference/browser/modules/interface-currentness.js:279-289 | a completed admission callback is followed by one emission of the derived state with the current generation, one that threw by none |
| `DraftTransactions.Linearises` | reference/browser/evolution/purpose-workspace-projection.js:122-191 | the visible draft and journal link are the fold of the applied operations in order, and the revision counts them |
| `DraftTransactions.RejectedInert` | reference/browser/evolution/purpose-workspace-projection.js:148-191 | a rejected request changes nothing but receipt log and ordinal |
| `DraftTransactions.ReceiptsChain` | reference/browser/evolution/purpose-workspace-projection.js:122-147 | each receipt starts at the revision where the one before ended |
| `DraftTransactions.OneAppliedPerRevision` | reference/browser/evolution/purpose-workspace-projection.js:148-191 | two applied requests never share a prior revision |
| `DraftTransactions.ExpectedRevisionDecides` | reference/browser/evolution/purpose-workspace-projection.js:155-156 | an applied request expects the revision of its receipt; one is stale if and only if it is addressed to the draft with a non-negative integer other than that |
| `DraftTransactions.AppliedOncePerExpectation` | reference/browser/evolution/purpose-workspace-projection.js:156 | of the requests that expect one and the same revision at most one is applied |
| `DraftTransactions.JudgedByAppliedBefore` | reference/browser/evolution/purpose-workspace-projection.js:153-158 | every request of a history is judged by the number of requests applied before it and by the content they left |
| `DraftTransactions.AppliedExactly` | reference/browser/evolution/purpose-workspace-projection.js:148-191 | a request is applied if and only if it addresses the draft, expects as many revisions as were applied before it, and its operation and payload are let through |
| `DraftTransactions.PerformedExactly` | reference/browser/evolution/purpose-workspace-projection.js:157-190 | which patches, links and resets are let through, by their JSON, whatever the content is |
| `DraftTransactions.TargetExactly` | reference/browser/evolution/purpose-workspace-projection.js:62-76 | a journal target is taken exactly when it holds the fields of its class and nothing else, each with text in it and its sources a list of different texts |
| `DraftTransactions.AppliedEffect` | reference/browser/evolution/purpose-workspace-projection.js:159-189 | what an applied request does to each field and to the link, and what its receipt reports, after any history |
| `DraftTransactions.ReceiptsNamed` | reference/browser/evolution/purpose-workspace-projection.js:151-152 | a receipt carries the reference of its request or the next of a numbering without gaps, and its operation |
| `DraftTransactions.WindowKept` | reference/browser/evolution/purpose-workspace-projection.js:145 | the kept receipts are the last of the full log, for a positive limit |
| `DraftTransactions.WindowExactly` | reference/browser/evolution/purpose-workspace-projection.js:145 | that holds if and only if the limit is positive |
| `DraftTransactions.PatchValue` | reference/browser/evolution/purpose-workspace-projection.js:163-165 | a patch sets exactly the fields it names |
| `DraftTransactions.PatchReportsDifference` | reference/browser/evolution/purpose-workspace-projection.js:163-165 | the reported fields of a patch are the real difference if and only if it leaves the platform list out |
| `DraftTransactions.ResetReportsDifference` | reference/browser/evolution/purpose-workspace-projection.js:183-186 | the same for a reset, in every reachable state |
| `DraftTransactions.ResetClears` | reference/browser/evolution/purpose-workspace-projection.js:183-189 | an applied reset empties the draft and keeps the journal link |
| `DraftTransactions.ServeOnlyEdits` | reference/browser/evolution/purpose-workspace-projection.js:155-189 | only editable fields ever leave their empty value |
| `DraftTransactions.LinkedTargetExact` | reference/browser/evolution/purpose-workspace-projection.js:62-76 | a linked target has exactly the declared fields of its class |
| `DraftTransactions.Session.RecordReceipt` | reference/browser/evolution/purpose-workspace-projection.js:122-147 | the receipt, its ordinal and the window on the fields |
| `DraftTransactions.Session.Execute` | reference/browser/evolution/purpose-workspace-projection.js:148-191 | the transaction on the fields is its function |
| `DraftTransactions.Session.TransactDraft` | reference/browser/evolution/purpose-workspace-projection.js:148-191 | the session stays the history of all requests served; stale exactly when the request expects another revision than the current one; whatever is not applied leaves draft, link and revision alone |
| `FoundationTraining.TruthSound` | training/foundation-generation/foundation_train.py:54-91 | a report from an attempt state in line with the facts is sound: each of the five effect states exactly in its case, changed or unchanged only from the comparison, steps never too high |
| `FoundationTraining.LoopsAccount` | training/foundation-generation/foundation_train.py:677-704 | the final counters of the loops equal the closed form in epochs, batches, accumulation and step limit |
| `FoundationTraining.PlanAccounts` | training/foundation-generation/foundation_train.py:667-704 | the action sequence of an uninterrupted execution holds exactly the accounted optimizer and micro steps, and so has that length |
| `FoundationTraining.PlanOrder` | training/foundation-generation/foundation_train.py:667-772 | the order of that sequence: preparation first, a step as soon as its batches are gathered and as clip, step and clear, the comparison after them, saving last and only if something changed |
| `FoundationTraining.Attempt.OptimizerStep` | training/foundation-generation/foundation_train.py:686-691 | three actions, completed exactly when the budget has three left; the attempt state is in line with the facts at each point |
| `FoundationTraining.Attempt.Optimize` | training/foundation-generation/foundation_train.py:667-704 | the loops perform exactly their action sequence as far as the budget goes, are interrupted exactly when it is longer, and end with the accounted steps |
| `FoundationTraining.Attempt.Execute` | training/foundation-generation/foundation_train.py:627-772 | what is performed and begun follows the plan of the inputs; done, no step and nothing changed exactly in their cases |
| `FoundationTraining.ExecuteAndReport` | training/foundation-generation/foundation_train.py:782-796 | interrupted exactly when the plan is longer than the budget; every field of the report is true of the facts, a function of the inputs and the interruption point |
| `CandidateReceipt.CandidateFileDigests` | training/foundation-generation/foundation_train.py:556-563 | the loop over the directory digests exactly the files whose names are not excluded |
| `CandidateReceipt.DigestsAgree` | training/foundation-generation/foundation_evaluate.py:86-95 | trainer and evaluator digest alike if and only if no file carries the evaluation receipt's name |
| `CandidateReceipt.ObservedProvenance` | training/foundation-generation/foundation_train.py:298-402 | an observation made by the trainer passes the provenance check if and only if the host is documented |
| `CandidateReceipt.ObservedExactly` | training/foundation-generation/foundation_train.py:298-402 | on which hosts the trainer gets an observation, and every member of it |
| `CandidateReceipt.ExecutedExactly` | training/foundation-generation/foundation_train.py:627-772 | an execution succeeds if and only if the accelerator can be observed, a parameter changed and a file was saved; it adds its receipt and touches nothing else |
| `CandidateReceipt.ProvenanceExactly` | training/foundation-generation/foundation_evaluate.py:114-206 | the verifier admits exactly the observations that the trainer could have made on a documented host, as far as it reads them |
| `CandidateReceipt.AcceptsExactly` | training/foundation-generation/foundation_evaluate.py:209-271 | a directory is accepted if and only if its receipt is, field by field, the one the trainer writes for the files that are not evidence, with an admitted observation and a changed parameter |
| `CandidateReceipt.AcceptedClaims` | training/foundation-generation/foundation_evaluate.py:209-271 | what an accepted receipt claims: the executed training of this run, changed weights, and the unobserved source fingerprints |
| `CandidateReceipt.AcceptedFingerprints` | training/foundation-generation/foundation_evaluate.py:51-95 | the digest of every file that is not evidence, and from which documents each fingerprint and identity of an accepted receipt is computed |
| `CandidateReceipt.ProducerVerifierAgree` | training/foundation-generation/foundation_evaluate.py:209-271 | the receipt of a successful execution is accepted if and only if the host is documented and no checkpoint file carries the evaluation receipt's name |
| `CandidateReceipt.StillAccepted` | training/foundation-generation/foundation_evaluate.py:86-95 | writing the evaluation receipt beside it changes no verdict |
| `CandidateReceipt.AcceptedUntouched` | training/foundation-generation/foundation_evaluate.py:209-271 | two directories accepted with one receipt hold the same non-evidence files |
| `CandidateReceipt.AcceptedAsSaved` | training/foundation-generation/foundation_train.py:721-772 | an accepted directory holds the checkpoint as saved: nothing added, removed or changed |
| `CandidateReceipt.AcceptedForOneManifest` | training/foundation-generation/foundation_evaluate.py:98-206 | a receipt is accepted for one manifest only |
| `CandidateReceipt.IdentityDetermines` | training/foundation-generation/foundation_train.py:102-119 | equal candidate identities mean equal checkpoints |
| `ScopeKeys.Utf8RoundTrip` | reference/browser/modules/chat-controller.js:39-43 | UTF-8 decoding undoes encoding |
| `ScopeKeys.PercentRoundTrip` | reference/browser/modules/chat-controller.js:39-43 | percent decoding undoes encoding (section 2.1 of RFC 3986) |
| `ScopeKeys.ComponentRoundTrip` | reference/browser/modules/chat-controller.js:39-43 | decoding undoes encodeURIComponent (section 19.2.6.4 of ECMA-262) |
| `ScopeKeys.EncodeAppend` | reference/browser/modules/chat-controller.js:39-43 | text is encoded piece by piece |
| `ScopeKeys.EncodedAscii` | reference/browser/modules/chat-controller.js:39-43 | which characters of ASCII are written as they are, and how the others are (section 19.2.6.4 of ECMA-262) |
| `ScopeKeys.EncodedAsIs` | reference/browser/modules/chat-controller.js:39-43 | text of such characters is its own encoding |
| `ScopeKeys.SplitJoin` | reference/browser/modules/chat-controller.js:39-43 | splitting undoes joining when no part holds the separator |
| `ScopeKeys.DraftKeyRoundTrip` | reference/browser/modules/chat-controller.js:39-43 | a draft key reads back as its scope |
| `ScopeKeys.DraftKeyIs` | reference/browser/modules/chat-controller.js:28-43 | the form of a draft key: the prefix and the three encoded parts between colons |
| `ScopeKeys.DraftKeyInjective` | reference/browser/modules/chat-controller.js:39-43 | distinct scopes have distinct draft keys |
| `ScopeKeys.PreferenceKeyRoundTrip` | reference/browser/modules/feature-walkthrough-runner.js:38-41 | a preference key reads back as its identity |
| `ScopeKeys.PreferenceKeyIs` | reference/browser/modules/feature-walkthrough-runner.js:38-41 | the form of a preference key: prefix and encoded parts between slashes |
| `ScopeKeys.GuideKeyRoundTrip` | reference/browser/modules/feature-walkthrough-runner.js:27-41 | the same for the prefix the guide uses |
| `ScopeKeys.DraftReadBack` | reference/browser/modules/chat-controller.js:45-87 | a draft written is read back by its own scope and changes what no other scope reads |
| `ScopeKeys.ReadAtExactly` | reference/browser/modules/chat-controller.js:45-65 | exactly which stored records are read as the draft of a scope |
| `ScopeKeys.StorageIsScopeMap` | reference/browser/modules/chat-controller.js:45-87 | over any sequence of writes to a storage that holds anything, each scope reads its last write, or what it read before |
| `ScopeKeys.PreferencesIsolated` | reference/browser/modules/feature-walkthrough-runner.js:121-180 | whatever the store held and whichever writes fail, each identity reads the last choice taken for it, or what it read before |
| `ScopeKeys.ReadPreferenceExactly` | reference/browser/modules/feature-walkthrough-runner.js:121-180 | nothing, a failed read, or a preference of that very identity, each exactly in its case |
| `ScopeKeys.ConversationKeysCollide` | reference/browser/modules/demo-data.js:1-3 | two distinct scopes with one message list key |
| `ScopeKeys.ConversationKeyInjective` | reference/browser/modules/demo-data.js:1-3 | the list key tells scopes apart whose first two parts hold no `::` and end in no colon |
| `ScopeKeys.KeyUnambiguousExactly` | reference/browser/modules/demo-data.js:1-3 | no other exact scope has the key of an exact scope if and only if the key can be cut only at that scope's own borders |
| `MessageList.DropPassed` | reference/browser/modules/chat-controller.js:1762-1765 | repeated removal by reference reaches a message only after every earlier carrier of its reference |
| `MessageList.TurnExactly` | reference/browser/modules/chat-controller.js:1817-1926 | what a turn does to the list, exactly, whatever references it holds: the first earlier carriers go, the message goes when they are fewer than the removals |
| `MessageList.TakenBackExactly` | reference/browser/modules/chat-controller.js:1819-1861 | a turn that puts the text back takes out its own message alone if and only if no earlier message carries the reference and, where it removes twice, no later one |
| `MessageList.NewestTakenBackExactly` | reference/browser/modules/chat-controller.js:1760-1861 | the same for the newest message, as sends are: if and only if no earlier message carries the reference |
| `MessageList.OwnStaysExactly` | reference/browser/modules/chat-controller.js:1760-1926 | the sent message stays exactly when its removals are used up by earlier carriers of its reference |
| `MessageList.SentTakenBackExactly` | reference/browser/modules/chat-controller.js:1928-1946 | a send under the computed reference leaves the list as it was if and only if no message carried that reference |
| `MessageList.SentKept` | reference/browser/modules/chat-controller.js:1940-1953 | a send whose text is not put back adds the message, and a reply on success, and changes nothing else |
| `MessageList.OutcomeByFields` | reference/browser/modules/chat-controller.js:1819-1926 | by the fields of the answer: which turn completes, which leaves its message with the server, which puts the text back, and how often the message is removed |
| `MessageList.HeadByFields` | reference/browser/modules/chat-controller.js:708-726 | to which identity the head moves, by the fields of the answer |
| `MessageList.KeptByFields` | reference/browser/modules/chat-controller.js:1838-1912 | the rows of message and reply after a turn that puts nothing back, with their references and numbers |
| `MessageList.SentUnder` | reference/browser/modules/chat-controller.js:697-706 | the number and the reference a message is sent under |
| `MessageList.SentRefByFields` | reference/browser/modules/chat-controller.js:1839-1866 | the reference the message has when its turn is over |
| `MessageList.RunFresh` | reference/browser/modules/chat-controller.js:697-726 | over any run of sends, adoptions and refreshes whose completed answers bring both references, no message carries the reference the next is sent under |
| `MessageList.RunTakesBack` | reference/browser/modules/chat-controller.js:697-726 | so after any such run a failing send leaves the list as it was |
| `MessageList.SecondSendTakesFirst` | reference/browser/modules/chat-controller.js:704 | two sends in an ABSENT conversation: the second, failing, removes the first message and stays |
| `CompanionTurn.RemovesExactly` | reference/browser/modules/chat-controller.js:1760-1765 | removal by reference removes the message itself if and only if no earlier one carries its reference |
| `CompanionTurn.DraftKeyIsolates` | reference/browser/modules/chat-controller.js:39-43 | the draft key used is one that tells scopes apart |
| `CompanionTurn.Drafts.SetLocalDraft` | reference/browser/modules/chat-controller.js:1032-1040 | a draft set is read back on a working storage; it throws exactly on a refusing one; other channels keep theirs |
| `CompanionTurn.Chat.RestoreCompanionDraft` | reference/browser/modules/chat-controller.js:1760-1772 | the first carrier of the reference leaves the list and the text enters draft and composer |
| `CompanionTurn.Chat.TakeUpConfirmation` | reference/browser/modules/chat-controller.js:1819-1837 | one removal, or two when something throws, and the text in draft and composer |
| `CompanionTurn.Chat.TakeUpFailure` | reference/browser/modules/chat-controller.js:1838-1861 | a durable failure marks and keeps the message with its failure record and binds the head; another one takes the message back |
| `CompanionTurn.Chat.TakeUpCompletion` | reference/browser/modules/chat-controller.js:1862-1912 | a completed turn marks the message, binds the head and appends the reply, unless taking it up throws |
| `CompanionTurn.Chat.MarkSource` | reference/browser/modules/chat-controller.js:1839-1870 | the reference, number, truth class, head, attention and failure the server gives the sent message |
| `CompanionTurn.Chat.BindHead` | reference/browser/modules/chat-controller.js:708-726 | the head moves only to a complete identity, and only once it is reached |
| `CompanionTurn.Chat.AppendReply` | reference/browser/modules/chat-controller.js:1872-1894 | the reply carries the answer's text, its reference or the computed one, and goes behind the list |
| `CompanionTurn.Chat.RequestReply` | reference/browser/modules/chat-controller.js:1774-1926 | for every outcome and every list, from the fields of the answer: completed exactly on an ok completed turn with content and no fault, the text in the draft of a working storage exactly when it is put back, the list and head of the turn, where the text is held after it, and the pending flag cleared |
| `CompanionTurn.SendShows` | reference/browser/modules/chat-controller.js:1928-1946 | what a send shows in the list: the message under the server's reference and the reply, or the list as it was exactly when no message carried the reference |
| `CompanionTurn.Chat.SendMessage` | reference/browser/modules/chat-controller.js:1928-1954 | from the fields of the answer: growth 2 with the answer's text last when it completes, 1 when the server holds the message, and otherwise the text in the draft and the list as it was if and only if no message carried the reference |
| `FamilyRoom.RoomsRemoved` | reference/browser/modules/family-room-controller.js:300-356 | taking a snapshot out again leaves exactly what it did not overwrite |
| `FamilyRoom.ReversibleExactly` | reference/browser/modules/family-room-controller.js:300-356 | install then remove gives the base back, order included, if and only if no companion key or message list of the snapshot is taken |
| `FamilyRoom.RunProjects` | reference/browser/modules/family-room-controller.js:468-494 | over any run of refreshes the chat is the base plus the projection of the last snapshot alone, and the bare base when held |
| `FamilyRoom.MemberKeyExactly` | reference/browser/modules/family-room-controller.js:238-242 | a member key names its principal at that moment if and only if a role of the principal existed or the index-based key was free |
| `FamilyRoom.RoomKeysExactly` | reference/browser/modules/family-room-controller.js:313-355 | for any rooms: the scope, companion role and keys of each installed channel, and each member key names its own principal if and only if that principal is nameable after the base and the rooms before |
| `FamilyRoom.SingleRoomKeysExactly` | reference/browser/modules/family-room-controller.js:313-351 | its case of one room, in terms of the base alone: each member key names its own principal if and only if that principal is nameable in the base; the last, which is also the channel's role key, names the companion |
| `FamilyRoom.TwoRoomsMisname` | reference/browser/modules/family-room-controller.js:238-242 | with two rooms the index-based keys coincide and name the wrong member |
| `Common.DecimalRoundTrip` | reference/browser/modules/family-room-controller.js:241 | the index in a key can be read back |
| `FamilyRoom.RoomsListed` | reference/browser/modules/family-room-controller.js:352-354 | the projected message lists are those of the rooms, and all of them start empty |
| `FamilyRoom.RoomsRead` | reference/browser/modules/family-room-controller.js:398-403 | after a refresh every room's list holds what was read for it, or nothing |
| `FamilyRoom.Projection.SpliceChannels` | reference/browser/modules/family-room-controller.js:301-307 | splicing from the end removes exactly the projected channels, order kept, with their lists |
| `FamilyRoom.Projection.DeleteRoles` | reference/browser/modules/family-room-controller.js:308 | deletes exactly the injected roles, in any order |
| `FamilyRoom.Projection.RemoveInjectedProjection` | reference/browser/modules/family-room-controller.js:300-311 | the whole removal on the fields |
| `FamilyRoom.Projection.InstallProjection` | reference/browser/modules/family-room-controller.js:313-356 | the loop over the rooms installs the snapshot |
| `FamilyRoom.Projection.InstallRoom` | reference/browser/modules/family-room-controller.js:316-354 | the members, companion, channel and list of one room on the fields |
| `FamilyRoom.Projection.FillLists` | reference/browser/modules/family-room-controller.js:382-405 | the lists of the rooms read are replaced by what was read, no other list |
| `FamilyRoom.Projection.Refresh` | reference/browser/modules/family-room-controller.js:468-494 | one refresh that no other overlaps, on the fields |
| `FamilyRoom.Projection.FillRoom` | reference/browser/modules/family-room-controller.js:398-404 | the messages of one room arrive; when its list is gone the refresh ends held |
| `FamilyRoom.OverlapsProject` | reference/browser/modules/family-room-controller.js:468-494 | however the pieces of any refreshes interleave, the chat is the base with the snapshot in force and what arrived for it |
| `FamilyRoom.LateFillTakesOut` | reference/browser/modules/family-room-controller.js:398-404 | messages for a list that is gone leave no projected channel and no injected role, whatever was installed |
| `ClosedAlpha.DeliveryGuarded` | reference/browser/cdr-s5-closed-alpha/app.js:141-260 | in every reachable state delivery off NOT_CONNECTED implies canAdvanceDelivery |
| `ClosedAlpha.OpenExactly` | reference/browser/cdr-s5-closed-alpha/app.js:66-76 | delivery can be brought to a connected value without a reset if and only if nothing was revoked, withdrawn or disconnected |
| `ClosedAlpha.DeliveryEarned` | reference/browser/cdr-s5-closed-alpha/app.js:147-260 | delivery implies, since the last reset: consent, a last received invitation agreed to afterwards, no revocation, withdrawal or disconnection, a verified identity and an available route as last chosen, and no failure |
| `ClosedAlpha.HistoryTold` | reference/browser/cdr-s5-closed-alpha/app.js:147-260 | over any sequence of handlers each select holds its last choice and each flag what was pressed since the last reset; consent counts exactly if nothing was withdrawn before |
| `ClosedAlpha.NextHolds` | reference/browser/cdr-s5-closed-alpha/app.js:153-203 | which events set a failure, which take back only their own, and which set the decision |
| `ClosedAlpha.DeliverExactly` | reference/browser/cdr-s5-closed-alpha/app.js:66-76 | the delivery select moves the delivery if and only if nothing is revoked, withdrawn or disconnected, consent, invitation, decision, identity and route are in order and no failure stands |
| `ClosedAlpha.OthersStop` | reference/browser/cdr-s5-closed-alpha/app.js:153-246 | which other events stop the delivery; all others leave it |
| `ClosedAlpha.PeerHeld` | reference/browser/cdr-s5-closed-alpha/app.js:167-209 | over any sequence of handlers the failure of an unreachable peer stands if and only if the last deciding event says so, and while it stands delivery is stopped |
| `ClosedAlpha.PresenceIgnoredExactly` | reference/browser/cdr-s5-closed-alpha/app.js:66-76 | delivery can be reached without a reset and with presence untouched if and only if nothing was revoked, withdrawn or disconnected |
| `ClosedAlpha.UnreachableButDelivering` | reference/browser/cdr-s5-closed-alpha/app.js:178-209 | from every state that may advance, a route that fails and recovers lets delivery go on to an unreachable peer |
| `ClosedAlpha.Replay` | reference/browser/cdr-s5-closed-alpha/app.js:141-260 | the thirteen handlers on the state object, one after the other, are the run of the machine |

## Left out

- Floating point: coordinates, rates and credits are real numbers; rounding of doubles is not modelled.
- Guide window: pointer and keyboard plumbing, focus, persistence of the preferred geometry, `restorePreferredGeometry`,
  the selection of the protected elements, and the right and bottom style properties; measured rectangles are inputs.
- Turn stream: the branch for a response that is not ok, the checks of the callback types, and the text decoder;
  chunks are decoded text, and `JSON.parse` and the callbacks are parameters.
- Adaptive reveal: text segmentation is a parameter whose units concatenate to the delta; clock readings of a frame are
  numbers; frames that fire after they were cancelled, and a `requestFrame` that throws or calls back at once, are not
  modelled.
- Currentness: of the compound state store only the latest inputs and the recomputed output are modelled, not its
  revisions and hashes; the fetch normalizers, automatic recovery and page reload are left out.
- Currentness: a scope that is unavailable at the start of an observation re-emits the state that was there, as in
  the code, so a READY of an earlier scope can be emitted once more; the send gate still compares scopes.
- Draft transactions: the exception before the contract is loaded, constant receipt fields, the provenance snapshot,
  and field names that coincide with prototype properties.
- Trainer: models, data, losses and file access are outside; an attempt can be interrupted at every action named in
  the model, and whether weights changed is an input. The program prints a report only for its own exception class;
  the model builds the report for every interruption.
- Receipts: SHA-256, canonical JSON and the reading of a written receipt are functions; that contents or fingerprints
  do not collide is assumed for the pairs compared; receipts with ill-typed fields are not modelled, and lower-casing
  is that of ASCII.
- Scope keys: lone surrogates, for which encodeURIComponent throws, and scopes with missing parts, which are rejected
  with an exception; a stored item that does not parse is `NotARecord`.
- Companion turn: one channel's list; unread counts, rendering, the semantic relay's content, recovery and the further
  fields of a reply. The list is not replaced by a refresh while a turn runs.
- ApplyPlacement: does not set right and bottom to auto, and takes finite geometry only, which is all the solver gives.
- RecordReceipt: does not carry the receipt fields that are constants of the contract.
- TakeUpConfirmation: does not carry the semantic relay attention shown beside the composer.
- TakeUpFailure: does not carry the work trace and the model reasoning of the failure record.
- TakeUpCompletion: does not carry the vessel projection that is handed on after the reply is in the list.
- AppendReply: does not carry the work trace and the formation fields of a reply.
- Family room: normalization of snapshots and messages, the status view, and lifecycle calls;
  roles are in insertion order, so keys that look like integers, which a browser lists first, are not reordered.
- Feature walkthrough: `resolve`, `stage` and `advance` are single-branch checks of a plan and its targets; only the
  preference keys, the store and the choices are modelled.
- Closed alpha: rendering, the locale and the support panel; texts that the code does not compare with are `Other`.
- Relationship, terrain and navigation controllers, experience guidance and the blueprint files: their contract values
  are parameters.
