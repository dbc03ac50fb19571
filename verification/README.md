# Verified models of the agent's durable turns and of the auth protocols

This project models, in Dafny 4.11, the parts of the ThesisTrace agent and auth
services whose correctness depends on state that survives crashes, replays and
interleavings, and proves what they keep.

`dafny verify dfyconfig.toml` checks the whole project.

## What is modelled

- **Context compaction.** `ContextSource`, `ContextSelection`, `ContextSelector`:
  stamps of the source, the closure over protocol groups and the greedy token
  budget, as the loops of the program and as a specification that they equal.
  `ContextCheckpoint`, `ContextPublication`, `ContextController`: the checkpoint
  row, the cycle that owns it, and conservation of every part over any
  interleaving of controllers, runs, restarts and appends. `EvidenceGroups`,
  `EvidenceBatches`, `EvidenceReader`: the finest grouping of evidence and the
  reader that cuts an oversized group into UTF-16 fragments.
- **Turns.** `SessionTables` gives each transaction of the session repository as
  a function on its rows, since a lock is held per thread. `SessionInvariants`
  and `SessionHistory` prove what every run of callers and host restarts keeps
  and what it can never take back. `SessionRepository` is the repository as a
  class that changes rows step by step and rolls back; `TurnControl` and
  `ModelRecovery` are the protocols over it, with any other transactions
  committing between their own.
- **Model charges.** `ModelSettlement` is the protocol of journal, ledger and the
  shared flush, one write at a time; `ModelBudget` and `MeteredModel` are the
  classes.
- **Billing.** `BillingRows`, `BillingConvergence`, `BillingEvents`: provider
  snapshots in any order and number, and the plan that follows from them.
- **Smaller cores.** `CanonicalJson` (an injective printer), `A2UIMerge` (a splice
  merge), `StreamGuard` (held-back tool parts), `CodeMode` (a semaphore with
  wakeups), `RateLimit` (fixed windows), `LockOrder`, `OperationCoordinator` and
  `SerialExecutor` (advisory locks and a keyed queue). `Utf16` and `Wrappers` are
  shared.

A class mirrors a class of the program: each method changes its fields in the
program's order, and its contract ties the new state to a function of the old
one. What the program promises is proved about those functions.

## Where the code does not meet a stated expectation

Each of these is a lemma with the exact condition.

- A stopped run can keep an open question for good. `markFailed` on a stopping
  run closes no question, and a restart then accepts the stop command without
  closing it either (`SessionHistory.FailureAbandonsTheQuestion`,
  `SessionHistory.OpenQuestionOfAStoppedRun`).
- The outcome entry of a run that `markFailed` stopped carries an error code that
  the run itself does not have (`SessionHistory.OutcomeErrorCode`).
- A restart does not free a context cycle whose run completed, and then the
  thread's checkpoint stays claimed until that cycle itself is released
  (`SessionHistory.RestartFreesOwner`, `SessionHistory.CompletedOwnerStays`).
  The rows allow it (`SessionHistory.LostReleaseReachesIt`); `prepareContext`
  releases in `finally`, so it takes a release that failed, or a begin whose
  answer was lost, and a caller that completes the run all the same.
- `settle`, `absorb` and `recoverInterrupted` can return well while a charge is
  still reserved, its outcome pending in the journal: a caller may share a flush
  that has already read an empty journal but whose promise is not cleared yet
  (`ModelSettlement.CallReturnsDecided`, `ModelSettlement.LateCall`,
  `ModelSettlement.RecoveryReturnsDecided`).
- The two-key limiter reports the wait of the key that blocked; the other key may
  still block then (`RateLimit.TokenRetryIsHonoured`,
  `RateLimit.IpRetryIsHonoured`, `RateLimit.TokenRetryCanFail`).
- Keys taken in increasing order do not exclude deadlocks, because a lock is named
  by a hash. Clients can deadlock exactly if two of the keys in use name two locks
  in one order and two of them in the other (`LockOrder.DeadlockIffCrossing`); a
  collision alone is harmless.

## Model

| member | source | states |
|---|---|---|
| `ContextSource.MatchesTransitive` | apps/agent/src/session-context-state.ts:54-64 | if a frozen source matches a later one and that one a third, the first matches the third, for any identities |
| `ContextSource.MatchesIsGrowth` | apps/agent/src/session-context-state.ts:54-64 | on messages with distinct ids, a match is exactly in-place growth: same prefix of messages, same headers, parts only appended |
| `ContextSource.AppendedAreUncovered` | apps/agent/src/session-context-selection.ts:93-99 | the references added after a watermark are exactly the existing parts that the watermark does not count |
| `ContextSource.PartsAreSharedOut` | apps/agent/src/session-context-selection.ts:117-132 | two disjoint selections that cover a message share its parts out: what one keeps the other drops, and nothing is lost |
| `ContextSource.Project` | apps/agent/src/session-context-selection.ts:117-132 | fails exactly when a reference addresses no part; otherwise each message keeps exactly its selected parts, in order |
| `ContextSource.ComputeEffectiveReferences` | apps/agent/src/session-context-selection.ts:91-102 | the retained references followed by all appended ones, or the error of a changed source or of an invalid reference |
| `ContextSource.RestoreContextTail` | apps/agent/src/session-context-selection.ts:86-88 | the messages projected on the effective references whose messages are not excluded |
| `ContextSelection.ClosureIsLeast` | apps/agent/src/session-context-selection.ts:56-65 | the closure is closed under the protocol relation, contains the start and is contained in every closed superset |
| `ContextSelection.LeastIsClosure` | apps/agent/src/session-context-selection.ts:56-65 | whatever is least with these properties is the closure |
| `ContextSelection.ClosureMonotone` | apps/agent/src/session-context-selection.ts:56-65 | more to start with never closes to less |
| `ContextSelection.ClosureAbsorbs` | apps/agent/src/session-context-selection.ts:67-79 | closing in the middle of the work does not change what is reached in the end |
| `ContextSelection.TailStartIsLongest` | apps/agent/src/session-context-selection.ts:67-73 | a suffix's closure fits the token budget exactly when the suffix is no longer than the one the budget phase keeps |
| `ContextSelector.CloseGroups` | apps/agent/src/session-context-selection.ts:56-65 | the in-place loop terminates with the least superset closed under the groups |
| `ContextSelector.BuildGroups` | apps/agent/src/session-context-selection.ts:26-55 | two parts lie in a common group exactly when they share a protocol step, an enveloped message or a tool call |
| `ContextSelector.Close` | apps/agent/src/session-context-selection.ts:56-65 | closing under the built groups gives the closure under the protocol relation |
| `ContextSelector.RetainTail` | apps/agent/src/session-context-selection.ts:66-73 | the budget loop retains exactly the closure of the longest suffix whose closure fits |
| `ContextSelector.SelectContextHistory` | apps/agent/src/session-context-selection.ts:10-83 | the whole selection, with every error case, equals its specification: the least closed set over the tail, the current request, the fixed messages and the unfinished calls |
| `ContextPublication.SelectionPartitions` | apps/agent/src/session-context-selection.ts:16-19 | every active part of a message that is not excluded is retained or removed, never both, and nothing else is either |
| `ContextPublication.NothingBoundIsSplit` | apps/agent/src/session-context-selection.ts:24-55 | no protocol step, enveloped message or tool call is split between retained and removed |
| `ContextPublication.EveryReferenceHasOneFate` | apps/agent/src/session-context-selection.ts:85-102 | over any chain of publications a part has either left at exactly one of them or never |
| `ContextPublication.Conservation` | apps/agent/src/session-context-selection.ts:85-102 | a part is in the restored tail exactly when it left at no publication; it leaves at most once, by hand-over or by exclusion, and if its messages were never excluded the tail lacks exactly the parts handed over |
| `ContextPublication.TailIsRestorable` | apps/agent/src/session-context-selection.ts:91-102 | the tail of a chain can be restored exactly when the source still extends the last watermark |
| `ContextPublication.HandedOverUnchanged` | apps/agent/src/session-context-state.ts:54-64 | evidence that was handed over still has in the source the value it had when it was selected |
| `ContextPublication.PublishStep` | apps/agent/src/session-repository.ts:327-347 | a publication raises the revision by one from the one its own begin read, publishes the watermark frozen there, and frees the thread |
| `ContextPublication.StepKeepsConsistent` | apps/agent/src/session-context-controller.ts:54-111 | every step of interleaved controllers, runs, restarts and history changes keeps revision, snapshot and publications in agreement, and the publications only grow |
| `ContextPublication.NothingIsLostOrReturned` | apps/agent/src/session-context-controller.ts:54-111 | conservation in every state reachable from the empty session, under any interleaving, in which the source still extends the watermark |
| `ContextPublication.NothingIsLostWhileAppending` | apps/agent/src/session-context-controller.ts:54-111 | in every reachable state of a run that only appends to the history, with nothing assumed of that state: the tail can be restored, each part is in it or left at exactly one publication and in one way, and evidence handed over is still in the history unchanged |
| `ContextPublication.AppendsKeepWatermark` | apps/agent/src/session-context-state.ts:54-64 | as long as the history is only appended to, the last watermark applies to it, through every publication, restart and lost cycle |
| `ContextPublication.RestartIsTheTables` | apps/agent/src/session-repository.ts:402-416 | a host restart does to the interleaved controllers exactly what it does to the rows of the thread |
| `ContextPublication.DeadCyclesNeverPublish` | apps/agent/src/session-repository.ts:349-416 | a cycle that was released, committed or cleared by a restart never publishes, whatever the controllers do later |
| `ContextPublication.SelectedSnapshotWellFormed` | apps/agent/src/session-context-state.ts:21-32 | what the controller commits always passes the snapshot's own check |
| `ContextCheckpoint.CheckSnapshot` | apps/agent/src/session-context-state.ts:21-32 | the refinement loop accepts exactly distinct sources with unique retained references inside them |
| `ContextController.SessionContextController.PrepareContext` | apps/agent/src/session-context-controller.ts:54-111 | a claimed cycle is given back on every path, and nothing changes if the old tail cannot be restored or no compaction is needed; a compaction is reported only if exactly the selected boundary of the history read was published as the next revision, its tail can be restored, and the new request fits and improves on a failed one |
| `EvidenceGroups.GroupContextEvidence` | apps/agent/src/session-context-batches.ts:76-93 | the groups are the messages in order, cut exactly where no tool call reaches across |
| `EvidenceGroups.FinestKeepsCallsTogether` | apps/agent/src/session-context-batches.ts:75-93 | no tool call spans two groups |
| `EvidenceGroups.FinestRefinesEveryOther` | apps/agent/src/session-context-batches.ts:75-93 | every other contiguous grouping that keeps calls together is coarser |
| `EvidenceBatches.UnicodeBoundary` | apps/agent/src/session-context-batches.ts:70-73 | the boundary never lies inside a surrogate pair, and moves only if it did |
| `EvidenceBatches.BatchesReassemble` | apps/agent/src/session-context-batches.ts:7-68 | a consumer that knows only the batches gets the evidence back exactly: whole groups in order, the fragments of a group joining to its JSON without gap or overlap |
| `EvidenceReader.ContextEvidenceBatches.AssertComplete` | apps/agent/src/session-context-batches.ts:16-18 | passes exactly when every group was read to its end |
| `EvidenceReader.ContextEvidenceBatches.TakeWholeGroups` | apps/agent/src/session-context-batches.ts:26-34 | the longest run of whole groups each of whose prefixes fits |
| `EvidenceReader.ContextEvidenceBatches.Next` | apps/agent/src/session-context-batches.ts:20-37 | every batch fits and continues where the last one ended; null only at the end; for a monotone test it fails only when no fragment of the group fits |
| `EvidenceReader.ContextEvidenceBatches.NextFragment` | apps/agent/src/session-context-batches.ts:39-67 | a fragment fits and makes progress without cutting a surrogate pair; for a monotone test it fails only when none would |
| `EvidenceReader.ContextEvidenceBatches.Bisect` | apps/agent/src/session-context-batches.ts:52-59 | for a monotone test the search ends at the last end that fits |
| `EvidenceReader.StepsAdvance` | apps/agent/src/session-context-batches.ts:64-65 | each batch makes strict progress |
| `EvidenceReader.ReadAll` | apps/agent/src/session-context-batches.ts:20-37 | for an arbitrary size test that may change between calls, repeated reading ends with all evidence read, or where the test refuses |
| `SessionInvariants.KeepPrepareRun` | apps/agent/src/session-repository.ts:816-1061 | starting a run keeps the invariant: one active run per thread |
| `SessionInvariants.KeepPrepareAnswer` | apps/agent/src/session-repository.ts:1971-2052 | answering keeps it: the waiting run's one question is answered and it runs again |
| `SessionInvariants.KeepPrepareStop` | apps/agent/src/session-repository.ts:1253-1309 | preparing a stop keeps it: a stopping run has a pending stop |
| `SessionInvariants.KeepFinishStop` | apps/agent/src/session-repository.ts:1311-1377 | finishing a stop keeps it: outcome, command and questions agree with the stopped run |
| `SessionInvariants.KeepMarkWaiting` | apps/agent/src/session-repository.ts:1574-1625 | waiting keeps it: exactly one open question |
| `SessionInvariants.KeepMarkCompleted` | apps/agent/src/session-repository.ts:1627-1667 | completing keeps it, with the recoveries settled |
| `SessionInvariants.KeepMarkFailed` | apps/agent/src/session-repository.ts:1669-1712 | failing keeps it; a stopping run is stopped instead |
| `SessionInvariants.KeepHostRestart` | apps/agent/src/session-repository.ts:358-453 | a restart of the host, at any point, keeps it |
| `SessionInvariants.KeepRecordStepStop` | apps/agent/src/session-repository.ts:201-231 | a step stop keeps original and replacement ids disjoint, given fresh replacement ids |
| `SessionInvariants.KeepUpdateRecovery` | apps/agent/src/session-repository.ts:254-275 | only an improving budget is recorded, and only while recovering |
| `SessionInvariants.StepKeepsInv` | apps/agent/src/session-repository.ts:201-2052 | every transaction, committed or rolled back, keeps the whole invariant |
| `SessionInvariants.RunsKeepInv` | apps/agent/src/session-repository.ts:201-2052 | so does every run of callers and restarts |
| `SessionInvariants.CompletionIsChecked` | apps/agent/src/session-repository.ts:2294-2305 | a running turn completes exactly when every open recovery has an improving budget and a validated replacement, and then none is left open |
| `SessionHistory.HistoryIsKept` | apps/agent/src/session-repository.ts:816-1712 | over any run: ended runs, outcomes, decided commands, closed questions and decided recoveries never change, revisions only grow |
| `SessionHistory.EndedForGood` | apps/agent/src/session-repository.ts:2307-2328 | a turn that ended keeps its row and its one outcome entry, and the two agree, in every future |
| `SessionHistory.StopWins` | apps/agent/src/session-repository.ts:1253-1309 | once prepareStop committed, no completion, failure or restart makes the run anything but stopping or stopped, and an accepted stop means stopped |
| `SessionHistory.StopCanBeFinished` | apps/agent/src/mastra-turn-control.ts:57-91 | from any crash point after prepareStop the retried stop is a duplicate and finishStop succeeds, with outcome and receipt in place |
| `SessionHistory.FinishStopEnds` | apps/agent/src/session-repository.ts:1311-1377 | with a stop command of the turn, finishStop always succeeds and leaves the turn stopped, its outcome recorded and its questions closed |
| `SessionHistory.StartRetried` | apps/agent/src/session-repository.ts:829-841 | a repeated request is answered as a duplicate in every later state and never starts a second run |
| `SessionHistory.AnswerRetried` | apps/agent/src/session-repository.ts:1971-1984 | a repeated answer is a duplicate, and its question stays answered |
| `SessionHistory.OpenQuestionOfAStoppedRun` | apps/agent/src/session-repository.ts:1354-1358 | a question that a stopped run still asks stays open in every future exactly when no stop command of the run is pending |
| `SessionHistory.FailureAbandonsTheQuestion` | apps/agent/src/session-repository.ts:1669-1712 | stopping a waiting run, a failure of its stream and a restart leave its question open for good: markFailed closes none and the restart accepts the command |
| `SessionHistory.OutcomeErrorCode` | apps/agent/src/session-repository.ts:1683-1699 | the outcome entry of markFailed carries the run's own error code exactly when no stop was under way |
| `SessionHistory.RestartFreesOwner` | apps/agent/src/session-repository.ts:415-416 | a restart frees a thread's cycle exactly when its run has not completed and is not waiting |
| `SessionHistory.CompletedOwnerStays` | apps/agent/src/session-repository.ts:306-356 | a cycle whose run completed keeps the checkpoint row as it is until that cycle itself is released |
| `SessionHistory.LostReleaseReachesIt` | apps/agent/src/session-repository.ts:306-325 | a run that completes without the release of its cycle reaches that state from empty tables |
| `SessionHistory.GoneCyclesNeverCommit` | apps/agent/src/session-repository.ts:327-347 | over any transactions of all threads: a cycle that does not own its row never commits again, if its id is not issued again |
| `SessionHistory.CommitReplacesWhatItRead` | apps/agent/src/session-repository.ts:306-347 | whatever was transacted between begin and commit, a commit replaces exactly the checkpoint that its begin read, by the next revision, on a source that still matches |
| `SessionRepository.ResearchSessionRepository.PrepareRun` | apps/agent/src/session-repository.ts:816-1061 | rows and reply of starting a run, each refusal in its order, rolled back on any |
| `SessionRepository.ResearchSessionRepository.PrepareAnswer` | apps/agent/src/session-repository.ts:1971-2052 | rows and reply of answering a question |
| `SessionRepository.ResearchSessionRepository.PrepareSteer` | apps/agent/src/session-repository.ts:1146-1193 | a pending steer for a running current turn, or the stored receipt |
| `SessionRepository.ResearchSessionRepository.AcceptSteer` | apps/agent/src/session-repository.ts:1195-1239 | a matching steer becomes accepted unless it was rejected |
| `SessionRepository.ResearchSessionRepository.RejectPendingCommand` | apps/agent/src/session-repository.ts:1241-1251 | only a pending command is rejected |
| `SessionRepository.ResearchSessionRepository.PrepareStop` | apps/agent/src/session-repository.ts:1253-1309 | the compare-and-swap to stopping with its pending command, or the stored receipt |
| `SessionRepository.ResearchSessionRepository.FinishTimeline` | apps/agent/src/session-repository.ts:2307-2328 | recoveries settled and an outcome recorded once; refused only for an unready completion |
| `SessionRepository.ResearchSessionRepository.FinishStop` | apps/agent/src/session-repository.ts:1311-1377 | run stopped, command accepted, outcome recorded, questions closed, or the refusal |
| `SessionRepository.ResearchSessionRepository.MarkWaiting` | apps/agent/src/session-repository.ts:1574-1625 | the run waits with one new question; a reused question id rolls back |
| `SessionRepository.ResearchSessionRepository.MarkCompleted` | apps/agent/src/session-repository.ts:1627-1667 | completed, or the status that won before; an unready recovery rolls back |
| `SessionRepository.ResearchSessionRepository.MarkFailed` | apps/agent/src/session-repository.ts:1669-1712 | failed, or stopped if a stop was under way |
| `SessionRepository.ResearchSessionRepository.FailInterruptedRunsAfterHostRestart` | apps/agent/src/session-repository.ts:358-453 | the statements of a restart, in their order and run by run, have the effect of one step on all rows |
| `SessionRepository.ResearchSessionRepository.FinishInterruptedTimelines` | apps/agent/src/session-repository.ts:417-428 | the loop settles exactly the recoveries and records exactly the outcomes of the runs that the restart ended |
| `SessionRepository.ResearchSessionRepository.RecordModelStepStop` | apps/agent/src/session-repository.ts:201-231 | the one row that an id addresses, or a new one; claimed only if new and allowed |
| `SessionRepository.ResearchSessionRepository.CompleteReplacement` | apps/agent/src/session-repository.ts:233-244 | validates exactly one recovering row with a checked budget |
| `SessionRepository.ResearchSessionRepository.InvalidateReplacement` | apps/agent/src/session-repository.ts:246-252 | marks the rows of that replacement invalid |
| `SessionRepository.ResearchSessionRepository.UpdateRecovery` | apps/agent/src/session-repository.ts:254-275 | records an improving budget or a failure, only while recovering |
| `SessionRepository.ResearchSessionRepository.BeginContextCycle` | apps/agent/src/session-repository.ts:306-325 | claims a free row for a running run with its revision and frozen source |
| `SessionRepository.ResearchSessionRepository.CommitContextCycle` | apps/agent/src/session-repository.ts:327-347 | publishes only for the owner, at its revision, on a source that still matches |
| `SessionRepository.ResearchSessionRepository.ReleaseContextCycle` | apps/agent/src/session-repository.ts:349-356 | frees the row only from that very cycle |
| `SessionRepository.ResearchSessionRepository.Serve` | apps/agent/src/session-repository.ts:2604-2634 | any sequence of transactions on the object has the effect of the transition system |
| `TurnControl.MastraTurnControl.Stop` | apps/agent/src/mastra-turn-control.ts:57-91 | whatever commits in between, once prepareStop succeeds the caller gets an accepted receipt and the turn is stopped with its outcome recorded |
| `TurnControl.MastraTurnControl.Steer` | apps/agent/src/mastra-turn-control.ts:15-55 | accepted exactly when the runtime took the steer and nobody rejected it meanwhile; pending only after an error of the control itself |
| `ModelRecovery.ImprovesIff` | apps/agent/src/model-step-recovery.ts:7-18 | between budgets of one model a recovery improves exactly when it was eligible, the input shrank and output room is left |
| `ModelRecovery.EligibleIffImprovable` | apps/agent/src/model-context.ts:49-57 | eligibility holds exactly when some smaller input would improve, provided the empty one leaves room |
| `ModelRecovery.ClaimedOnce` | apps/agent/src/session-repository.ts:200-231 | after a claim, in every later state neither the message nor its replacement is granted another |
| `ModelRecovery.NextResponse` | apps/agent/src/session-model-recovery.ts:20-44 | after any retries and recoveries since the last response: a provider retry gets the same message whatever the retry count, a retried step the replacement recorded last, any other a fresh id |
| `ModelRecovery.LeftBehindForGood` | apps/agent/src/session-model-recovery.ts:20-44 | a message that is neither under way nor the last replacement is never given to a response again, over any calls that do not bring it as a new id |
| `ModelRecovery.SessionModelRecovery.CompleteResponse` | apps/agent/src/session-model-recovery.ts:46-53 | a replacement is validated only by a well-finished response of its own |
| `ModelRecovery.SessionModelRecovery.Handle` | apps/agent/src/session-model-recovery.ts:55-100 | a retry is requested at most once per allowance and only with a recorded improving budget; otherwise a row claimed here is left decided |
| `ModelSettlement.StepKeepsInv` | apps/agent/src/model-budget.ts:125-160 | every step, with crashes between ledger write and journal removal, keeps first outcomes, pending rows and waiting callers in agreement |
| `ModelSettlement.FirstOutcomeWins` | apps/agent/src/model-budget.ts:105-160 | over any run a charge takes the first outcome recorded for it, once, and a known cost is never absorbed |
| `ModelSettlement.CallReturnsDecided` | apps/agent/src/model-budget.ts:125-131 | a settle or absorb whose flush ends well leaves its charge decided exactly unless it joined a flush that had already read an empty journal |
| `ModelSettlement.LateCall` | apps/agent/src/model-budget.ts:125-136 | such a call exists: it returns well while its charge is still reserved |
| `ModelSettlement.RecoveryReturnsDecided` | apps/agent/src/model-budget.ts:114-124 | the same condition for recovery: what it selected is decided unless it joined a drained flush |
| `ModelSettlement.ReplayIsIdempotent` | apps/agent/src/model-budget.ts:137-151 | writing a journalled outcome again after a crash changes nothing |
| `ModelBudget.ModelSettlementJournal.Record` | apps/agent/src/model-settlement-journal.ts:44-60 | keeps the first outcome; two different known costs are refused |
| `ModelBudget.ModelSettlementJournal.Pending` | apps/agent/src/model-settlement-journal.ts:61-76 | every row exactly once |
| `ModelBudget.ModelBudget.MoveRow` | apps/agent/src/model-budget.ts:136-157 | a row is written then removed, a conflicting one only removed, an unanswered write leaves the row |
| `ModelBudget.ModelBudget.Flush` | apps/agent/src/model-budget.ts:132-160 | well ended, the journal is empty and every row moved; a conflict names a conflicting row; an outage leaves the rest pending |
| `ModelBudget.ModelBudget.Conclude` | apps/agent/src/model-budget.ts:105-113 | the outcome is durable before the flush and outages are deferred, so the charge is decided or its outcome pending |
| `ModelBudget.ModelBudget.RecoverInterrupted` | apps/agent/src/model-budget.ts:114-124 | journalled outcomes first, then only what nobody recorded is absorbed; on success nothing is reserved |
| `MeteredModel.VerdictIsFirst` | apps/agent/src/metered-language-model.ts:60-81 | the verdict of a stream is the ruling of its first deciding event |
| `MeteredModel.MeteredCall.Fetch` | apps/agent/src/metered-language-model.ts:48-53 | one invocation per call |
| `MeteredModel.MeteredCall.Settle` | apps/agent/src/metered-language-model.ts:63-76 | a usable cost is known before the budget answers |
| `MeteredModel.MeteredCall.GiveUp` | apps/agent/src/metered-language-model.ts:60-62 | unknown is recorded only for a begun call without a known cost |
| `MeteredModel.MeteredCall.Stream` | apps/agent/src/metered-language-model.ts:100-142 | for every stream the budget hears the first usable finish's cost, never unknown before or after it, or only unknown, at most three times, or nothing while undecided |
| `MeteredModel.MeteredCall.Cancel` | apps/agent/src/metered-language-model.ts:111-133 | a cancel while a pull is open lets that pull settle a finish it had read; otherwise every step of coming down says unknown, and none if the cost was known |
| `CanonicalJson.QuoteReads` | apps/agent/src/canonical-json.ts:7 | a quoted string, lone surrogates included, can be read back from whatever follows it |
| `CanonicalJson.ValueReads` | apps/agent/src/canonical-json.ts:2-11 | the encoding is self-delimiting through nested lists, objects, strings and numbers |
| `CanonicalJson.SortSorts` | apps/agent/src/canonical-json.ts:6 | sorting gives the same members in strictly increasing key order |
| `CanonicalJson.EquivalentPrintsAlike` | apps/agent/src/canonical-json.ts:1-11 | the order of object members does not reach the text |
| `CanonicalJson.CanonicalIsInjective` | apps/agent/src/canonical-json.ts:1-11 | two values have equal encodings exactly when they are equal up to member order |
| `A2UIMerge.Splice` | apps/agent/src/session-repository.ts:2502-2506 | one splice turns the merge of some activities into the merge with one more |
| `A2UIMerge.NothingIsLost` | apps/agent/src/session-repository.ts:2480-2509 | for every input the merge adds every activity once, loses nothing and keeps the transcript in order |
| `A2UIMerge.FailsWithoutOwner` | apps/agent/src/session-repository.ts:2486-2490 | it fails exactly if the owner of some activity is neither in the transcript nor an activity merged before |
| `A2UIMerge.SplicesMerge` | apps/agent/src/session-repository.ts:2480-2509 | with distinct ids, owners that are no tool messages and activities that carry no owner's id: each message in order and, after an owner's run of its own tool results, its activities in input order |
| `A2UIMerge.MergeA2UIActivities` | apps/agent/src/session-repository.ts:2480-2509 | for every input the result of the splices one after the other, or the conflict of the first owner that stands nowhere |
| `StreamGuard.ToolsOnlyWithAFinish` | apps/agent/src/guarded-language-model.ts:191-241 | without a validated finish no tool part is visible; with one, all parts are, and the finish is last |
| `StreamGuard.GuardedStream.Take` | apps/agent/src/guarded-language-model.ts:200-243 | one read extends what was accepted, or ends the stream with at most one error |
| `StreamGuard.GuardedStream.Drain` | apps/agent/src/guarded-language-model.ts:180-250 | for every sequence of reads the consumer sees the accepted parts, tool parts as one block right before the finish, and then the one error if the stream failed |
| `CodeMode.ProgramReads.Dispatch` | apps/agent/src/research-code-mode.ts:153-166 | runs, waits or is refused; call and size limits abort the program |
| `CodeMode.ProgramReads.Resume` | apps/agent/src/research-code-mode.ts:161-166 | a woken waiter takes a slot or waits again behind calls that barged in |
| `CodeMode.ProgramReads.Finish` | apps/agent/src/research-code-mode.ts:168-193 | the slot goes to the first waiter; a fatal or oversized result wakes everybody |
| `CodeMode.ProgramReads.QuietMeansEmpty` | apps/agent/src/research-code-mode.ts:161-193 | no wakeup is lost: with nothing running and nobody woken, nobody waits |
| `CodeMode.ProgramReads.Drain` | apps/agent/src/research-code-mode.ts:161-193 | in whatever order the remaining steps come, every dispatched call runs unless the program is aborted |
| `CodeMode.ProgramHost.Enter` | apps/agent/src/research-code-mode.ts:83-90 | admitted exactly within budget, with no other program of the run and fewer than eight on the host |
| `CodeMode.ProgramHost.Leave` | apps/agent/src/research-code-mode.ts:150 | only an admitted program gives its place back |
| `BillingRows.CheckTransaction` | apps/auth/src/billing-events.ts:163-193 | refunds never exceed the amount, and for a paid amount equal it exactly when the status says refunded |
| `BillingConvergence.ProjectKeepsSum` | apps/auth/src/billing-events.ts:215-236 | one projection keeps the rows the sums of what was projected |
| `BillingConvergence.DeliveriesSumUp` | apps/auth/src/billing-events.ts:351-556 | after any deliveries, with refusals, retries and repetitions, the rows sum up the first accepted attempt of every event and every accepted reconciliation: the largest refund and any dispute or full refund seen, the payment capped by its amount; the processed events are those accepted |
| `BillingConvergence.DeliveriesConverge` | apps/auth/src/billing-events.ts:304-556 | two deliveries with the same accepted attempts, in any order and number and with any refusals in between, end with the same rows, if accepted attempts of one event agree |
| `BillingConvergence.PlansConverge` | apps/auth/src/billing-entitlements.ts:14-33 | and so with the same plan at every time |
| `BillingConvergence.OnlyNewPaymentsRaise` | apps/auth/src/billing-entitlements.ts:14-33 | no processing raises a plan unless it stores a payment that was not there |
| `BillingConvergence.PlansOnlyFall` | apps/auth/src/billing-entitlements.ts:14-33 | the same over any number of deliveries |
| `BillingEvents.EffectivePlan` | apps/auth/src/billing-entitlements.ts:14-33 | max exactly if some payment gives it, free exactly if none gives anything, wherever it stands |
| `BillingEvents.BillingEvents.ProjectTransaction` | apps/auth/src/billing-events.ts:215-236 | adjustment raised, then an existing payment capped and flagged |
| `BillingEvents.BillingEvents.StorePayment` | apps/auth/src/billing-events.ts:468-499 | inserted, or merged into the same identity; a different identity is a conflict |
| `BillingEvents.BillingEvents.Process` | apps/auth/src/billing-events.ts:351-556 | committed with the event marked, skipped if it was marked, or rolled back whole |
| `BillingEvents.BillingEvents.ResearcherPlan` | apps/auth/src/billing-entitlements.ts:14-33 | the plan of a researcher, in whatever order the payments are read |
| `RateLimit.WindowsAreApart` | apps/auth/src/auth-rate-limit.ts:117-138 | every request lies in its window and windows start at least one length apart |
| `RateLimit.OneWindow` | apps/auth/src/auth-rate-limit.ts:117-138 | at most max requests are allowed in one window |
| `RateLimit.BurstBound` | apps/auth/src/auth-rate-limit.ts:111-150 | n window lengths admit at most (n + 1) times max requests, so one length twice max |
| `RateLimit.BurstBoundIsTight` | apps/auth/src/auth-rate-limit.ts:111-150 | the bound for one length is reached |
| `RateLimit.RetryAfterIsExact` | apps/auth/src/auth-rate-limit.ts:17-28 | after a rejection the key admits its next request exactly from the reported number of seconds on |
| `RateLimit.TokenRetryIsHonoured` | apps/auth/src/auth-rate-limit.ts:57-87 | with two keys the wait reported for the token admits the client exactly when the address has room then |
| `RateLimit.IpRetryIsHonoured` | apps/auth/src/auth-rate-limit.ts:57-87 | and the wait for the address exactly when the token has room |
| `RateLimit.TokenRetryCanFail` | apps/auth/src/auth-rate-limit.ts:57-108 | a client that waited as told is rejected again |
| `RateLimit.RateLimits.ConsumeKey` | apps/auth/src/auth-rate-limit.ts:111-150 | the atomic upsert of one key's window |
| `RateLimit.RateLimits.Consume` | apps/auth/src/auth-rate-limit.ts:17-28 | an invalid rule is refused and counts nothing; otherwise one upsert decides, and a row out of range is refused after it was counted |
| `RateLimit.RateLimits.ConsumeIpAndToken` | apps/auth/src/auth-rate-limit.ts:57-87 | the address first, the token only if the address is admitted |
| `LockOrder.KeysAreIncreasing` | apps/auth/src/coordination.ts:46 | the keys of a client are its distinct lock keys in strictly increasing order |
| `LockOrder.StepKeepsInv` | apps/auth/src/coordination.ts:42-141 | no lock ever has two holders |
| `LockOrder.NoCycle` | apps/auth/src/coordination.ts:46-97 | whenever the keys in use do not cross, no clients wait for each other in a circle, even if keys share locks |
| `LockOrder.NoDeadlock` | apps/auth/src/coordination.ts:42-141 | clients whose keys do not cross never deadlock, neither all of them nor a circle of some |
| `LockOrder.BelowIsTransitive` | apps/auth/src/coordination.ts:46-91 | keys that do not cross order their locks: "some key of l sorts before some key of m" is transitive on different locks |
| `LockOrder.DeadlockIffCrossing` | apps/auth/src/coordination.ts:46-97 | the exact condition for any hash: a deadlock, and a circle, can be reached with given keys exactly if those keys name two locks in both orders |
| `LockOrder.CollisionsDeadlock` | apps/auth/src/coordination.ts:87-91 | two clients with crossing keys reach a deadlock in four steps |
| `OperationCoordinator.Session.Run` | apps/auth/src/coordination.ts:42-141 | on every path the session ends without locks, a doubtful connection is destroyed, and a result is reported only from a clean one |
| `OperationCoordinator.Session.AcquireAll` | apps/auth/src/coordination.ts:76-97 | success means the shared lock and every key are held |
| `OperationCoordinator.Session.ReleaseAll` | apps/auth/src/coordination.ts:101-132 | reported safe only if every held lock was released on a live connection |
| `SerialExecutor.MayStartIsNext` | apps/auth/src/coordination.ts:305-314 | whoever may start is preceded only by released calls of its key |
| `SerialExecutor.SomebodyGoesOn` | apps/auth/src/coordination.ts:305-321 | no key is stuck: while a call has not released, one of its key runs or may start |
| `SerialExecutor.KeyedSerialExecutor.Enqueue` | apps/auth/src/coordination.ts:306-312 | a call becomes its key's tail behind the previous one |
| `SerialExecutor.KeyedSerialExecutor.Start` | apps/auth/src/coordination.ts:313-315 | when it starts, it is the only running call of its key |
| `SerialExecutor.KeyedSerialExecutor.Finish` | apps/auth/src/coordination.ts:316-321 | the key's entry is dropped exactly when all its calls have released |
| `RateLimit.AllowedIff` | apps/auth/src/auth-rate-limit.ts:57-87 | the two-key limiter admits a request exactly when neither key is full in a running window |

## Left out

- SQL text, connections, timeouts and pools: a locked transaction is one step on
  rows; in the session repository a failed one changes nothing.
- Timeline entries other than turn outcomes, titles, usage and byte counters,
  session deletion, and the transcript rows of prompts and answers.
- SHA-256 is taken as injective: stamps compare headers and parts themselves, and
  fingerprints are compared as given. UUIDs are fresh: a replacement id names no
  allowance of its thread yet, and a cycle id is issued once.
- The summarizer, observer, agent runtime and provider appear as arbitrary
  results, failures or event sequences; token costs are arbitrary naturals and
  size tests arbitrary predicates; clocks are inputs.
- SessionRepository.ResearchSessionRepository.PrepareRun: does not model the conflict of a reused prompt message id, which the message table raises.
- SessionRepository.ResearchSessionRepository.RejectPendingCommand: the invariant survives it only for commands that are no stops; its one caller rejects a steer.
- ContextCheckpoint.CheckSnapshot: covers the schema's refinement of sources and retained references, not its checks of texts and counters.
- ContextController.SessionContextController.PrepareContext: token budgets, generation and the histories read are inputs; the abort signal is one of the failures.
- EvidenceReader.ContextEvidenceBatches.Next: the size test is a function during one call and may change between calls; JSON.stringify is an arbitrary function to non-empty text.
- ModelRecovery.SessionModelRecovery.Handle: saving and filtering the runtime's message list and the run's observation beyond its acknowledgement.
- ModelBudget.ModelBudget.Conclude: one caller at a time; callers that share a flush are the subject of ModelSettlement.
- ModelBudget.ModelBudget.RecoverInterrupted: one caller at a time, as above.
- ModelSettlement.StepKeepsInv: the daily limit check of begin() and the usage report are not part of it.
- MeteredModel.MeteredCall.Stream: doGenerate() is the same protocol with one finish; the bound on output tokens is not modelled. Costs are exact integers, as the program refuses any other.
- CanonicalJson.CanonicalIsInjective: a number is the text its finite value prints as; values that are no JSON data (undefined, functions, non-finite numbers) are outside.
- A2UIMerge.SplicesMerge: message ids are distinct, no activity carries an owner's id, and owners are no tool messages; the code checks none of these, and for other inputs only A2UIMerge.NothingIsLost and A2UIMerge.FailsWithoutOwner are stated.
- StreamGuard.GuardedStream.Drain: the codes of the final error and the measured output bytes.
- CodeMode.ProgramReads.Dispatch: the activity callback does not throw; a throwing one would leak a slot. The transport, its timer and the result checks of a program.
- CodeMode.ProgramReads.Drain: progress is stated for the steps that remain once no new call is dispatched.
- BillingConvergence.DeliveriesConverge: merchant dispute resolution is excluded, and one transaction is paid under one identity; a second identity is refused by BillingEvents.BillingEvents.StorePayment. If two accepted attempts of one event differ, only the first counts (BillingConvergence.DeliveriesSumUp).
- BillingEvents.BillingEvents.Process: owner lookup, mode, product and evidence checks are one input; account and command rows, attempt counters and checkout events are not modelled.
- RateLimit.RateLimits.ConsumeIpAndToken: rows out of the safe integer range, which only RateLimit.RateLimits.Consume refuses here; keys are not hashed.
- LockOrder.DeadlockIffCrossing: the shared mutation lock, which coordinated clients never block each other on, appears only in OperationCoordinator.
- OperationCoordinator.Session.Run: obtaining the connection; compensation of credential mutations after an uncertain outcome.
- Input token counting and its bounded cache, continuation references, routing, configuration, probes, schema checks and migrations: plumbing or easy members.
