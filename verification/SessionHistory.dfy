/**
 What no later transaction, caller or host restart can take back, and what that
 gives a client that retries after a crash.
 */
module SessionHistory {
  import opened Wrappers
  import opened ContextSource
  import opened ContextCheckpoint
  import opened SessionTables
  import opened SessionInvariants

  // ----- How rows may change -----

  ghost predicate RunEvolves(before: Run, after: Run) {
    after.thread == before.thread && after.kind == before.kind && after.fingerprint == before.fingerprint
    && after.startedAt == before.startedAt
    && (before.status.Stopping? ==> after.status.Stopping? || after.status.Stopped?)
    && (!Active(before.status) ==> after == before)
  }

  ghost predicate CommandEvolves(before: Command, after: Command) {
    after.turn == before.turn && after.kind == before.kind && after.fingerprint == before.fingerprint
    && (!before.status.Pending? ==> after == before)
  }

  ghost predicate InterruptEvolves(before: Interrupt, after: Interrupt) {
    after.turn == before.turn && (!before.status.Open? ==> after == before)
  }

  /** A decided recovery keeps its decision; only the replacement's validity mark may still move. */
  ghost predicate RecoveryEvolves(before: Recovery, after: Recovery) {
    after.run == before.run && after.replacement == before.replacement && after.attempts == before.attempts
    && after.cause == before.cause && after.before == before.before
    && (!before.status.Recovering? ==> after == before.(invalidReplacement := after.invalidReplacement))
  }

  ghost predicate RunsEvolve(before: map<Id, Run>, after: map<Id, Run>) {
    forall r :: r in before ==> r in after && RunEvolves(before[r], after[r])
  }

  ghost predicate CommandsEvolve(before: map<Key, Command>, after: map<Key, Command>) {
    forall key :: key in before ==> key in after && CommandEvolves(before[key], after[key])
  }

  ghost predicate InterruptsEvolve(before: map<Key, Interrupt>, after: map<Key, Interrupt>) {
    forall key :: key in before ==> key in after && InterruptEvolves(before[key], after[key])
  }

  ghost predicate RecoveriesEvolve(before: map<Key, Recovery>, after: map<Key, Recovery>) {
    forall key :: key in before ==> key in after && RecoveryEvolves(before[key], after[key])
  }

  ghost predicate Kept<V(!new)>(before: map<Id, V>, after: map<Id, V>) {
    forall id :: id in before ==> id in after && after[id] == before[id]
  }

  ghost predicate RevisionsGrow(before: map<Id, Checkpoint>, after: map<Id, Checkpoint>) {
    forall thread :: thread in before ==>
      (thread in after && before[thread].revision <= after[thread].revision
       && (after[thread].revision == before[thread].revision ==> after[thread].snapshot == before[thread].snapshot))
  }

  ghost predicate Evolves(before: Tables, after: Tables) {
    Kept(before.sessions, after.sessions)
    && RunsEvolve(before.runs, after.runs)
    && CommandsEvolve(before.commands, after.commands)
    && InterruptsEvolve(before.interrupts, after.interrupts)
    && Kept(before.outcomes, after.outcomes)
    && RecoveriesEvolve(before.recoveries, after.recoveries)
    && RevisionsGrow(before.checkpoints, after.checkpoints)
  }

  lemma Same(db: Tables)
    ensures Evolves(db, db)
  {
  }

  lemma EvolvesTransitive(a: Tables, b: Tables, c: Tables)
    requires Evolves(a, b) && Evolves(b, c)
    ensures Evolves(a, c)
  {
    assert RunsEvolve(a.runs, c.runs);
    assert CommandsEvolve(a.commands, c.commands);
    assert InterruptsEvolve(a.interrupts, c.interrupts);
    assert RecoveriesEvolve(a.recoveries, c.recoveries);
    assert RevisionsGrow(a.checkpoints, c.checkpoints);
  }

  // ----- Every transaction -----

  /** One run row changed; everything else is left to the caller. */
  lemma RunChanged(runs: map<Id, Run>, r: Id, run: Run)
    requires r in runs ==> RunEvolves(runs[r], run)
    ensures RunsEvolve(runs, runs[r := run])
  {
  }

  lemma RecoveriesFinalized(recoveries: map<Key, Recovery>, thread: Id, r: Id, status: Status,
      errorCode: Option<string>)
    ensures RecoveriesEvolve(recoveries, FinalizeRecoveries(recoveries, thread, r, status, errorCode))
  {
  }

  lemma TimelineFinished(db: Tables, r: Id, status: Status, errorCode: Option<string>)
    requires r in db.runs
    ensures var finished := FinishTimeline(db, r, status, errorCode);
            finished.Some? ==> Evolves(db, finished.value)
  {
    var thread := db.runs[r].thread;
    RecoveriesFinalized(db.recoveries, thread, r, status, errorCode);
    Same(db);
    hide FinalizeRecoveries, RecoveriesReady, RecoveriesEvolve;
  }

  lemma RowsChanged(db: Tables, r: Id, run: Run, commands: map<Key, Command>)
    requires r in db.runs ==> RunEvolves(db.runs[r], run)
    requires CommandsEvolve(db.commands, commands)
    ensures Evolves(db, db.(runs := db.runs[r := run], commands := commands))
  {
  }

  lemma StartEvolves(db: Tables, input: RunInput)
    ensures Evolves(db, FirstOrElse(PrepareRun(db, input), db))
  {
    Same(db);
    var next := FirstOrElse(PrepareRun(db, input), db);
    if next != db {
      RunChanged(db.runs, input.runId, next.runs[input.runId]);
      hide RunsEvolve, InterruptsEvolve, RecoveriesEvolve;
    }
  }

  lemma AnswerEvolves(db: Tables, input: AnswerInput)
    ensures Evolves(db, FirstOrElse(PrepareAnswer(db, input), db))
  {
  }

  lemma CommandsOnlyEvolve(db: Tables, commands: map<Key, Command>)
    requires CommandsEvolve(db.commands, commands)
    ensures Evolves(db, db.(commands := commands))
  {
  }

  lemma CommandChanged(db: Tables, key: Key, command: Command)
    requires key in db.commands ==> CommandEvolves(db.commands[key], command)
    ensures Evolves(db, db.(commands := db.commands[key := command]))
  {
    hide Evolves;
    CommandsOnlyEvolve(db, db.commands[key := command]);
  }

  lemma SteerEvolves(db: Tables, input: CommandInput)
    ensures Evolves(db, FirstOrElse(PrepareSteer(db, input), db))
    ensures Evolves(db, OrElse(AcceptSteer(db, input), db))
  {
    Same(db);
    hide Evolves, Owned, IsCurrent;
    var key := Key(input.thread, input.commandId);
    var prepared, accepted := FirstOrElse(PrepareSteer(db, input), db), OrElse(AcceptSteer(db, input), db);
    if prepared != db {
      CommandChanged(db, key, prepared.commands[key]);
    }
    if accepted != db {
      CommandChanged(db, key, accepted.commands[key]);
    }
  }

  lemma RejectEvolves(db: Tables, key: Key, code: string)
    ensures Evolves(db, RejectPendingCommand(db, key, code))
  {
    Same(db);
    hide Evolves;
    var next := RejectPendingCommand(db, key, code);
    if next != db {
      CommandChanged(db, key, next.commands[key]);
    }
  }

  lemma StopEvolves(db: Tables, input: CommandInput)
    ensures Evolves(db, FirstOrElse(PrepareStop(db, input), db))
  {
    Same(db);
    hide Evolves;
    var next := FirstOrElse(PrepareStop(db, input), db);
    if next != db {
      RowsChanged(db, input.expectedTurn, next.runs[input.expectedTurn], next.commands);
    }
  }

  lemma FinishStopEvolves(db: Tables, thread: Id, researcher: Id, commandId: Id, turn: Id)
    ensures Evolves(db, OrElse(FinishStop(db, thread, researcher, commandId, turn), db))
  {
    Same(db);
    var result := FinishStop(db, thread, researcher, commandId, turn);
    if result.Success? && result.value != db {
      var key := Key(thread, commandId);
      var run := db.runs[turn].(status := Stopped);
      var commands := db.commands[key := db.commands[key].(status := Accepted)];
      var stopped := db.(runs := db.runs[turn := run], commands := commands);
      RowsChanged(db, turn, run, commands);
      TimelineFinished(stopped, turn, Stopped, None);
      var finished := FinishTimeline(stopped, turn, Stopped, None).value;
      EvolvesTransitive(db, stopped, finished);
      QuestionsEvolve(finished, thread, turn);
      hide *;
      EvolvesTransitive(db, finished, result.value);
    }
  }

  lemma QuestionsEvolve(db: Tables, thread: Id, r: Id)
    ensures Evolves(db, db.(interrupts := CloseInterrupts(db.interrupts, thread, r)))
  {
  }

  lemma WaitEvolves(db: Tables, runId: Id, interruptId: Id)
    ensures Evolves(db, OrElse(MarkWaiting(db, runId, interruptId), db))
  {
    Same(db);
    var next := OrElse(MarkWaiting(db, runId, interruptId), db);
    if next != db {
      RunChanged(db.runs, runId, next.runs[runId]);
      hide RunsEvolve, CommandsEvolve, RecoveriesEvolve;
    }
  }

  lemma EndEvolves(db: Tables, r: Id, run: Run, errorCode: Option<string>)
    requires r in db.runs && RunEvolves(db.runs[r], run)
    ensures var finished := FinishTimeline(db.(runs := db.runs[r := run]), r, run.status, errorCode);
            finished.Some? ==> Evolves(db, finished.value)
  {
    var ended := db.(runs := db.runs[r := run]);
    RowsChanged(db, r, run, db.commands);
    TimelineFinished(ended, r, run.status, errorCode);
    hide Evolves, FinishTimeline;
    var finished := FinishTimeline(ended, r, run.status, errorCode);
    if finished.Some? {
      EvolvesTransitive(db, ended, finished.value);
    }
  }

  lemma CompleteEvolves(db: Tables, runId: Id)
    ensures Evolves(db, FirstOrElse(MarkCompleted(db, runId), db))
  {
    Same(db);
    hide Evolves, RecoveriesReady;
    if FirstOrElse(MarkCompleted(db, runId), db) != db {
      EndEvolves(db, runId, db.runs[runId].(status := Completed), None);
    }
  }

  lemma FailEvolves(db: Tables, runId: Id, code: string)
    ensures Evolves(db, FirstOrElse(MarkFailed(db, runId, code), db))
  {
    Same(db);
    hide Evolves;
    var next := FirstOrElse(MarkFailed(db, runId, code), db);
    if next != db {
      EndEvolves(db, runId, next.runs[runId], Some(code));
    }
  }

  lemma RestartedRows(db: Tables)
    ensures RunsEvolve(db.runs, RestartRuns(db.runs))
    ensures Kept(db.outcomes, RestartOutcomes(db))
  {
  }

  lemma RestartedCommands(db: Tables)
    ensures CommandsEvolve(db.commands, HostRestart(db).commands)
  {
  }

  lemma RestartedInterrupts(db: Tables)
    ensures InterruptsEvolve(db.interrupts, HostRestart(db).interrupts)
  {
  }

  lemma RestartedRecoveries(db: Tables)
    ensures RecoveriesEvolve(db.recoveries, RestartRecoveries(db))
  {
  }

  lemma RestartEvolves(db: Tables)
    ensures Evolves(db, HostRestart(db))
  {
    RestartedRows(db);
    RestartedCommands(db);
    RestartedInterrupts(db);
    RestartedRecoveries(db);
    hide RunsEvolve, CommandsEvolve, InterruptsEvolve, RecoveriesEvolve;
    hide RestartRuns, RestartOutcomes, RestartRecoveries;
  }

  lemma RecoveryRowsEvolve(db: Tables, recoveries: map<Key, Recovery>)
    requires RecoveriesEvolve(db.recoveries, recoveries)
    ensures Evolves(db, db.(recoveries := recoveries))
  {
  }

  lemma StepStopEvolves(db: Tables, stop: StepStop)
    requires FreshReplacement(db, stop)
    ensures Evolves(db, FirstOrElse(RecordModelStepStop(db, stop), db))
  {
    hide Evolves;
    var next := FirstOrElse(RecordModelStepStop(db, stop), db);
    var key := Key(stop.thread, stop.messageId);
    if key in db.recoveries {
      assert Addresses(db, key, stop.messageId);
    }
    RecoveryRowsEvolve(db, next.recoveries);
  }

  lemma ReplacementEvolves(db: Tables, thread: Id, researcher: Id, runId: Id, messageId: Id)
    ensures Evolves(db, OrElse(CompleteReplacement(db, thread, researcher, runId, messageId), db))
    ensures Evolves(db, OrElse(InvalidateReplacement(db, thread, researcher, runId, messageId), db))
  {
    hide Evolves;
    RecoveryRowsEvolve(db, OrElse(CompleteReplacement(db, thread, researcher, runId, messageId), db).recoveries);
    RecoveryRowsEvolve(db, OrElse(InvalidateReplacement(db, thread, researcher, runId, messageId), db).recoveries);
  }

  lemma UpdateEvolves(db: Tables, thread: Id, researcher: Id, runId: Id, original: Id, outcome: RecoveryOutcome)
    ensures Evolves(db, OrElse(UpdateRecovery(db, thread, researcher, runId, original, outcome), db))
  {
  }

  lemma CycleEvolves(db: Tables, action: Action)
    requires action.DoBeginCycle? || action.DoCommitCycle? || action.DoReleaseCycle?
    ensures Evolves(db, Apply(db, action))
  {
    Same(db);
    hide RunsEvolve, CommandsEvolve, InterruptsEvolve, RecoveriesEvolve, SnapshotWellFormed, ContextSourceMatches;
  }

  lemma StepEvolves(db: Tables, action: Action)
    ensures Evolves(db, Apply(db, action))
  {
    Same(db);
    hide Evolves;
    match action
    case DoPrepareRun(input) => StartEvolves(db, input);
    case DoPrepareAnswer(input) => AnswerEvolves(db, input);
    case DoPrepareSteer(input) => SteerEvolves(db, input);
    case DoAcceptSteer(input) => SteerEvolves(db, input);
    case DoRejectCommand(key, code) => RejectEvolves(db, key, code);
    case DoPrepareStop(input) => StopEvolves(db, input);
    case DoFinishStop(thread, researcher, commandId, turn) =>
      FinishStopEvolves(db, thread, researcher, commandId, turn);
    case DoMarkWaiting(runId, interruptId) => WaitEvolves(db, runId, interruptId);
    case DoMarkCompleted(runId) => CompleteEvolves(db, runId);
    case DoMarkFailed(runId, code) => FailEvolves(db, runId, code);
    case DoHostRestart => RestartEvolves(db);
    case DoRecordStepStop(stop) => if FreshReplacement(db, stop) { StepStopEvolves(db, stop); }
    case DoCompleteReplacement(thread, researcher, runId, messageId) =>
      ReplacementEvolves(db, thread, researcher, runId, messageId);
    case DoInvalidateReplacement(thread, researcher, runId, messageId) =>
      ReplacementEvolves(db, thread, researcher, runId, messageId);
    case DoUpdateRecovery(thread, researcher, runId, messageId, outcome) =>
      UpdateEvolves(db, thread, researcher, runId, messageId, outcome);
    case DoBeginCycle(_, _, _, _, _) => CycleEvolves(db, action);
    case DoCommitCycle(_, _, _, _, _) => CycleEvolves(db, action);
    case DoReleaseCycle(_, _, _) => CycleEvolves(db, action);
  }

  lemma {:induction false} HistoryIsKept(db: Tables, actions: seq<Action>)
    ensures Evolves(db, Execute(db, actions))
    decreases |actions|
  {
    if |actions| == 0 {
      Same(db);
    } else {
      hide Evolves, Apply;
      StepEvolves(db, actions[0]);
      HistoryIsKept(Apply(db, actions[0]), actions[1..]);
      EvolvesTransitive(db, Apply(db, actions[0]), Execute(db, actions));
    }
  }

  // ----- Consequences -----

  /** A turn ends once: its row and its outcome entry never change again. */
  lemma EndedForGood(db: Tables, actions: seq<Action>, r: Id)
    requires Inv(db) && r in db.runs && !Active(db.runs[r].status)
    ensures var later := Execute(db, actions);
            r in later.runs && later.runs[r] == db.runs[r]
            && r in later.outcomes && later.outcomes[r] == db.outcomes[r]
              && later.outcomes[r].status == db.runs[r].status
  {
    HistoryIsKept(db, actions);
    hide Execute;
  }

  /** Stop wins: once prepareStop has committed, the run can only become stopped. */
  lemma StopWins(db: Tables, input: CommandInput, actions: seq<Action>)
    requires Inv(db) && PrepareStop(db, input).Success? && !PrepareStop(db, input).value.1.duplicate
    ensures var later := Execute(PrepareStop(db, input).value.0, actions);
            Inv(later)
            && input.expectedTurn in later.runs
            && (later.runs[input.expectedTurn].status.Stopping? || later.runs[input.expectedTurn].status.Stopped?)
            && Key(input.thread, input.commandId) in later.commands
            && var command := later.commands[Key(input.thread, input.commandId)];
               !command.status.Rejected?
                 && (command.status.Accepted? ==> later.runs[input.expectedTurn].status.Stopped?)
  {
    var next := PrepareStop(db, input).value.0;
    KeepPrepareStop(db, input);
    RunsKeepInv(next, actions);
    HistoryIsKept(next, actions);
    hide Execute, PrepareStop, RunsOwned, OneActive, OutcomesAgree;
    hide ErrorsAgree, QuestionsAgree, OneAllowance, RecoveriesAgree;
    var later := Execute(next, actions);
    StopPrepared(db, input);
    assert RunEvolves(next.runs[input.expectedTurn], later.runs[input.expectedTurn]);
    assert CommandEvolves(next.commands[Key(input.thread, input.commandId)],
      later.commands[Key(input.thread, input.commandId)]);
    assert Stops(later.commands, Key(input.thread, input.commandId), input.expectedTurn);
  }

  lemma StopPrepared(db: Tables, input: CommandInput)
    requires PrepareStop(db, input).Success? && !PrepareStop(db, input).value.1.duplicate
    ensures var next := PrepareStop(db, input).value.0;
            input.expectedTurn in next.runs && next.runs[input.expectedTurn].status.Stopping?
            && Owned(next, input.thread, input.researcher)
            && Key(input.thread, input.commandId) in next.commands
            && Matches(next.commands[Key(input.thread, input.commandId)], Stop, input.expectedTurn, input.fingerprint)
  {
  }

  /**
   A stop that crashed anywhere after prepareStop can be finished: the retried
   call is a duplicate with the same receipt, and finishStop then leaves the turn
   stopped, with its outcome recorded, the command accepted and no question open.
   */
  lemma StopCanBeFinished(db: Tables, input: CommandInput, actions: seq<Action>)
    requires Inv(db) && PrepareStop(db, input).Success? && !PrepareStop(db, input).value.1.duplicate
    ensures var later := Execute(PrepareStop(db, input).value.0, actions);
            var key := Key(input.thread, input.commandId);
            key in later.commands
            && PrepareStop(later, input) == Success((later, Receipt(true, false, later.commands[key].status)))
            && FinishStop(later, input.thread, input.researcher, input.commandId, input.expectedTurn).Success?
            && var finished := FinishStop(later, input.thread, input.researcher, input.commandId,
              input.expectedTurn).value;
               finished.commands[key].status.Accepted?
               && finished.runs[input.expectedTurn].status.Stopped?
               && input.expectedTurn in finished.outcomes && finished.outcomes[input.expectedTurn].status.Stopped?
               && (later.commands[key].status.Pending? ==>
                 forall k :: !Asks(finished.interrupts, k, input.expectedTurn))
  {
    var next := PrepareStop(db, input).value.0;
    var later := Execute(next, actions);
    var key := Key(input.thread, input.commandId);
    StopWins(db, input, actions);
    StopPrepared(db, input);
    HistoryIsKept(next, actions);
    assert CommandEvolves(next.commands[key], later.commands[key]);
    assert Owned(later, input.thread, input.researcher);
    KeepFinishStop(later, input.thread, input.researcher, input.commandId, input.expectedTurn);
    hide Execute, Evolves;
    FinishStopEnds(later, input.thread, input.researcher, input.commandId, input.expectedTurn);
  }

  /** What a successful finishStop leaves behind. */
  lemma FinishStopEnds(db: Tables, thread: Id, researcher: Id, commandId: Id, turn: Id)
    requires Inv(db) && Owned(db, thread, researcher) && Stops(db.commands, Key(thread, commandId), turn)
    ensures FinishStop(db, thread, researcher, commandId, turn).Success?
    ensures var finished := FinishStop(db, thread, researcher, commandId, turn).value;
            Key(thread, commandId) in finished.commands && finished.commands[Key(thread, commandId)].status.Accepted?
            && turn in finished.runs && finished.runs[turn].status.Stopped?
            && turn in finished.outcomes && finished.outcomes[turn].status.Stopped?
            && (db.commands[Key(thread, commandId)].status.Pending? ==> forall k :: !Asks(finished.interrupts, k, turn))
  {
    KeepFinishStop(db, thread, researcher, commandId, turn);
    assert db.runs[turn].thread == thread;
    hide RunsOwned, OneActive, ErrorsAgree, OneAllowance, RecoveriesAgree, FinalizeRecoveries;
    var finished := FinishStop(db, thread, researcher, commandId, turn).value;
    if db.commands[Key(thread, commandId)].status.Pending? {
      forall k ensures !Asks(finished.interrupts, k, turn) {
        assert Asks(db.interrupts, k, turn) ==> k.thread == thread;
        assert Asks(finished.interrupts, k, turn) ==> Asks(db.interrupts, k, turn);
      }
    }
  }

  // ----- Retries -----

  /** A retried request never starts a second run, whatever happened since. */
  lemma StartRetried(db: Tables, input: RunInput, actions: seq<Action>)
    requires PrepareRun(db, input).Success? && PrepareRun(db, input).value.1.New?
    ensures var later := Execute(PrepareRun(db, input).value.0, actions);
            input.runId in later.runs
            && PrepareRun(later, input) == Success((later, Duplicate(later.runs[input.runId].status)))
  {
    var next := PrepareRun(db, input).value.0;
    assert input.runId in next.runs && next.runs[input.runId].thread == input.thread
      && Owned(next, input.thread, input.researcher);
    HistoryIsKept(next, actions);
    hide Execute;
    assert RunEvolves(next.runs[input.runId], Execute(next, actions).runs[input.runId]);
  }

  /** A retried answer is a duplicate, and the question is not answered twice. */
  lemma AnswerRetried(db: Tables, input: AnswerInput, actions: seq<Action>)
    requires PrepareAnswer(db, input).Success? && PrepareAnswer(db, input).value.1.New?
    ensures var later := Execute(PrepareAnswer(db, input).value.0, actions);
            input.runId in later.runs
            && PrepareAnswer(later, input) == Success((later, Duplicate(later.runs[input.runId].status)))
            && Key(input.thread, input.interruptId) in later.interrupts
            && later.interrupts[Key(input.thread, input.interruptId)] == Interrupt(input.runId, Answered)
  {
    var next := PrepareAnswer(db, input).value.0;
    var commandKey, interruptKey := Key(input.thread, input.commandId), Key(input.thread, input.interruptId);
    assert Owned(next, input.thread, input.researcher);
    HistoryIsKept(next, actions);
    hide Execute;
    var later := Execute(next, actions);
    assert RunEvolves(next.runs[input.runId], later.runs[input.runId]);
    assert CommandEvolves(next.commands[commandKey], later.commands[commandKey]);
    assert InterruptEvolves(next.interrupts[interruptKey], later.interrupts[interruptKey]);
  }

  // ----- Questions a stop leaves open -----

  /** A stopped run still asks a question, and no stop command is left that could close it. */
  ghost predicate Abandoned(db: Tables, key: Key, r: Id) {
    Asks(db.interrupts, key, r)
    && r in db.runs && db.runs[r].status.Stopped?
    && forall k :: Stops(db.commands, k, r) ==> db.commands[k].status.Accepted?
  }

  lemma AbandonedStep(db: Tables, action: Action, key: Key, r: Id)
    requires Abandoned(db, key, r)
    ensures Abandoned(Apply(db, action), key, r)
  {
    var next := Apply(db, action);
    StepEvolves(db, action);
    assert next.runs[r] == db.runs[r];
    hide RunsEvolve, InterruptsEvolve, RecoveriesEvolve, Kept, RevisionsGrow;
    hide FinalizeRecoveries, RestartOutcomes, RestartRecoveries, RecordModelStepStop;
    hide CompleteReplacement, InvalidateReplacement, UpdateRecovery;
    hide BeginContextCycle, CommitContextCycle, ReleaseContextCycle;
    QuestionStays(db, action, key, r);
    forall k | Stops(next.commands, k, r)
      ensures next.commands[k].status.Accepted?
    {
      NoNewStop(db, action, k, r);
    }
  }

  ghost predicate OnlyRecoveries(db: Tables, next: Tables) {
    next == db.(recoveries := next.recoveries)
  }

  lemma StepStopChanges(db: Tables, stop: StepStop)
    ensures OnlyRecoveries(db, FirstOrElse(RecordModelStepStop(db, stop), db))
  {
    hide Owned, Known, CauseCode;
  }

  lemma CompleteChanges(db: Tables, thread: Id, researcher: Id, runId: Id, messageId: Id)
    ensures OnlyRecoveries(db, OrElse(CompleteReplacement(db, thread, researcher, runId, messageId), db))
  {
    hide Owned, Completable, Marked;
  }

  lemma InvalidateChanges(db: Tables, thread: Id, researcher: Id, runId: Id, messageId: Id)
    ensures OnlyRecoveries(db, OrElse(InvalidateReplacement(db, thread, researcher, runId, messageId), db))
  {
    hide Owned, Replacements, Marked;
  }

  lemma UpdateChanges(db: Tables, thread: Id, researcher: Id, runId: Id, messageId: Id, outcome: RecoveryOutcome)
    ensures OnlyRecoveries(db, OrElse(UpdateRecovery(db, thread, researcher, runId, messageId, outcome), db))
  {
    hide Owned, RecoveryImproves;
  }

  predicate ChangesRecoveries(action: Action) {
    action.DoRecordStepStop? || action.DoCompleteReplacement? || action.DoInvalidateReplacement?
      || action.DoUpdateRecovery?
  }

  predicate OnlyRecoveriesOrCheckpoints(action: Action) {
    ChangesRecoveries(action) || action.DoBeginCycle? || action.DoCommitCycle? || action.DoReleaseCycle?
  }

  lemma RecoveriesOnly(db: Tables, action: Action)
    requires ChangesRecoveries(action)
    ensures OnlyRecoveries(db, Apply(db, action))
  {
    hide RecordModelStepStop, CompleteReplacement, InvalidateReplacement, UpdateRecovery, FreshReplacement;
    match action
    case DoRecordStepStop(stop) => StepStopChanges(db, stop);
    case DoCompleteReplacement(thread, researcher, runId, messageId) =>
      CompleteChanges(db, thread, researcher, runId, messageId);
    case DoInvalidateReplacement(thread, researcher, runId, messageId) =>
      InvalidateChanges(db, thread, researcher, runId, messageId);
    case DoUpdateRecovery(thread, researcher, runId, messageId, outcome) =>
      UpdateChanges(db, thread, researcher, runId, messageId, outcome);
    case _ =>
  }

  lemma RecoveryLeavesTheRest(db: Tables, action: Action)
    requires OnlyRecoveriesOrCheckpoints(action)
    ensures Apply(db, action).interrupts == db.interrupts && Apply(db, action).commands == db.commands
  {
    if ChangesRecoveries(action) {
      hide Apply;
      RecoveriesOnly(db, action);
    } else {
      hide Owned, Claim, Commit, Release, RunIsRunning;
    }
  }

  lemma QuestionStays(db: Tables, action: Action, key: Key, r: Id)
    requires Abandoned(db, key, r)
    ensures Asks(Apply(db, action).interrupts, key, r)
  {
    hide FinalizeRecoveries, RestartRuns, RestartOutcomes, RestartRecoveries, RecoveriesReady;
    hide RecordModelStepStop, CompleteReplacement, InvalidateReplacement, UpdateRecovery;
    hide BeginContextCycle, CommitContextCycle, ReleaseContextCycle;
    if OnlyRecoveriesOrCheckpoints(action) {
      RecoveryLeavesTheRest(db, action);
    } else if action.DoFinishStop? {
      var key := Key(action.thread, action.commandId);
      assert Stops(db.commands, key, r) ==> db.commands[key].status.Accepted?;
    }
  }

  /** Nobody can add a stop command to a run that is no longer active. */
  lemma NoNewStop(db: Tables, action: Action, k: Key, r: Id)
    requires r in db.runs && !Active(db.runs[r].status)
    requires Stops(Apply(db, action).commands, k, r) && CommandsEvolve(db.commands, Apply(db, action).commands)
    ensures Stops(db.commands, k, r)
  {
    hide FinalizeRecoveries, RestartRuns, RestartOutcomes, RestartRecoveries, RecoveriesReady, CloseInterrupts;
    hide RecordModelStepStop, CompleteReplacement, InvalidateReplacement, UpdateRecovery;
    hide BeginContextCycle, CommitContextCycle, ReleaseContextCycle;
    if OnlyRecoveriesOrCheckpoints(action) {
      RecoveryLeavesTheRest(db, action);
    }
  }

  lemma {:induction false} AbandonedForever(db: Tables, actions: seq<Action>, key: Key, r: Id)
    requires Abandoned(db, key, r)
    ensures Abandoned(Execute(db, actions), key, r)
    decreases |actions|
  {
    if |actions| > 0 {
      hide Abandoned, Apply;
      AbandonedStep(db, actions[0], key, r);
      AbandonedForever(Apply(db, actions[0]), actions[1..], key, r);
    }
  }

  /**
   A question that a stopped run still asks stays open in every future exactly when
   no stop command of the run is pending.
   */
  lemma OpenQuestionOfAStoppedRun(db: Tables, key: Key, r: Id)
    requires Inv(db) && Asks(db.interrupts, key, r) && db.runs[r].status.Stopped?
    ensures (forall actions :: Asks(Execute(db, actions).interrupts, key, r))
       <==> (forall k :: Stops(db.commands, k, r) ==> db.commands[k].status.Accepted?)
  {
    if k :| Stops(db.commands, k, r) && !db.commands[k].status.Accepted? {
      FinishingCloses(db, key, r, k);
    } else {
      hide Inv, Apply, Execute;
      forall actions ensures Asks(Execute(db, actions).interrupts, key, r) {
        AbandonedForever(db, actions, key, r);
      }
    }
  }

  lemma FinishingCloses(db: Tables, key: Key, r: Id, k: Key)
    requires Inv(db) && Asks(db.interrupts, key, r) && Stops(db.commands, k, r) && db.commands[k].status.Pending?
    ensures exists actions :: !Asks(Execute(db, actions).interrupts, key, r)
  {
    StopIsOwned(db, r, k);
    var researcher := db.sessions[k.thread];
    var action := DoFinishStop(k.thread, researcher, k.id, r);
    FinishStopEnds(db, k.thread, researcher, k.id, r);
    OneStep(db, action);
    ApplyFinishStop(db, k.thread, researcher, k.id, r);
    hide *;
    assert !Asks(Execute(db, [action]).interrupts, key, r);
  }

  lemma OneStep(db: Tables, action: Action)
    ensures Execute(db, [action]) == Apply(db, action)
  {
  }

  lemma ApplyFinishStop(db: Tables, thread: Id, researcher: Id, commandId: Id, turn: Id)
    requires FinishStop(db, thread, researcher, commandId, turn).Success?
    ensures Apply(db, DoFinishStop(thread, researcher, commandId, turn))
      == FinishStop(db, thread, researcher, commandId, turn).value
  {
  }

  lemma StopIsOwned(db: Tables, r: Id, k: Key)
    requires RunsOwned(db) && StopsAgree(db.runs, db.commands) && Stops(db.commands, k, r)
    ensures k.thread in db.sessions
  {
  }

  /** Stopping a waiting run, its stream failing before finishStop, and a host restart abandon the question. */
  lemma FailureAbandonsTheQuestion(db: Tables, input: CommandInput, code: string, key: Key)
    requires Inv(db) && Asks(db.interrupts, key, input.expectedTurn)
    requires PrepareStop(db, input).Success? && !PrepareStop(db, input).value.1.duplicate
    ensures Abandoned(Execute(db, [DoPrepareStop(input), DoMarkFailed(input.expectedTurn, code), DoHostRestart]), key,
      input.expectedTurn)
  {
    hide *;
    var r := input.expectedTurn;
    FailWhileStopping(db, input, code, key);
    RestartAbandons(MarkFailed(PrepareStop(db, input).value.0, r, code).value.0, key, r);
    ThreeSteps(db, [DoPrepareStop(input), DoMarkFailed(r, code), DoHostRestart]);
    Steps(db, input, r, code);
  }

  lemma ThreeSteps(db: Tables, actions: seq<Action>)
    requires |actions| == 3
    ensures Execute(db, actions) == Apply(Apply(Apply(db, actions[0]), actions[1]), actions[2])
  {
    hide Apply;
    var two := Apply(Apply(db, actions[0]), actions[1]);
    assert actions[1..][1..] == [actions[2]];
    assert Execute(two, [actions[2]]) == Execute(Apply(two, actions[2]), []);
  }

  lemma Steps(db: Tables, input: CommandInput, r: Id, code: string)
    requires PrepareStop(db, input).Success? && MarkFailed(PrepareStop(db, input).value.0, r, code).Success?
    ensures Apply(Apply(Apply(db, DoPrepareStop(input)), DoMarkFailed(r, code)), DoHostRestart)
         == HostRestart(MarkFailed(PrepareStop(db, input).value.0, r, code).value.0)
  {
    hide PrepareStop, MarkFailed, HostRestart;
  }

  lemma FailWhileStopping(db: Tables, input: CommandInput, code: string, key: Key)
    requires Inv(db) && Asks(db.interrupts, key, input.expectedTurn)
    requires PrepareStop(db, input).Success? && !PrepareStop(db, input).value.1.duplicate
    ensures var failed := MarkFailed(PrepareStop(db, input).value.0, input.expectedTurn, code);
            failed.Success? && Inv(failed.value.0) && Asks(failed.value.0.interrupts, key, input.expectedTurn)
            && input.expectedTurn in failed.value.0.runs && failed.value.0.runs[input.expectedTurn].status.Stopped?
  {
    var stopping := PrepareStop(db, input).value.0;
    KeepPrepareStop(db, input);
    KeepMarkFailed(stopping, input.expectedTurn, code);
    hide Inv, FinalizeRecoveries;
  }

  lemma RestartAbandons(db: Tables, key: Key, r: Id)
    requires Inv(db) && Asks(db.interrupts, key, r) && db.runs[r].status.Stopped?
    ensures Abandoned(HostRestart(db), key, r)
  {
    hide RestartOutcomes, RestartRecoveries, RunsOwned, OneActive;
    hide OutcomesAgree, ErrorsAgree, OneAllowance, RecoveriesAgree;
    var next := HostRestart(db);
    assert forall k :: Stops(next.commands, k, r) ==> Stops(db.commands, k, r);
  }

  /** The outcome entry of a failed stream carries the run's own error code exactly when no stop was under way. */
  lemma OutcomeErrorCode(db: Tables, r: Id, code: string)
    requires Inv(db) && r in db.runs && (db.runs[r].status.Running? || db.runs[r].status.Stopping?)
    ensures MarkFailed(db, r, code).Success?
    ensures var next := MarkFailed(db, r, code).value.0;
            r in next.outcomes
              && (next.outcomes[r].errorCode == next.runs[r].errorCode <==> !db.runs[r].status.Stopping?)
  {
  }

  // ----- Context cycles that outlive their run -----

  /** A restart frees a thread's cycle exactly when the cycle's run has not completed and is not waiting. */
  lemma RestartFreesOwner(db: Tables, thread: Id)
    requires thread in db.checkpoints && db.checkpoints[thread].owner.Some?
      && db.checkpoints[thread].owner.value.runId in db.runs
    ensures var run := db.runs[db.checkpoints[thread].owner.value.runId];
            var next := HostRestart(db);
            thread in next.checkpoints
            && (next.checkpoints[thread].owner.None? <==> !run.status.Completed? && !run.status.Waiting?)
  {
  }

  ghost predicate OwnedByCompleted(db: Tables, thread: Id, owner: Owner) {
    thread in db.checkpoints && db.checkpoints[thread].owner == Some(owner)
    && owner.runId in db.runs && db.runs[owner.runId].status.Completed?
  }

  predicate Releases(action: Action, thread: Id, owner: Owner) {
    action.DoReleaseCycle? && action.thread == thread && action.cycle.id == owner.cycleId
      && action.cycle.runId == owner.runId
  }

  lemma CompletedOwnerStep(db: Tables, action: Action, thread: Id, owner: Owner)
    requires OwnedByCompleted(db, thread, owner) && !Releases(action, thread, owner)
    ensures OwnedByCompleted(Apply(db, action), thread, owner)
    ensures Apply(db, action).checkpoints[thread] == db.checkpoints[thread]
  {
    hide Apply, CommandsEvolve, InterruptsEvolve, RecoveriesEvolve, Kept, RevisionsGrow;
    StepEvolves(db, action);
    assert RunEvolves(db.runs[owner.runId], Apply(db, action).runs[owner.runId]);
    CheckpointStays(db, action, thread, owner);
  }

  lemma CheckpointStays(db: Tables, action: Action, thread: Id, owner: Owner)
    requires OwnedByCompleted(db, thread, owner) && !Releases(action, thread, owner)
    ensures thread in Apply(db, action).checkpoints && Apply(db, action).checkpoints[thread] == db.checkpoints[thread]
  {
    if ChangesRecoveries(action) {
      hide Apply;
      RecoveriesOnly(db, action);
    } else {
      hide FinalizeRecoveries, RestartOutcomes, RestartRecoveries, RestartCommands;
      hide RestartInterrupts, CloseInterrupts, RecoveriesReady;
      hide SnapshotWellFormed, ContextSourceMatches, FreezeContextSource, FreshReplacement;
      hide HasCurrent, LatestIsStopped, Owned;
    }
  }

  /** So a cycle whose run completed keeps the thread's checkpoint as it is until that very cycle is released. */
  lemma {:induction false} CompletedOwnerStays(db: Tables, actions: seq<Action>, thread: Id, owner: Owner)
    requires OwnedByCompleted(db, thread, owner) && forall action :: action in actions ==>
      !Releases(action, thread, owner)
    ensures OwnedByCompleted(Execute(db, actions), thread, owner)
    ensures Execute(db, actions).checkpoints[thread] == db.checkpoints[thread]
    decreases |actions|
  {
    if |actions| > 0 {
      hide Apply, Releases;
      CompletedOwnerStep(db, actions[0], thread, owner);
      CompletedOwnerStays(Apply(db, actions[0]), actions[1..], thread, owner);
    }
  }

  // ----- A lost release -----

  function FreshPrompt(thread: Id, researcher: Id, runId: Id, commandId: Id, now: int): (input: RunInput) {
    RunInput(thread, runId, commandId, researcher, Prompt, "", true, now)
  }

  /**
   A run completes with its cycle still claimed if the release of the cycle never
   reached the tables: its controller died, or its transaction failed.
   */
  lemma LostReleaseReachesIt(thread: Id, researcher: Id, runId: Id, commandId: Id, cycleId: Id, now: int)
    ensures var prompt := DoPrepareRun(FreshPrompt(thread, researcher, runId, commandId, now));
            OwnedByCompleted(
              Execute(NO_TABLES,
                [prompt, DoBeginCycle(thread, researcher, runId, cycleId, []), DoMarkCompleted(runId)]),
              thread, Owner(cycleId, runId))
  {
    hide *;
    var prompt := DoPrepareRun(FreshPrompt(thread, researcher, runId, commandId, now));
    var begin := DoBeginCycle(thread, researcher, runId, cycleId, []);
    ThreeSteps(NO_TABLES, [prompt, begin, DoMarkCompleted(runId)]);
    PromptRuns(thread, researcher, runId, commandId, now);
    RunningMayClaim(Apply(NO_TABLES, prompt), thread, researcher, runId, cycleId);
    QuietRunCompletes(Apply(Apply(NO_TABLES, prompt), begin), thread, runId, Owner(cycleId, runId));
  }

  /** A run whose thread has no recoveries. */
  ghost predicate RunsQuietly(db: Tables, thread: Id, researcher: Id, runId: Id, owner: Option<Owner>) {
    RunIsRunning(db, thread, runId) && Owned(db, thread, researcher) && db.recoveries == map[]
    && RowOf(db, thread).owner == owner && (owner.Some? ==> thread in db.checkpoints)
  }

  lemma PromptRuns(thread: Id, researcher: Id, runId: Id, commandId: Id, now: int)
    ensures RunsQuietly(Apply(NO_TABLES, DoPrepareRun(FreshPrompt(thread, researcher, runId, commandId, now))),
                        thread, researcher, runId, None)
  {
  }

  lemma RunningMayClaim(db: Tables, thread: Id, researcher: Id, runId: Id, cycleId: Id)
    requires RunsQuietly(db, thread, researcher, runId, None)
    ensures RunsQuietly(Apply(db, DoBeginCycle(thread, researcher, runId, cycleId, [])),
                        thread, researcher, runId, Some(Owner(cycleId, runId)))
  {
  }

  lemma QuietRunCompletes(db: Tables, thread: Id, runId: Id, owner: Owner)
    requires exists researcher :: RunsQuietly(db, thread, researcher, runId, Some(owner))
    requires owner.runId == runId
    ensures OwnedByCompleted(Apply(db, DoMarkCompleted(runId)), thread, owner)
  {
    hide Owned;
  }

  // ----- Cycles end for good -----

  predicate Issues(action: Action, thread: Id, cycleId: Id) {
    action.DoBeginCycle? && action.thread == thread && action.cycleId == cycleId
  }

  predicate Frees(before: Checkpoint, after: Checkpoint) {
    before.owner.Some? && after.owner.None?
  }

  /** What any transaction does to a checkpoint row: nothing, a claim of a free row, or the end of its cycle. */
  lemma RowStep(db: Tables, action: Action, thread: Id)
    ensures var before, after := RowOf(db, thread), RowOf(Apply(db, action), thread);
            after == before || Frees(before, after)
            || (before.owner.None? && action.DoBeginCycle? && action.thread == thread
                && after == before.(owner := Some(Owner(action.cycleId, action.runId))))
  {
    if ChangesRecoveries(action) {
      hide Apply;
      RecoveriesOnly(db, action);
    } else {
      hide FinalizeRecoveries, RestartOutcomes, RestartRecoveries, RestartCommands;
      hide RestartInterrupts, CloseInterrupts, RecoveriesReady;
      hide SnapshotWellFormed, ContextSourceMatches, FreezeContextSource, FreshReplacement;
      hide HasCurrent, LatestIsStopped, Owned;
    }
  }

  /** The row is not claimed by this cycle, or it still is what the cycle's begin left. */
  ghost predicate AsBegun(db: Tables, thread: Id, cycleId: Id, begun: Checkpoint) {
    var owner := RowOf(db, thread).owner;
    owner.Some? && owner.value.cycleId == cycleId ==> RowOf(db, thread) == begun
  }

  ghost predicate Gone(db: Tables, thread: Id, cycleId: Id) {
    var owner := RowOf(db, thread).owner;
    owner.Some? ==> owner.value.cycleId != cycleId
  }

  lemma {:induction false} CycleStaysGone(db: Tables, actions: seq<Action>, thread: Id, cycleId: Id)
    requires Gone(db, thread, cycleId) && forall action :: action in actions ==> !Issues(action, thread, cycleId)
    ensures Gone(Execute(db, actions), thread, cycleId)
    decreases |actions|
  {
    hide Apply, RowOf;
    if |actions| > 0 {
      RowStep(db, actions[0], thread);
      assert !Issues(actions[0], thread, cycleId);
      CycleStaysGone(Apply(db, actions[0]), actions[1..], thread, cycleId);
    }
  }

  lemma {:induction false} CycleKeepsItsRow(db: Tables, actions: seq<Action>, thread: Id, cycleId: Id,
      begun: Checkpoint)
    requires AsBegun(db, thread, cycleId, begun) && forall action :: action in actions ==>
      !Issues(action, thread, cycleId)
    ensures AsBegun(Execute(db, actions), thread, cycleId, begun)
    decreases |actions|
  {
    hide Apply, RowOf;
    if |actions| > 0 {
      RowStep(db, actions[0], thread);
      assert !Issues(actions[0], thread, cycleId);
      CycleKeepsItsRow(Apply(db, actions[0]), actions[1..], thread, cycleId, begun);
    }
  }

  /**
   Cycle ids are not issued twice. A cycle that was released, committed or cleared
   by a restart never commits, whatever was transacted since.
   */
  lemma GoneCyclesNeverCommit(
    db: Tables, actions: seq<Action>, thread: Id, researcher: Id, cycle: Cycle, candidate: Boundary,
      history: seq<Message>)
    requires Gone(db, thread, cycle.id) && forall action :: action in actions ==> !Issues(action, thread, cycle.id)
    ensures CommitContextCycle(Execute(db, actions), thread, researcher, cycle, candidate, history).Failure?
  {
    hide Execute;
    CycleStaysGone(db, actions, thread, cycle.id);
  }

  /**
   Publications are linear: whatever was transacted since a cycle began, if it
   commits then the row it replaces is the one its begin read, with the next revision.
   */
  lemma CommitReplacesWhatItRead(
    db: Tables, actions: seq<Action>, thread: Id, researcher: Id, runId: Id, cycleId: Id, read: seq<Message>,
    committer: Id, candidate: Boundary, history: seq<Message>)
    requires BeginContextCycle(db, thread, researcher, runId, cycleId, read).Success?
    requires forall action :: action in actions ==> !Issues(action, thread, cycleId)
    ensures var (begun, cycle) := BeginContextCycle(db, thread, researcher, runId, cycleId, read).value;
            var later := Execute(begun, actions);
            var committed := CommitContextCycle(later, thread, committer, cycle, candidate, history);
            committed.Success? ==>
              (RowOf(later, thread).revision == RowOf(db, thread).revision
               && RowOf(later, thread).snapshot == RowOf(db, thread).snapshot
               && RowOf(committed.value, thread) == Checkpoint(RowOf(db, thread).revision + 1, Some(candidate), None)
               && candidate.watermark == FreezeContextSource(read)
               && ContextSourceMatches(FreezeContextSource(read), FreezeContextSource(history)))
  {
    hide Execute;
    var (begun, cycle) := BeginContextCycle(db, thread, researcher, runId, cycleId, read).value;
    CycleKeepsItsRow(begun, actions, thread, cycleId, RowOf(begun, thread));
  }
}
