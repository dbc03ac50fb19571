/**
 What every transaction of the session repository keeps, in any interleaving of
 callers and host restarts, and what can never be taken back.
 */
module SessionInvariants {
  import opened Wrappers
  import opened ContextSource
  import opened ContextCheckpoint
  import opened SessionTables

  datatype Action =
    | DoPrepareRun(run: RunInput)
    | DoPrepareAnswer(answer: AnswerInput)
    | DoPrepareSteer(command: CommandInput)
    | DoAcceptSteer(command: CommandInput)
    | DoRejectCommand(key: Key, code: string)
    | DoPrepareStop(command: CommandInput)
    | DoFinishStop(thread: Id, researcher: Id, commandId: Id, turn: Id)
    | DoMarkWaiting(runId: Id, interruptId: Id)
    | DoMarkCompleted(runId: Id)
    | DoMarkFailed(runId: Id, code: string)
    | DoHostRestart
    | DoRecordStepStop(stop: StepStop)
    | DoCompleteReplacement(thread: Id, researcher: Id, runId: Id, messageId: Id)
    | DoInvalidateReplacement(thread: Id, researcher: Id, runId: Id, messageId: Id)
    | DoUpdateRecovery(thread: Id, researcher: Id, runId: Id, messageId: Id, outcome: RecoveryOutcome)
    | DoBeginCycle(thread: Id, researcher: Id, runId: Id, cycleId: Id, history: seq<Message>)
    | DoCommitCycle(thread: Id, researcher: Id, cycle: Cycle, candidate: Boundary, history: seq<Message>)
    | DoReleaseCycle(thread: Id, researcher: Id, cycle: Cycle)

  function OrElse(r: Result<Tables, SessionError>, db: Tables): (next: Tables) {
    if r.Success? then r.value else db
  }

  function FirstOrElse<T>(r: Result<(Tables, T), SessionError>, db: Tables): (next: Tables) {
    if r.Success? then r.value.0 else db
  }

  predicate IsStop(db: Tables, key: Key) {
    key in db.commands && db.commands[key].kind.Stop?
  }

  /** A replacement id is a fresh UUID: no message id of the thread, now or as the stopped message itself. */
  predicate FreshReplacement(db: Tables, stop: StepStop) {
    stop.freshId != stop.messageId && !Known(db, stop.thread, stop.freshId)
  }

  /**
   One committed or rolled-back transaction. A stop is never rejected: the one
   caller of that statement rejects a steer. A replacement id is never issued twice.
   */
  ghost function Apply(db: Tables, action: Action): (next: Tables) {
    match action
    case DoPrepareRun(input) => FirstOrElse(PrepareRun(db, input), db)
    case DoPrepareAnswer(input) => FirstOrElse(PrepareAnswer(db, input), db)
    case DoPrepareSteer(input) => FirstOrElse(PrepareSteer(db, input), db)
    case DoAcceptSteer(input) => OrElse(AcceptSteer(db, input), db)
    case DoRejectCommand(key, code) => if IsStop(db, key) then db else RejectPendingCommand(db, key, code)
    case DoPrepareStop(input) => FirstOrElse(PrepareStop(db, input), db)
    case DoFinishStop(thread, researcher, commandId, turn) =>
      OrElse(FinishStop(db, thread, researcher, commandId, turn), db)
    case DoMarkWaiting(runId, interruptId) => OrElse(MarkWaiting(db, runId, interruptId), db)
    case DoMarkCompleted(runId) => FirstOrElse(MarkCompleted(db, runId), db)
    case DoMarkFailed(runId, code) => FirstOrElse(MarkFailed(db, runId, code), db)
    case DoHostRestart => HostRestart(db)
    case DoRecordStepStop(stop) =>
      if FreshReplacement(db, stop) then FirstOrElse(RecordModelStepStop(db, stop), db) else db
    case DoCompleteReplacement(thread, researcher, runId, messageId) =>
      OrElse(CompleteReplacement(db, thread, researcher, runId, messageId), db)
    case DoInvalidateReplacement(thread, researcher, runId, messageId) =>
      OrElse(InvalidateReplacement(db, thread, researcher, runId, messageId), db)
    case DoUpdateRecovery(thread, researcher, runId, messageId, outcome) =>
      OrElse(UpdateRecovery(db, thread, researcher, runId, messageId, outcome), db)
    case DoBeginCycle(thread, researcher, runId, cycleId, history) =>
      FirstOrElse(BeginContextCycle(db, thread, researcher, runId, cycleId, history), db)
    case DoCommitCycle(thread, researcher, cycle, candidate, history) =>
      OrElse(CommitContextCycle(db, thread, researcher, cycle, candidate, history), db)
    case DoReleaseCycle(thread, researcher, cycle) => OrElse(ReleaseContextCycle(db, thread, researcher, cycle), db)
  }

  ghost function Execute(db: Tables, actions: seq<Action>): (next: Tables)
    decreases |actions|
  {
    if |actions| == 0 then db else Execute(Apply(db, actions[0]), actions[1..])
  }

  // ----- Invariants -----

  ghost predicate RunsOwned(db: Tables) {
    forall r :: r in db.runs ==> db.runs[r].thread in db.sessions
  }

  /** At most one active run in a thread. */
  ghost predicate OneActive(runs: map<Id, Run>) {
    forall a, b :: a in runs && b in runs ==>
      runs[a].thread == runs[b].thread && Active(runs[a].status) && Active(runs[b].status) ==> a == b
  }

  /** An outcome entry exists exactly for the ended runs, and tells how they ended. */
  ghost predicate OutcomesAgree(runs: map<Id, Run>, outcomes: map<Id, Outcome>) {
    (forall r :: r in outcomes <==> r in runs && !Active(runs[r].status))
    && forall r :: r in outcomes ==> outcomes[r].status == runs[r].status
  }

  ghost predicate ErrorsAgree(runs: map<Id, Run>) {
    forall r :: r in runs ==> (runs[r].errorCode.Some? <==> runs[r].status.Failed?)
  }

  predicate Asks(interrupts: map<Key, Interrupt>, key: Key, runId: Id) {
    key in interrupts && interrupts[key] == Interrupt(runId, Open)
  }

  /** A waiting run asks exactly one question; a running, completed or failed one asks none. */
  ghost predicate QuestionsAgree(runs: map<Id, Run>, interrupts: map<Key, Interrupt>) {
    (forall r :: r in runs && runs[r].status.Waiting? ==> exists key :: Asks(interrupts, key, r))
    && (forall a, b, r :: Asks(interrupts, a, r) && Asks(interrupts, b, r) ==> a == b)
    && (forall key, r :: Asks(interrupts, key, r) ==>
          r in runs && runs[r].thread == key.thread
          && (runs[r].status.Waiting? || runs[r].status.Stopping? || runs[r].status.Stopped?))
  }

  predicate Stops(commands: map<Key, Command>, key: Key, runId: Id) {
    key in commands && commands[key].kind.Stop? && commands[key].turn == runId
  }

  /** An accepted stop has stopped its run, a pending one is stopping it, and every stopping run has one. */
  ghost predicate StopsAgree(runs: map<Id, Run>, commands: map<Key, Command>) {
    (forall key, r :: Stops(commands, key, r) ==>
       r in runs && runs[r].thread == key.thread && !commands[key].status.Rejected?
       && (runs[r].status.Stopped? || (runs[r].status.Stopping? && commands[key].status.Pending?)))
    && forall r :: r in runs && runs[r].status.Stopping? ==> exists key :: Stops(commands, key, r)
  }

  ghost predicate RecoveryAgrees(recovery: Recovery) {
    (recovery.attempts == 0 || recovery.attempts == 1)
    && (recovery.attempts == 0 ==> recovery.replacement.None? && recovery.status.Unrecovered?)
    && (recovery.attempts == 1 ==> recovery.replacement.Some?)
    && (recovery.errorCode.Some? <==> recovery.status.Unrecovered?)
    && (recovery.after.Some? ==> RecoveryImproves(recovery.cause, recovery.before, recovery.after.value))
    && (recovery.status.Succeeded? ==> recovery.after.Some?)
  }

  predicate Names(recoveries: map<Key, Recovery>, key: Key, messageId: Id) {
    key in recoveries && (key.id == messageId || recoveries[key].replacement == Some(messageId))
  }

  /** A message id of a thread names at most one allowance, in one role: no replacement has an allowance of its own. */
  ghost predicate OneAllowance(recoveries: map<Key, Recovery>) {
    (forall a, b, id :: Names(recoveries, a, id) && Names(recoveries, b, id) ==> a.thread == b.thread ==> a == b)
    && forall key :: key in recoveries ==> recoveries[key].replacement != Some(key.id)
  }

  ghost predicate RecoveriesAgree(runs: map<Id, Run>, recoveries: map<Key, Recovery>) {
    (forall key :: key in recoveries ==> RecoveryAgrees(recoveries[key]) && recoveries[key].run in runs
                                         && runs[recoveries[key].run].thread == key.thread)
    && (forall key :: key in recoveries && recoveries[key].status.Recovering? ==>
      Active(runs[recoveries[key].run].status))
    && (forall key :: key in recoveries && recoveries[key].status.Succeeded? ==>
      runs[recoveries[key].run].status.Completed?)
  }

  ghost predicate Inv(db: Tables) {
    RunsOwned(db)
    && OneActive(db.runs)
    && OutcomesAgree(db.runs, db.outcomes)
    && ErrorsAgree(db.runs)
    && QuestionsAgree(db.runs, db.interrupts)
    && StopsAgree(db.runs, db.commands)
    && OneAllowance(db.recoveries)
    && RecoveriesAgree(db.runs, db.recoveries)
  }

  // ----- How each part of the invariant follows one change -----

  lemma OwnedAfter(db: Tables, next: Tables, r: Id, run: Run)
    requires RunsOwned(db) && next.runs == db.runs[r := run] && run.thread in next.sessions
      && db.sessions.Keys <= next.sessions.Keys
    ensures RunsOwned(next)
  {
  }

  lemma ActiveAfter(runs: map<Id, Run>, r: Id, run: Run)
    requires OneActive(runs)
    requires r in runs ==> run.thread == runs[r].thread && (Active(run.status) ==> Active(runs[r].status))
    requires r !in runs ==> forall x :: x in runs ==> runs[x].thread == run.thread ==> !Active(runs[x].status)
    ensures OneActive(runs[r := run])
  {
  }

  lemma OutcomesAfter(runs: map<Id, Run>, r: Id, run: Run, outcomes: map<Id, Outcome>)
    requires OutcomesAgree(runs, outcomes)
    requires r in runs ==> Active(runs[r].status)
    ensures r !in outcomes
    ensures Active(run.status) ==> OutcomesAgree(runs[r := run], outcomes)
    ensures !Active(run.status) ==>
      forall code :: OutcomesAgree(runs[r := run], outcomes[r := Outcome(run.status, code)])
  {
  }

  lemma ErrorsAfter(runs: map<Id, Run>, r: Id, run: Run)
    requires ErrorsAgree(runs) && (run.errorCode.Some? <==> run.status.Failed?)
    ensures ErrorsAgree(runs[r := run])
  {
  }

  /** The run does not wait afterwards: it asks nothing, or it is being stopped. */
  lemma QuestionsAfter(runs: map<Id, Run>, r: Id, run: Run, interrupts: map<Key, Interrupt>)
    requires QuestionsAgree(runs, interrupts) && !run.status.Waiting?
    requires r in runs ==> run.thread == runs[r].thread
    requires run.status.Stopping? || run.status.Stopped? || r !in runs || runs[r].status.Running?
    ensures QuestionsAgree(runs[r := run], interrupts)
  {
  }

  lemma QuestionAsked(runs: map<Id, Run>, r: Id, run: Run, interrupts: map<Key, Interrupt>, key: Key)
    requires QuestionsAgree(runs, interrupts) && key !in interrupts
    requires r in runs && runs[r].status.Running? && run.status.Waiting? && run.thread == runs[r].thread == key.thread
    ensures QuestionsAgree(runs[r := run], interrupts[key := Interrupt(r, Open)])
  {
    var asked := interrupts[key := Interrupt(r, Open)];
    assert forall k, x :: Asks(asked, k, x) <==> Asks(interrupts, k, x) || (k == key && x == r);
    assert forall k :: !Asks(interrupts, k, r);
  }

  lemma QuestionAnswered(runs: map<Id, Run>, r: Id, run: Run, interrupts: map<Key, Interrupt>, key: Key)
    requires QuestionsAgree(runs, interrupts) && Asks(interrupts, key, r)
    requires r in runs && runs[r].status.Waiting? && run.status.Running? && run.thread == runs[r].thread
    ensures QuestionsAgree(runs[r := run], interrupts[key := Interrupt(r, Answered)])
  {
    var answered := interrupts[key := Interrupt(r, Answered)];
    assert forall k, x :: Asks(answered, k, x) <==> Asks(interrupts, k, x) && k != key;
    assert forall k :: !Asks(answered, k, r);
  }

  lemma QuestionsClosed(runs: map<Id, Run>, r: Id, interrupts: map<Key, Interrupt>)
    requires QuestionsAgree(runs, interrupts) && r in runs && !runs[r].status.Waiting?
    ensures QuestionsAgree(runs, CloseInterrupts(interrupts, runs[r].thread, r))
    ensures forall key :: !Asks(CloseInterrupts(interrupts, runs[r].thread, r), key, r)
  {
    var closed := CloseInterrupts(interrupts, runs[r].thread, r);
    assert forall k, x :: Asks(closed, k, x) <==> Asks(interrupts, k, x) && !(k.thread == runs[r].thread && x == r);
  }

  /** The run was not being stopped and still is not. */
  lemma StopsAfter(runs: map<Id, Run>, r: Id, run: Run, commands: map<Key, Command>)
    requires StopsAgree(runs, commands) && !run.status.Stopping?
    requires r in runs ==> run.thread == runs[r].thread && (runs[r].status.Running? || runs[r].status.Waiting?)
    ensures StopsAgree(runs[r := run], commands)
  {
  }

  lemma StopsIgnoreOthers(runs: map<Id, Run>, commands: map<Key, Command>, key: Key, command: Command)
    requires StopsAgree(runs, commands) && !command.kind.Stop?
    requires key in commands ==> !commands[key].kind.Stop?
    ensures StopsAgree(runs, commands[key := command])
  {
    var after := commands[key := command];
    assert forall k, x :: Stops(after, k, x) <==> Stops(commands, k, x);
  }

  lemma StopInserted(runs: map<Id, Run>, r: Id, run: Run, commands: map<Key, Command>, key: Key, command: Command)
    requires StopsAgree(runs, commands) && key !in commands
    requires r in runs && run.thread == runs[r].thread == key.thread && run.status.Stopping?
    requires runs[r].status.Running? || runs[r].status.Waiting?
    requires command.kind.Stop? && command.turn == r && command.status.Pending?
    ensures StopsAgree(runs[r := run], commands[key := command])
  {
    var after := commands[key := command];
    assert forall k, x :: Stops(after, k, x) <==> Stops(commands, k, x) || (k == key && x == r);
    assert forall k :: !Stops(commands, k, r);
  }

  /** The run is stopped now; its stop commands may still be pending. */
  lemma StopCompleted(runs: map<Id, Run>, r: Id, run: Run, commands: map<Key, Command>)
    requires StopsAgree(runs, commands)
    requires r in runs && (runs[r].status.Stopping? || runs[r].status.Stopped?) && run.status.Stopped?
      && run.thread == runs[r].thread
    ensures StopsAgree(runs[r := run], commands)
  {
  }

  lemma StopAccepted(runs: map<Id, Run>, commands: map<Key, Command>, key: Key)
    requires StopsAgree(runs, commands) && key in commands && commands[key].kind.Stop?
    requires commands[key].turn in runs && runs[commands[key].turn].status.Stopped?
    ensures StopsAgree(runs, commands[key := commands[key].(status := Accepted)])
  {
    var after := commands[key := commands[key].(status := Accepted)];
    assert forall k, x :: Stops(after, k, x) <==> Stops(commands, k, x);
  }

  lemma RecoveriesAfter(runs: map<Id, Run>, r: Id, run: Run, recoveries: map<Key, Recovery>)
    requires RecoveriesAgree(runs, recoveries) && Active(run.status)
    requires r in runs ==> run.thread == runs[r].thread && Active(runs[r].status)
    ensures RecoveriesAgree(runs[r := run], recoveries)
  {
  }

  lemma RecoveriesSettled(runs: map<Id, Run>, r: Id, run: Run, recoveries: map<Key, Recovery>,
      errorCode: Option<string>)
    requires RecoveriesAgree(runs, recoveries) && !Active(run.status)
    requires r in runs && run.thread == runs[r].thread && Active(runs[r].status)
    requires run.status.Completed? ==> RecoveriesReady(recoveries, run.thread, r)
    ensures RecoveriesAgree(runs[r := run], FinalizeRecoveries(recoveries, run.thread, r, run.status, errorCode))
  {
    var settled := FinalizeRecoveries(recoveries, run.thread, r, run.status, errorCode);
    forall key | key in settled
      ensures RecoveryAgrees(settled[key])
      ensures settled[key].run == recoveries[key].run
      ensures settled[key].status.Recovering? ==> recoveries[key].status.Recovering? && recoveries[key].run != r
      ensures settled[key].status.Succeeded? ==>
        recoveries[key].status.Succeeded? || (recoveries[key].run == r && run.status.Completed?)
    {
      assert RecoveryAgrees(recoveries[key]);
    }
  }

  lemma AllowanceSettled(recoveries: map<Key, Recovery>, thread: Id, r: Id, status: Status, errorCode: Option<string>)
    requires OneAllowance(recoveries)
    ensures OneAllowance(FinalizeRecoveries(recoveries, thread, r, status, errorCode))
  {
    AllowanceFollowsNames(recoveries, FinalizeRecoveries(recoveries, thread, r, status, errorCode));
  }

  lemma AllowanceFollowsNames(before: map<Key, Recovery>, after: map<Key, Recovery>)
    requires OneAllowance(before) && after.Keys == before.Keys
    requires forall key :: key in before ==> after[key].replacement == before[key].replacement
    ensures OneAllowance(after)
  {
    assert forall key, id :: Names(after, key, id) ==> Names(before, key, id);
  }

  /** A turn ends: status, outcome and recoveries together. */
  lemma EndRun(db: Tables, r: Id, run: Run, errorCode: Option<string>) returns (finished: Tables)
    requires Inv(db) && r in db.runs && Active(db.runs[r].status) && !Active(run.status)
    requires run.thread == db.runs[r].thread && (run.errorCode.Some? <==> run.status.Failed?)
    requires run.status.Completed? ==> RecoveriesReady(db.recoveries, run.thread, r)
    ensures FinishTimeline(db.(runs := db.runs[r := run]), r, run.status, errorCode) == Some(finished)
    ensures finished == db.(runs := db.runs[r := run], outcomes := finished.outcomes, recoveries := finished.recoveries)
    ensures RunsOwned(finished) && OneActive(finished.runs) && OutcomesAgree(finished.runs, finished.outcomes)
      && ErrorsAgree(finished.runs)
    ensures OneAllowance(finished.recoveries) && RecoveriesAgree(finished.runs, finished.recoveries)
  {
    var ended := db.(runs := db.runs[r := run]);
    finished := FinishTimeline(ended, r, run.status, errorCode).value;
    RunInSession(db, r);
    hide RunsOwned, OneActive, OutcomesAgree, ErrorsAgree, QuestionsAgree, StopsAgree, OneAllowance, RecoveriesAgree;
    OwnedAfter(db, finished, r, run);
    ActiveAfter(db.runs, r, run);
    OutcomesAfter(db.runs, r, run, db.outcomes);
    ErrorsAfter(db.runs, r, run);
    AllowanceSettled(db.recoveries, run.thread, r, run.status, errorCode);
    RecoveriesSettled(db.runs, r, run, db.recoveries, errorCode);
  }

  lemma RunInSession(db: Tables, r: Id)
    requires RunsOwned(db) && r in db.runs
    ensures db.runs[r].thread in db.sessions
  {
  }

  /** A run stays active: everything but its questions and stop commands follows. */
  lemma StayActive(db: Tables, r: Id, run: Run)
    requires Inv(db) && r in db.runs && Active(db.runs[r].status) && Active(run.status)
    requires run.thread == db.runs[r].thread && run.errorCode.None?
    ensures var next := db.(runs := db.runs[r := run]);
            RunsOwned(next) && OneActive(next.runs) && OutcomesAgree(next.runs, next.outcomes) && ErrorsAgree(next.runs)
            && OneAllowance(next.recoveries) && RecoveriesAgree(next.runs, next.recoveries)
  {
    RunInSession(db, r);
    hide RunsOwned, OneActive, OutcomesAgree, ErrorsAgree, QuestionsAgree, StopsAgree, OneAllowance, RecoveriesAgree;
    OwnedAfter(db, db.(runs := db.runs[r := run]), r, run);
    ActiveAfter(db.runs, r, run);
    OutcomesAfter(db.runs, r, run, db.outcomes);
    ErrorsAfter(db.runs, r, run);
    RecoveriesAfter(db.runs, r, run, db.recoveries);
  }

  // ----- Each transaction keeps the invariant -----

  lemma NobodyActive(db: Tables, thread: Id)
    requires !HasCurrent(db, thread)
    ensures forall x :: x in db.runs ==> db.runs[x].thread == thread ==> !Active(db.runs[x].status)
  {
  }

  lemma NoSessionNoRuns(db: Tables, thread: Id)
    requires RunsOwned(db) && thread !in db.sessions
    ensures forall x :: x in db.runs ==> db.runs[x].thread != thread
  {
  }

  lemma KeepPrepareRun(db: Tables, input: RunInput)
    requires Inv(db)
    ensures Inv(FirstOrElse(PrepareRun(db, input), db))
  {
    var next := FirstOrElse(PrepareRun(db, input), db);
    if next != db {
      if input.thread in db.sessions {
        NobodyActive(db, input.thread);
      } else {
        NoSessionNoRuns(db, input.thread);
      }
      hide RunsOwned, OneActive, OutcomesAgree, ErrorsAgree, QuestionsAgree, StopsAgree, OneAllowance, RecoveriesAgree;
      var run := next.runs[input.runId];
      var key := Key(input.thread, input.commandId);
      OwnedAfter(db, next, input.runId, run);
      ActiveAfter(db.runs, input.runId, run);
      OutcomesAfter(db.runs, input.runId, run, db.outcomes);
      ErrorsAfter(db.runs, input.runId, run);
      QuestionsAfter(db.runs, input.runId, run, db.interrupts);
      StopsAfter(db.runs, input.runId, run, db.commands);
      StopsIgnoreOthers(next.runs, db.commands, key, next.commands[key]);
      RecoveriesAfter(db.runs, input.runId, run, db.recoveries);
    }
  }

  lemma KeepPrepareAnswer(db: Tables, input: AnswerInput)
    requires Inv(db)
    ensures Inv(FirstOrElse(PrepareAnswer(db, input), db))
  {
    hide RunsOwned, OneActive, OutcomesAgree, QuestionsAgree, StopsAgree, OneAllowance, RecoveriesAgree;
    var next := FirstOrElse(PrepareAnswer(db, input), db);
    if next != db {
      var run := next.runs[input.runId];
      var key := Key(input.thread, input.commandId);
      StayActive(db, input.runId, run);
      OwnedSame(db.(runs := next.runs), next);
      QuestionAnswered(db.runs, input.runId, run, db.interrupts, Key(input.thread, input.interruptId));
      StopsAfter(db.runs, input.runId, run, db.commands);
      StopsIgnoreOthers(next.runs, db.commands, key, next.commands[key]);
    }
  }

  lemma OwnedSame(db: Tables, next: Tables)
    requires RunsOwned(db) && next.runs == db.runs && next.sessions == db.sessions
    ensures RunsOwned(next)
  {
  }

  /** Only commands that are no stops changed. */
  lemma KeepCommand(db: Tables, next: Tables, key: Key)
    requires Inv(db) && key in next.commands && !next.commands[key].kind.Stop?
    requires key in db.commands ==> !db.commands[key].kind.Stop?
    requires next == db.(commands := db.commands[key := next.commands[key]])
    ensures Inv(next)
  {
    OwnedSame(db, next);
    hide RunsOwned, OneActive, OutcomesAgree, ErrorsAgree, QuestionsAgree, StopsAgree, OneAllowance, RecoveriesAgree;
    StopsIgnoreOthers(db.runs, db.commands, key, next.commands[key]);
  }

  lemma KeepPrepareSteer(db: Tables, input: CommandInput)
    requires Inv(db)
    ensures Inv(FirstOrElse(PrepareSteer(db, input), db))
  {
    hide Inv;
    var next := FirstOrElse(PrepareSteer(db, input), db);
    if next != db {
      KeepCommand(db, next, Key(input.thread, input.commandId));
    }
  }

  lemma KeepAcceptSteer(db: Tables, input: CommandInput)
    requires Inv(db)
    ensures Inv(OrElse(AcceptSteer(db, input), db))
  {
    hide Inv;
    var next := OrElse(AcceptSteer(db, input), db);
    if next != db {
      KeepCommand(db, next, Key(input.thread, input.commandId));
    }
  }

  lemma KeepRejectCommand(db: Tables, key: Key, code: string)
    requires Inv(db) && !IsStop(db, key)
    ensures Inv(RejectPendingCommand(db, key, code))
  {
    hide Inv;
    var next := RejectPendingCommand(db, key, code);
    if next != db {
      KeepCommand(db, next, key);
    }
  }

  lemma KeepPrepareStop(db: Tables, input: CommandInput)
    requires Inv(db)
    ensures Inv(FirstOrElse(PrepareStop(db, input), db))
  {
    var next := FirstOrElse(PrepareStop(db, input), db);
    if next != db {
      var r := input.expectedTurn;
      assert db.runs[r].errorCode.None?;
      hide RunsOwned, OneActive, OutcomesAgree, QuestionsAgree, StopsAgree, OneAllowance, RecoveriesAgree;
      var key := Key(input.thread, input.commandId);
      StayActive(db, r, next.runs[r]);
      OwnedSame(db.(runs := next.runs), next);
      QuestionsAfter(db.runs, r, next.runs[r], db.interrupts);
      StopInserted(db.runs, r, next.runs[r], db.commands, key, next.commands[key]);
    }
  }

  lemma KeepFinishStop(db: Tables, thread: Id, researcher: Id, commandId: Id, turn: Id)
    requires Inv(db)
    ensures Inv(OrElse(FinishStop(db, thread, researcher, commandId, turn), db))
  {
    var result := FinishStop(db, thread, researcher, commandId, turn);
    if result.Success? && result.value != db {
      var key := Key(thread, commandId);
      var run := db.runs[turn].(status := Stopped);
      assert db.runs[turn].errorCode.None?;
      if db.runs[turn].status.Stopped? {
        NothingToSettle(db, turn, Stopped, None);
        assert turn in db.outcomes;
        assert db.runs[turn := run] == db.runs;
      }
      hide RunsOwned, OneActive, OutcomesAgree, QuestionsAgree;
      hide StopsAgree, OneAllowance, RecoveriesAgree, CloseInterrupts;
      StopCompleted(db.runs, turn, run, db.commands);
      StopAccepted(db.runs[turn := run], db.commands, key);
      QuestionsAfter(db.runs, turn, run, db.interrupts);
      QuestionsClosed(db.runs[turn := run], turn, db.interrupts);
      if db.runs[turn].status.Stopping? {
        var finished := EndRun(db, turn, run, None);
        OwnedSame(finished, result.value);
      } else {
        OwnedSame(db, result.value);
      }
    }
  }

  lemma NothingToSettle(db: Tables, r: Id, status: Status, errorCode: Option<string>)
    requires RecoveriesAgree(db.runs, db.recoveries) && r in db.runs && !Active(db.runs[r].status)
    ensures FinalizeRecoveries(db.recoveries, db.runs[r].thread, r, status, errorCode) == db.recoveries
  {
  }

  lemma KeepMarkWaiting(db: Tables, runId: Id, interruptId: Id)
    requires Inv(db)
    ensures Inv(OrElse(MarkWaiting(db, runId, interruptId), db))
  {
    var result := MarkWaiting(db, runId, interruptId);
    if result.Success? {
      var next := result.value;
      assert db.runs[runId].errorCode.None?;
      hide RunsOwned, OneActive, OutcomesAgree, QuestionsAgree, StopsAgree, OneAllowance, RecoveriesAgree;
      StayActive(db, runId, next.runs[runId]);
      OwnedSame(db.(runs := next.runs), next);
      QuestionAsked(db.runs, runId, next.runs[runId], db.interrupts, Key(db.runs[runId].thread, interruptId));
      StopsAfter(db.runs, runId, next.runs[runId], db.commands);
    }
  }

  lemma KeepMarkCompleted(db: Tables, runId: Id)
    requires Inv(db)
    ensures Inv(FirstOrElse(MarkCompleted(db, runId), db))
  {
    var next := FirstOrElse(MarkCompleted(db, runId), db);
    if next != db {
      assert db.runs[runId].errorCode.None?;
      hide RunsOwned, OneActive, OutcomesAgree, QuestionsAgree;
      hide StopsAgree, OneAllowance, RecoveriesAgree, RecoveriesReady;
      var run := db.runs[runId].(status := Completed);
      var finished := EndRun(db, runId, run, None);
      QuestionsAfter(db.runs, runId, run, db.interrupts);
      StopsAfter(db.runs, runId, run, db.commands);
    }
  }

  lemma KeepMarkFailed(db: Tables, runId: Id, code: string)
    requires Inv(db)
    ensures Inv(FirstOrElse(MarkFailed(db, runId, code), db))
  {
    hide RunsOwned, OneActive, OutcomesAgree, QuestionsAgree;
    hide StopsAgree, OneAllowance, RecoveriesAgree, RecoveriesReady;
    var next := FirstOrElse(MarkFailed(db, runId, code), db);
    if next != db {
      var run := next.runs[runId];
      var finished := EndRun(db, runId, run, Some(code));
      QuestionsAfter(db.runs, runId, run, db.interrupts);
      if db.runs[runId].status.Stopping? {
        StopCompleted(db.runs, runId, run, db.commands);
      } else {
        StopsAfter(db.runs, runId, run, db.commands);
      }
    }
  }

  // ----- Host restart -----

  lemma RestartKeepsOwners(db: Tables)
    requires RunsOwned(db)
    ensures RunsOwned(HostRestart(db))
  {
  }

  lemma RestartKeepsRuns(runs: map<Id, Run>)
    requires OneActive(runs) && ErrorsAgree(runs)
    ensures OneActive(RestartRuns(runs)) && ErrorsAgree(RestartRuns(runs))
  {
  }

  lemma RestartKeepsOutcomes(db: Tables)
    requires OutcomesAgree(db.runs, db.outcomes)
    ensures OutcomesAgree(RestartRuns(db.runs), RestartOutcomes(db))
  {
  }

  lemma RestartQuestions(db: Tables)
    requires QuestionsAgree(db.runs, db.interrupts)
    ensures QuestionsAgree(HostRestart(db).runs, HostRestart(db).interrupts)
  {
    var next := HostRestart(db);
    forall key, r
      ensures Asks(next.interrupts, key, r) <==> Asks(db.interrupts, key, r) && !db.runs[r].status.Stopping?
    {
    }
    forall r | r in next.runs && next.runs[r].status.Waiting?
      ensures exists key :: Asks(next.interrupts, key, r)
    {
      assert db.runs[r].status.Waiting?;
      var key :| Asks(db.interrupts, key, r);
      assert Asks(next.interrupts, key, r);
    }
  }

  lemma RestartStops(db: Tables)
    requires StopsAgree(db.runs, db.commands)
    ensures StopsAgree(HostRestart(db).runs, HostRestart(db).commands)
  {
  }

  lemma RecoveryRestarted(db: Tables, key: Key)
    requires key in db.recoveries && RecoveryAgrees(db.recoveries[key])
    requires db.recoveries[key].run in db.runs && db.runs[db.recoveries[key].run].thread == key.thread
    ensures RecoveryAgrees(RestartRecoveries(db)[key])
    ensures RestartRecoveries(db)[key].run == db.recoveries[key].run
    ensures RestartRecoveries(db)[key].status.Recovering? ==>
      db.recoveries[key].status.Recovering? && !Interrupted(db, db.recoveries[key].run)
    ensures RestartRecoveries(db)[key].status.Succeeded? ==> db.recoveries[key].status.Succeeded?
  {
  }

  lemma RestartKeepsRecoveries(db: Tables)
    requires RecoveriesAgree(db.runs, db.recoveries)
    ensures RecoveriesAgree(RestartRuns(db.runs), RestartRecoveries(db))
  {
    hide RecoveryAgrees, RestartedRecovery;
    forall key | key in db.recoveries
      ensures RecoveryAgrees(RestartRecoveries(db)[key])
      ensures RestartRecoveries(db)[key].run == db.recoveries[key].run
      ensures RestartRecoveries(db)[key].status.Recovering? ==>
        db.recoveries[key].status.Recovering? && !Interrupted(db, db.recoveries[key].run)
      ensures RestartRecoveries(db)[key].status.Succeeded? ==> db.recoveries[key].status.Succeeded?
    {
      RecoveryRestarted(db, key);
    }
  }

  lemma RestartKeepsAllowances(db: Tables)
    requires OneAllowance(db.recoveries)
    ensures OneAllowance(RestartRecoveries(db))
  {
    hide OneAllowance;
    AllowanceFollowsNames(db.recoveries, RestartRecoveries(db));
  }

  lemma KeepHostRestart(db: Tables)
    requires Inv(db)
    ensures Inv(HostRestart(db))
  {
    RestartKeepsOwners(db);
    hide RunsOwned, OneActive, OutcomesAgree, ErrorsAgree, QuestionsAgree, StopsAgree, OneAllowance, RecoveriesAgree;
    hide RestartRuns, RestartOutcomes, RestartRecoveries;
    RestartKeepsRuns(db.runs);
    RestartKeepsOutcomes(db);
    RestartQuestions(db);
    RestartStops(db);
    RestartKeepsRecoveries(db);
    RestartKeepsAllowances(db);
  }

  // ----- Recoveries -----

  /** Only the recovery rows changed. */
  lemma KeepRecoveries(db: Tables, next: Tables)
    requires Inv(db) && next == db.(recoveries := next.recoveries)
    requires OneAllowance(next.recoveries) && RecoveriesAgree(db.runs, next.recoveries)
    ensures Inv(next)
  {
  }

  ghost predicate SameAllowance(before: Recovery, after: Recovery) {
    after.run == before.run && after.replacement == before.replacement && RecoveryAgrees(after)
    && (after.status.Recovering? ==> before.status.Recovering?)
    && (after.status.Succeeded? ==> before.status.Succeeded?)
  }

  lemma KeepRecoveryRows(db: Tables, next: Tables)
    requires Inv(db) && next == db.(recoveries := next.recoveries) && next.recoveries.Keys == db.recoveries.Keys
    requires forall key :: key in db.recoveries ==> SameAllowance(db.recoveries[key], next.recoveries[key])
    ensures Inv(next)
  {
    hide RunsOwned, OneActive, OutcomesAgree, ErrorsAgree, QuestionsAgree, StopsAgree;
    AllowanceFollowsNames(db.recoveries, next.recoveries);
    KeepRecoveries(db, next);
  }

  lemma NewAllowance(db: Tables, stop: StepStop, recovery: Recovery)
    requires OneAllowance(db.recoveries) && FreshReplacement(db, stop) && !Known(db, stop.thread, stop.messageId)
    requires recovery.replacement == Some(stop.freshId) || recovery.replacement == None
    ensures Key(stop.thread, stop.messageId) !in db.recoveries
    ensures OneAllowance(db.recoveries[Key(stop.thread, stop.messageId) := recovery])
  {
    var key := Key(stop.thread, stop.messageId);
    var next := db.recoveries[key := recovery];
    assert key !in db.recoveries by {
      if key in db.recoveries {
        assert Addresses(db, key, stop.messageId);
      }
    }
    forall k | k in db.recoveries && k.thread == stop.thread
      ensures !Names(db.recoveries, k, stop.messageId) && !Names(db.recoveries, k, stop.freshId)
    {
      assert !Addresses(db, k, stop.messageId) && !Addresses(db, k, stop.freshId);
    }
    assert forall k, id :: Names(next, k, id) ==>
      Names(db.recoveries, k, id) || (k == key && (id == stop.messageId || id == stop.freshId));
    assert forall k, id :: Names(next, k, id) && k != key ==> Names(db.recoveries, k, id);
  }

  lemma RecoveryInserted(runs: map<Id, Run>, recoveries: map<Key, Recovery>, key: Key, recovery: Recovery)
    requires RecoveriesAgree(runs, recoveries) && RecoveryAgrees(recovery)
    requires recovery.run in runs && runs[recovery.run].thread == key.thread && Active(runs[recovery.run].status)
    ensures !recovery.status.Succeeded? ==> RecoveriesAgree(runs, recoveries[key := recovery])
  {
  }

  lemma KeepRepeatedStop(db: Tables, stop: StepStop)
    requires Inv(db) && Known(db, stop.thread, stop.messageId)
    ensures Inv(FirstOrElse(RecordModelStepStop(db, stop), db))
  {
    hide RunsOwned, OneActive, OutcomesAgree, ErrorsAgree, QuestionsAgree;
    hide StopsAgree, OneAllowance, RecoveriesAgree, RecoveryImproves, Owned;
    var next := FirstOrElse(RecordModelStepStop(db, stop), db);
    if next != db {
      var key := Addressed(db, stop.thread, stop.messageId);
      RecoveryAt(db, key);
      hide Inv;
      KeepOneRecovery(db, key, next.recoveries[key]);
    }
  }

  lemma KeepNewStop(db: Tables, stop: StepStop)
    requires Inv(db) && FreshReplacement(db, stop) && !Known(db, stop.thread, stop.messageId)
    ensures Inv(FirstOrElse(RecordModelStepStop(db, stop), db))
  {
    hide RunsOwned, OneActive, OutcomesAgree, ErrorsAgree, QuestionsAgree, StopsAgree, OneAllowance, RecoveriesAgree;
    hide FreshReplacement, Known, RecoveryImproves, Owned;
    var next := FirstOrElse(RecordModelStepStop(db, stop), db);
    if next != db {
      var key := Key(stop.thread, stop.messageId);
      NewAllowance(db, stop, next.recoveries[key]);
      RecoveryInserted(db.runs, db.recoveries, key, next.recoveries[key]);
      hide RecordModelStepStop;
      KeepRecoveries(db, next);
    }
  }

  lemma KeepRecordStepStop(db: Tables, stop: StepStop)
    requires Inv(db) && FreshReplacement(db, stop)
    ensures Inv(FirstOrElse(RecordModelStepStop(db, stop), db))
  {
    hide *;
    if Known(db, stop.thread, stop.messageId) {
      KeepRepeatedStop(db, stop);
    } else {
      KeepNewStop(db, stop);
    }
  }

  lemma RecoveryAt(db: Tables, key: Key)
    requires RecoveriesAgree(db.runs, db.recoveries) && key in db.recoveries
    ensures RecoveryAgrees(db.recoveries[key])
  {
  }

  lemma KeepOneRecovery(db: Tables, key: Key, recovery: Recovery)
    requires Inv(db) && key in db.recoveries && SameAllowance(db.recoveries[key], recovery)
    ensures Inv(db.(recoveries := db.recoveries[key := recovery]))
  {
    hide RunsOwned, OneActive, OutcomesAgree, ErrorsAgree, QuestionsAgree, StopsAgree, OneAllowance, RecoveryImproves;
    KeepRecoveryRows(db, db.(recoveries := db.recoveries[key := recovery]));
  }

  lemma KeepCompleteReplacement(db: Tables, thread: Id, researcher: Id, runId: Id, messageId: Id)
    requires Inv(db)
    ensures Inv(OrElse(CompleteReplacement(db, thread, researcher, runId, messageId), db))
  {
    hide RunsOwned, OneActive, OutcomesAgree, ErrorsAgree, QuestionsAgree, StopsAgree, OneAllowance, RecoveryImproves;
    var next := OrElse(CompleteReplacement(db, thread, researcher, runId, messageId), db);
    if next != db {
      KeepRecoveryRows(db, next);
    }
  }

  lemma KeepInvalidateReplacement(db: Tables, thread: Id, researcher: Id, runId: Id, messageId: Id)
    requires Inv(db)
    ensures Inv(OrElse(InvalidateReplacement(db, thread, researcher, runId, messageId), db))
  {
    hide RunsOwned, OneActive, OutcomesAgree, ErrorsAgree, QuestionsAgree, StopsAgree, OneAllowance, RecoveryImproves;
    var next := OrElse(InvalidateReplacement(db, thread, researcher, runId, messageId), db);
    if next != db {
      KeepRecoveryRows(db, next);
    }
  }

  lemma KeepUpdateRecovery(db: Tables, thread: Id, researcher: Id, runId: Id, original: Id, outcome: RecoveryOutcome)
    requires Inv(db)
    ensures Inv(OrElse(UpdateRecovery(db, thread, researcher, runId, original, outcome), db))
  {
    hide RunsOwned, OneActive, OutcomesAgree, ErrorsAgree, QuestionsAgree;
    hide StopsAgree, OneAllowance, RecoveriesAgree, RecoveryImproves;
    var next := OrElse(UpdateRecovery(db, thread, researcher, runId, original, outcome), db);
    if next != db {
      RecoveryAt(db, Key(thread, original));
      KeepOneRecovery(db, Key(thread, original), next.recoveries[Key(thread, original)]);
    }
  }

  lemma KeepCheckpoints(db: Tables, next: Tables)
    requires Inv(db) && next == db.(checkpoints := next.checkpoints)
    ensures Inv(next)
  {
  }

  // ----- Every action, every run -----

  lemma StepKeepsInv(db: Tables, action: Action)
    requires Inv(db)
    ensures Inv(Apply(db, action))
  {
    hide Inv, FreshReplacement, HostRestart, PrepareRun, PrepareAnswer;
    hide PrepareSteer, AcceptSteer, RejectPendingCommand, PrepareStop, FinishStop;
    hide MarkWaiting, MarkCompleted, MarkFailed, RecordModelStepStop;
    hide CompleteReplacement, InvalidateReplacement, UpdateRecovery;
    match action
    case DoPrepareRun(input) => KeepPrepareRun(db, input);
    case DoPrepareAnswer(input) => KeepPrepareAnswer(db, input);
    case DoPrepareSteer(input) => KeepPrepareSteer(db, input);
    case DoAcceptSteer(input) => KeepAcceptSteer(db, input);
    case DoRejectCommand(key, code) => if !IsStop(db, key) { KeepRejectCommand(db, key, code); }
    case DoPrepareStop(input) => KeepPrepareStop(db, input);
    case DoFinishStop(thread, researcher, commandId, turn) => KeepFinishStop(db, thread, researcher, commandId, turn);
    case DoMarkWaiting(runId, interruptId) => KeepMarkWaiting(db, runId, interruptId);
    case DoMarkCompleted(runId) => KeepMarkCompleted(db, runId);
    case DoMarkFailed(runId, code) => KeepMarkFailed(db, runId, code);
    case DoHostRestart => KeepHostRestart(db);
    case DoRecordStepStop(stop) => if FreshReplacement(db, stop) { KeepRecordStepStop(db, stop); }
    case DoCompleteReplacement(thread, researcher, runId, messageId) =>
      KeepCompleteReplacement(db, thread, researcher, runId, messageId);
    case DoInvalidateReplacement(thread, researcher, runId, messageId) =>
      KeepInvalidateReplacement(db, thread, researcher, runId, messageId);
    case DoUpdateRecovery(thread, researcher, runId, messageId, outcome) =>
      KeepUpdateRecovery(db, thread, researcher, runId, messageId, outcome);
    case DoBeginCycle(_, _, _, _, _) => KeepCheckpoints(db, Apply(db, action));
    case DoCommitCycle(_, _, _, _, _) => KeepCheckpoints(db, Apply(db, action));
    case DoReleaseCycle(_, _, _) => KeepCheckpoints(db, Apply(db, action));
  }

  lemma {:induction false} RunsKeepInv(db: Tables, actions: seq<Action>)
    requires Inv(db)
    ensures Inv(Execute(db, actions))
    decreases |actions|
  {
    hide Inv, Apply;
    if |actions| > 0 {
      StepKeepsInv(db, actions[0]);
      RunsKeepInv(Apply(db, actions[0]), actions[1..]);
    }
  }

  lemma NothingStored()
    ensures Inv(NO_TABLES)
  {
  }

  /**
   A running turn completes exactly when each of its recoveries still open has a
   budget that improves on the failed one and a validated replacement; then all
   of them have succeeded or were given up before.
   */
  lemma CompletionIsChecked(db: Tables, r: Id)
    requires Inv(db) && r in db.runs && db.runs[r].status.Running?
    ensures MarkCompleted(db, r).Success? <==>
      forall key :: key in db.recoveries && db.recoveries[key].run == r && db.recoveries[key].status.Recovering? ==>
        db.recoveries[key].after.Some? && !db.recoveries[key].invalidReplacement
    ensures MarkCompleted(db, r).Success? ==> var next := MarkCompleted(db, r).value.0;
      next.runs[r].status.Completed?
      && forall key :: key in next.recoveries && next.recoveries[key].run == r ==>
           !next.recoveries[key].status.Recovering?
           && (next.recoveries[key].status.Succeeded? ==>
                 next.recoveries[key].after.Some?
                 && RecoveryImproves(next.recoveries[key].cause, next.recoveries[key].before,
                   next.recoveries[key].after.value))
  {
    KeepMarkCompleted(db, r);
    assert forall key :: key in db.recoveries && db.recoveries[key].run == r ==> key.thread == db.runs[r].thread;
    hide RunsOwned, OneActive, OutcomesAgree, ErrorsAgree, QuestionsAgree, StopsAgree, OneAllowance, RecoveryImproves;
  }
}
