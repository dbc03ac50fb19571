/**
 ResearchSessionRepository in its own form: each method is one transaction that
 changes the rows step by step and rolls back when it throws.
 */
module SessionRepository {
  import opened Wrappers
  import opened ContextSource
  import opened ContextCheckpoint
  import opened SessionTables
  import opened SessionInvariants

  function Reply<T>(r: Result<(Tables, T), SessionError>): (result: Result<T, SessionError>) {
    match r
    case Success((_, reply)) => Success(reply)
    case Failure(error) => Failure(error)
  }

  function Thrown(r: Result<Tables, SessionError>): (result: Option<SessionError>) {
    match r
    case Success(_) => None
    case Failure(error) => Some(error)
  }

  /** Only a completion can be refused; nothing but recoveries and outcomes changes. */
  lemma TimelineOfAnUncompletedTurn(db: Tables, runId: Id, status: Status, errorCode: Option<string>)
    requires runId in db.runs && !status.Completed?
    ensures var finished := SessionTables.FinishTimeline(db, runId, status, errorCode);
            finished.Some?
              && finished.value == db.(recoveries := finished.value.recoveries, outcomes := finished.value.outcomes)
  {
  }

  // ----- A restart, run by run -----

  function RecoveriesRestarted(db: Tables, done: set<Id>): (r: map<Key, Recovery>) {
    map key | key in db.recoveries ::
      if db.recoveries[key].run in done then RestartedRecovery(db, key.thread, db.recoveries[key])
        else db.recoveries[key]
  }

  function OutcomesRestarted(db: Tables, done: set<Id>): (r: map<Id, Outcome>)
    requires done <= db.runs.Keys
  {
    map id | id in db.outcomes.Keys + done :: if id in db.outcomes then db.outcomes[id]
      else RestartedOutcome(db.runs[id])
  }

  lemma OneMoreRun(db: Tables, done: set<Id>, id: Id)
    requires done <= db.runs.Keys && id !in done && Interrupted(db, id)
    ensures FinalizeRecoveries(RecoveriesRestarted(db, done), db.runs[id].thread, id, RestartedRun(db.runs[id]).status,
      Some(INTERRUPTED))
         == RecoveriesRestarted(db, done + {id})
    ensures OutcomesRestarted(db, done + {id})
         == if id in db.outcomes then OutcomesRestarted(db, done)
           else OutcomesRestarted(db, done)[id := RestartedOutcome(db.runs[id])]
  {
  }

  lemma EveryRun(db: Tables, done: set<Id>)
    requires done == set id | id in db.runs && Interrupted(db, id)
    ensures RecoveriesRestarted(db, done) == RestartRecoveries(db) && OutcomesRestarted(db, done) == RestartOutcomes(db)
  {
  }

  function AcceptStopped(command: Command, runs: map<Id, Run>): (r: Command) {
    if command.status.Pending? && command.kind.Stop? && command.turn in runs && runs[command.turn].status.Stopped?
    then command.(status := Accepted) else command
  }

  function RejectSteers(command: Command): (r: Command) {
    if command.status.Pending? && command.kind.Steer?
    then command.(status := Rejected, errorCode := Some("CHAT_CAPABILITY_UNAVAILABLE")) else command
  }

  lemma ClaimResult(db: Tables, thread: Id, researcher: Id, runId: Id, cycleId: Id, history: seq<Message>)
    ensures SessionTables.BeginContextCycle(db, thread, researcher, runId, cycleId, history) ==
      if !Owned(db, thread, researcher) then Failure(SessionNotFound)
      else if !RunIsRunning(db, thread, runId) || RowOf(db, thread).owner.Some? then Failure(CheckpointConflict)
      else Success((db.(checkpoints := db.checkpoints[thread := RowOf(db,
        thread).(owner := Some(Owner(cycleId, runId)))]),
                    Cycle(cycleId, runId, RowOf(db, thread).revision, FreezeContextSource(history))))
  {
    hide Owned, RunIsRunning, RowOf, FreezeContextSource;
  }

  lemma CommitResult(db: Tables, thread: Id, researcher: Id, cycle: Cycle, candidate: Boundary, history: seq<Message>)
    ensures SessionTables.CommitContextCycle(db, thread, researcher, cycle, candidate, history).Success? <==>
      Owned(db, thread, researcher) && thread in db.checkpoints
      && SnapshotWellFormed(candidate) && candidate.watermark == cycle.watermark
      && ContextSourceMatches(cycle.watermark, FreezeContextSource(history))
      && db.checkpoints[thread].owner == Some(Owner(cycle.id, cycle.runId))
        && db.checkpoints[thread].revision == cycle.revision
      && RunIsRunning(db, thread, cycle.runId)
    ensures SessionTables.CommitContextCycle(db, thread, researcher, cycle, candidate, history).Success? ==>
      SessionTables.CommitContextCycle(db, thread, researcher, cycle, candidate, history).value
      == db.(checkpoints := db.checkpoints[thread := Checkpoint(db.checkpoints[thread].revision + 1, Some(candidate),
        None)])
  {
    hide Owned, RunIsRunning, FreezeContextSource, SnapshotWellFormed, ContextSourceMatches;
  }

  /** The two updates in this order decide each pending command once. */
  lemma AcceptThenReject(commands: map<Key, Command>, runs: map<Id, Run>)
    ensures var accepted := map key | key in commands :: AcceptStopped(commands[key], runs);
            (map key | key in accepted :: RejectSteers(accepted[key])) == RestartCommands(commands, runs)
  {
  }

  class ResearchSessionRepository {
    var sessions: map<Id, Id>
    var runs: map<Id, Run>
    var commands: map<Key, Command>
    var interrupts: map<Key, Interrupt>
    var outcomes: map<Id, Outcome>
    var recoveries: map<Key, Recovery>
    var checkpoints: map<Id, Checkpoint>

    function State(): (next: Tables)
      reads this
    {
      Tables(sessions, runs, commands, interrupts, outcomes, recoveries, checkpoints)
    }

    ghost predicate Valid()
      reads this
    {
      Inv(State())
    }

    constructor ()
      ensures State() == NO_TABLES && Valid()
    {
      sessions, runs, commands, interrupts, outcomes, recoveries, checkpoints := map[], map[], map[], map[], map[],
        map[], map[];
      new;
      NothingStored();
    }

    method Rollback(saved: Tables)
      modifies this
      ensures State() == saved
    {
      sessions, runs, commands, interrupts := saved.sessions, saved.runs, saved.commands, saved.interrupts;
      outcomes, recoveries, checkpoints := saved.outcomes, saved.recoveries, saved.checkpoints;
    }

    method PrepareRun(input: RunInput) returns (r: Result<Prepared, SessionError>)
      requires Valid()
      modifies this
      ensures Valid()
      ensures State() == FirstOrElse(SessionTables.PrepareRun(old(State()), input), old(State()))
      ensures r == Reply(SessionTables.PrepareRun(old(State()), input))
    {
      ghost var before := State();
      hide Inv;
      KeepPrepareRun(before, input);
      if input.runId in runs {
        var duplicate := runs[input.runId];
        if duplicate.thread != input.thread || !Owned(State(), duplicate.thread, input.researcher) {
          return Failure(SessionNotFound);
        }
        if duplicate.fingerprint != input.fingerprint {
          return Failure(RunConflict);
        }
        return Success(Duplicate(duplicate.status));
      }
      if Key(input.thread, input.commandId) in commands {
        return Failure(CommandConflict);
      }
      var existing := input.thread in sessions;
      if existing && sessions[input.thread] != input.researcher {
        return Failure(SessionNotFound);
      }
      if existing == input.newSession {
        return Failure(SessionNotFound);
      }
      if existing && HasCurrent(State(), input.thread) {
        return Failure(SessionActive);
      }
      if input.kind.Continue? && !LatestIsStopped(State(), input.thread) {
        return Failure(CapabilityUnavailable);
      }
      if !existing {
        if !input.kind.Prompt? {
          return Failure(SessionNotFound);
        }
        sessions := sessions[input.thread := input.researcher];
      }
      runs := runs[input.runId := Run(input.thread, input.kind, input.fingerprint, Running, None, input.startedAt)];
      commands := commands[Key(input.thread, input.commandId) :=
        Command(input.runId, if input.kind.Prompt? then PromptCommand else ContinueCommand, input.fingerprint, Accepted,
          None)];
      r := Success(New);
      assert before.sessions[input.thread := input.researcher] == sessions;
    }

    method PrepareAnswer(input: AnswerInput) returns (r: Result<Prepared, SessionError>)
      requires Valid()
      modifies this
      ensures Valid()
      ensures State() == FirstOrElse(SessionTables.PrepareAnswer(old(State()), input), old(State()))
      ensures r == Reply(SessionTables.PrepareAnswer(old(State()), input))
    {
      hide Inv;
      KeepPrepareAnswer(State(), input);
      if input.runId !in runs {
        return Failure(SessionNotFound);
      }
      var run := runs[input.runId];
      if run.thread != input.thread || !Owned(State(), run.thread, input.researcher) {
        return Failure(SessionNotFound);
      }
      var key := Key(input.thread, input.commandId);
      if key in commands {
        if !Matches(commands[key], Answer, input.runId, input.fingerprint) {
          return Failure(CommandConflict);
        }
        return Success(Duplicate(run.status));
      }
      if !run.status.Waiting? {
        return Failure(QuestionNotFound);
      }
      var question := Key(input.thread, input.interruptId);
      if question !in interrupts || interrupts[question] != Interrupt(input.runId, Open) {
        return Failure(QuestionNotFound);
      }
      if !input.valid {
        return Failure(AnswerInvalid);
      }
      commands := commands[key := Command(input.runId, Answer, input.fingerprint, Accepted, None)];
      interrupts := interrupts[question := Interrupt(input.runId, Answered)];
      runs := runs[input.runId := run.(status := Running)];
      r := Success(New);
    }

    method PrepareSteer(input: CommandInput) returns (r: Result<Receipt, SessionError>)
      requires Valid()
      modifies this
      ensures Valid()
      ensures State() == FirstOrElse(SessionTables.PrepareSteer(old(State()), input), old(State()))
      ensures r == Reply(SessionTables.PrepareSteer(old(State()), input))
    {
      hide Inv;
      KeepPrepareSteer(State(), input);
      var key := Key(input.thread, input.commandId);
      if !Owned(State(), input.thread, input.researcher) {
        return Failure(SessionNotFound);
      }
      if key in commands {
        if !Matches(commands[key], Steer, input.expectedTurn, input.fingerprint) {
          return Failure(CommandConflict);
        }
        return Success(Receipt(true, false, commands[key].status));
      }
      if !IsCurrent(State(), input.thread, input.expectedTurn) {
        return Failure(StaleTurn);
      }
      if !runs[input.expectedTurn].status.Running? {
        return Failure(TurnNotSteerable);
      }
      commands := commands[key := Command(input.expectedTurn, Steer, input.fingerprint, Pending, None)];
      r := Success(Receipt(false, false, Pending));
    }

    method AcceptSteer(input: CommandInput) returns (error: Option<SessionError>)
      requires Valid()
      modifies this
      ensures Valid()
      ensures State() == OrElse(SessionTables.AcceptSteer(old(State()), input), old(State()))
      ensures error == Thrown(SessionTables.AcceptSteer(old(State()), input))
    {
      hide Inv;
      KeepAcceptSteer(State(), input);
      var key := Key(input.thread, input.commandId);
      if !Owned(State(), input.thread, input.researcher) {
        return Some(SessionNotFound);
      }
      if key !in commands || !Matches(commands[key], Steer, input.expectedTurn, input.fingerprint) {
        return Some(CommandConflict);
      }
      if commands[key].status.Rejected? {
        return Some(CommandConflict);
      }
      if commands[key].status.Pending? {
        commands := commands[key := commands[key].(status := Accepted)];
      }
      error := None;
    }

    method RejectPendingCommand(key: Key, code: string)
      requires Valid()
      modifies this
      ensures !IsStop(old(State()), key) ==> Valid()
      ensures State() == SessionTables.RejectPendingCommand(old(State()), key, code)
    {
      hide Inv;
      if !IsStop(State(), key) {
        KeepRejectCommand(State(), key, code);
      }
      if key in commands && commands[key].status.Pending? {
        commands := commands[key := commands[key].(status := Rejected, errorCode := Some(code))];
      }
    }

    method PrepareStop(input: CommandInput) returns (r: Result<Receipt, SessionError>)
      requires Valid()
      modifies this
      ensures Valid()
      ensures State() == FirstOrElse(SessionTables.PrepareStop(old(State()), input), old(State()))
      ensures r == Reply(SessionTables.PrepareStop(old(State()), input))
    {
      hide Inv;
      KeepPrepareStop(State(), input);
      var key := Key(input.thread, input.commandId);
      if !Owned(State(), input.thread, input.researcher) {
        return Failure(SessionNotFound);
      }
      if key in commands {
        if !Matches(commands[key], Stop, input.expectedTurn, input.fingerprint) {
          return Failure(CommandConflict);
        }
        if input.expectedTurn !in runs {
          return Failure(StaleTurn);
        }
        return Success(Receipt(true, runs[input.expectedTurn].status.Waiting?, commands[key].status));
      }
      if !IsCurrent(State(), input.thread, input.expectedTurn) {
        return Failure(StaleTurn);
      }
      var run := runs[input.expectedTurn];
      if !run.status.Running? && !run.status.Waiting? {
        return Failure(StaleTurn);
      }
      commands := commands[key := Command(input.expectedTurn, Stop, input.fingerprint, Pending, None)];
      runs := runs[input.expectedTurn := run.(status := Stopping)];
      r := Success(Receipt(false, run.status.Waiting?, Pending));
    }

    /** Settles the turn's recoveries, then records its outcome unless one is already there. */
    method FinishTimeline(runId: Id, status: Status, errorCode: Option<string>) returns (ok: bool)
      requires runId in runs
      modifies `recoveries, `outcomes
      ensures ok == SessionTables.FinishTimeline(old(State()), runId, status, errorCode).Some?
      ensures ok ==> State() == SessionTables.FinishTimeline(old(State()), runId, status, errorCode).value
      ensures !ok ==> State() == old(State())
    {
      var thread := runs[runId].thread;
      if status.Completed? && !RecoveriesReady(recoveries, thread, runId) {
        return false;
      }
      recoveries := FinalizeRecoveries(recoveries, thread, runId, status, errorCode);
      if runId !in outcomes {
        outcomes := outcomes[runId := Outcome(status, errorCode)];
      }
      ok := true;
    }

    method FinishStop(thread: Id, researcher: Id, commandId: Id, turn: Id) returns (error: Option<SessionError>)
      requires Valid()
      modifies this
      ensures Valid()
      ensures State()
        == OrElse(SessionTables.FinishStop(old(State()), thread, researcher, commandId, turn), old(State()))
      ensures error == Thrown(SessionTables.FinishStop(old(State()), thread, researcher, commandId, turn))
    {
      hide Inv, FinalizeRecoveries, CloseInterrupts, RecoveriesReady, SessionTables.FinishTimeline, Owned;
      KeepFinishStop(State(), thread, researcher, commandId, turn);
      var key := Key(thread, commandId);
      if !Owned(State(), thread, researcher) {
        return Some(SessionNotFound);
      }
      if key !in commands || !commands[key].kind.Stop? || commands[key].turn != turn {
        return Some(CommandConflict);
      }
      if commands[key].status.Accepted? {
        return None;
      }
      if commands[key].status.Rejected? {
        return Some(CommandConflict);
      }
      if turn in runs && runs[turn].thread == thread && runs[turn].status.Stopping? {
        runs := runs[turn := runs[turn].(status := Stopped)];
      } else if turn !in runs || runs[turn].thread != thread || !runs[turn].status.Stopped? {
        return Some(StaleTurn);
      }
      commands := commands[key := commands[key].(status := Accepted)];
      assert runs == old(runs)[turn := old(runs)[turn].(status := Stopped)];
      TimelineOfAnUncompletedTurn(State(), turn, Stopped, None);
      var finished := FinishTimeline(turn, Stopped, None);
      interrupts := CloseInterrupts(interrupts, thread, turn);
      error := None;
    }

    method MarkWaiting(runId: Id, interruptId: Id) returns (error: Option<SessionError>)
      requires Valid()
      modifies this
      ensures Valid()
      ensures State() == OrElse(SessionTables.MarkWaiting(old(State()), runId, interruptId), old(State()))
      ensures error == Thrown(SessionTables.MarkWaiting(old(State()), runId, interruptId))
    {
      var saved := State();
      hide Inv;
      KeepMarkWaiting(saved, runId, interruptId);
      if runId !in runs || !runs[runId].status.Running? {
        return Some(RunConflict);
      }
      runs := runs[runId := runs[runId].(status := Waiting)];
      var key := Key(runs[runId].thread, interruptId);
      if key in interrupts {
        Rollback(saved);
        return Some(InterruptExists);
      }
      interrupts := interrupts[key := Interrupt(runId, Open)];
      error := None;
    }

    method MarkCompleted(runId: Id) returns (r: Result<Status, SessionError>)
      requires Valid()
      modifies this
      ensures Valid()
      ensures State() == FirstOrElse(SessionTables.MarkCompleted(old(State()), runId), old(State()))
      ensures r == Reply(SessionTables.MarkCompleted(old(State()), runId))
    {
      var saved := State();
      hide Inv, FinalizeRecoveries, RecoveriesReady;
      KeepMarkCompleted(saved, runId);
      if runId !in runs {
        return Failure(RunConflict);
      }
      var run := runs[runId];
      if run.status.Stopping? || run.status.Stopped? {
        return Success(Stopped);
      }
      if run.status.Completed? {
        return Success(Completed);
      }
      if !run.status.Running? {
        return Failure(RunConflict);
      }
      runs := runs[runId := run.(status := Completed)];
      var finished := FinishTimeline(runId, Completed, None);
      if !finished {
        Rollback(saved);
        return Failure(RunConflict);
      }
      r := Success(Completed);
    }

    method MarkFailed(runId: Id, code: string) returns (r: Result<Status, SessionError>)
      requires Valid()
      modifies this
      ensures Valid()
      ensures State() == FirstOrElse(SessionTables.MarkFailed(old(State()), runId, code), old(State()))
      ensures r == Reply(SessionTables.MarkFailed(old(State()), runId, code))
    {
      hide Inv, FinalizeRecoveries, RecoveriesReady;
      KeepMarkFailed(State(), runId, code);
      if runId !in runs {
        return Failure(RunConflict);
      }
      var run := runs[runId];
      if run.status.Stopped? || run.status.Failed? {
        return Success(run.status);
      }
      var terminal := if run.status.Stopping? then Stopped else Failed;
      if !run.status.Running? && !run.status.Stopping? {
        return Failure(RunConflict);
      }
      runs := runs[runId := run.(status := terminal, errorCode := if terminal.Failed? then Some(code) else None)];
      var finished := FinishTimeline(runId, terminal, Some(code));
      r := Success(terminal);
    }

    method FailInterruptedRunsAfterHostRestart()
      requires Valid()
      modifies this
      ensures Valid()
      ensures State() == HostRestart(old(State()))
    {
      ghost var before := State();
      hide Inv, RestartRuns, RestartOutcomes, RestartRecoveries, RestartInterrupts, RestartCheckpoints, RestartCommands;
      hide AcceptStopped, RejectSteers, RestartedRun;
      KeepHostRestart(before);
      interrupts := RestartInterrupts(interrupts, runs);
      var rows := set id | id in runs && Interrupted(State(), id);
      runs := RestartRuns(runs);
      checkpoints := RestartCheckpoints(checkpoints, runs);
      assert rows == set id | id in before.runs && Interrupted(before, id);
      FinishInterruptedTimelines(before, rows);
      AcceptThenReject(commands, runs);
      commands := map key | key in commands :: AcceptStopped(commands[key], runs);
      commands := map key | key in commands :: RejectSteers(commands[key]);
    }

    /** The loop over the runs that the restart ended. */
    method FinishInterruptedTimelines(ghost before: Tables, rows: set<Id>)
      requires rows == set id | id in before.runs && Interrupted(before, id)
      requires runs == RestartRuns(before.runs) && recoveries == before.recoveries && outcomes == before.outcomes
      modifies `recoveries, `outcomes
      ensures recoveries == RestartRecoveries(before) && outcomes == RestartOutcomes(before)
    {
      var left := rows;
      ghost var done: set<Id> := {};
      while left != {}
        invariant done + left == rows && done !! left
        invariant recoveries == RecoveriesRestarted(before, done) && outcomes == OutcomesRestarted(before, done)
        decreases left
      {
        var id :| id in left;
        OneMoreRun(before, done, id);
        assert runs[id] == RestartedRun(before.runs[id]);
        recoveries := FinalizeRecoveries(recoveries, runs[id].thread, id, runs[id].status, Some(INTERRUPTED));
        if id !in outcomes {
          outcomes := outcomes[id := if runs[id].status.Failed? then Outcome(Failed, Some(INTERRUPTED))
            else Outcome(Stopped, None)];
        }
        left := left - {id};
        done := done + {id};
      }
      EveryRun(before, done);
    }

    method RecordModelStepStop(input: StepStop) returns (r: Result<bool, SessionError>)
      requires Valid() && FreshReplacement(State(), input)
      modifies `recoveries
      ensures Valid()
      ensures State() == FirstOrElse(SessionTables.RecordModelStepStop(old(State()), input), old(State()))
      ensures r == Reply(SessionTables.RecordModelStepStop(old(State()), input))
    {
      hide Inv, FreshReplacement, Owned, OneAllowance;
      ghost var before := State();
      KeepRecordStepStop(before, input);
      if !Owned(State(), input.thread, input.researcher) {
        return Failure(SessionNotFound);
      }
      if input.runId !in runs || runs[input.runId].thread != input.thread || !runs[input.runId].status.Running? {
        return Failure(RunConflict);
      }
      if Known(State(), input.thread, input.messageId) {
        var key :| key in recoveries && key.thread == input.thread && Addresses(State(), key, input.messageId);
        AllowancesOf(before);
        OneAddressed(before, input.thread, input.messageId, key);
        if recoveries[key].run != input.runId {
          return Failure(RunConflict);
        }
        if recoveries[key].replacement == Some(input.messageId) {
          recoveries := recoveries[key := recoveries[key].(invalidReplacement := true)];
        }
        return Success(false);
      }
      recoveries := recoveries[Key(input.thread, input.messageId) := Recovery(
        input.runId, if input.allowRecovery then Some(input.freshId) else None, if input.allowRecovery then 1 else 0,
          true, input.cause,
        if input.allowRecovery then Recovering else Unrecovered, input.budget, None,
        if input.allowRecovery then None else Some(CauseCode(input.cause)))];
      r := Success(input.allowRecovery);
    }

    method CompleteReplacement(thread: Id, researcher: Id, runId: Id, messageId: Id)
      returns (error: Option<SessionError>)
      requires Valid()
      modifies `recoveries
      ensures Valid()
      ensures State()
        == OrElse(SessionTables.CompleteReplacement(old(State()), thread, researcher, runId, messageId), old(State()))
      ensures error == Thrown(SessionTables.CompleteReplacement(old(State()), thread, researcher, runId, messageId))
    {
      hide Inv, Completable, Marked;
      KeepCompleteReplacement(State(), thread, researcher, runId, messageId);
      if !Owned(State(), thread, researcher) {
        return Some(SessionNotFound);
      }
      if runId !in runs || runs[runId].thread != thread || !runs[runId].status.Running? {
        return Some(RunConflict);
      }
      var updated := Completable(recoveries, thread, runId, messageId);
      if |updated| != 1 {
        return Some(RunConflict);
      }
      recoveries := Marked(recoveries, updated, false);
      error := None;
    }

    method InvalidateReplacement(thread: Id, researcher: Id, runId: Id, messageId: Id)
      returns (error: Option<SessionError>)
      requires Valid()
      modifies `recoveries
      ensures Valid()
      ensures State()
        == OrElse(SessionTables.InvalidateReplacement(old(State()), thread, researcher, runId, messageId), old(State()))
      ensures error == Thrown(SessionTables.InvalidateReplacement(old(State()), thread, researcher, runId, messageId))
    {
      hide Inv, Replacements, Marked;
      KeepInvalidateReplacement(State(), thread, researcher, runId, messageId);
      if !Owned(State(), thread, researcher) {
        return Some(SessionNotFound);
      }
      recoveries := Marked(recoveries, Replacements(recoveries, thread, runId, messageId), true);
      error := None;
    }

    method UpdateRecovery(thread: Id, researcher: Id, runId: Id, original: Id, outcome: RecoveryOutcome)
      returns (error: Option<SessionError>)
      requires Valid()
      modifies `recoveries
      ensures Valid()
      ensures State()
        == OrElse(SessionTables.UpdateRecovery(old(State()), thread, researcher, runId, original, outcome),
          old(State()))
      ensures error == Thrown(SessionTables.UpdateRecovery(old(State()), thread, researcher, runId, original, outcome))
    {
      hide Inv, RecoveryImproves;
      KeepUpdateRecovery(State(), thread, researcher, runId, original, outcome);
      var key := Key(thread, original);
      if !Owned(State(), thread, researcher) {
        return Some(SessionNotFound);
      }
      if runId !in runs || runs[runId].thread != thread || (!outcome.GaveUp? && !runs[runId].status.Running?) {
        return Some(RunConflict);
      }
      var found := key in recoveries && recoveries[key].run == runId;
      if found && recoveries[key].status.Unrecovered? && outcome.GaveUp? {
        return None;
      }
      if !found || !recoveries[key].status.Recovering? {
        return Some(RunConflict);
      }
      if outcome.Replaced? && !RecoveryImproves(recoveries[key].cause, recoveries[key].before, outcome.budget) {
        return Some(RunConflict);
      }
      recoveries := recoveries[key := recoveries[key].(
        status := if outcome.GaveUp? then Unrecovered else Recovering,
        after := if outcome.Replaced? then Some(outcome.budget) else recoveries[key].after,
        errorCode := if outcome.GaveUp? then Some(outcome.errorCode) else None)];
      error := None;
    }

    method BeginContextCycle(thread: Id, researcher: Id, runId: Id, cycleId: Id, history: seq<Message>)
      returns (r: Result<Cycle, SessionError>)
      requires Valid()
      modifies `checkpoints
      ensures State()
        == FirstOrElse(SessionTables.BeginContextCycle(old(State()), thread, researcher, runId, cycleId, history),
          old(State()))
      ensures Valid()
      ensures r == Reply(SessionTables.BeginContextCycle(old(State()), thread, researcher, runId, cycleId, history))
    {
      var saved := State();
      hide Inv, FreezeContextSource, Owned, RunIsRunning;
      ClaimResult(saved, thread, researcher, runId, cycleId, history);
      hide SessionTables.BeginContextCycle;
      KeepCheckpoints(saved,
        FirstOrElse(SessionTables.BeginContextCycle(saved, thread, researcher, runId, cycleId, history), saved));
      if !Owned(State(), thread, researcher) {
        return Failure(SessionNotFound);
      }
      if !RunIsRunning(State(), thread, runId) {
        return Failure(CheckpointConflict);
      }
      if thread !in checkpoints {
        checkpoints := checkpoints[thread := EMPTY_CHECKPOINT];
      }
      if checkpoints[thread].owner.Some? {
        assert thread in saved.checkpoints;
        checkpoints := saved.checkpoints;
        return Failure(CheckpointConflict);
      }
      checkpoints := checkpoints[thread := checkpoints[thread].(owner := Some(Owner(cycleId, runId)))];
      r := Success(Cycle(cycleId, runId, checkpoints[thread].revision, FreezeContextSource(history)));
    }

    method CommitContextCycle(thread: Id, researcher: Id, cycle: Cycle, candidate: Boundary, history: seq<Message>)
      returns (error: Option<SessionError>)
      requires Valid()
      modifies `checkpoints
      ensures Valid()
      ensures State()
        == OrElse(SessionTables.CommitContextCycle(old(State()), thread, researcher, cycle, candidate, history),
          old(State()))
      ensures error.None?
        <==> SessionTables.CommitContextCycle(old(State()), thread, researcher, cycle, candidate, history).Success?
    {
      hide Inv, SnapshotWellFormed, ContextSourceMatches, FreezeContextSource, Owned, RunIsRunning;
      CommitResult(State(), thread, researcher, cycle, candidate, history);
      hide SessionTables.CommitContextCycle;
      KeepCheckpoints(State(),
        OrElse(SessionTables.CommitContextCycle(State(), thread, researcher, cycle, candidate, history), State()));
      var wellFormed := CheckSnapshot(candidate);
      if !wellFormed || candidate.watermark != cycle.watermark {
        return Some(CheckpointConflict);
      }
      if !Owned(State(), thread, researcher) {
        return Some(SessionNotFound);
      }
      if !ContextSourceMatches(cycle.watermark, FreezeContextSource(history)) {
        return Some(CheckpointConflict);
      }
      if thread !in checkpoints || checkpoints[thread].owner != Some(Owner(cycle.id, cycle.runId))
         || checkpoints[thread].revision != cycle.revision || !RunIsRunning(State(), thread, cycle.runId) {
        return Some(CheckpointConflict);
      }
      checkpoints := checkpoints[thread := Checkpoint(checkpoints[thread].revision + 1, Some(candidate), None)];
      error := None;
    }

    method ReleaseContextCycle(thread: Id, researcher: Id, cycle: Cycle) returns (error: Option<SessionError>)
      requires Valid()
      modifies `checkpoints
      ensures Valid()
      ensures State()
        == OrElse(SessionTables.ReleaseContextCycle(old(State()), thread, researcher, cycle), old(State()))
      ensures error == Thrown(SessionTables.ReleaseContextCycle(old(State()), thread, researcher, cycle))
    {
      hide Inv;
      KeepCheckpoints(State(), OrElse(SessionTables.ReleaseContextCycle(State(), thread, researcher, cycle), State()));
      if !Owned(State(), thread, researcher) {
        return Some(SessionNotFound);
      }
      if thread in checkpoints && checkpoints[thread].owner == Some(Owner(cycle.id, cycle.runId)) {
        checkpoints := checkpoints[thread := checkpoints[thread].(owner := None)];
      }
      error := None;
    }

    /** Serves callers and restarts in the order in which their transactions take the thread's lock. */
    method Serve(actions: seq<Action>)
      requires Valid()
      modifies this
      ensures Valid()
      ensures State() == Execute(old(State()), actions)
    {
      var n := 0;
      while n < |actions|
        invariant 0 <= n <= |actions| && Valid()
        invariant Execute(State(), actions[n..]) == Execute(old(State()), actions)
      {
        hide Inv, Apply;
        ghost var before := State();
        assert actions[n..][0] == actions[n] && actions[n..][1..] == actions[n + 1..];
        ServeOne(actions[n]);
        n := n + 1;
      }
    }

    method ServeOne(action: Action)
      requires Valid()
      modifies this
      ensures Valid()
      ensures State() == Apply(old(State()), action)
    {
      hide Inv, FreshReplacement, HostRestart;
      hide SessionTables.PrepareRun, SessionTables.PrepareAnswer, SessionTables.PrepareSteer;
      hide SessionTables.PrepareStop, SessionTables.FinishStop, SessionTables.MarkWaiting;
      hide SessionTables.MarkCompleted, SessionTables.MarkFailed;
      hide SessionTables.AcceptSteer, SessionTables.RejectPendingCommand;
      match action
      case DoPrepareRun(input) => var _ := PrepareRun(input);
      case DoPrepareAnswer(input) => var _ := PrepareAnswer(input);
      case DoPrepareSteer(input) => var _ := PrepareSteer(input);
      case DoAcceptSteer(input) => var _ := AcceptSteer(input);
      case DoRejectCommand(key, code) =>
        if !IsStop(State(), key) {
          RejectPendingCommand(key, code);
        }
      case DoPrepareStop(input) => var _ := PrepareStop(input);
      case DoFinishStop(thread, researcher, commandId, turn) =>
        var _ := FinishStop(thread, researcher, commandId, turn);
      case DoMarkWaiting(runId, interruptId) => var _ := MarkWaiting(runId, interruptId);
      case DoMarkCompleted(runId) => var _ := MarkCompleted(runId);
      case DoMarkFailed(runId, code) => var _ := MarkFailed(runId, code);
      case DoHostRestart => FailInterruptedRunsAfterHostRestart();
      case _ =>
        hide Apply;
        ServeModelStep(action);
    }

    /** The transactions on recoveries and on the context checkpoint. */
    method ServeModelStep(action: Action)
      requires Valid()
      requires action.DoRecordStepStop? || action.DoCompleteReplacement? || action.DoInvalidateReplacement?
        || action.DoUpdateRecovery?
               || action.DoBeginCycle? || action.DoCommitCycle? || action.DoReleaseCycle?
      modifies this
      ensures Valid()
      ensures State() == Apply(old(State()), action)
    {
      hide Inv, FreshReplacement, SessionTables.RecordModelStepStop, SessionTables.CompleteReplacement;
      hide SessionTables.InvalidateReplacement, SessionTables.UpdateRecovery;
      hide SessionTables.BeginContextCycle, SessionTables.CommitContextCycle, SessionTables.ReleaseContextCycle;
      match action
      case DoRecordStepStop(stop) =>
        if FreshReplacement(State(), stop) {
          var _ := RecordModelStepStop(stop);
        }
      case DoCompleteReplacement(thread, researcher, runId, messageId) =>
        var _ := CompleteReplacement(thread, researcher, runId, messageId);
      case DoInvalidateReplacement(thread, researcher, runId, messageId) =>
        var _ := InvalidateReplacement(thread, researcher, runId, messageId);
      case DoUpdateRecovery(thread, researcher, runId, messageId, outcome) =>
        var _ := UpdateRecovery(thread, researcher, runId, messageId, outcome);
      case DoBeginCycle(thread, researcher, runId, cycleId, history) =>
        var _ := BeginContextCycle(thread, researcher, runId, cycleId, history);
      case DoCommitCycle(thread, researcher, cycle, candidate, history) =>
        var _ := CommitContextCycle(thread, researcher, cycle, candidate, history);
      case DoReleaseCycle(thread, researcher, cycle) => var _ := ReleaseContextCycle(thread, researcher, cycle);
    }
  }

  lemma AllowancesOf(db: Tables)
    requires Inv(db)
    ensures OneAllowance(db.recoveries)
  {
  }

  /** One allowance per message id: any row found is the addressed one. */
  lemma OneAddressed(db: Tables, thread: Id, messageId: Id, key: Key)
    requires OneAllowance(db.recoveries) && key in db.recoveries && key.thread == thread
      && Addresses(db, key, messageId)
    ensures Known(db, thread, messageId) && key == Addressed(db, thread, messageId)
  {
    assert Names(db.recoveries, key, messageId);
    assert Names(db.recoveries, Addressed(db, thread, messageId), messageId);
  }
}
