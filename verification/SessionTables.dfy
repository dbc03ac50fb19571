/**
 The durable rows of chat turns (apps/agent/schema/schema.sql:109-491) and the
 transactions of ResearchSessionRepository as functions on them. An advisory
 lock is held per thread, so each transaction is one atomic step; a failed one
 rolls back and changes nothing.
 */
module SessionTables {
  import opened Wrappers
  import opened ContextSource
  import opened ContextCheckpoint

  // ----- Rows -----

  datatype Status = Running | Waiting | Stopping | Completed | Stopped | Failed

  datatype TurnKind = Prompt | Continue

  datatype Run = Run(
    thread: Id, kind: TurnKind, fingerprint: string, status: Status, errorCode: Option<string>, startedAt: int)

  datatype CommandKind = PromptCommand | ContinueCommand | Steer | Answer | Stop

  datatype CommandStatus = Pending | Accepted | Rejected

  datatype Command = Command(
    turn: Id, kind: CommandKind, fingerprint: string, status: CommandStatus, errorCode: Option<string>)

  datatype InterruptStatus = Open | Answered | Closed

  datatype Interrupt = Interrupt(turn: Id, status: InterruptStatus)

  datatype Outcome = Outcome(status: Status, errorCode: Option<string>)

  datatype Cause = OutputLimit | ContextTooLarge

  datatype Budget = Budget(inputTokens: int, desiredOutputTokens: int, outputTokens: int, contextWindow: int)

  datatype RecoveryStatus = Recovering | Succeeded | Unrecovered

  datatype Recovery = Recovery(
    run: Id,
    replacement: Option<Id>,
    attempts: nat,
    invalidReplacement: bool,
    cause: Cause,
    status: RecoveryStatus,
    before: Budget,
    after: Option<Budget>,
    errorCode: Option<string>)

  datatype Key = Key(thread: Id, id: Id)

  datatype Tables = Tables(
    sessions: map<Id, Id>,
    runs: map<Id, Run>,
    commands: map<Key, Command>,
    interrupts: map<Key, Interrupt>,
    outcomes: map<Id, Outcome>,
    recoveries: map<Key, Recovery>,
    checkpoints: map<Id, Checkpoint>)

  datatype SessionError =
    | SessionNotFound
    | RunConflict
    | CommandConflict
    | SessionActive
    | CapabilityUnavailable
    | QuestionNotFound
    | AnswerInvalid
    | StaleTurn
    | TurnNotSteerable
    | InterruptExists
    | CheckpointConflict

  const NO_TABLES := Tables(map[], map[], map[], map[], map[], map[], map[])

  const INTERRUPTED := "AGENT_RUN_INTERRUPTED"

  const MAX_SAFE := 9_007_199_254_740_991

  predicate Active(status: Status) {
    status.Running? || status.Waiting? || status.Stopping?
  }

  predicate Owned(db: Tables, thread: Id, researcher: Id) {
    thread in db.sessions && db.sessions[thread] == researcher
  }

  predicate IsCurrent(db: Tables, thread: Id, runId: Id) {
    runId in db.runs && db.runs[runId].thread == thread && Active(db.runs[runId].status)
  }

  predicate HasCurrent(db: Tables, thread: Id) {
    exists runId :: runId in db.runs && IsCurrent(db, thread, runId)
  }

  predicate Precedes(a: string, b: string) {
    if |b| == 0 then false
    else if |a| == 0 then true
    else a[0] < b[0] || (a[0] == b[0] && Precedes(a[1..], b[1..]))
  }

  predicate StartedBefore(db: Tables, a: Id, b: Id)
    requires a in db.runs && b in db.runs
  {
    db.runs[a].startedAt < db.runs[b].startedAt
    || (db.runs[a].startedAt == db.runs[b].startedAt && Precedes(a, b))
  }

  /** ORDER BY started_at DESC, id DESC LIMIT 1. */
  predicate IsLatest(db: Tables, thread: Id, runId: Id) {
    runId in db.runs && db.runs[runId].thread == thread
    && forall other :: other in db.runs ==> db.runs[other].thread == thread && other != runId ==>
      StartedBefore(db, other, runId)
  }

  predicate LatestIsStopped(db: Tables, thread: Id) {
    exists runId :: runId in db.runs && IsLatest(db, thread, runId) && db.runs[runId].status.Stopped?
  }

  // ----- Starting and answering -----

  datatype RunInput = RunInput(
    thread: Id, runId: Id, commandId: Id, researcher: Id, kind: TurnKind, fingerprint: string, newSession: bool,
      startedAt: int)

  datatype Prepared = New | Duplicate(status: Status)

  function PrepareRun(db: Tables, input: RunInput): (r: Result<(Tables, Prepared), SessionError>) {
    if input.runId in db.runs then
      var run := db.runs[input.runId];
      if run.thread != input.thread || !Owned(db, run.thread, input.researcher) then Failure(SessionNotFound)
      else if run.fingerprint != input.fingerprint then Failure(RunConflict)
      else Success((db, Duplicate(run.status)))
    else if Key(input.thread, input.commandId) in db.commands then Failure(CommandConflict)
    else if input.thread in db.sessions && db.sessions[input.thread] != input.researcher then Failure(SessionNotFound)
    else if (input.thread in db.sessions) == input.newSession then Failure(SessionNotFound)
    else if input.thread in db.sessions && HasCurrent(db, input.thread) then Failure(SessionActive)
    else if input.kind.Continue? && !LatestIsStopped(db, input.thread) then Failure(CapabilityUnavailable)
    else if input.thread !in db.sessions && !input.kind.Prompt? then Failure(SessionNotFound)
    else
      var run := Run(input.thread, input.kind, input.fingerprint, Running, None, input.startedAt);
      var kind := if input.kind.Prompt? then PromptCommand else ContinueCommand;
      var command := Command(input.runId, kind, input.fingerprint, Accepted, None);
      Success((db.(sessions := db.sessions[input.thread := input.researcher],
                   runs := db.runs[input.runId := run],
                   commands := db.commands[Key(input.thread, input.commandId) := command]), New))
  }

  predicate Matches(command: Command, kind: CommandKind, turn: Id, fingerprint: string) {
    command.kind == kind && command.turn == turn && command.fingerprint == fingerprint
  }

  datatype AnswerInput = AnswerInput(
    thread: Id, runId: Id, commandId: Id, researcher: Id, fingerprint: string, interruptId: Id, valid: bool)

  function PrepareAnswer(db: Tables, input: AnswerInput): (r: Result<(Tables, Prepared), SessionError>) {
    var commandKey := Key(input.thread, input.commandId);
    var interruptKey := Key(input.thread, input.interruptId);
    if input.runId !in db.runs then Failure(SessionNotFound)
    else
      var run := db.runs[input.runId];
      if run.thread != input.thread || !Owned(db, run.thread, input.researcher) then Failure(SessionNotFound)
      else if commandKey in db.commands then
        if Matches(db.commands[commandKey], Answer, input.runId, input.fingerprint)
          then Success((db, Duplicate(run.status)))
        else Failure(CommandConflict)
      else if !run.status.Waiting? then Failure(QuestionNotFound)
      else if interruptKey !in db.interrupts || db.interrupts[interruptKey] != Interrupt(input.runId, Open)
        then Failure(QuestionNotFound)
      else if !input.valid then Failure(AnswerInvalid)
      else
        var command := Command(input.runId, Answer, input.fingerprint, Accepted, None);
        Success((db.(runs := db.runs[input.runId := run.(status := Running)],
                     commands := db.commands[commandKey := command],
                     interrupts := db.interrupts[interruptKey := Interrupt(input.runId, Answered)]), New))
  }

  // ----- Steering and stopping -----

  datatype CommandInput = CommandInput(thread: Id, researcher: Id, commandId: Id, expectedTurn: Id, fingerprint: string)

  datatype Receipt = Receipt(duplicate: bool, previousWaiting: bool, status: CommandStatus)

  function PrepareSteer(db: Tables, input: CommandInput): (r: Result<(Tables, Receipt), SessionError>) {
    var key := Key(input.thread, input.commandId);
    if !Owned(db, input.thread, input.researcher) then Failure(SessionNotFound)
    else if key in db.commands then
      if Matches(db.commands[key], Steer, input.expectedTurn, input.fingerprint)
      then Success((db, Receipt(true, false, db.commands[key].status)))
      else Failure(CommandConflict)
    else if !IsCurrent(db, input.thread, input.expectedTurn) then Failure(StaleTurn)
    else if !db.runs[input.expectedTurn].status.Running? then Failure(TurnNotSteerable)
    else
      var command := Command(input.expectedTurn, Steer, input.fingerprint, Pending, None);
      Success((db.(commands := db.commands[key := command]), Receipt(false, false, Pending)))
  }

  function AcceptSteer(db: Tables, input: CommandInput): (r: Result<Tables, SessionError>) {
    var key := Key(input.thread, input.commandId);
    if !Owned(db, input.thread, input.researcher) then Failure(SessionNotFound)
    else if key !in db.commands || !Matches(db.commands[key], Steer, input.expectedTurn, input.fingerprint)
      then Failure(CommandConflict)
    else if db.commands[key].status.Rejected? then Failure(CommandConflict)
    else Success(db.(commands := db.commands[key := db.commands[key].(status := Accepted)]))
  }

  function RejectPendingCommand(db: Tables, key: Key, code: string): (next: Tables) {
    if key in db.commands && db.commands[key].status.Pending?
    then db.(commands := db.commands[key := db.commands[key].(status := Rejected, errorCode := Some(code))])
    else db
  }

  function PrepareStop(db: Tables, input: CommandInput): (r: Result<(Tables, Receipt), SessionError>) {
    var key := Key(input.thread, input.commandId);
    if !Owned(db, input.thread, input.researcher) then Failure(SessionNotFound)
    else if key in db.commands then
      if !Matches(db.commands[key], Stop, input.expectedTurn, input.fingerprint) then Failure(CommandConflict)
      else if input.expectedTurn !in db.runs then Failure(StaleTurn)
      else Success((db, Receipt(true, db.runs[input.expectedTurn].status.Waiting?, db.commands[key].status)))
    else if !IsCurrent(db, input.thread, input.expectedTurn) then Failure(StaleTurn)
    else
      var run := db.runs[input.expectedTurn];
      if run.status.Stopping? then Failure(StaleTurn)
      else
        var command := Command(input.expectedTurn, Stop, input.fingerprint, Pending, None);
        Success((db.(commands := db.commands[key := command],
                     runs := db.runs[input.expectedTurn := run.(status := Stopping)]),
                 Receipt(false, run.status.Waiting?, Pending)))
  }

  // ----- Ending a turn -----

  /** finalizeModelRecoveries(): completion is refused while a recovery is unchecked or its replacement unvalidated. */
  predicate RecoveriesReady(recoveries: map<Key, Recovery>, thread: Id, runId: Id) {
    forall key ::
      key in recoveries && key.thread == thread && recoveries[key].run == runId
        && recoveries[key].status.Recovering? ==>
      recoveries[key].after.Some? && !recoveries[key].invalidReplacement
  }

  function Settled(recovery: Recovery, status: Status, errorCode: Option<string>): (r: Recovery) {
    if !recovery.status.Recovering? then recovery
    else if status.Completed? then recovery.(status := Succeeded, errorCode := None)
    else recovery.(status := Unrecovered, errorCode := Some(if errorCode.Some? then errorCode.value else INTERRUPTED))
  }

  function FinalizeRecoveries(recoveries: map<Key, Recovery>, thread: Id, runId: Id, status: Status,
      errorCode: Option<string>)
    : (r: map<Key, Recovery>)
  {
    map key | key in recoveries ::
      if key.thread == thread && recoveries[key].run == runId then Settled(recoveries[key], status, errorCode)
        else recoveries[key]
  }

  /** finishTimeline(): an outcome entry is inserted once and never overwritten. */
  function FinishTimeline(db: Tables, runId: Id, status: Status, errorCode: Option<string>): (r: Option<Tables>)
    requires runId in db.runs
  {
    var thread := db.runs[runId].thread;
    if status.Completed? && !RecoveriesReady(db.recoveries, thread, runId) then None
    else Some(db.(recoveries := FinalizeRecoveries(db.recoveries, thread, runId, status, errorCode),
                  outcomes := if runId in db.outcomes then db.outcomes
                    else db.outcomes[runId := Outcome(status, errorCode)]))
  }

  function CloseInterrupts(interrupts: map<Key, Interrupt>, thread: Id, runId: Id): (r: map<Key, Interrupt>) {
    map key | key in interrupts ::
      if key.thread == thread && interrupts[key] == Interrupt(runId, Open) then Interrupt(runId, Closed)
        else interrupts[key]
  }

  function FinishStop(db: Tables, thread: Id, researcher: Id, commandId: Id, turn: Id)
    : (r: Result<Tables, SessionError>) {
    var key := Key(thread, commandId);
    if !Owned(db, thread, researcher) then Failure(SessionNotFound)
    else if key !in db.commands || !db.commands[key].kind.Stop? || db.commands[key].turn != turn
      then Failure(CommandConflict)
    else if db.commands[key].status.Accepted? then Success(db)
    else if db.commands[key].status.Rejected? then Failure(CommandConflict)
    else if turn !in db.runs || db.runs[turn].thread != thread
      || !(db.runs[turn].status.Stopping? || db.runs[turn].status.Stopped?)
    then Failure(StaleTurn)
    else
      var stopped := db.(runs := db.runs[turn := db.runs[turn].(status := Stopped)],
                         commands := db.commands[key := db.commands[key].(status := Accepted)]);
      var finished := FinishTimeline(stopped, turn, Stopped, None);
      Success(finished.value.(interrupts := CloseInterrupts(finished.value.interrupts, thread, turn)))
  }

  function MarkWaiting(db: Tables, runId: Id, interruptId: Id): (r: Result<Tables, SessionError>) {
    if runId !in db.runs || !db.runs[runId].status.Running? then Failure(RunConflict)
    else
      var run := db.runs[runId];
      var key := Key(run.thread, interruptId);
      if key in db.interrupts then Failure(InterruptExists)
      else Success(db.(runs := db.runs[runId := run.(status := Waiting)],
                       interrupts := db.interrupts[key := Interrupt(runId, Open)]))
  }

  function MarkCompleted(db: Tables, runId: Id): (r: Result<(Tables, Status), SessionError>) {
    if runId !in db.runs then Failure(RunConflict)
    else
      var run := db.runs[runId];
      if run.status.Stopping? || run.status.Stopped? then Success((db, Stopped))
      else if run.status.Completed? then Success((db, Completed))
      else if !run.status.Running? then Failure(RunConflict)
      else
        var finished := FinishTimeline(db.(runs := db.runs[runId := run.(status := Completed)]), runId, Completed,
          None);
        if finished.None? then Failure(RunConflict) else Success((finished.value, Completed))
  }

  function MarkFailed(db: Tables, runId: Id, code: string): (r: Result<(Tables, Status), SessionError>) {
    if runId !in db.runs then Failure(RunConflict)
    else
      var run := db.runs[runId];
      if run.status.Stopped? || run.status.Failed? then Success((db, run.status))
      else
        var terminal := if run.status.Stopping? then Stopped else Failed;
        if !(run.status.Running? || run.status.Stopping?) then Failure(RunConflict)
        else
          var ended := run.(status := terminal, errorCode := if terminal.Failed? then Some(code) else None);
          Success((FinishTimeline(db.(runs := db.runs[runId := ended]), runId, terminal, Some(code)).value, terminal))
  }

  // ----- Host restart -----

  function RestartedRun(run: Run): (r: Run) {
    match run.status
    case Stopping => run.(status := Stopped, errorCode := None)
    case Running => run.(status := Failed, errorCode := Some(INTERRUPTED))
    case _ => run
  }

  predicate Interrupted(db: Tables, runId: Id) {
    runId in db.runs && (db.runs[runId].status.Running? || db.runs[runId].status.Stopping?)
  }

  function RestartedOutcome(run: Run): (r: Outcome) {
    if run.status.Stopping? then Outcome(Stopped, None) else Outcome(Failed, Some(INTERRUPTED))
  }

  function RestartRuns(runs: map<Id, Run>): (r: map<Id, Run>) {
    map id | id in runs :: RestartedRun(runs[id])
  }

  function RestartedCommand(command: Command, runs: map<Id, Run>): (r: Command) {
    if command.status.Pending? && command.kind.Stop? && command.turn in runs && runs[command.turn].status.Stopped?
    then command.(status := Accepted)
    else if command.status.Pending? && command.kind.Steer?
    then command.(status := Rejected, errorCode := Some("CHAT_CAPABILITY_UNAVAILABLE"))
    else command
  }

  function RestartOutcomes(db: Tables): (r: map<Id, Outcome>) {
    map id | id in db.outcomes.Keys + db.runs.Keys && (id in db.outcomes || Interrupted(db, id)) ::
      if id in db.outcomes then db.outcomes[id] else RestartedOutcome(db.runs[id])
  }

  function RestartedRecovery(db: Tables, thread: Id, recovery: Recovery): (r: Recovery) {
    if Interrupted(db, recovery.run) && db.runs[recovery.run].thread == thread
    then Settled(recovery, RestartedRun(db.runs[recovery.run]).status, Some(INTERRUPTED)) else recovery
  }

  function RestartRecoveries(db: Tables): (r: map<Key, Recovery>) {
    map key | key in db.recoveries :: RestartedRecovery(db, key.thread, db.recoveries[key])
  }

  function RestartCommands(commands: map<Key, Command>, runs: map<Id, Run>): (r: map<Key, Command>) {
    map key | key in commands :: RestartedCommand(commands[key], runs)
  }

  /** Only the questions of stopping runs are closed. */
  function RestartInterrupts(interrupts: map<Key, Interrupt>, runs: map<Id, Run>): (r: map<Key, Interrupt>) {
    map key | key in interrupts ::
      if interrupts[key].status.Open? && interrupts[key].turn in runs && runs[interrupts[key].turn].status.Stopping?
      then interrupts[key].(status := Closed) else interrupts[key]
  }

  predicate OwnerEnded(row: Checkpoint, runs: map<Id, Run>) {
    row.owner.Some? && row.owner.value.runId in runs
    && (runs[row.owner.value.runId].status.Failed? || runs[row.owner.value.runId].status.Stopped?)
  }

  function RestartCheckpoints(checkpoints: map<Id, Checkpoint>, runs: map<Id, Run>): (r: map<Id, Checkpoint>) {
    map thread | thread in checkpoints ::
      if OwnerEnded(checkpoints[thread], runs) then checkpoints[thread].(owner := None) else checkpoints[thread]
  }

  /** failInterruptedRunsAfterHostRestart(), across every thread. */
  function HostRestart(db: Tables): (next: Tables) {
    var runs := RestartRuns(db.runs);
    Tables(
      db.sessions,
      runs,
      RestartCommands(db.commands, runs),
      RestartInterrupts(db.interrupts, db.runs),
      RestartOutcomes(db),
      RestartRecoveries(db),
      RestartCheckpoints(db.checkpoints, runs))
  }

  // ----- Model-step recovery -----

  function CauseCode(cause: Cause): (r: string) {
    match cause
    case OutputLimit => "OUTPUT_LIMIT"
    case ContextTooLarge => "CONTEXT_TOO_LARGE"
  }

  /** recoveryImprovesBudget(). */
  predicate RecoveryImproves(cause: Cause, before: Budget, after: Budget) {
    after.contextWindow == before.contextWindow
    && after.desiredOutputTokens == before.desiredOutputTokens
    && after.inputTokens < before.inputTokens
    && 0 < after.outputTokens <= MAX_SAFE
    && (cause.ContextTooLarge? || after.outputTokens > before.outputTokens)
  }

  predicate Addresses(db: Tables, key: Key, messageId: Id)
    requires key in db.recoveries
  {
    key.id == messageId || db.recoveries[key].replacement == Some(messageId)
  }

  predicate Known(db: Tables, thread: Id, messageId: Id) {
    exists key :: key in db.recoveries && key.thread == thread && Addresses(db, key, messageId)
  }

  datatype StepStop = StepStop(
    thread: Id, researcher: Id, runId: Id, messageId: Id, cause: Cause, budget: Budget, allowRecovery: bool,
      freshId: Id)

  /** The one row that a message id of the thread addresses, as original or as replacement. */
  ghost function Addressed(db: Tables, thread: Id, messageId: Id): (r: Key)
    requires Known(db, thread, messageId)
  {
    var key :| key in db.recoveries && key.thread == thread && Addresses(db, key, messageId);
    key
  }

  /** recordModelStepStop(): original and replacement ids address one allowance. */
  ghost function RecordModelStepStop(db: Tables, input: StepStop): (r: Result<(Tables, bool), SessionError>) {
    if !Owned(db, input.thread, input.researcher) then Failure(SessionNotFound)
    else if input.runId !in db.runs || db.runs[input.runId].thread != input.thread
      || !db.runs[input.runId].status.Running?
    then Failure(RunConflict)
    else if Known(db, input.thread, input.messageId) then
      var key := Addressed(db, input.thread, input.messageId);
      var existing := db.recoveries[key];
      if existing.run != input.runId then Failure(RunConflict)
      else if existing.replacement == Some(input.messageId)
      then Success((db.(recoveries := db.recoveries[key := existing.(invalidReplacement := true)]), false))
      else Success((db, false))
    else
      var recovery := Recovery(
        input.runId, if input.allowRecovery then Some(input.freshId) else None, if input.allowRecovery then 1 else 0,
          true, input.cause,
        if input.allowRecovery then Recovering else Unrecovered, input.budget, None,
        if input.allowRecovery then None else Some(CauseCode(input.cause)));
      Success((db.(recoveries := db.recoveries[Key(input.thread, input.messageId) := recovery]), input.allowRecovery))
  }

  /** The rows an UPDATE on this replacement id reaches. */
  function Replacements(recoveries: map<Key, Recovery>, thread: Id, runId: Id, messageId: Id): (r: set<Key>) {
    set key | key in recoveries && key.thread == thread && recoveries[key].run == runId
      && recoveries[key].replacement == Some(messageId)
  }

  function Completable(recoveries: map<Key, Recovery>, thread: Id, runId: Id, messageId: Id): (r: set<Key>) {
    set key | key in Replacements(recoveries, thread, runId, messageId)
              && recoveries[key].status.Recovering? && recoveries[key].after.Some?
  }

  function Marked(recoveries: map<Key, Recovery>, keys: set<Key>, invalid: bool): (r: map<Key, Recovery>) {
    map key | key in recoveries :: if key in keys then recoveries[key].(invalidReplacement := invalid)
      else recoveries[key]
  }

  /** completeModelStepReplacement(). */
  function CompleteReplacement(db: Tables, thread: Id, researcher: Id, runId: Id, messageId: Id)
    : (r: Result<Tables, SessionError>) {
    if !Owned(db, thread, researcher) then Failure(SessionNotFound)
    else if runId !in db.runs || db.runs[runId].thread != thread || !db.runs[runId].status.Running?
      then Failure(RunConflict)
    else
      var keys := Completable(db.recoveries, thread, runId, messageId);
      if |keys| != 1 then Failure(RunConflict)
      else Success(db.(recoveries := Marked(db.recoveries, keys, false)))
  }

  /** invalidateModelStepReplacement(). */
  function InvalidateReplacement(db: Tables, thread: Id, researcher: Id, runId: Id, messageId: Id)
    : (r: Result<Tables, SessionError>) {
    if !Owned(db, thread, researcher) then Failure(SessionNotFound)
    else Success(db.(recoveries := Marked(db.recoveries, Replacements(db.recoveries, thread, runId, messageId), true)))
  }

  datatype RecoveryOutcome = Replaced(budget: Budget) | GaveUp(errorCode: string)

  /** updateModelStepRecovery(). */
  function UpdateRecovery(db: Tables, thread: Id, researcher: Id, runId: Id, original: Id, outcome: RecoveryOutcome)
    : (r: Result<Tables, SessionError>)
  {
    var key := Key(thread, original);
    if !Owned(db, thread, researcher) then Failure(SessionNotFound)
    else if runId !in db.runs || db.runs[runId].thread != thread
      || (outcome.Replaced? && !db.runs[runId].status.Running?)
    then Failure(RunConflict)
    else if key !in db.recoveries || db.recoveries[key].run != runId then Failure(RunConflict)
    else
      var current := db.recoveries[key];
      if current.status.Unrecovered? && outcome.GaveUp? then Success(db)
      else if !current.status.Recovering? then Failure(RunConflict)
      else
        match outcome
        case Replaced(budget) =>
          if !RecoveryImproves(current.cause, current.before, budget) then Failure(RunConflict)
          else Success(db.(recoveries := db.recoveries[key := current.(after := Some(budget), errorCode := None)]))
        case GaveUp(code) =>
          Success(db.(recoveries := db.recoveries[key := current.(status := Unrecovered, errorCode := Some(code))]))
  }

  // ----- Context cycles -----

  predicate RunIsRunning(db: Tables, thread: Id, runId: Id) {
    runId in db.runs && db.runs[runId].thread == thread && db.runs[runId].status.Running?
  }

  function RowOf(db: Tables, thread: Id): (r: Checkpoint) {
    if thread in db.checkpoints then db.checkpoints[thread] else EMPTY_CHECKPOINT
  }

  function BeginContextCycle(db: Tables, thread: Id, researcher: Id, runId: Id, cycleId: Id, history: seq<Message>)
    : (r: Result<(Tables, Cycle), SessionError>)
  {
    if !Owned(db, thread, researcher) then Failure(SessionNotFound)
    else
      match Claim(RowOf(db, thread), cycleId, runId, RunIsRunning(db, thread, runId), history)
      case None => Failure(CheckpointConflict)
      case Some((row, cycle)) => Success((db.(checkpoints := db.checkpoints[thread := row]), cycle))
  }

  function CommitContextCycle(db: Tables, thread: Id, researcher: Id, cycle: Cycle, candidate: Boundary,
      history: seq<Message>)
    : (r: Result<Tables, SessionError>)
  {
    if !Owned(db, thread, researcher) then Failure(SessionNotFound)
    else if thread !in db.checkpoints then Failure(CheckpointConflict)
    else
      match Commit(db.checkpoints[thread], cycle, candidate, RunIsRunning(db, thread, cycle.runId), history)
      case None => Failure(CheckpointConflict)
      case Some(row) => Success(db.(checkpoints := db.checkpoints[thread := row]))
  }

  function ReleaseContextCycle(db: Tables, thread: Id, researcher: Id, cycle: Cycle)
    : (r: Result<Tables, SessionError>) {
    if !Owned(db, thread, researcher) then Failure(SessionNotFound)
    else if thread !in db.checkpoints then Success(db)
    else Success(db.(checkpoints := db.checkpoints[thread := Release(db.checkpoints[thread], cycle)]))
  }
}
