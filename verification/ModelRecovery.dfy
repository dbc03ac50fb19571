/**
 Recovery of one failed model step: the arithmetic that makes a smaller request
 worth trying, and SessionModelRecovery, which tries it once over the durable
 allowance (apps/agent/src/session-model-recovery.ts, model-step-recovery.ts,
 model-context.ts:49-57).
 */
module ModelRecovery {
  import opened Wrappers
  import opened ContextSource
  import opened SessionTables
  import opened SessionInvariants
  import opened SessionHistory
  import opened SessionRepository

  // ----- Budgets -----

  datatype Capacity = Capacity(contextWindow: int, maxOutputTokens: int)

  const SAFETY_TOKENS := 4096

  function Least(a: int, b: int): (r: int) { if a < b then a else b }

  /** modelRequestBudget(), for an input of that many tokens. */
  function RequestBudget(inputTokens: nat, maxOutputTokens: Option<int>, model: Capacity): (r: Budget) {
    var desired := Least(if maxOutputTokens.Some? then maxOutputTokens.value else model.maxOutputTokens,
      model.maxOutputTokens);
    Budget(inputTokens, desired, Least(desired, model.contextWindow - inputTokens - SAFETY_TOKENS), model.contextWindow)
  }

  /** mayRecoverModelStep(). */
  predicate MayRecover(enabled: bool, cause: Cause, budget: Budget) {
    enabled && (cause.ContextTooLarge? || budget.outputTokens < budget.desiredOutputTokens)
  }

  /**
   Between budgets of one model, a recovery improves exactly when it was eligible
   and the new input is smaller and leaves room for output.
   */
  lemma ImprovesIff(before: nat, after: nat, max: Option<int>, model: Capacity, cause: Cause)
    requires model.maxOutputTokens <= MAX_SAFE
    ensures RecoveryImproves(cause, RequestBudget(before, max, model), RequestBudget(after, max, model)) <==>
      MayRecover(true, cause, RequestBudget(before, max, model)) && after < before
        && RequestBudget(after, max, model).outputTokens > 0
  {
  }

  /**
   So eligibility is exactly the question whether any smaller input could help, if
   an empty one leaves room for output.
   */
  lemma EligibleIffImprovable(before: nat, max: Option<int>, model: Capacity, cause: Cause)
    requires model.maxOutputTokens <= MAX_SAFE
    ensures (exists after: nat ::
      RecoveryImproves(cause, RequestBudget(before, max, model), RequestBudget(after, max, model))) <==>
      MayRecover(true, cause, RequestBudget(before, max, model)) && before > 0
        && RequestBudget(0, max, model).outputTokens > 0
  {
  }

  // ----- One allowance over any run -----

  lemma {:induction false} KnownStays(db: Tables, actions: seq<Action>, thread: Id, messageId: Id)
    requires Known(db, thread, messageId)
    ensures Known(Execute(db, actions), thread, messageId)
  {
    HistoryIsKept(db, actions);
    hide Execute;
    var key :| key in db.recoveries && key.thread == thread && Addresses(db, key, messageId);
    assert RecoveryEvolves(db.recoveries[key], Execute(db, actions).recoveries[key]);
    assert Addresses(Execute(db, actions), key, messageId);
  }

  /** A claim is granted once: afterwards neither the message nor its replacement obtains another. */
  lemma ClaimedOnce(db: Tables, stop: StepStop, actions: seq<Action>, again: StepStop)
    requires RecordModelStepStop(db, stop).Success? && RecordModelStepStop(db, stop).value.1
    requires again.thread == stop.thread && (again.messageId == stop.messageId || again.messageId == stop.freshId)
    ensures var later := Execute(RecordModelStepStop(db, stop).value.0, actions);
            RecordModelStepStop(later, again).Success? ==> !RecordModelStepStop(later, again).value.1
  {
    var next := RecordModelStepStop(db, stop).value.0;
    var key := Key(stop.thread, stop.messageId);
    assert Addresses(next, key, again.messageId) && Known(next, stop.thread, again.messageId);
    KnownStays(next, actions, stop.thread, again.messageId);
    hide Execute;
  }

  // ----- The message ids of a run's responses -----

  /** The message of the response under way, the replacement of the last recovery, and a requested provider retry. */
  datatype Ids = Ids(active: Option<Id>, pending: Option<(Id, Id)>, retrying: Option<Id>)

  const NO_IDS := Ids(None, None, None)

  datatype Call =
    | Respond(freshId: Id, retryCount: nat)
    | RetryProvider(allowed: bool)
    | Recover(replacement: Id)  // handle() recorded a replacement request

  /** responseMessageId(); None throws. */
  function NextId(ids: Ids, freshId: Id, retryCount: nat): (id: Option<Id>) {
    if ids.retrying.Some? then ids.retrying
    else if retryCount == 0 then Some(freshId)
    else if ids.pending.Some? then Some(ids.pending.value.1)
    else None
  }

  function Called(ids: Ids, call: Call): (next: Ids) {
    match call
    case Respond(freshId, retryCount) =>
      var id := NextId(ids, freshId, retryCount);
      if id.Some? then ids.(active := id, retrying := None) else ids
    case RetryProvider(allowed) => if allowed && ids.active.Some? then ids.(retrying := ids.active) else ids
    case Recover(replacement) =>
      if ids.active.Some? then ids.(pending := Some((ids.active.value, replacement))) else ids
  }

  function AllCalled(ids: Ids, calls: seq<Call>): (next: Ids)
    decreases |calls|
  {
    if |calls| == 0 then ids else AllCalled(Called(ids, calls[0]), calls[1..])
  }

  /** A provider retry always concerns the response under way. */
  predicate RetriesActive(ids: Ids) {
    ids.retrying.Some? ==> ids.retrying == ids.active
  }

  predicate Retries(calls: seq<Call>) {
    RetryProvider(true) in calls
  }

  /** The replacement recorded last, if any of these calls recorded one. */
  function LastReplacement(calls: seq<Call>): (replacement: Option<Id>)
    ensures replacement.None? <==> forall call :: call in calls ==> !call.Recover?
  {
    if |calls| == 0 then None
    else if calls[|calls| - 1].Recover? then Some(calls[|calls| - 1].replacement)
    else LastReplacement(calls[..|calls| - 1])
  }

  lemma {:induction false} CalledLast(ids: Ids, calls: seq<Call>, call: Call)
    ensures AllCalled(ids, calls + [call]) == Called(AllCalled(ids, calls), call)
    decreases |calls|
  {
    if |calls| > 0 {
      assert (calls + [call])[1..] == calls[1..] + [call];
      CalledLast(Called(ids, calls[0]), calls[1..], call);
    }
  }

  lemma {:induction false} BetweenResponses(ids: Ids, calls: seq<Call>)
    requires ids.active.Some? && RetriesActive(ids) && forall call :: call in calls ==> !call.Respond?
    ensures var later := AllCalled(ids, calls);
            later.active == ids.active
            && later.retrying == (if Retries(calls) then ids.active else ids.retrying)
            && later.pending
              == (if LastReplacement(calls).Some? then Some((ids.active.value, LastReplacement(calls).value))
                                 else ids.pending)
    decreases |calls|
  {
    if |calls| > 0 {
      var n := |calls| - 1;
      assert calls == calls[..n] + [calls[n]];
      CalledLast(ids, calls[..n], calls[n]);
      BetweenResponses(ids, calls[..n]);
    }
  }

  /**
   What the next response is called, whatever was retried and recovered since the
   last one: a provider retry keeps the message, whatever retry count comes with it;
   a retry of the step takes the replacement recorded last; otherwise the id is fresh.
   */
  lemma {:induction false} NextResponse(ids: Ids, calls: seq<Call>, freshId: Id, retryCount: nat)
    requires ids.active.Some? && ids.retrying.None? && forall call :: call in calls ==> !call.Respond?
    ensures var id := NextId(AllCalled(ids, calls), freshId, retryCount);
            (Retries(calls) ==> id == ids.active)
            && (!Retries(calls) && retryCount == 0 ==> id == Some(freshId))
            && (!Retries(calls) && retryCount > 0 && LastReplacement(calls).Some? ==> id == LastReplacement(calls))
            && (!Retries(calls) && retryCount > 0 && LastReplacement(calls).None? ==>
                  id == if ids.pending.Some? then Some(ids.pending.value.1) else None)
  {
    BetweenResponses(ids, calls);
  }

  /** A message that is neither under way nor the last replacement is left behind. */
  predicate LeftBehind(ids: Ids, message: Id) {
    RetriesActive(ids) && ids.active != Some(message) && (ids.pending.Some? ==> ids.pending.value.1 != message)
  }

  predicate Brings(call: Call, message: Id) {
    (call.Respond? && call.freshId == message) || (call.Recover? && call.replacement == message)
  }

  /** And unless a caller brings it again as a new id, no later response gets it. */
  lemma {:induction false} LeftBehindForGood(ids: Ids, calls: seq<Call>, message: Id)
    requires LeftBehind(ids, message) && forall call :: call in calls ==> !Brings(call, message)
    ensures LeftBehind(AllCalled(ids, calls), message)
    ensures forall freshId, retryCount: nat :: freshId != message ==>
      NextId(AllCalled(ids, calls), freshId, retryCount) != Some(message)
    decreases |calls|
  {
    if |calls| > 0 {
      assert !Brings(calls[0], message);
      LeftBehindForGood(Called(ids, calls[0]), calls[1..], message);
    }
  }

  // ----- The coordinator of a run -----

  datatype StepFailure =
    | RequestFailure(cause: Cause, budget: Budget, pending: bool)  // pending: the observation's own failure
    | OtherFailure(code: string)

  /** The claimed row while its owner works on it. */
  ghost predicate Claimed(db: Tables, thread: Id, researcher: Id, runId: Id, original: Id) {
    var key := Key(thread, original);
    Owned(db, thread, researcher) && runId in db.runs && db.runs[runId].thread == thread
    && key in db.recoveries && db.recoveries[key].run == runId
  }

  lemma {:induction false} ClaimStays(db: Tables, actions: seq<Action>, thread: Id, researcher: Id, runId: Id,
      original: Id)
    requires Claimed(db, thread, researcher, runId, original)
    ensures Claimed(Execute(db, actions), thread, researcher, runId, original)
  {
    HistoryIsKept(db, actions);
    hide Execute;
    assert RunEvolves(db.runs[runId], Execute(db, actions).runs[runId]);
    assert RecoveryEvolves(db.recoveries[Key(thread, original)],
      Execute(db, actions).recoveries[Key(thread, original)]);
  }

  lemma GivingUpDecides(db: Tables, thread: Id, researcher: Id, runId: Id, original: Id, code: string)
    requires Claimed(db, thread, researcher, runId, original)
    ensures var next := OrElse(UpdateRecovery(db, thread, researcher, runId, original, GaveUp(code)), db);
            Key(thread, original) in next.recoveries && !next.recoveries[Key(thread, original)].status.Recovering?
  {
  }

  /** A message id that names no allowance has no row of its own. */
  lemma Unclaimed(db: Tables, thread: Id, messageId: Id)
    requires !Known(db, thread, messageId)
    ensures Key(thread, messageId) !in db.recoveries
  {
  }

  lemma RecordedWithoutClaim(db: Tables, stop: StepStop)
    requires RecordModelStepStop(db, stop).Success? && !RecordModelStepStop(db, stop).value.1
      && !Known(db, stop.thread, stop.messageId)
    ensures var next := RecordModelStepStop(db, stop).value.0;
            Key(stop.thread, stop.messageId) in next.recoveries
            && !next.recoveries[Key(stop.thread, stop.messageId)].status.Recovering?
  {
  }

  lemma ClaimIsNew(db: Tables, stop: StepStop)
    requires RecordModelStepStop(db, stop).Success? && RecordModelStepStop(db, stop).value.1
    ensures var next := RecordModelStepStop(db, stop).value.0;
            !Known(db, stop.thread, stop.messageId) && stop.allowRecovery
            && Claimed(next, stop.thread, stop.researcher, stop.runId, stop.messageId)
            && var row := next.recoveries[Key(stop.thread, stop.messageId)];
               row.replacement == Some(stop.freshId) && row.before == stop.budget && row.cause == stop.cause
  {
  }

  lemma ReplacementRecorded(db: Tables, thread: Id, researcher: Id, runId: Id, original: Id, budget: Budget)
    requires UpdateRecovery(db, thread, researcher, runId, original, Replaced(budget)).Success?
    ensures var next := UpdateRecovery(db, thread, researcher, runId, original, Replaced(budget)).value;
            var key := Key(thread, original);
            key in db.recoveries && key in next.recoveries
            && RecoveryImproves(db.recoveries[key].cause, db.recoveries[key].before, budget)
            && next.recoveries[key].after == Some(budget) && next.recoveries[key].status.Recovering?
            && next.recoveries[key].replacement == db.recoveries[key].replacement && RunIsRunning(next, thread, runId)
  {
  }

  class SessionModelRecovery {
    const repository: ResearchSessionRepository
    const thread: Id
    const researcher: Id
    const runId: Id
    const compactionEnabled: bool
    var activeMessageId: Option<Id>
    var pending: Option<(Id, Id)>  // the original and the replacement
    var providerRetryMessageId: Option<Id>

    constructor (repository: ResearchSessionRepository, thread: Id, researcher: Id, runId: Id, compactionEnabled: bool)
      ensures this.repository == repository && this.thread == thread && this.researcher == researcher
        && this.runId == runId
      ensures activeMessageId.None? && pending.None? && providerRetryMessageId.None?
    {
      this.repository, this.thread, this.researcher, this.runId := repository, thread, researcher, runId;
      this.compactionEnabled := compactionEnabled;
      activeMessageId, pending, providerRetryMessageId := None, None, None;
    }

    function State(): (ids: Ids)
      reads this
    {
      Ids(activeMessageId, pending, providerRetryMessageId)
    }

    /** responseMessageId(): a provider retry keeps its message, a recovery uses the replacement; None throws. */
    method ResponseMessageId(freshId: Id, retryCount: nat) returns (id: Option<Id>)
      modifies this
      ensures id == NextId(old(State()), freshId, retryCount)
      ensures State() == Called(old(State()), Respond(freshId, retryCount))
    {
      if providerRetryMessageId.Some? {
        activeMessageId := providerRetryMessageId;
        providerRetryMessageId := None;
        return activeMessageId;
      }
      if retryCount > 0 && pending.None? {
        return None;
      }
      activeMessageId := Some(if retryCount > 0 then pending.value.1 else freshId);
      id := activeMessageId;
    }

    /** retryProviderCall(): only an unfinished response is retried, under its own id. */
    method RetryProviderCall(allowed: bool) returns (id: Option<Id>)
      modifies this
      ensures id == if allowed then old(activeMessageId) else None
      ensures State() == Called(old(State()), RetryProvider(allowed))
    {
      if activeMessageId.None? || !allowed {
        return None;
      }
      providerRetryMessageId := activeMessageId;
      id := activeMessageId;
    }

    /** completeResponse(): a replacement is validated only by a well-finished response of its own. */
    method CompleteResponse(finished: bool, observedFailure: bool) returns (error: Option<SessionError>)
      requires repository.Valid()
      modifies repository
      ensures repository.Valid()
      ensures var relevant := pending.Some? && activeMessageId == Some(pending.value.1) && finished && !observedFailure;
        (!relevant ==> repository.State() == old(repository.State()) && error.None?)
        && (relevant ==>
              error == Thrown(CompleteReplacement(old(repository.State()), thread, researcher, runId, pending.value.1))
              && repository.State()
                 == OrElse(CompleteReplacement(old(repository.State()), thread, researcher, runId, pending.value.1),
                   old(repository.State())))
    {
      if pending.None? || activeMessageId != Some(pending.value.1) || !finished || observedFailure {
        return None;
      }
      error := repository.CompleteReplacement(thread, researcher, runId, pending.value.1);
    }

    /**
     handle(): `recovered` is what the context controller produced, `meanwhile`
     whatever committed while it worked, `acknowledged` whether the run's
     observation took the replacement. True asks the runtime to retry.
     */
    method Handle(failure: StepFailure, freshId: Id, recovered: Result<Budget, string>, meanwhile: seq<Action>,
        acknowledged: bool)
      returns (retry: bool)
      requires repository.Valid()
      requires activeMessageId.Some? ==>
        freshId != activeMessageId.value && !Known(repository.State(), thread, freshId)
      modifies this, repository
      ensures repository.Valid()
      ensures State() == old(State()) || State() == Called(old(State()), Recover(freshId))
      ensures retry ==>
        State() == Called(old(State()), Recover(freshId))
        && activeMessageId.Some? && failure.RequestFailure? && failure.pending
        && MayRecover(compactionEnabled, failure.cause, failure.budget)
        && !Known(old(repository.State()), thread, activeMessageId.value)
        && recovered.Success? && RecoveryImproves(failure.cause, failure.budget, recovered.value)
        && var key := Key(thread, activeMessageId.value);
           key in repository.recoveries
           && repository.recoveries[key].replacement == Some(freshId)
           && repository.recoveries[key].after == Some(recovered.value)
           && repository.recoveries[key].status == Recovering && RunIsRunning(repository.State(), thread, runId)
      ensures !retry && activeMessageId.Some? && !Known(old(repository.State()), thread, activeMessageId.value) ==>
        Key(thread, activeMessageId.value) in repository.recoveries ==>
          !repository.recoveries[Key(thread, activeMessageId.value)].status.Recovering?
    {
      hide Inv, Execute, RecoveryImproves, SessionTables.RecordModelStepStop, FreshReplacement, Known;
      retry := false;
      if activeMessageId.None? {
        return;
      }
      var messageId := activeMessageId.value;
      ghost var before := repository.State();
      if !Known(before, thread, messageId) {
        Unclaimed(before, thread, messageId);
      }
      if failure.OtherFailure? || !failure.pending {
        GiveUpReplacement(failure, messageId);
        return;
      }
      var allowed := MayRecover(compactionEnabled, failure.cause, failure.budget);
      var stop := StepStop(thread, researcher, runId, messageId, failure.cause, failure.budget, allowed, freshId);
      IsFresh(before, stop);
      var claim := repository.RecordModelStepStop(stop);
      if claim.Failure? {
        return;
      }
      if claim.value {
        ClaimIsNew(before, stop);
        retry := Replace(failure.cause, failure.budget, messageId, freshId, recovered, meanwhile, acknowledged);
      } else {
        if !Known(before, thread, messageId) {
          RecordedWithoutClaim(before, stop);
        }
        GiveUpTwice(messageId);
      }
    }

    lemma IsFresh(db: Tables, stop: StepStop)
      requires stop.freshId != stop.messageId && !Known(db, stop.thread, stop.freshId)
      ensures FreshReplacement(db, stop)
    {
    }

    /** Another failure: a replacement that failed is invalidated and given up. */
    method GiveUpReplacement(failure: StepFailure, messageId: Id)
      requires repository.Valid()
      modifies repository
      ensures repository.Valid() && repository.recoveries.Keys == old(repository.recoveries).Keys
    {
      hide Inv, RecoveryImproves;
      if pending.Some? && pending.value.1 == messageId {
        var _ := repository.InvalidateReplacement(thread, researcher, runId, messageId);
        var code := if failure.OtherFailure? then failure.code else CauseCode(failure.cause);
        var _ := repository.UpdateRecovery(thread, researcher, runId, pending.value.0, GaveUp(code));
      }
    }

    /** No claim: if the stopped message is itself a replacement, its recovery is given up. */
    method GiveUpTwice(messageId: Id)
      requires repository.Valid()
      modifies repository
      ensures repository.Valid() && repository.recoveries.Keys == old(repository.recoveries).Keys
      ensures forall key :: key in repository.recoveries && !old(repository.recoveries)[key].status.Recovering? ==>
        !repository.recoveries[key].status.Recovering?
    {
      hide Inv, RecoveryImproves;
      var rows := set key | key in repository.recoveries && key.thread == thread
        && repository.recoveries[key].replacement == Some(messageId)
                            && repository.recoveries[key].status.Recovering?;
      if rows != {} {
        var key :| key in rows;
        var _ := repository.UpdateRecovery(thread, researcher, runId, key.id, GaveUp("RECOVERY_FAILED"));
      }
    }

    /** After a claim: the replacement request is recorded and acknowledged, or the recovery is given up. */
    method Replace(cause: Cause, budget: Budget, original: Id, replacement: Id, recovered: Result<Budget, string>,
                   meanwhile: seq<Action>, acknowledged: bool)
      returns (retry: bool)
      requires repository.Valid() && Claimed(repository.State(), thread, researcher, runId, original)
      requires var row := repository.recoveries[Key(thread, original)];
               row.replacement == Some(replacement) && row.before == budget && row.cause == cause
      modifies this`pending, repository
      ensures repository.Valid()
      ensures pending == old(pending) || pending == Some((original, replacement))
      ensures Key(thread, original) in repository.recoveries
      ensures retry ==>
        recovered.Success? && RecoveryImproves(cause, budget, recovered.value)
          && pending == Some((original, replacement))
        && var row := repository.recoveries[Key(thread, original)];
           row.replacement == Some(replacement) && row.after == Some(recovered.value) && row.status == Recovering
           && RunIsRunning(repository.State(), thread, runId)
      ensures !retry ==> !repository.recoveries[Key(thread, original)].status.Recovering?
    {
      hide Inv, Execute, RecoveryImproves, SessionTables.UpdateRecovery;
      ghost var claimed := repository.State();
      repository.Serve(meanwhile);
      ghost var later := repository.State();
      ClaimStays(claimed, meanwhile, thread, researcher, runId, original);
      RecoveryRowStays(claimed, meanwhile, Key(thread, original));
      if recovered.Success? {
        var error := repository.UpdateRecovery(thread, researcher, runId, original, Replaced(recovered.value));
        if error.None? {
          ReplacementRecorded(later, thread, researcher, runId, original, recovered.value);
          pending := Some((original, replacement));
          if acknowledged {
            return true;
          }
          UpdateKeepsClaim(later, thread, researcher, runId, original, Replaced(recovered.value));
        }
      }
      GivingUpDecides(repository.State(), thread, researcher, runId, original,
                      if recovered.Failure? then recovered.error else "CONTEXT_COMPACTION_FAILED");
      var _ := repository.UpdateRecovery(thread, researcher, runId, original,
                                         GaveUp(if recovered.Failure? then recovered.error
                                           else "CONTEXT_COMPACTION_FAILED"));
      retry := false;
    }
  }

  lemma {:induction false} RecoveryRowStays(db: Tables, actions: seq<Action>, key: Key)
    requires key in db.recoveries
    ensures var later := Execute(db, actions);
            key in later.recoveries && RecoveryEvolves(db.recoveries[key], later.recoveries[key])
  {
    HistoryIsKept(db, actions);
    hide Execute;
  }

  lemma UpdateKeepsClaim(db: Tables, thread: Id, researcher: Id, runId: Id, original: Id, outcome: RecoveryOutcome)
    requires Claimed(db, thread, researcher, runId, original)
    ensures Claimed(OrElse(UpdateRecovery(db, thread, researcher, runId, original, outcome), db), thread, researcher,
      runId, original)
  {
  }
}
