/**
 MastraTurnControl: stop and steer as several transactions, with any other
 callers and host restarts in between (apps/agent/src/mastra-turn-control.ts).
 */
module TurnControl {
  import opened Wrappers
  import opened ContextSource
  import opened SessionTables
  import opened SessionInvariants
  import opened SessionHistory
  import opened SessionRepository

  /** What the agent runtime answers to a signal. */
  datatype Delivery =
    | RuntimeThrew
    | ControlErrorThrown(error: SessionError)
    | Answered(delivered: bool, runId: Id)

  predicate ReachedTheTurn(delivery: Delivery, turn: Id) {
    delivery.Answered? && delivery.delivered && delivery.runId == turn
  }

  /** The steer command while its caller is still deciding about it. */
  ghost predicate SteerKept(db: Tables, input: CommandInput) {
    var key := Key(input.thread, input.commandId);
    Owned(db, input.thread, input.researcher) && key in db.commands
    && Matches(db.commands[key], Steer, input.expectedTurn, input.fingerprint)
  }

  lemma SteerStays(db: Tables, input: CommandInput, actions: seq<Action>)
    requires SteerKept(db, input)
    ensures SteerKept(Execute(db, actions), input)
  {
    HistoryIsKept(db, actions);
    hide Execute;
    var key := Key(input.thread, input.commandId);
    assert CommandEvolves(db.commands[key], Execute(db, actions).commands[key]);
  }

  lemma SteerPrepared(db: Tables, input: CommandInput)
    requires PrepareSteer(db, input).Success? && !PrepareSteer(db, input).value.1.duplicate
    ensures SteerKept(PrepareSteer(db, input).value.0, input)
  {
  }

  /** A stop receipt that was found, in a state that any transactions may have led to. */
  lemma DuplicateStop(db: Tables, input: CommandInput)
    requires Inv(db) && PrepareStop(db, input).Success? && PrepareStop(db, input).value.1.duplicate
    ensures var receipt := PrepareStop(db, input).value.1;
            PrepareStop(db, input).value.0 == db && !receipt.status.Rejected?
            && Stops(db.commands, Key(input.thread, input.commandId), input.expectedTurn)
            && Owned(db, input.thread, input.researcher)
            && (receipt.status.Accepted? ==>
                  input.expectedTurn in db.runs && db.runs[input.expectedTurn].status.Stopped?
                  && db.commands[Key(input.thread, input.commandId)].status.Accepted?)
  {
  }

  lemma StopStays(db: Tables, input: CommandInput, actions: seq<Action>)
    requires Inv(db) && Owned(db, input.thread, input.researcher)
    requires Stops(db.commands, Key(input.thread, input.commandId), input.expectedTurn)
    ensures var later := Execute(db, actions);
            Inv(later) && Owned(later, input.thread, input.researcher)
            && Stops(later.commands, Key(input.thread, input.commandId), input.expectedTurn)
  {
    HistoryIsKept(db, actions);
    RunsKeepInv(db, actions);
    hide Execute, Inv;
    var key := Key(input.thread, input.commandId);
    assert CommandEvolves(db.commands[key], Execute(db, actions).commands[key]);
  }

  lemma StoppedHasItsOutcome(db: Tables, r: Id)
    requires Inv(db) && r in db.runs && db.runs[r].status.Stopped?
    ensures r in db.outcomes && db.outcomes[r].status.Stopped?
  {
  }

  class MastraTurnControl {
    const repository: ResearchSessionRepository

    constructor (repository: ResearchSessionRepository)
      ensures this.repository == repository
    {
      this.repository := repository;
    }

    /**
     `meanwhile` is everything that commits while the stream is being aborted.
     Once prepareStop succeeds, stop always returns an accepted receipt, and the
     turn is stopped with its outcome recorded.
     */
    method Stop(input: CommandInput, meanwhile: seq<Action>) returns (r: Result<CommandStatus, SessionError>)
      requires repository.Valid()
      modifies repository
      ensures repository.Valid()
      ensures r.Success? <==> PrepareStop(old(repository.State()), input).Success?
      ensures r.Failure? ==>
        repository.State() == old(repository.State()) && r.error == PrepareStop(old(repository.State()), input).error
      ensures r.Success? ==>
        r.value == Accepted
        && Key(input.thread, input.commandId) in repository.commands
        && repository.commands[Key(input.thread, input.commandId)].status == Accepted
        && input.expectedTurn in repository.runs && repository.runs[input.expectedTurn].status == Stopped
        && input.expectedTurn in repository.outcomes && repository.outcomes[input.expectedTurn].status == Stopped
    {
      ghost var before := repository.State();
      ghost var spec := PrepareStop(before, input);
      var prepared := repository.PrepareStop(input);
      hide Inv, Execute;
      if prepared.Failure? {
        return Failure(prepared.error);
      }
      var key := Key(input.thread, input.commandId);
      if prepared.value.duplicate {
        DuplicateStop(before, input);
        if !prepared.value.status.Pending? {
          StoppedHasItsOutcome(before, input.expectedTurn);
          return Success(prepared.value.status);
        }
      } else {
        StopPrepared(before, input);
      }
      hide PrepareStop;
      ghost var claimed := repository.State();
      repository.Serve(meanwhile);
      StopStays(claimed, input, meanwhile);
      FinishStopEnds(repository.State(), input.thread, input.researcher, input.commandId, input.expectedTurn);
      hide FinishStop;
      var error := repository.FinishStop(input.thread, input.researcher, input.commandId, input.expectedTurn);
      r := Success(Accepted);
    }

    /**
     A steer that the runtime did not take is rejected unless someone else has
     decided it already; one that it took is accepted unless a host restart
     rejected it first. Only an error of the control itself leaves it pending.
     */
    method Steer(input: CommandInput, delivery: Delivery, meanwhile: seq<Action>)
      returns (r: Result<CommandStatus, SessionError>)
      requires repository.Valid()
      modifies repository
      ensures repository.Valid()
      ensures PrepareSteer(old(repository.State()), input).Failure? ==>
        r == Failure(PrepareSteer(old(repository.State()), input).error)
          && repository.State() == old(repository.State())
      ensures var spec := PrepareSteer(old(repository.State()), input);
        spec.Success? && spec.value.1.duplicate ==>
          r == Success(spec.value.1.status) && repository.State() == old(repository.State())
      ensures var spec := PrepareSteer(old(repository.State()), input);
        spec.Success? && !spec.value.1.duplicate ==>
          var later := Execute(spec.value.0, meanwhile);
          var key := Key(input.thread, input.commandId);
          key in later.commands && key in repository.commands
          && (r.Success? <==> ReachedTheTurn(delivery, input.expectedTurn) && !later.commands[key].status.Rejected?)
          && (r.Success? ==> r.value == Accepted && repository.commands[key].status == Accepted)
          && (repository.commands[key].status.Pending?
            <==> delivery.ControlErrorThrown? && later.commands[key].status.Pending?)
          && (r.Failure? && later.commands[key].status.Accepted? ==> repository.commands[key].status == Accepted)
    {
      ghost var before := repository.State();
      var prepared := repository.PrepareSteer(input);
      hide Inv, Execute;
      if prepared.Failure? {
        return Failure(prepared.error);
      }
      if prepared.value.duplicate {
        return Success(prepared.value.status);
      }
      SteerPrepared(before, input);
      hide PrepareSteer;
      ghost var claimed := repository.State();
      repository.Serve(meanwhile);
      SteerStays(claimed, input, meanwhile);
      hide Inv, Execute;
      r := Settle(input, delivery);
    }

    /** What follows the runtime's answer. */
    method Settle(input: CommandInput, delivery: Delivery) returns (r: Result<CommandStatus, SessionError>)
      requires repository.Valid() && SteerKept(repository.State(), input)
      modifies repository
      ensures repository.Valid()
      ensures var key := Key(input.thread, input.commandId);
        key in repository.commands
        && (r.Success?
          <==> ReachedTheTurn(delivery, input.expectedTurn) && !old(repository.commands)[key].status.Rejected?)
        && (r.Success? ==> r.value == Accepted && repository.commands[key].status == Accepted)
        && (repository.commands[key].status.Pending?
          <==> delivery.ControlErrorThrown? && old(repository.commands)[key].status.Pending?)
        && (r.Failure? && old(repository.commands)[key].status.Accepted? ==>
          repository.commands[key].status == Accepted)
    {
      hide Inv;
      var key := Key(input.thread, input.commandId);
      match delivery
      case ControlErrorThrown(error) =>
        return Failure(error);
      case RuntimeThrew =>
        repository.RejectPendingCommand(key, "CHAT_CAPABILITY_UNAVAILABLE");
        return Failure(CapabilityUnavailable);
      case Answered(delivered, runId) =>
        if !delivered || runId != input.expectedTurn {
          repository.RejectPendingCommand(key, "CHAT_TURN_NOT_STEERABLE");
          return Failure(TurnNotSteerable);
        }
        var error := repository.AcceptSteer(input);
        if error.Some? {
          return Failure(error.value);
        }
        r := Success(Accepted);
    }
  }
}
