/**
 SessionContextController.prepareContext() over the repository: one compaction,
 from the read of the context to the release of its cycle, with anything else
 committing in between (apps/agent/src/session-context-controller.ts:55-110).
 */
module ContextController {
  import opened Wrappers
  import opened ContextSource
  import opened ContextSelection
  import opened ContextSelector
  import opened ContextCheckpoint
  import opened ContextPublication
  import T = SessionTables
  import I = SessionInvariants
  import H = SessionHistory
  import opened SessionRepository

  datatype Prepared = Unchanged | Compacted(selection: Selection) | PrepareFailed

  /** Whether the request must be compacted; None when it cannot be served at all. */
  function NeedsCompaction(enabled: bool, recovering: bool, inputTokens: int, outputTokens: int, threshold: int)
    : (r: Option<bool>) {
    if !recovering && (!enabled || (inputTokens < threshold && outputTokens > 0)) then
      if outputTokens <= 0 then None else Some(false)
    else Some(true)
  }

  /**
   What the controller meets: the failure that it recovers from, if any, budgets of
   the request before and after, the summarizer's success, the histories it reads
   at each step, and what commits while it works.
   */
  datatype Surroundings = Surroundings(
    compactionEnabled: bool,
    recovery: Option<(T.Cause, T.Budget)>,
    threshold: int,
    before: T.Budget,
    after: T.Budget,
    raw: seq<Message>,
    historyAtClaim: seq<Message>,
    latest: seq<Message>,
    historyAtCommit: seq<Message>,
    generated: bool,
    beforeClaim: seq<I.Action>,
    whileGenerating: seq<I.Action>)
  {
    function Needed(): (r: Option<bool>) {
      NeedsCompaction(compactionEnabled, recovery.Some?, before.inputTokens, before.outputTokens, threshold)
    }

    /** The request after the compaction leaves room, and improves on the one that failed. */
    predicate Fits() {
      after.inputTokens < threshold && after.outputTokens > 0
      && (recovery.Some? ==> T.RecoveryImproves(recovery.value.0, recovery.value.1, after))
    }

    /** The tail of the checkpoint that was read, if there is one, can be restored from the history that was read. */
    ghost predicate Restores(previous: Option<Boundary>) {
      previous.Some? ==> EffectiveReferences(raw, previous.value).Success?
    }
  }

  lemma OwnedStays(db: T.Tables, actions: seq<I.Action>, thread: Id, researcher: Id)
    requires T.Owned(db, thread, researcher)
    ensures T.Owned(I.Execute(db, actions), thread, researcher)
  {
    H.HistoryIsKept(db, actions);
    hide I.Execute, H.RunsEvolve, H.CommandsEvolve, H.InterruptsEvolve, H.RecoveriesEvolve;
  }

  class SessionContextController {
    const repository: ResearchSessionRepository
    const thread: Id
    const researcher: Id
    const runId: Id

    constructor (repository: ResearchSessionRepository, thread: Id, researcher: Id, runId: Id)
      ensures this.repository == repository && this.thread == thread && this.researcher == researcher
        && this.runId == runId
    {
      this.repository, this.thread, this.researcher, this.runId := repository, thread, researcher, runId;
    }

    /** The cycle of this call does not own the thread. */
    ghost predicate Released(cycleId: Id)
      reads repository
    {
      thread in repository.checkpoints ==> repository.checkpoints[thread].owner != Some(Owner(cycleId, runId))
    }

    /** beginContextCycle() grants the thread to this call. */
    ghost predicate Claims(db: T.Tables, s: Surroundings, cycleId: Id) {
      T.BeginContextCycle(I.Execute(db, s.beforeClaim), thread, researcher, runId, cycleId, s.historyAtClaim).Success?
    }

    /**
     A claimed cycle is given back on every path. A compaction is reported only if the
     boundary was published: what selectContextHistory keeps of the history that
     was read, under the watermark of that same history, as the next revision of
     the checkpoint that was read, while the source still extends the watermark.
     */
    method PrepareContext(s: Surroundings, options: Options, cost: Part -> nat, cycleId: Id) returns (r: Prepared)
      requires repository.Valid() && T.Owned(repository.State(), thread, researcher)
      modifies repository
      ensures repository.Valid()
      ensures var restores := s.Restores(T.RowOf(old(repository.State()), thread).snapshot);
              (!restores || s.Needed() != Some(true) ==>
                 repository.State() == old(repository.State()) && (r.Unchanged? <==> restores && s.Needed().Some?))
              && (restores && s.Needed() == Some(true) ==>
                    if Claims(old(repository.State()), s, cycleId) then Released(cycleId)
                    else r.PrepareFailed?
                         && repository.State() == I.Execute(old(repository.State()), s.beforeClaim))
      ensures r.Compacted? ==>
        s.Needed() == Some(true) && s.generated && s.Fits() && r.selection.removed != []
        && Select(s.raw, options.(previous := T.RowOf(old(repository.State()), thread).snapshot), cost)
          == Success(r.selection)
        && thread in repository.checkpoints
        && repository.checkpoints[thread].revision == T.RowOf(old(repository.State()), thread).revision + 1
        && repository.checkpoints[thread].snapshot
          == Some(Boundary(FreezeContextSource(s.raw), r.selection.retainedParts))
        && EffectiveReferences(s.latest, repository.checkpoints[thread].snapshot.value).Success?
        && ContextSourceMatches(FreezeContextSource(s.raw), FreezeContextSource(s.historyAtCommit))
    {
      hide I.Inv, I.Execute, Select, FreezeContextSource, ContextSourceMatches, SnapshotWellFormed, T.HostRestart;
      hide EffectiveReferences, T.RecoveryImproves;
      if T.RowOf(repository.State(), thread).snapshot.Some? {
        var tail := RestoreContextTail(
          s.raw, T.RowOf(repository.State(), thread).snapshot.value, options.excludedMessageIds);
        if tail.Failure? {
          return PrepareFailed;
        }
      }
      if s.Needed() != Some(true) {
        return if s.Needed().None? then PrepareFailed else Unchanged;
      }
      var checkpoint := T.RowOf(repository.State(), thread);
      OwnedStays(repository.State(), s.beforeClaim, thread, researcher);
      repository.Serve(s.beforeClaim);
      var claimed := repository.BeginContextCycle(thread, researcher, runId, cycleId, s.historyAtClaim);
      if claimed.Failure? {
        return PrepareFailed;
      }
      var cycle := claimed.value;
      if cycle.revision == checkpoint.revision && cycle.watermark == FreezeContextSource(s.raw) {
        r := Publish(s, options.(previous := checkpoint.snapshot), cost, cycle, checkpoint.revision);
      } else {
        r := PrepareFailed;
      }
      ghost var before := repository.State();
      var _ := repository.ReleaseContextCycle(thread, researcher, cycle);
    }

    /** Between claim and release. */
    method Publish(s: Surroundings, options: Options, cost: Part -> nat, cycle: Cycle, revision: nat)
      returns (r: Prepared)
      requires repository.Valid() && T.Owned(repository.State(), thread, researcher)
      requires cycle.runId == runId && cycle.revision == revision
      modifies repository
      ensures repository.Valid() && T.Owned(repository.State(), thread, researcher)
      ensures !r.Unchanged?
      ensures r.Compacted? ==>
        s.generated && s.Fits() && r.selection.removed != [] && Select(s.raw, options, cost) == Success(r.selection)
        && EffectiveReferences(s.latest, Boundary(cycle.watermark, r.selection.retainedParts)).Success?
        && thread in repository.checkpoints
        && repository.checkpoints[thread]
           == Checkpoint(revision + 1, Some(Boundary(cycle.watermark, r.selection.retainedParts)), None)
        && ContextSourceMatches(cycle.watermark, FreezeContextSource(s.historyAtCommit))
    {
      hide I.Inv, I.Execute, Select, FreezeContextSource, ContextSourceMatches, SnapshotWellFormed;
      hide EffectiveReferences, T.RecoveryImproves;
      var selected := SelectContextHistory(s.raw, options, cost);
      if selected.Failure? || selected.value.removed == [] {
        return PrepareFailed;
      }
      OwnedStays(repository.State(), s.whileGenerating, thread, researcher);
      repository.Serve(s.whileGenerating);
      if !s.generated {
        return PrepareFailed;
      }
      var boundary := Boundary(cycle.watermark, selected.value.retainedParts);
      var tail := RestoreContextTail(s.latest, boundary, options.excludedMessageIds);
      if tail.Failure? || !s.Fits() {
        return PrepareFailed;
      }
      var error := repository.CommitContextCycle(thread, researcher, cycle, boundary, s.historyAtCommit);
      r := if error.None? then Compacted(selected.value) else PrepareFailed;
    }
  }
}
