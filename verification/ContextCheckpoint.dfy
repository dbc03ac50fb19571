/**
 The checkpoint row of a thread and the cycle that may own it
 (session-repository.ts:306-356, session-context-state.ts:12-39).
 */
module ContextCheckpoint {
  import opened Wrappers
  import opened ContextSource

  datatype Owner = Owner(cycleId: Id, runId: Id)

  datatype Checkpoint = Checkpoint(revision: nat, snapshot: Option<Boundary>, owner: Option<Owner>)

  datatype Cycle = Cycle(id: Id, runId: Id, revision: nat, watermark: seq<Stamp>)

  const EMPTY_CHECKPOINT := Checkpoint(0, None, None)

  predicate DistinctSources(watermark: seq<Stamp>, upTo: nat)
    requires upTo <= |watermark|
  {
    forall i, j :: 0 <= i < j < upTo ==> watermark[i].messageId != watermark[j].messageId
  }

  predicate RetainedWellFormed(snapshot: Boundary, upTo: nat)
    requires upTo <= |snapshot.retained|
  {
    (forall i, j :: 0 <= i < j < upTo ==> snapshot.retained[i] != snapshot.retained[j])
    && forall i :: 0 <= i < upTo ==>
         snapshot.retained[i].partIndex < Count(snapshot.watermark, snapshot.retained[i].messageId)
  }

  /** The snapshot schema's own check: distinct sources, and retained references unique and inside them. */
  predicate SnapshotWellFormed(snapshot: Boundary) {
    DistinctSources(snapshot.watermark, |snapshot.watermark|) && RetainedWellFormed(snapshot, |snapshot.retained|)
  }

  method CheckSources(watermark: seq<Stamp>) returns (ok: bool)
    ensures ok == DistinctSources(watermark, |watermark|)
  {
    var seen: set<Id> := {};
    ok := true;
    var n := 0;
    while n < |watermark|
      invariant 0 <= n <= |watermark|
      invariant forall i :: 0 <= i < n ==> watermark[i].messageId in seen
      invariant forall id :: id in seen ==> exists i :: 0 <= i < n && watermark[i].messageId == id
      invariant ok == DistinctSources(watermark, n)
    {
      ok := ok && watermark[n].messageId !in seen;
      seen := seen + {watermark[n].messageId};
      n := n + 1;
    }
  }

  /** The schema's refinement loop, with its map of sources and its set of seen references. */
  method CheckSnapshot(snapshot: Boundary) returns (ok: bool)
    ensures ok == SnapshotWellFormed(snapshot)
  {
    var sources := CheckSources(snapshot.watermark);
    var counts := CountFrozenParts(snapshot.watermark);
    var seen: set<Reference> := {};
    var valid := true;
    var n := 0;
    while n < |snapshot.retained|
      invariant 0 <= n <= |snapshot.retained|
      invariant forall i :: 0 <= i < n ==> snapshot.retained[i] in seen
      invariant forall x :: x in seen ==> exists i :: 0 <= i < n && snapshot.retained[i] == x
      invariant valid == RetainedWellFormed(snapshot, n)
    {
      var part := snapshot.retained[n];
      if part in seen || part.partIndex >= (if part.messageId in counts then counts[part.messageId] else 0) {
        valid := false;
      }
      seen := seen + {part};
      n := n + 1;
    }
    ok := sources && valid;
  }

  function Claim(row: Checkpoint, cycleId: Id, runId: Id, running: bool, history: seq<Message>)
    : (r: Option<(Checkpoint, Cycle)>) {
    if !running || row.owner.Some? then None
    else Some((row.(owner := Some(Owner(cycleId, runId))),
               Cycle(cycleId, runId, row.revision, FreezeContextSource(history))))
  }

  function Commit(row: Checkpoint, cycle: Cycle, candidate: Boundary, running: bool, history: seq<Message>)
    : (r: Option<Checkpoint>) {
    if !SnapshotWellFormed(candidate) || candidate.watermark != cycle.watermark then None
    else if !ContextSourceMatches(cycle.watermark, FreezeContextSource(history)) then None
    else if row.owner != Some(Owner(cycle.id, cycle.runId)) || row.revision != cycle.revision || !running then None
    else Some(Checkpoint(row.revision + 1, Some(candidate), None))
  }

  function Release(row: Checkpoint, cycle: Cycle): (r: Checkpoint) {
    if row.owner == Some(Owner(cycle.id, cycle.runId)) then row.(owner := None) else row
  }
}
