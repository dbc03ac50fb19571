/**
 The publish boundary: reading, claiming, selecting and committing a compaction
 (session-context-controller.ts:54-111 over session-repository.ts:306-356),
 interleaved with any change of the source history, any number of controllers,
 ended runs and host restarts.
 */
module ContextPublication {
  import opened Wrappers
  import opened ContextSource
  import opened ContextSelection
  import opened ContextCheckpoint
  import Session = SessionTables

  // ----- What one selection does to the references it was given -----

  /** The references a cycle starts from: everything, or the tail of the previous checkpoint. */
  ghost predicate InBase(source: seq<Message>, previous: Option<Boundary>, r: Reference) {
    match previous
    case None => ValidReference(source, r)
    case Some(boundary) =>
      var effective := EffectiveReferences(source, boundary);
      effective.Success? && r in effective.value
  }

  lemma {:induction false} ItemsAreReferences(messages: seq<Message>, r: Reference)
    requires Distinct(messages)
    ensures ValidReference(messages, r) <==> exists x :: x in AllItems(messages) && ReferenceOf(x) == r
  {
    if |messages| > 0 {
      var n := |messages| - 1;
      var last := messages[n];
      assert Distinct(messages[..n]);
      ItemsAreReferences(messages[..n], r);
      if ValidReference(messages, r) {
        var i :| 0 <= i < |messages| && messages[i].id == r.messageId && r.partIndex < |messages[i].parts|;
        if i == n {
          var x := MessageItems(last, |last.parts|)[r.partIndex];
          assert x in AllItems(messages) && ReferenceOf(x) == r;
        } else {
          assert messages[..n][i] == messages[i];
          var x :| x in AllItems(messages[..n]) && ReferenceOf(x) == r;
          assert x in AllItems(messages);
        }
      }
      if x :| x in AllItems(messages) && ReferenceOf(x) == r {
        if x in MessageItems(last, |last.parts|) {
          assert messages[n].id == r.messageId;
        } else {
          var i :| 0 <= i < n && messages[..n][i].id == r.messageId && r.partIndex < |messages[..n][i].parts|;
          assert messages[i].id == r.messageId;
        }
      }
    }
  }

  ghost predicate DistinctItems(items: seq<Item>) {
    forall i, j :: 0 <= i < j < |items| ==> ReferenceOf(items[i]) != ReferenceOf(items[j])
  }

  lemma {:induction false} AllItemsDistinct(messages: seq<Message>)
    requires Distinct(messages)
    ensures DistinctItems(AllItems(messages))
  {
    if |messages| > 0 {
      var n := |messages| - 1;
      var rest := AllItems(messages[..n]);
      assert Distinct(messages[..n]);
      AllItemsDistinct(messages[..n]);
      forall i | 0 <= i < |rest| ensures rest[i].message.id != messages[n].id {
        assert rest[i] in rest;
        ItemHasMessage(messages[..n], rest[i]);
        var k :| 0 <= k < n && messages[..n][k] == rest[i].message;
      }
    }
  }

  lemma {:induction false} ItemHasMessage(messages: seq<Message>, x: Item)
    requires x in AllItems(messages)
    ensures x.message in messages
  {
    var n := |messages| - 1;
    if x !in MessageItems(messages[n], |messages[n].parts|) {
      ItemHasMessage(messages[..n], x);
    }
  }

  lemma {:induction false} ActiveDistinct(items: seq<Item>, excluded: set<Id>, keys: Option<set<Reference>>)
    requires DistinctItems(items)
    ensures DistinctItems(Active(items, excluded, keys))
  {
    if |items| > 0 {
      var n := |items| - 1;
      var rest := Active(items[..n], excluded, keys);
      ActiveDistinct(items[..n], excluded, keys);
      forall i | 0 <= i < |rest| ensures ReferenceOf(rest[i]) != ReferenceOf(items[n]) {
        assert rest[i] in rest;
        var k :| 0 <= k < n && items[..n][k] == rest[i];
      }
    }
  }

  lemma {:induction false} PickDistinct(items: seq<Item>, s: set<nat>, upTo: nat)
    requires upTo <= |items| && DistinctItems(items)
    ensures forall i, j :: 0 <= i < j < |Pick(items, s, upTo)| ==> Pick(items, s, upTo)[i] != Pick(items, s, upTo)[j]
  {
    if upTo > 0 {
      var rest := Pick(items, s, upTo - 1);
      PickDistinct(items, s, upTo - 1);
      forall i | 0 <= i < |rest| ensures rest[i] != ReferenceOf(items[upTo - 1]) {
        PickedIff(items, s, upTo - 1, rest[i]);
      }
    }
  }

  /** The parts a selection works on. */
  ghost function ActiveItems(messages: seq<Message>, options: Options): (r: seq<Item>)
    requires PreviousKeys(messages, options.previous).Success?
  {
    Active(AllItems(messages), options.excludedMessageIds, PreviousKeys(messages, options.previous).value)
  }

  lemma PickPartitions(items: seq<Item>, s: set<nat>, r: Reference)
    requires DistinctItems(items) && s <= Positions(items)
    ensures var kept := r in Pick(items, s, |items|);
            var rest := r in Pick(items, Positions(items) - s, |items|);
            (kept || rest <==> exists x :: x in items && ReferenceOf(x) == r) && !(kept && rest)
  {
    PickedIff(items, s, |items|, r);
    PickedIff(items, Positions(items) - s, |items|, r);
    if x :| x in items && ReferenceOf(x) == r {
      var i :| 0 <= i < |items| && items[i] == x;
      assert i in Positions(items);
    }
  }

  /**
   Selection partitions: each reference it starts from is retained, removed or
   excluded, never two of them, and nothing else appears.
   */
  lemma SelectionPartitions(messages: seq<Message>, options: Options, cost: Part -> nat, r: Reference)
    requires Select(messages, options, cost).Success?
    ensures var s := Select(messages, options, cost).value;
            var base := InBase(messages, options.previous, r);
            (r in s.retainedParts || r in s.removedParts <==> base && r.messageId !in options.excludedMessageIds)
            && !(r in s.retainedParts && r in s.removedParts)
  {
    hide RetainedPositions, InBase, Pick, Active, DistinctItems;
    var items := ActiveItems(messages, options);
    var kept := RetainedPositions(items, CostsOf(items, cost), options);
    AllItemsDistinct(messages);
    ActiveDistinct(AllItems(messages), options.excludedMessageIds, PreviousKeys(messages, options.previous).value);
    RetainedAreWithin(items, CostsOf(items, cost), options);
    PickPartitions(items, kept, r);
    BaseIsActive(messages, options, r);
  }

  lemma RetainedAreWithin(items: seq<Item>, costs: seq<nat>, options: Options)
    requires ValidItems(items) && |costs| == |items|
    ensures RetainedPositions(items, costs, options) <= Positions(items)
  {
  }

  lemma BaseIsActive(messages: seq<Message>, options: Options, r: Reference)
    requires Distinct(messages) && PreviousKeys(messages, options.previous).Success?
    ensures InBase(messages, options.previous, r) && r.messageId !in options.excludedMessageIds <==>
      exists x :: x in ActiveItems(messages, options) && ReferenceOf(x) == r
  {
    ItemsAreReferences(messages, r);
    if options.previous.Some? && InBase(messages, options.previous, r) {
      ResolvesIsValid(messages, r);
    }
    if InBase(messages, options.previous, r) && r.messageId !in options.excludedMessageIds {
      var x :| x in AllItems(messages) && ReferenceOf(x) == r;
      assert x in ActiveItems(messages, options);
    }
  }

  lemma PickedAtPosition(items: seq<Item>, s: set<nat>, i: nat)
    requires DistinctItems(items) && i < |items|
    ensures ReferenceOf(items[i]) in Pick(items, s, |items|) <==> i in s
  {
    PickedIff(items, s, |items|, ReferenceOf(items[i]));
  }

  lemma BoundStaysTogether(items: seq<Item>, s: set<nat>, i: nat, j: nat)
    requires ValidItems(items) && ClosedUnder(items, s) && Bound(items, i, j)
    ensures i in s <==> j in s
  {
  }

  /** No protocol step, enveloped message or tool call is split between the tail and the evidence. */
  lemma NothingBoundIsSplit(messages: seq<Message>, options: Options, cost: Part -> nat, i: nat, j: nat)
    requires Select(messages, options, cost).Success?
    requires Bound(ActiveItems(messages, options), i, j)
    ensures var s := Select(messages, options, cost).value;
            var items := ActiveItems(messages, options);
            ReferenceOf(items[i]) in s.retainedParts <==> ReferenceOf(items[j]) in s.retainedParts
  {
    hide Bound, SameSegment;
    var items := ActiveItems(messages, options);
    var start := TailStart(items, CostsOf(items, cost), options.recentTokens, |items|);
    var kept := RetainedPositions(items, CostsOf(items, cost), options);
    ClosureIsLeast(items, Suffix(items, start) + Pinned(items, options));
    AllItemsDistinct(messages);
    ActiveDistinct(AllItems(messages), options.excludedMessageIds, PreviousKeys(messages, options.previous).value);
    BoundWithin(items, i, j);
    PickedAtPosition(items, kept, i);
    PickedAtPosition(items, kept, j);
    BoundStaysTogether(items, kept, i, j);
  }

  lemma BoundWithin(items: seq<Item>, i: nat, j: nat)
    requires ValidItems(items) && Bound(items, i, j)
    ensures i < |items| && j < |items|
  {
  }

  // ----- Chains of published compactions -----

  datatype Publication = Publication(
    source: seq<Message>, excluded: set<Id>, boundary: Boundary, removed: seq<Reference>)

  ghost function BoundaryAfter(published: seq<Publication>, n: nat): (r: Option<Boundary>)
    requires n <= |published|
  {
    if n == 0 then None else Some(published[n - 1].boundary)
  }

  ghost predicate Dropped(published: seq<Publication>, k: nat, r: Reference)
    requires k < |published|
  {
    InBase(published[k].source, BoundaryAfter(published, k), r) && r.messageId in published[k].excluded
  }

  /** r left the context at publication k: as evidence, or with an excluded message. */
  ghost predicate GoneAt(published: seq<Publication>, k: nat, r: Reference)
    requires k < |published|
  {
    r in published[k].removed || Dropped(published, k, r)
  }

  ghost predicate Accounts(published: seq<Publication>, k: nat, r: Reference)
    requires k < |published|
  {
    var p := published[k];
    (InBase(p.source, BoundaryAfter(published, k), r) && r.messageId !in p.excluded
     <==> r in p.boundary.retained || r in p.removed)
    && !(r in p.boundary.retained && r in p.removed)
  }

  ghost predicate Link(published: seq<Publication>, k: nat)
    requires k < |published|
  {
    var p := published[k];
    Distinct(p.source)
    && p.boundary.watermark == FreezeContextSource(p.source)
    && (k > 0 ==> EffectiveReferences(p.source, published[k - 1].boundary).Success?)
    && forall r :: Accounts(published, k, r)
  }

  ghost predicate Chain(published: seq<Publication>) {
    forall k :: 0 <= k < |published| ==> Link(published, k)
  }

  lemma CountOfFrozen(source: seq<Message>, i: nat)
    requires Distinct(source) && i < |source|
    ensures Count(FreezeContextSource(source), source[i].id) == |source[i].parts|
  {
  }

  lemma UncoveredIsNew(source: seq<Message>, later: seq<Message>, r: Reference)
    requires Distinct(source) && Distinct(later)
    ensures Uncovered(later, FreezeContextSource(source), r) <==> ValidReference(later, r) && !ValidReference(source, r)
  {
  }

  lemma MatchedSourceKeeps(source: seq<Message>, later: seq<Message>, r: Reference)
    requires Distinct(source) && Distinct(later)
    requires ContextSourceMatches(FreezeContextSource(source), FreezeContextSource(later))
    ensures ValidReference(source, r) ==> ValidReference(later, r)
    ensures ValidReference(source, r) ==> PartAt(source, r) == PartAt(later, r)
  {
    MatchesIsGrowth(FreezeContextSource(source), later);
    if ValidReference(source, r) {
      var i :| 0 <= i < |source| && source[i].id == r.messageId && r.partIndex < |source[i].parts|;
      assert later[i].id == r.messageId && source[i].parts <= later[i].parts;
      PartAtIndex(source, r, i);
      PartAtIndex(later, r, i);
    }
  }

  /** The part a reference addresses. */
  ghost function PartAt(messages: seq<Message>, r: Reference): (result: Part)
    requires ValidReference(messages, r)
  {
    var i :| 0 <= i < |messages| && messages[i].id == r.messageId && r.partIndex < |messages[i].parts|;
    messages[i].parts[r.partIndex]
  }

  lemma PartAtIndex(messages: seq<Message>, r: Reference, i: nat)
    requires Distinct(messages) && i < |messages| && messages[i].id == r.messageId && r.partIndex < |messages[i].parts|
    ensures ValidReference(messages, r) && PartAt(messages, r) == messages[i].parts[r.partIndex]
  {
  }

  /** What a boundary makes effective later: its retained references and everything appended since. */
  lemma EffectiveAfter(source: seq<Message>, boundary: Boundary, later: seq<Message>, r: Reference)
    requires Distinct(source) && Distinct(later) && boundary.watermark == FreezeContextSource(source)
    requires EffectiveReferences(later, boundary).Success?
    ensures InBase(later, Some(boundary), r) <==>
      r in boundary.retained || (ValidReference(later, r) && !ValidReference(source, r))
    ensures InBase(later, Some(boundary), r) ==> ValidReference(later, r)
  {
    AppendedAreUncovered(later, boundary.watermark, r);
    UncoveredIsNew(source, later, r);
    if InBase(later, Some(boundary), r) {
      ResolvesIsValid(later, r);
    }
  }

  /** Exactly one fate: still retained, or gone at exactly one publication. Unknown references have none. */
  ghost predicate OneFate(published: seq<Publication>, n: nat, r: Reference)
    requires 0 < n <= |published|
  {
    var p := published[n - 1];
    (ValidReference(p.source, r) ==>
      (r in p.boundary.retained <==> forall k :: 0 <= k < n ==> !GoneAt(published, k, r)))
    && (!ValidReference(p.source, r) ==> r !in p.boundary.retained && forall k :: 0 <= k < n ==>
      !GoneAt(published, k, r))
    && forall j, k :: 0 <= j < n && 0 <= k < n && GoneAt(published, j, r) && GoneAt(published, k, r) ==> j == k
  }

  lemma {:induction false} EveryReferenceHasOneFate(published: seq<Publication>, n: nat, r: Reference)
    requires Chain(published) && 0 < n <= |published|
    ensures OneFate(published, n, r)
  {
    if n > 1 {
      EveryReferenceHasOneFate(published, n - 1, r);
    }
    NextFate(published, n - 1, r);
  }

  lemma NextFate(published: seq<Publication>, k: nat, r: Reference)
    requires Chain(published) && k < |published|
    requires k > 0 ==> OneFate(published, k, r)
    ensures OneFate(published, k + 1, r)
  {
    hide InBase, EffectiveReferences, ValidReference, ContextSourceMatches, PartAt;
    assert Link(published, k) && Accounts(published, k, r);
    BaseOf(published, k, r);
    assert (forall j :: 0 <= j < k + 1 ==> !GoneAt(published, j, r))
           <==> (forall j :: 0 <= j < k ==> !GoneAt(published, j, r)) && !GoneAt(published, k, r);
  }

  /** Where a publication's base comes from. */
  lemma BaseOf(published: seq<Publication>, k: nat, r: Reference)
    requires Chain(published) && k < |published|
    ensures var base := InBase(published[k].source, BoundaryAfter(published, k), r);
            if k == 0 then base <==> ValidReference(published[k].source, r)
            else
              (base <==> r in published[k - 1].boundary.retained
                         || (ValidReference(published[k].source, r) && !ValidReference(published[k - 1].source, r)))
              && (base ==> ValidReference(published[k].source, r))
              && (ValidReference(published[k - 1].source, r) ==> ValidReference(published[k].source, r))
  {
    assert Link(published, k);
    if k > 0 {
      assert Link(published, k - 1);
      EffectiveAfter(published[k - 1].source, published[k - 1].boundary, published[k].source, r);
      MatchedSourceKeeps(published[k - 1].source, published[k].source, r);
    }
  }

  /**
   Conservation. At any later time at which the last boundary still applies, each
   source part is either in the restored tail or left at exactly one publication:
   handed over as evidence there, or dropped there because its message was
   excluded. It never does both, and it never returns.
   */
  lemma Conservation(published: seq<Publication>, now: seq<Message>, r: Reference)
    requires Chain(published) && |published| > 0 && Distinct(now)
    requires EffectiveReferences(now, published[|published| - 1].boundary).Success?
    requires ValidReference(now, r)
    ensures r in EffectiveReferences(now, published[|published| - 1].boundary).value
            <==> forall k :: 0 <= k < |published| ==> !GoneAt(published, k, r)
    ensures forall j, k ::
      0 <= j < |published| && 0 <= k < |published| && GoneAt(published, j, r) && GoneAt(published, k, r) ==> j == k
    ensures forall k :: 0 <= k < |published| ==> !(r in published[k].removed && Dropped(published, k, r))
    ensures (forall k :: 0 <= k < |published| ==> r.messageId !in published[k].excluded) ==>
      (r in EffectiveReferences(now, published[|published| - 1].boundary).value
       <==> forall k :: 0 <= k < |published| ==> r !in published[k].removed)
  {
    hide InBase, EffectiveReferences, ValidReference;
    var n := |published|;
    EveryReferenceHasOneFate(published, n, r);
    assert Link(published, n - 1);
    var last := published[n - 1];
    EffectiveAfter(last.source, last.boundary, now, r);
    InBaseMeansEffective(now, last.boundary, r);
    forall k | 0 <= k < n
      ensures !(r in published[k].removed && Dropped(published, k, r))
      ensures r.messageId !in published[k].excluded ==> (GoneAt(published, k, r) <==> r in published[k].removed)
    {
      assert Link(published, k) && Accounts(published, k, r);
    }
  }

  /** Restoring the tail of a chain fails only because the source changed under the watermark. */
  lemma TailIsRestorable(published: seq<Publication>, now: seq<Message>)
    requires Chain(published) && |published| > 0 && Distinct(now)
    ensures var boundary := published[|published| - 1].boundary;
            EffectiveReferences(now, boundary).Success?
            <==> ContextSourceMatches(boundary.watermark, FreezeContextSource(now))
  {
    hide ValidReference, Resolves, InBase;
    var n := |published| - 1;
    var boundary := published[n].boundary;
    if ContextSourceMatches(boundary.watermark, FreezeContextSource(now)) {
      assert Link(published, n);
      forall r | r in boundary.retained + AppendedReferences(now, boundary.watermark)
        ensures Resolves(now, r)
      {
        ResolvesIsValid(now, r);
        if r in boundary.retained {
          assert Accounts(published, n, r);
          BaseOf(published, n, r);
          MatchedSourceKeeps(published[n].source, now, r);
        } else {
          AppendedAreUncovered(now, boundary.watermark, r);
          UncoveredIsNew(published[n].source, now, r);
        }
      }
    }
  }

  lemma InBaseMeansEffective(now: seq<Message>, boundary: Boundary, r: Reference)
    requires EffectiveReferences(now, boundary).Success?
    ensures InBase(now, Some(boundary), r) <==> r in EffectiveReferences(now, boundary).value
  {
  }

  /** Evidence is handed over unchanged: the part still has the value it had in the source of its publication. */
  lemma HandedOverUnchanged(published: seq<Publication>, k: nat, now: seq<Message>, r: Reference)
    requires Chain(published) && k < |published| && Distinct(now)
    requires ContextSourceMatches(published[|published| - 1].boundary.watermark, FreezeContextSource(now))
    requires r in published[k].removed
    ensures ValidReference(published[k].source, r) && ValidReference(now, r)
    ensures PartAt(published[k].source, r) == PartAt(now, r)
  {
    hide InBase, EffectiveReferences, ValidReference, ContextSourceMatches, PartAt;
    assert Link(published, k) && Accounts(published, k, r);
    BaseOf(published, k, r);
    ChainMatches(published, k, |published| - 1);
    assert Link(published, |published| - 1);
    MatchesTransitive(published[k].boundary.watermark, published[|published| - 1].boundary.watermark,
      FreezeContextSource(now));
    MatchedSourceKeeps(published[k].source, now, r);
  }

  lemma {:induction false} ChainMatches(published: seq<Publication>, j: nat, k: nat)
    requires Chain(published) && j <= k < |published|
    ensures ContextSourceMatches(published[j].boundary.watermark, published[k].boundary.watermark)
  {
    assert Link(published, j) && Link(published, k);
    if j == k {
      DistinctMatchesItself(published[j].source);
    } else {
      ChainMatches(published, j, k - 1);
      MatchesTransitive(published[j].boundary.watermark, published[k - 1].boundary.watermark,
        published[k].boundary.watermark);
    }
  }

  lemma DistinctMatchesItself(source: seq<Message>)
    requires Distinct(source)
    ensures ContextSourceMatches(FreezeContextSource(source), FreezeContextSource(source))
  {
    MatchesIsGrowth(FreezeContextSource(source), source);
  }

  // ----- Controllers, runs and restarts interleaved -----

  /** One prepareContext call: what it read, and the cycle it claimed. */
  datatype Attempt = Attempt(
    runId: Id,
    seenRevision: nat,
    previous: Option<Boundary>,
    raw: seq<Message>,
    excluded: set<Id>,
    cycle: Option<Cycle>)

  datatype World = World(
    history: seq<Message>,
    row: Checkpoint,
    runs: map<Id, Session.Status>,
    issued: set<Id>,
    attempts: map<Id, Attempt>,
    published: seq<Publication>)

  datatype Action =
    | ChangeHistory(next: seq<Message>)
    | SetRun(runId: Id, status: Session.Status)
    | HostRestart
    | ReadInput(attempt: Id, runId: Id, excluded: set<Id>)
    | BeginCycle(attempt: Id, cycleId: Id)
    | Publish(attempt: Id, options: Options, cost: Part -> nat)
    | ReleaseCycle(attempt: Id)

  const INITIAL := World([], EMPTY_CHECKPOINT, map[], {}, map[], [])

  /** The controller's checks after claiming: nothing moved between reading and claiming. */
  ghost predicate ClaimAgrees(attempt: Attempt) {
    attempt.cycle.Some?
    && attempt.cycle.value.revision == attempt.seenRevision
    && attempt.cycle.value.watermark == FreezeContextSource(attempt.raw)
  }

  predicate IsRunning(w: World, runId: Id) {
    runId in w.runs && w.runs[runId].Running?
  }

  function RestartedStatus(status: Session.Status): (next: Session.Status) {
    match status
    case Running => Session.Failed
    case Stopping => Session.Stopped
    case _ => status
  }

  /** Interrupted runs end, then the cycle of every failed or stopped run is cleared, whenever it ended. */
  function Restarted(w: World): (next: World) {
    var runs := map id | id in w.runs :: RestartedStatus(w.runs[id]);
    var dead := w.row.owner.Some? && w.row.owner.value.runId in runs
                && (runs[w.row.owner.value.runId].Failed? || runs[w.row.owner.value.runId].Stopped?);
    w.(runs := runs, row := if dead then w.row.(owner := None) else w.row)
  }

  /**
   A disabled action changes nothing. A run may take any status at any time, so
   every caller is covered; history rows have unique ids and a cycle id is never issued twice. */
  ghost function Apply(w: World, action: Action): (r: World) {
    match action
    case ChangeHistory(next) => if Distinct(next) then w.(history := next) else w
    case SetRun(runId, status) => w.(runs := w.runs[runId := status])
    case HostRestart => Restarted(w)
    case ReadInput(a, runId, excluded) =>
      if a in w.attempts then w
      else w.(attempts := w.attempts[a := Attempt(runId, w.row.revision, w.row.snapshot, w.history, excluded, None)])
    case BeginCycle(a, cycleId) =>
      if a !in w.attempts || w.attempts[a].cycle.Some? || cycleId in w.issued then w
      else
        var claimed := Claim(w.row, cycleId, w.attempts[a].runId, IsRunning(w, w.attempts[a].runId), w.history);
        if claimed.None? then w
        else w.(row := claimed.value.0, issued := w.issued + {cycleId},
                attempts := w.attempts[a := w.attempts[a].(cycle := Some(claimed.value.1))])
    case Publish(a, options, cost) =>
      if a !in w.attempts || !ClaimAgrees(w.attempts[a]) then w
      else
        var attempt := w.attempts[a];
        var selected := Select(attempt.raw,
          options.(previous := attempt.previous, excludedMessageIds := attempt.excluded), cost);
        if selected.Failure? || selected.value.removed == [] then w
        else
          var boundary := Boundary(attempt.cycle.value.watermark, selected.value.retainedParts);
          var committed := Commit(w.row, attempt.cycle.value, boundary, IsRunning(w, attempt.runId), w.history);
          if committed.None? then w
          else w.(row := committed.value,
                  published := w.published
                    + [Publication(attempt.raw, attempt.excluded, boundary, selected.value.removedParts)])
    case ReleaseCycle(a) =>
      if a !in w.attempts || w.attempts[a].cycle.None? then w
      else w.(row := Release(w.row, w.attempts[a].cycle.value), attempts := w.attempts - {a})
  }

  ghost function Execute(w: World, actions: seq<Action>): (next: World)
    decreases |actions|
  {
    if |actions| == 0 then w else Execute(Apply(w, actions[0]), actions[1..])
  }

  ghost predicate AttemptRemembers(w: World, a: Id)
    requires a in w.attempts
  {
    var attempt := w.attempts[a];
    attempt.seenRevision <= |w.published|
    && attempt.previous == BoundaryAfter(w.published, attempt.seenRevision)
    && Distinct(attempt.raw)
    && (attempt.cycle.Some? ==> attempt.cycle.value.id in w.issued && attempt.cycle.value.runId == attempt.runId)
  }

  ghost predicate Consistent(w: World) {
    Distinct(w.history)
    && w.row.revision == |w.published|
    && w.row.snapshot == BoundaryAfter(w.published, |w.published|)
    && (w.row.owner.Some? ==> w.row.owner.value.cycleId in w.issued)
    && (forall a :: a in w.attempts ==> AttemptRemembers(w, a))
    && Chain(w.published)
  }

  lemma PublicationLinks(published: seq<Publication>, attempt: Attempt, options: Options, cost: Part -> nat,
                         boundary: Boundary, removed: seq<Reference>)
    requires Chain(published) && Distinct(attempt.raw)
    requires attempt.previous == BoundaryAfter(published, |published|)
    requires options.previous == attempt.previous && options.excludedMessageIds == attempt.excluded
    requires Select(attempt.raw, options, cost).Success?
    requires boundary
      == Boundary(FreezeContextSource(attempt.raw), Select(attempt.raw, options, cost).value.retainedParts)
    requires removed == Select(attempt.raw, options, cost).value.removedParts
    ensures Chain(published + [Publication(attempt.raw, attempt.excluded, boundary, removed)])
  {
    hide Select, InBase, EffectiveReferences, Distinct;
    var n := |published|;
    var longer := published + [Publication(attempt.raw, attempt.excluded, boundary, removed)];
    assert BoundaryAfter(longer, n) == BoundaryAfter(published, n);
    SelectNeedsPrevious(attempt.raw, options, cost);
    forall r
      ensures Accounts(longer, n, r)
    {
      SelectionPartitions(attempt.raw, options, cost, r);
    }
    assert Link(longer, n);
    forall k | 0 <= k < n
      ensures Link(longer, k)
    {
      assert Link(published, k);
      assert BoundaryAfter(longer, k) == BoundaryAfter(published, k);
      forall r ensures Accounts(longer, k, r) {
        assert Accounts(published, k, r);
      }
    }
  }

  lemma SelectNeedsPrevious(messages: seq<Message>, options: Options, cost: Part -> nat)
    requires Select(messages, options, cost).Success?
    ensures options.previous.Some? ==> EffectiveReferences(messages, options.previous.value).Success?
  {
  }

  lemma StepKeepsConsistent(w: World, action: Action)
    requires Consistent(w)
    ensures Consistent(Apply(w, action))
    ensures w.published <= Apply(w, action).published
  {
    hide Link, Distinct, Select, SnapshotWellFormed, ContextSourceMatches;
    if action.Publish? && Apply(w, action) != w {
      PublishStep(w, action);
    }
  }

  /** A publication raises the revision by one from the revision its own begin read, and publishes its own watermark. */
  lemma PublishStep(w: World, action: Action)
    requires Consistent(w) && action.Publish? && Apply(w, action) != w
    ensures var next := Apply(w, action);
            var cycle := w.attempts[action.attempt].cycle.value;
            action.attempt in w.attempts && w.attempts[action.attempt].cycle.Some?
            && w.row.owner == Some(Owner(cycle.id, cycle.runId)) && next.row.owner == None
            && next.row.revision == cycle.revision + 1
            && |next.published| == |w.published| + 1 && w.published <= next.published
            && next.row.snapshot == Some(next.published[|w.published|].boundary)
            && next.published[|w.published|].boundary.watermark == cycle.watermark
            && ContextSourceMatches(cycle.watermark, FreezeContextSource(w.history))
            && Consistent(next)
  {
    hide Link, Distinct, Select, SnapshotWellFormed, ContextSourceMatches;
    var a := action.attempt;
    var attempt := w.attempts[a];
    assert AttemptRemembers(w, a);
    var options := action.options.(previous := attempt.previous, excludedMessageIds := attempt.excluded);
    var selected := Select(attempt.raw, options, action.cost);
    var boundary := Boundary(attempt.cycle.value.watermark, selected.value.retainedParts);
    PublicationLinks(w.published, attempt, options, action.cost, boundary, selected.value.removedParts);
    var next := Apply(w, action);
    forall b | b in next.attempts
      ensures AttemptRemembers(next, b)
    {
      assert AttemptRemembers(w, b);
    }
  }

  lemma {:induction false} RunsStayConsistent(w: World, actions: seq<Action>)
    requires Consistent(w)
    ensures Consistent(Execute(w, actions))
    ensures w.published <= Execute(w, actions).published
    decreases |actions|
  {
    if |actions| > 0 {
      StepKeepsConsistent(w, actions[0]);
      RunsStayConsistent(Apply(w, actions[0]), actions[1..]);
    }
  }

  /**
   Conservation over every interleaving, from the empty session on, whenever the
   source still extends the watermark.
   */
  lemma NothingIsLostOrReturned(actions: seq<Action>, r: Reference)
    requires var w := Execute(INITIAL, actions);
             w.row.snapshot.Some? && ValidReference(w.history, r)
             && ContextSourceMatches(w.row.snapshot.value.watermark, FreezeContextSource(w.history))
    ensures var w := Execute(INITIAL, actions);
            var tail := EffectiveReferences(w.history, w.row.snapshot.value);
            tail.Success?
            && (r in tail.value <==> forall k :: 0 <= k < |w.published| ==> !GoneAt(w.published, k, r))
            && (forall j, k :: (0 <= j < |w.published| && 0 <= k < |w.published|
                                && GoneAt(w.published, j, r) && GoneAt(w.published, k, r)) ==> j == k)
            && forall k :: 0 <= k < |w.published| ==> !(r in w.published[k].removed && Dropped(w.published, k, r))
  {
    hide EffectiveReferences, InBase, ContextSourceMatches;
    RunsStayConsistent(INITIAL, actions);
    var w := Execute(INITIAL, actions);
    TailIsRestorable(w.published, w.history);
    Conservation(w.published, w.history, r);
  }

  /** Every message stays where it is and may only gain parts; messages are only added. */
  ghost predicate Grows(history: seq<Message>, next: seq<Message>) {
    |history| <= |next|
    && forall i :: 0 <= i < |history| ==>
         next[i].id == history[i].id && next[i].header == history[i].header && history[i].parts <= next[i].parts
  }

  /** Whatever else happens, the history is only appended to. */
  ghost predicate OnlyAppends(w: World, actions: seq<Action>)
    decreases |actions|
  {
    |actions| > 0 ==>
      (actions[0].ChangeHistory? ==> Grows(w.history, actions[0].next))
      && OnlyAppends(Apply(w, actions[0]), actions[1..])
  }

  ghost predicate WatermarkApplies(w: World) {
    w.row.snapshot.Some? ==> ContextSourceMatches(w.row.snapshot.value.watermark, FreezeContextSource(w.history))
  }

  lemma StepKeepsWatermark(w: World, action: Action)
    requires Consistent(w) && WatermarkApplies(w)
    requires action.ChangeHistory? ==> Grows(w.history, action.next)
    ensures WatermarkApplies(Apply(w, action))
  {
    hide Link, Distinct, Select, SnapshotWellFormed, ContextSourceMatches, Grows;
    if action.Publish? && Apply(w, action) != w {
      PublishStep(w, action);
    } else if action.ChangeHistory? && Distinct(action.next) && w.row.snapshot.Some? {
      GrowthMatches(w.history, action.next);
      MatchesTransitive(w.row.snapshot.value.watermark, FreezeContextSource(w.history),
        FreezeContextSource(action.next));
    }
  }

  lemma GrowthMatches(history: seq<Message>, next: seq<Message>)
    requires Grows(history, next) && Distinct(next)
    ensures ContextSourceMatches(FreezeContextSource(history), FreezeContextSource(next))
  {
    MatchesIsGrowth(FreezeContextSource(history), next);
  }

  lemma {:induction false} AppendsKeepWatermark(w: World, actions: seq<Action>)
    requires Consistent(w) && WatermarkApplies(w) && OnlyAppends(w, actions)
    ensures WatermarkApplies(Execute(w, actions))
    decreases |actions|
  {
    hide Consistent, WatermarkApplies, Apply, Grows;
    if |actions| > 0 {
      StepKeepsWatermark(w, actions[0]);
      StepKeepsConsistent(w, actions[0]);
      AppendsKeepWatermark(Apply(w, actions[0]), actions[1..]);
    }
  }

  /**
   Conservation over every run that only appends to the history: before the first
   publication and after any of them, each part of the history is in what the next
   compaction starts from, or left at exactly one publication and in one way, and
   what was handed over is still in the history as it was.
   */
  lemma NothingIsLostWhileAppending(actions: seq<Action>, r: Reference)
    requires OnlyAppends(INITIAL, actions) && ValidReference(Execute(INITIAL, actions).history, r)
    ensures var w := Execute(INITIAL, actions);
            (w.row.snapshot.Some? ==> EffectiveReferences(w.history, w.row.snapshot.value).Success?)
            && (InBase(w.history, w.row.snapshot, r)
              <==> forall k :: 0 <= k < |w.published| ==> !GoneAt(w.published, k, r))
            && (forall j, k :: (0 <= j < |w.published| && 0 <= k < |w.published|
                                && GoneAt(w.published, j, r) && GoneAt(w.published, k, r)) ==> j == k)
            && (forall k :: 0 <= k < |w.published| ==> !(r in w.published[k].removed && Dropped(w.published, k, r)))
            && forall k :: 0 <= k < |w.published| && r in w.published[k].removed ==>
                 (ValidReference(w.published[k].source, r) && PartAt(w.published[k].source, r) == PartAt(w.history, r))
  {
    hide EffectiveReferences, ContextSourceMatches, ValidReference, PartAt, Dropped;
    RunsStayConsistent(INITIAL, actions);
    AppendsKeepWatermark(INITIAL, actions);
    var w := Execute(INITIAL, actions);
    if w.row.snapshot.Some? {
      NothingIsLostOrReturned(actions, r);
      forall k | 0 <= k < |w.published| && r in w.published[k].removed
        ensures ValidReference(w.published[k].source, r) && PartAt(w.published[k].source, r) == PartAt(w.history, r)
      {
        HandedOverUnchanged(w.published, k, w.history, r);
      }
    }
  }

  // ----- Cycles that ended -----

  ghost predicate Dead(w: World, cycleId: Id) {
    cycleId in w.issued && (w.row.owner.Some? ==> w.row.owner.value.cycleId != cycleId)
  }

  ghost predicate UsesCycle(w: World, publish: Action, cycleId: Id) {
    publish.Publish? && publish.attempt in w.attempts
    && w.attempts[publish.attempt].cycle.Some? && w.attempts[publish.attempt].cycle.value.id == cycleId
  }

  /**
   A cycle that was released, committed or cleared by a restart never owns the
   thread again, so it never publishes.
   */
  lemma {:induction false} DeadCyclesNeverPublish(w: World, actions: seq<Action>, cycleId: Id, publish: Action)
    requires Consistent(w) && Dead(w, cycleId)
    ensures var later := Execute(w, actions);
            Dead(later, cycleId) && (UsesCycle(later, publish, cycleId) ==> Apply(later, publish) == later)
    decreases |actions|
  {
    hide Consistent, Dead, Apply, UsesCycle;
    if |actions| > 0 {
      StepKeepsConsistent(w, actions[0]);
      DeadStaysDead(w, actions[0], cycleId);
      DeadCyclesNeverPublish(Apply(w, actions[0]), actions[1..], cycleId, publish);
    } else if UsesCycle(w, publish, cycleId) {
      DeadCannotPublish(w, cycleId, publish);
    }
  }

  lemma DeadStaysDead(w: World, action: Action, cycleId: Id)
    requires Consistent(w) && Dead(w, cycleId)
    ensures Dead(Apply(w, action), cycleId)
  {
  }

  lemma DeadCannotPublish(w: World, cycleId: Id, publish: Action)
    requires Consistent(w) && Dead(w, cycleId) && UsesCycle(w, publish, cycleId)
    ensures Apply(w, publish) == w
  {
  }

  /** A world shows the checkpoint row of one thread and the status of every run. */
  ghost predicate Shows(w: World, db: Session.Tables, thread: Id) {
    w.row == Session.RowOf(db, thread) && w.runs == map id | id in db.runs :: db.runs[id].status
  }

  /** A restart does to the thread what it does to the tables. */
  lemma RestartIsTheTables(w: World, db: Session.Tables, thread: Id)
    requires Shows(w, db, thread)
    ensures Shows(Apply(w, HostRestart), Session.HostRestart(db), thread)
  {
  }

  /** What the controller commits always passes the snapshot check. */
  lemma SelectedSnapshotWellFormed(messages: seq<Message>, options: Options, cost: Part -> nat)
    requires Select(messages, options, cost).Success?
    ensures SnapshotWellFormed(Boundary(FreezeContextSource(messages),
      Select(messages, options, cost).value.retainedParts))
  {
    hide RetainedPositions, InBase, Active;
    var items := ActiveItems(messages, options);
    var kept := RetainedPositions(items, CostsOf(items, cost), options);
    AllItemsDistinct(messages);
    ActiveDistinct(AllItems(messages), options.excludedMessageIds, PreviousKeys(messages, options.previous).value);
    PickDistinct(items, kept, |items|);
    var refs := Pick(items, kept, |items|);
    forall i | 0 <= i < |refs|
      ensures refs[i].partIndex < Count(FreezeContextSource(messages), refs[i].messageId)
    {
      assert refs[i] in refs;
      SelectionPartitions(messages, options, cost, refs[i]);
      BaseIsActive(messages, options, refs[i]);
      var x :| x in items && ReferenceOf(x) == refs[i];
      ActiveIsValid(messages, options, x);
      var k :| 0 <= k < |messages| && messages[k].id == refs[i].messageId && refs[i].partIndex < |messages[k].parts|;
      CountOfFrozen(messages, k);
    }
  }

  lemma ActiveIsValid(messages: seq<Message>, options: Options, x: Item)
    requires Distinct(messages) && PreviousKeys(messages, options.previous).Success?
      && x in ActiveItems(messages, options)
    ensures ValidReference(messages, ReferenceOf(x))
  {
    assert x in AllItems(messages);
    ItemsAreReferences(messages, ReferenceOf(x));
  }
}
