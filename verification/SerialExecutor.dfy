/**
 KeyedSerialExecutor: operations of one key run one after the other, in the order
 of their calls (apps/auth/src/coordination.ts:302-323). A call waits for the
 promise that was the key's tail when it was made; its own tail resolves when
 that promise has resolved and the call itself has released.
 */
module SerialExecutor {
  import opened Wrappers

  type Key = string

  datatype Status = Waiting | Running | Released

  datatype Call = Call(key: Key, previous: Option<nat>, status: Status)

  /** The tail promise of a call has resolved. */
  predicate Resolved(calls: seq<Call>, n: nat)
    requires n < |calls|
    decreases n
  {
    calls[n].status.Released?
    && (calls[n].previous.Some? ==> calls[n].previous.value < n && Resolved(calls, calls[n].previous.value))
  }

  predicate MayStart(calls: seq<Call>, n: nat)
    requires n < |calls|
  {
    calls[n].status.Waiting?
    && (calls[n].previous.Some? ==> calls[n].previous.value < n && Resolved(calls, calls[n].previous.value))
  }

  /** No call of the key was made after the n-th and before the m-th. */
  ghost predicate NoneBetween(calls: seq<Call>, n: int, m: nat, key: Key)
    requires -1 <= n && m <= |calls|
  {
    forall i :: n < i < m ==> calls[i].key != key
  }

  /** A call's predecessor is the call of its key made before it, or every earlier one of its key has released. */
  ghost predicate Chained(calls: seq<Call>, n: nat)
    requires n < |calls|
  {
    match calls[n].previous
    case Some(p) => p < n && calls[p].key == calls[n].key && NoneBetween(calls, p, n, calls[n].key)
    case None => forall i :: 0 <= i < n && calls[i].key == calls[n].key ==> calls[i].status.Released?
  }

  /** The map holds the last call of a key, exactly while one of its calls has not released. */
  ghost predicate TailsAgree(tails: map<Key, nat>, calls: seq<Call>) {
    (forall key :: key in tails ==>
      tails[key] < |calls| && calls[tails[key]].key == key && NoneBetween(calls, tails[key], |calls|, key)
                                    && !calls[tails[key]].status.Released?)
    && (forall i :: 0 <= i < |calls| && !calls[i].status.Released? ==> calls[i].key in tails)
  }

  /** Once a call has started, every earlier call of its key has released: one at a time, in call order. */
  ghost predicate InOrder(calls: seq<Call>) {
    forall i, j :: 0 <= i < j < |calls| && calls[i].key == calls[j].key && !calls[j].status.Waiting? ==>
      calls[i].status.Released?
  }

  ghost predicate Valid(tails: map<Key, nat>, calls: seq<Call>) {
    (forall n :: 0 <= n < |calls| ==> Chained(calls, n)) && TailsAgree(tails, calls) && InOrder(calls)
  }

  /** A resolved tail means that its call and all earlier calls of the key have released. */
  lemma {:induction false} ResolvedMeansAllReleased(calls: seq<Call>, n: nat)
    requires n < |calls| && Resolved(calls, n) && forall m :: 0 <= m < |calls| ==> Chained(calls, m)
    ensures forall i :: 0 <= i <= n && calls[i].key == calls[n].key ==> calls[i].status.Released?
    decreases n
  {
    if calls[n].previous.Some? {
      assert Chained(calls, n);
      ResolvedMeansAllReleased(calls, calls[n].previous.value);
    } else {
      assert Chained(calls, n);
    }
  }

  /** Whoever may start is the only one of its key that could: nobody of the key runs, and no earlier one waits. */
  lemma MayStartIsNext(calls: seq<Call>, n: nat)
    requires n < |calls| && MayStart(calls, n) && forall m :: 0 <= m < |calls| ==> Chained(calls, m)
    ensures forall i :: 0 <= i < n && calls[i].key == calls[n].key ==> calls[i].status.Released?
  {
    assert Chained(calls, n);
    if calls[n].previous.Some? {
      ResolvedMeansAllReleased(calls, calls[n].previous.value);
    }
  }

  /** Resolution only needs the earlier calls of the key to have released. */
  lemma {:induction false} ReleasedMeansResolved(calls: seq<Call>, n: nat)
    requires n < |calls| && forall m :: 0 <= m < |calls| ==> Chained(calls, m)
    requires forall i :: 0 <= i <= n && calls[i].key == calls[n].key ==> calls[i].status.Released?
    ensures Resolved(calls, n)
    decreases n
  {
    assert Chained(calls, n);
    if calls[n].previous.Some? {
      ReleasedMeansResolved(calls, calls[n].previous.value);
    }
  }

  /** No key is stuck: if a call has not released, one of its key runs or may start. */
  lemma {:induction false} SomebodyGoesOn(tails: map<Key, nat>, calls: seq<Call>, n: nat) returns (m: nat)
    requires Valid(tails, calls) && n < |calls| && !calls[n].status.Released?
    ensures m < |calls| && calls[m].key == calls[n].key && (calls[m].status.Running? || MayStart(calls, m))
    decreases n
  {
    m := n;
    if calls[n].status.Waiting? {
      assert Chained(calls, n);
      if i :| 0 <= i < n && calls[i].key == calls[n].key && !calls[i].status.Released? {
        m := SomebodyGoesOn(tails, calls, i);
      } else if calls[n].previous.Some? {
        ReleasedMeansResolved(calls, calls[n].previous.value);
      }
    }
  }

  class KeyedSerialExecutor {
    var tails: map<Key, nat>
    /** Every call made so far, in order. */
    var calls: seq<Call>

    ghost predicate Ok()
      reads this
    {
      Valid(tails, calls)
    }

    constructor ()
      ensures Ok() && calls == [] && tails == map[]
    {
      tails, calls := map[], [];
    }

    /** The synchronous part of run(): the call queues behind the key's tail and becomes the tail. */
    method Enqueue(key: Key) returns (call: nat)
      requires Ok()
      modifies this
      ensures Ok() && call == |old(calls)| && |calls| == call + 1 && calls[..call] == old(calls)
      ensures calls[call].key == key && calls[call].status.Waiting?
      ensures tails == old(tails)[key := call]
    {
      call := |calls|;
      var previous := if key in tails then Some(tails[key]) else None;
      calls := calls + [Call(key, previous, Waiting)];
      tails := tails[key := call];
      forall n | 0 <= n < |calls| ensures Chained(calls, n) {
        if n < call {
          assert Chained(old(calls), n);
        }
      }
    }

    /** The predecessor has resolved: the operation starts. */
    method Start(call: nat)
      requires Ok() && call < |calls| && MayStart(calls, call)
      modifies `calls
      ensures Ok() && calls == old(calls)[call := old(calls)[call].(status := Running)]
      ensures forall i :: 0 <= i < |calls| && calls[i].key == calls[call].key && calls[i].status.Running? ==> i == call
    {
      MayStartIsNext(calls, call);
      ghost var before := calls;
      calls := calls[call := calls[call].(status := Running)];
      StatusOnly(before, calls);
    }

    /** The finally clause: release, and drop the entry only if nobody queued behind. */
    method Finish(call: nat)
      requires Ok() && call < |calls| && calls[call].status.Running?
      modifies this
      ensures Ok() && calls == old(calls)[call := old(calls)[call].(status := Released)]
      ensures tails == if old(tails)[calls[call].key] == call then old(tails) - {calls[call].key} else old(tails)
      ensures calls[call].key !in tails
        <==> forall i :: 0 <= i < |calls| && calls[i].key == calls[call].key ==> calls[i].status.Released?
    {
      ghost var before := calls;
      var key := calls[call].key;
      calls := calls[call := calls[call].(status := Released)];
      StatusOnly(before, calls);
      if key in tails && tails[key] == call {
        tails := tails - {key};
      }
    }
  }

  /** Chains look at nothing but releases, and those are never taken back. */
  lemma {:induction false} StatusOnly(before: seq<Call>, after: seq<Call>)
    requires |after| == |before| && forall n :: 0 <= n < |before| ==> Chained(before, n)
    requires forall n :: 0 <= n < |before| ==> after[n] == before[n].(status := after[n].status)
                                               && (before[n].status.Released? ==> after[n].status.Released?)
    ensures forall n :: 0 <= n < |after| ==> Chained(after, n)
  {
    forall n | 0 <= n < |after| ensures Chained(after, n) {
      assert Chained(before, n);
    }
  }
}
