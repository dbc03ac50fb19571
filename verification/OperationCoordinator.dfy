/**
 AuthOperationCoordinator.run() on one connection (apps/auth/src/coordination.ts:42-141):
 whatever its queries answer, no lock stays behind on a connection that goes
 back to the pool.
 */
module OperationCoordinator {
  import opened Wrappers
  import opened Utf16
  import opened LockOrder

  /** What one query comes back with, and whether the server had carried it out. */
  datatype Answer =
    | Granted
    | NotHeld
    | Throws(applied: bool)
    | ConnectionLost(applied: bool)

  datatype Outcome =
    | KeyRequired
    | Unavailable(started: bool, completed: bool)
    | OperationThrew
    | Completed

  /** What the operation does, and whether the connection breaks meanwhile. */
  datatype Work = Work(throws: bool, breaks: bool)

  class Session {
    /** The session's locks as the server knows them. */
    var held: set<Key>
    var shared: bool
    /** connectionError is set. */
    var lost: bool
    var discarded: bool
    var queries: nat

    constructor ()
      ensures held == {} && !shared && !lost && !discarded
    {
      held, shared, lost, discarded, queries := {}, false, false, false, 0;
    }

    /** guard(): the answer, or a rejection once the connection has failed. */
    method Ask(answers: nat -> Answer) returns (answer: Answer)
      modifies `lost, `queries
      ensures old(lost) ==> answer == Throws(false)
      ensures !old(lost) ==> answer == answers(old(queries))
      ensures lost == (old(lost) || answer.ConnectionLost?)
    {
      if lost {
        return Throws(false);
      }
      answer := answers(queries);
      queries := queries + 1;
      if answer.ConnectionLost? {
        lost := true;
      }
    }

    predicate Carried(answer: Answer) {
      answer.Granted? || (answer.Throws? && answer.applied) || (answer.ConnectionLost? && answer.applied)
    }

    method LockShared(answers: nat -> Answer) returns (ok: bool)
      modifies `shared, `lost, `queries
      ensures ok ==> shared && lost == old(lost)
    {
      var answer := Ask(answers);
      if Carried(answer) {
        shared := true;
      }
      ok := answer.Granted?;
    }

    method LockKey(key: Key, answers: nat -> Answer) returns (ok: bool)
      modifies `held, `lost, `queries
      ensures ok ==> held == old(held) + {key} && lost == old(lost)
    {
      var answer := Ask(answers);
      if Carried(answer) {
        held := held + {key};
      }
      ok := answer.Granted?;
    }

    /** True only when the server says that it held the lock and released it. */
    method UnlockKey(key: Key, answers: nat -> Answer) returns (ok: bool)
      modifies `held, `lost, `queries
      ensures ok ==> held == old(held) - {key} && lost == old(lost)
      ensures lost && !old(lost) ==> !ok
    {
      var answer := Ask(answers);
      if Carried(answer) {
        held := held - {key};
      }
      ok := answer.Granted?;
    }

    method UnlockShared(answers: nat -> Answer) returns (ok: bool)
      modifies `shared, `lost, `queries
      ensures ok ==> !shared && lost == old(lost)
      ensures lost && !old(lost) ==> !ok
    {
      var answer := Ask(answers);
      if Carried(answer) {
        shared := false;
      }
      ok := answer.Granted?;
    }

    /** Takes the shared mutation lock and then every key; stops at the first query that throws. */
    method AcquireAll(keys: seq<Key>, answers: nat -> Answer) returns (sharedHeld: bool, locked: nat, ok: bool)
      requires Increasing(keys) && held == {} && !shared
      modifies `held, `shared, `lost, `queries
      ensures locked <= |keys|
      ensures ok ==> sharedHeld && locked == |keys| && shared && held == (set k | k in keys) && lost == old(lost)
    {
      locked := 0;
      sharedHeld := LockShared(answers);
      ok := sharedHeld;
      if !ok {
        return;
      }
      while locked < |keys|
        invariant locked <= |keys| && shared && lost == old(lost)
        invariant held == set k | k in keys[..locked]
      {
        ok := LockKey(keys[locked], answers);
        if !ok {
          return;
        }
        assert keys[..locked + 1] == keys[..locked] + [keys[locked]];
        locked := locked + 1;
      }
      assert keys[..locked] == keys;
    }

    /** The finally clause: the keys in reverse, then the shared lock; nothing is asked of a lost connection. */
    method ReleaseAll(keys: seq<Key>, locked: nat, sharedHeld: bool, answers: nat -> Answer) returns (safe: bool)
      requires Increasing(keys) && locked <= |keys|
      modifies `held, `shared, `lost, `queries
      ensures safe && !old(lost) ==>
        !lost && held == old(held) - (set k | k in keys[..locked]) && (sharedHeld ==> !shared)
      ensures safe && !old(lost) && !sharedHeld ==> shared == old(shared)
    {
      safe := true;
      if lost {
        return;
      }
      var n := locked;
      assert keys[locked..locked] == [];
      while n > 0
        invariant 0 <= n <= locked
        invariant shared == old(shared)
        invariant safe ==> !lost && held == old(held) - set k | k in keys[n..locked]
      {
        n := n - 1;
        var ok := UnlockKey(keys[n], answers);
        if !ok {
          safe := false;
        }
        assert keys[n..locked] == [keys[n]] + keys[n + 1..locked];
      }
      assert keys[0..locked] == keys[..locked];
      if !lost && sharedHeld {
        var ok := UnlockShared(answers);
        if !ok {
          safe := false;
        }
      }
    }

    /** release(error): the connection is destroyed, and the server drops whatever it held. */
    method Destroy()
      modifies `held, `shared, `discarded
      ensures discarded && held == {} && !shared
    {
      held, shared, discarded := {}, false, true;
    }

    /**
     run() once a connection was obtained. On every path the session ends without
     locks: released one by one, or destroyed with the connection. The operation
     runs only under all of its keys, and its result is reported only from a
     connection that came back clean.
     */
    method Run(lockKeys: seq<Key>, answers: nat -> Answer, work: Work)
      returns (outcome: Outcome, ghost heldAtWork: Option<set<Key>>)
      requires held == {} && !shared && !lost && !discarded
      modifies this
      ensures held == {} && !shared
      ensures outcome.KeyRequired? <==> |lockKeys| == 0
      ensures discarded <==> outcome.Unavailable?
      ensures lost ==> discarded
      ensures heldAtWork.Some? ==> heldAtWork.value == set k | k in lockKeys
      ensures outcome.Completed? ==> heldAtWork.Some? && !work.throws && !work.breaks
      ensures outcome.OperationThrew? ==> heldAtWork.Some? && work.throws
      ensures outcome.Unavailable? ==>
        outcome.started == heldAtWork.Some? && outcome.completed == (outcome.started && !work.throws)
    {
      var keys := SortedKeys(lockKeys);
      KeysAreIncreasing(lockKeys);
      heldAtWork := None;
      if |keys| == 0 {
        return KeyRequired, None;
      }
      var sharedHeld, locked, ok := AcquireAll(keys, answers);
      var unsafe := !ok;
      if ok {
        heldAtWork := Some(held);
        assert held == set k | k in lockKeys;
        if work.breaks {
          lost, unsafe := true, true;
        }
      }
      ghost var before := held;
      var brokenBefore := lost;
      var safe := ReleaseAll(keys, locked, sharedHeld, answers);
      if unsafe || !safe {
        Destroy();
        return Unavailable(ok, ok && !work.throws), heldAtWork;
      }
      assert keys[..locked] == keys;
      outcome := if work.throws then OperationThrew else Completed;
    }
  }
}
