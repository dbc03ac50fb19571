/**
 Clients of AuthOperationCoordinator and the advisory locks they hold
 (apps/auth/src/coordination.ts:42-141): every client takes its distinct keys in
 increasing order. A lock is named by a 64-bit hash of its key, so distinct keys
 may name one lock; the clients can block each other for ever exactly when the
 keys in use cross: two of them name two locks in one order and two of them in
 the other.
 */
module LockOrder {
  import opened Wrappers
  import opened Utf16

  type Key = Text

  // ----- The keys of one client -----

  predicate Increasing(keys: seq<Key>) {
    forall i, j :: 0 <= i < j < |keys| ==> Less(keys[i], keys[j])
  }

  function InsertKey(key: Key, keys: seq<Key>): (r: seq<Key>) {
    if |keys| == 0 || Less(key, keys[0]) then [key] + keys
    else if key == keys[0] then keys
    else [keys[0]] + InsertKey(key, keys[1..])
  }

  /** [...new Set(lockKeys)].sort(). */
  function SortedKeys(lockKeys: seq<Key>): (r: seq<Key>) {
    if |lockKeys| == 0 then [] else InsertKey(lockKeys[0], SortedKeys(lockKeys[1..]))
  }

  lemma {:induction false} InsertKeepsOrder(key: Key, keys: seq<Key>)
    requires Increasing(keys)
    ensures Increasing(InsertKey(key, keys))
    ensures forall x :: x in InsertKey(key, keys) <==> x == key || x in keys
  {
    if |keys| > 0 {
      LessIsTotal(key, keys[0]);
      assert keys == [keys[0]] + keys[1..];
      if Less(key, keys[0]) {
        forall i | 0 < i < |keys| ensures Less(key, keys[i]) {
          LessIsTransitive(key, keys[0], keys[i]);
        }
      } else if key != keys[0] {
        InsertKeepsOrder(key, keys[1..]);
        var rest := InsertKey(key, keys[1..]);
        forall i | 0 <= i < |rest| ensures Less(keys[0], rest[i]) {
          assert rest[i] in rest;
        }
      }
    }
  }

  lemma {:induction false} KeysAreIncreasing(lockKeys: seq<Key>)
    ensures Increasing(SortedKeys(lockKeys))
    ensures forall x :: x in SortedKeys(lockKeys) <==> x in lockKeys
    ensures |SortedKeys(lockKeys)| == 0 <==> |lockKeys| == 0
  {
    if |lockKeys| > 0 {
      KeysAreIncreasing(lockKeys[1..]);
      InsertKeepsOrder(lockKeys[0], SortedKeys(lockKeys[1..]));
      assert lockKeys == [lockKeys[0]] + lockKeys[1..];
    }
  }

  // ----- Clients -----

  datatype Phase = Acquiring | Operating | Releasing | Finished

  /** Holds keys[..held]. */
  datatype Client = Client(keys: seq<Key>, held: nat, phase: Phase)

  type World = seq<Client>

  datatype Action =
    | Arrive(lockKeys: seq<Key>)
    | Acquire(client: nat)
    | Operate(client: nat)
    | Return(client: nat)
    | Unlock(client: nat)
    | Discard(client: nat)  // the connection is destroyed and the server drops its locks

  predicate Wants(c: Client) {
    c.phase.Acquiring? && c.held < |c.keys|
  }

  ghost predicate Holds(w: World, d: nat, lock: int, hash: Key -> int)
    requires d < |w|
  {
    exists i :: 0 <= i < w[d].held && i < |w[d].keys| && hash(w[d].keys[i]) == lock
  }

  /** Client c waits for a lock that client d holds. */
  ghost predicate WaitsFor(w: World, c: nat, d: nat, hash: Key -> int)
    requires c < |w| && d < |w|
  {
    c != d && Wants(w[c]) && Holds(w, d, hash(w[c].keys[w[c].held]), hash)
  }

  ghost predicate Blocked(w: World, c: nat, hash: Key -> int)
    requires c < |w|
  {
    exists d: nat :: d < |w| && WaitsFor(w, c, d, hash)
  }

  ghost function Apply(w: World, action: Action, hash: Key -> int): (next: World) {
    match action
    case Arrive(lockKeys) => if |lockKeys| == 0 then w else w + [Client(SortedKeys(lockKeys), 0, Acquiring)]
    case Acquire(c) =>
      if c < |w| && Wants(w[c]) && !Blocked(w, c, hash) then w[c := w[c].(held := w[c].held + 1)] else w
    case Operate(c) =>
      if c < |w| && w[c].phase.Acquiring? && w[c].held == |w[c].keys| then w[c := w[c].(phase := Operating)] else w
    case Return(c) => if c < |w| && w[c].phase.Operating? then w[c := w[c].(phase := Releasing)] else w
    case Unlock(c) =>
      if c < |w| && w[c].phase.Releasing? then
        if w[c].held > 1 then w[c := w[c].(held := w[c].held - 1)] else w[c := w[c].(held := 0, phase := Finished)]
      else w
    case Discard(c) => if c < |w| then w[c := w[c].(held := 0, phase := Finished)] else w
  }

  ghost function Execute(w: World, actions: seq<Action>, hash: Key -> int): (next: World)
    decreases |actions|
  {
    if |actions| == 0 then w else Execute(Apply(w, actions[0], hash), actions[1..], hash)
  }

  ghost predicate Proper(c: Client) {
    Increasing(c.keys) && c.held <= |c.keys| && |c.keys| > 0 && (c.phase.Finished? ==> c.held == 0)
  }

  /** No lock has two holders. */
  ghost predicate Exclusive(w: World, hash: Key -> int) {
    forall c: nat, d: nat, lock :: c < |w| && d < |w| && c != d && Holds(w, c, lock, hash) ==> !Holds(w, d, lock, hash)
  }

  ghost predicate Inv(w: World, hash: Key -> int) {
    (forall c :: 0 <= c < |w| ==> Proper(w[c])) && Exclusive(w, hash)
  }

  lemma {:induction false} AcquireKeeps(w: World, c: nat, hash: Key -> int)
    requires Inv(w, hash) && c < |w| && Wants(w[c]) && !Blocked(w, c, hash)
    ensures Inv(w[c := w[c].(held := w[c].held + 1)], hash)
  {
    var next := w[c := w[c].(held := w[c].held + 1)];
    var taken := hash(w[c].keys[w[c].held]);
    forall d: nat, lock | d < |w|
      ensures Holds(next, d, lock, hash) <==> Holds(w, d, lock, hash) || (d == c && lock == taken) {
      if d == c && lock == taken {
        assert hash(next[c].keys[w[c].held]) == taken;
      }
      if Holds(w, d, lock, hash) {
        var i :| 0 <= i < w[d].held && i < |w[d].keys| && hash(w[d].keys[i]) == lock;
        assert hash(next[d].keys[i]) == lock;
      }
    }
    forall d: nat | d < |w| && d != c ensures !Holds(w, d, taken, hash) {
      assert !WaitsFor(w, c, d, hash);
    }
    hide Holds;
    assert Exclusive(next, hash);
  }

  /** Whoever holds no more than before keeps the locks exclusive. */
  lemma {:induction false} HoldingLess(w: World, c: nat, client: Client, hash: Key -> int)
    requires Inv(w, hash) && c < |w| && Proper(client) && client.keys == w[c].keys && client.held <= w[c].held
    ensures Inv(w[c := client], hash)
  {
    var next := w[c := client];
    forall d: nat, lock | d < |w| && Holds(next, d, lock, hash) ensures Holds(w, d, lock, hash) {
      var i :| 0 <= i < next[d].held && i < |next[d].keys| && hash(next[d].keys[i]) == lock;
      assert hash(w[d].keys[i]) == lock;
    }
  }

  lemma {:induction false} Arrived(w: World, lockKeys: seq<Key>, hash: Key -> int)
    requires Inv(w, hash) && |lockKeys| > 0
    ensures Inv(w + [Client(SortedKeys(lockKeys), 0, Acquiring)], hash)
  {
    var next := w + [Client(SortedKeys(lockKeys), 0, Acquiring)];
    KeysAreIncreasing(lockKeys);
    assert lockKeys[0] in SortedKeys(lockKeys);
    forall d: nat, lock | d < |next| && Holds(next, d, lock, hash) ensures d < |w| && Holds(w, d, lock, hash) {
      var i :| 0 <= i < next[d].held && i < |next[d].keys| && hash(next[d].keys[i]) == lock;
      assert d < |w| && hash(w[d].keys[i]) == lock;
    }
  }

  lemma {:induction false} StepKeepsInv(w: World, action: Action, hash: Key -> int)
    requires Inv(w, hash)
    ensures Inv(Apply(w, action, hash), hash)
  {
    hide Exclusive, Increasing, Holds, Blocked;
    match action
    case Arrive(lockKeys) => if |lockKeys| > 0 { Arrived(w, lockKeys, hash); }
    case Acquire(c) => if c < |w| && Wants(w[c]) && !Blocked(w, c, hash) { AcquireKeeps(w, c, hash); }
    case Operate(c) => if c < |w| { HoldingLess(w, c, Apply(w, action, hash)[c], hash); }
    case Return(c) => if c < |w| { HoldingLess(w, c, Apply(w, action, hash)[c], hash); }
    case Unlock(c) => if c < |w| { HoldingLess(w, c, Apply(w, action, hash)[c], hash); }
    case Discard(c) => if c < |w| { HoldingLess(w, c, Apply(w, action, hash)[c], hash); }
  }

  lemma {:induction false} RunsKeepInv(w: World, actions: seq<Action>, hash: Key -> int)
    requires Inv(w, hash)
    ensures Inv(Execute(w, actions, hash), hash)
    decreases |actions|
  {
    hide Inv, Apply;
    if |actions| > 0 {
      StepKeepsInv(w, actions[0], hash);
      RunsKeepInv(Apply(w, actions[0], hash), actions[1..], hash);
    }
  }

  /** The keys that clients bring. */
  function KeysOf(actions: seq<Action>): (keys: set<Key>) {
    if |actions| == 0 then {}
    else (if actions[0].Arrive? then set x | x in actions[0].lockKeys else {}) + KeysOf(actions[1..])
  }

  ghost predicate KeysWithin(w: World, keys: set<Key>) {
    forall c, i :: 0 <= c < |w| && 0 <= i < |w[c].keys| ==> w[c].keys[i] in keys
  }

  lemma {:induction false} StepKeepsKeys(w: World, action: Action, keys: set<Key>, hash: Key -> int)
    requires KeysWithin(w, keys) && KeysOf([action]) <= keys
    ensures KeysWithin(Apply(w, action, hash), keys)
  {
    if action.Arrive? && |action.lockKeys| > 0 {
      KeysAreIncreasing(action.lockKeys);
      var sorted := SortedKeys(action.lockKeys);
      forall i | 0 <= i < |sorted| ensures sorted[i] in keys {
        assert sorted[i] in action.lockKeys;
        assert sorted[i] in KeysOf([action]);
      }
    }
  }

  lemma {:induction false} RunsKeepKeys(w: World, actions: seq<Action>, keys: set<Key>, hash: Key -> int)
    requires KeysWithin(w, keys) && KeysOf(actions) <= keys
    ensures KeysWithin(Execute(w, actions, hash), keys)
    decreases |actions|
  {
    hide KeysWithin, Apply;
    if |actions| > 0 {
      assert KeysOf([actions[0]][1..]) == {};
      StepKeepsKeys(w, actions[0], keys, hash);
      RunsKeepKeys(Apply(w, actions[0], hash), actions[1..], keys, hash);
    }
  }

  // ----- The order of the locks -----

  ghost predicate Crosses(a: Key, b: Key, c: Key, d: Key, hash: Key -> int) {
    Less(a, b) && Less(c, d) && hash(a) == hash(d) && hash(b) == hash(c) && hash(a) != hash(b)
  }

  /** Two locks that the keys name in both orders. */
  ghost predicate Crossing(keys: set<Key>, hash: Key -> int) {
    exists a, b, c, d :: a in keys && b in keys && c in keys && d in keys && Crosses(a, b, c, d, hash)
  }

  ghost predicate Ordered(a: Key, b: Key, l: int, m: int, hash: Key -> int) {
    Less(a, b) && hash(a) == l && hash(b) == m
  }

  /** Some key of lock l comes before some key of another lock m. */
  ghost predicate Below(l: int, m: int, keys: set<Key>, hash: Key -> int) {
    l != m && exists a, b :: a in keys && b in keys && Ordered(a, b, l, m, hash)
  }

  /** Keys that do not cross order their locks, even where many keys share one. */
  lemma {:induction false} BelowIsTransitive(l: int, m: int, n: int, keys: set<Key>, hash: Key -> int)
    requires !Crossing(keys, hash) && Below(l, m, keys, hash) && Below(m, n, keys, hash)
    ensures Below(l, n, keys, hash)
  {
    var a, b :| a in keys && b in keys && Ordered(a, b, l, m, hash);
    var c, d :| c in keys && d in keys && Ordered(c, d, m, n, hash);
    hide Less;
    assert !Crosses(a, b, c, d, hash) && !Crosses(a, b, c, a, hash);
    LessIsTotal(a, d);
    if Less(d, a) {
      LessIsTransitive(c, d, a);
      assert false;
    }
    assert Ordered(a, d, l, n, hash);
  }

  // ----- Nobody waits in a circle -----

  function NextKey(c: Client): (key: Key)
    requires Wants(c)
  {
    c.keys[c.held]
  }

  /** A waiter's holder, if it is blocked itself, waits for a greater lock; it never waits for one it holds. */
  lemma {:induction false} WaitingGoesUp(w: World, c: nat, d: nat, keys: set<Key>, hash: Key -> int)
    requires Inv(w, hash) && KeysWithin(w, keys) && c < |w| && d < |w|
    requires WaitsFor(w, c, d, hash) && Blocked(w, d, hash)
    ensures Below(hash(NextKey(w[c])), hash(NextKey(w[d])), keys, hash)
  {
    var l, m := hash(NextKey(w[c])), hash(NextKey(w[d]));
    var i :| 0 <= i < w[d].held && i < |w[d].keys| && hash(w[d].keys[i]) == l;
    hide Less;
    assert Ordered(w[d].keys[i], NextKey(w[d]), l, m, hash);
  }

  ghost predicate Chain(w: World, path: seq<nat>, hash: Key -> int) {
    (forall i :: 0 <= i < |path| ==> path[i] < |w|)
    && forall i :: 0 <= i < |path| - 1 ==> WaitsFor(w, path[i], path[i + 1], hash)
  }

  lemma {:induction false} ChainGoesUp(w: World, path: seq<nat>, n: nat, keys: set<Key>, hash: Key -> int)
    requires Inv(w, hash) && KeysWithin(w, keys) && !Crossing(keys, hash)
    requires Chain(w, path, hash) && 0 < n < |path| && Blocked(w, path[n], hash)
    ensures Wants(w[path[0]]) && Below(hash(NextKey(w[path[0]])), hash(NextKey(w[path[n]])), keys, hash)
  {
    hide Inv, Below, Crossing, KeysWithin;
    assert WaitsFor(w, path[n - 1], path[n - 1 + 1], hash);
    WaitingGoesUp(w, path[n - 1], path[n], keys, hash);
    if n > 1 {
      ChainGoesUp(w, path, n - 1, keys, hash);
      BelowIsTransitive(
        hash(NextKey(w[path[0]])), hash(NextKey(w[path[n - 1]])), hash(NextKey(w[path[n]])), keys, hash);
    }
  }

  ghost predicate IsCircle(w: World, path: seq<nat>, hash: Key -> int) {
    |path| > 1 && Chain(w, path, hash) && path[0] == path[|path| - 1]
  }

  /** Some clients wait for each other in a circle, whatever the others do. */
  ghost predicate Circular(w: World, hash: Key -> int) {
    exists path :: IsCircle(w, path, hash)
  }

  /** The wait-for graph has no cycle while the keys in use do not cross. */
  lemma {:induction false} NoCycle(w: World, keys: set<Key>, hash: Key -> int)
    requires Inv(w, hash) && KeysWithin(w, keys) && !Crossing(keys, hash)
    ensures !Circular(w, hash)
  {
    if path :| IsCircle(w, path, hash) {
      assert WaitsFor(w, path[0], path[0 + 1], hash);
      assert Blocked(w, path[0], hash);
      ChainGoesUp(w, path, |path| - 1, keys, hash);
    }
  }

  ghost function Above(w: World, c: nat, keys: set<Key>, hash: Key -> int): (r: set<nat>)
    requires c < |w| && Wants(w[c])
  {
    set d: nat | d < |w| && Wants(w[d]) && Below(hash(NextKey(w[c])), hash(NextKey(w[d])), keys, hash)
  }

  /** Following the holders from a blocked client ends at one that is not blocked and not finished. */
  lemma {:induction false} SomebodyGoesOn(w: World, c: nat, keys: set<Key>, hash: Key -> int) returns (d: nat)
    requires Inv(w, hash) && KeysWithin(w, keys) && !Crossing(keys, hash) && c < |w| && !w[c].phase.Finished?
    ensures d < |w| && !w[d].phase.Finished? && !Blocked(w, d, hash)
    decreases if Blocked(w, c, hash) then Above(w, c, keys, hash) else {}, if Blocked(w, c, hash) then 1 else 0
  {
    hide Above, Below, Crossing, KeysWithin;
    d := c;
    if Blocked(w, c, hash) {
      var e: nat :| e < |w| && WaitsFor(w, c, e, hash);
      HolderIsAtWork(w, c, e, hash);
      hide Inv;
      if Blocked(w, e, hash) {
        WaitingGoesUp(w, c, e, keys, hash);
        AboveShrinks(w, c, e, keys, hash);
      }
      d := SomebodyGoesOn(w, e, keys, hash);
    }
  }

  lemma {:induction false} HolderIsAtWork(w: World, c: nat, e: nat, hash: Key -> int)
    requires Inv(w, hash) && c < |w| && e < |w| && WaitsFor(w, c, e, hash)
    ensures !w[e].phase.Finished?
  {
  }

  lemma {:induction false} AboveShrinks(w: World, c: nat, e: nat, keys: set<Key>, hash: Key -> int)
    requires c < |w| && e < |w| && Wants(w[c]) && Wants(w[e]) && !Crossing(keys, hash)
    requires Below(hash(NextKey(w[c])), hash(NextKey(w[e])), keys, hash)
    ensures Above(w, e, keys, hash) < Above(w, c, keys, hash)
  {
    hide Crossing;
    forall d | d in Above(w, e, keys, hash) ensures d in Above(w, c, keys, hash) {
      BelowIsTransitive(hash(NextKey(w[c])), hash(NextKey(w[e])), hash(NextKey(w[d])), keys, hash);
    }
    assert e in Above(w, c, keys, hash) && e !in Above(w, e, keys, hash);
  }

  /** Nobody can go on, though somebody is not finished. */
  ghost predicate Deadlocked(w: World, hash: Key -> int) {
    (exists c: nat :: c < |w| && !w[c].phase.Finished?)
    && forall d: nat :: d < |w| && !w[d].phase.Finished? ==> Blocked(w, d, hash)
  }

  /** Whatever the clients do with keys that do not cross, they never deadlock, all together or some of them. */
  lemma {:induction false} NoDeadlock(actions: seq<Action>, keys: set<Key>, hash: Key -> int)
    requires KeysOf(actions) <= keys && !Crossing(keys, hash)
    ensures !Deadlocked(Execute([], actions, hash), hash) && !Circular(Execute([], actions, hash), hash)
  {
    RunsKeepInv([], actions, hash);
    RunsKeepKeys([], actions, keys, hash);
    var w := Execute([], actions, hash);
    hide Inv, KeysWithin, Crossing, Execute, Blocked, KeysOf;
    NoCycle(w, keys, hash);
    if c: nat :| c < |w| && !w[c].phase.Finished? {
      var d := SomebodyGoesOn(w, c, keys, hash);
    }
  }

  ghost predicate Reaches(actions: seq<Action>, keys: set<Key>, w: World, hash: Key -> int) {
    KeysOf(actions) <= keys && Execute([], actions, hash) == w
  }

  /** Clients that use only the given keys can come to this state. */
  ghost predicate Reachable(w: World, keys: set<Key>, hash: Key -> int) {
    exists actions :: Reaches(actions, keys, w, hash)
  }

  /** The exact condition, for a hash that may collide in any way. */
  lemma {:induction false} DeadlockIffCrossing(keys: set<Key>, hash: Key -> int)
    ensures (exists w :: Reachable(w, keys, hash) && Deadlocked(w, hash)) <==> Crossing(keys, hash)
    ensures (exists w :: Reachable(w, keys, hash) && Circular(w, hash)) <==> Crossing(keys, hash)
  {
    hide Deadlocked, Circular, Execute, KeysOf, Crosses;
    if Crossing(keys, hash) {
      var a, b, c, d :| a in keys && b in keys && c in keys && d in keys && Crosses(a, b, c, d, hash);
      var actions := CrossedRun(a, b, c, d);
      hide Crossing;
      CollisionsDeadlock(a, b, c, d, hash);
      assert Reaches(actions, keys, Execute([], actions, hash), hash);
    } else {
      forall w | Reachable(w, keys, hash) ensures !Deadlocked(w, hash) && !Circular(w, hash) {
        var actions :| Reaches(actions, keys, w, hash);
        NoDeadlock(actions, keys, hash);
      }
    }
  }

  function CrossedRun(a: Key, b: Key, c: Key, d: Key): (actions: seq<Action>) {
    [Arrive([a, b]), Arrive([c, d]), Acquire(0), Acquire(1)]
  }

  /** Keys in increasing order need not name locks in one order. */
  lemma {:induction false} CollisionsDeadlock(a: Key, b: Key, c: Key, d: Key, hash: Key -> int)
    requires Crosses(a, b, c, d, hash)
    ensures KeysOf(CrossedRun(a, b, c, d)) == {a, b, c, d}
    ensures Deadlocked(Execute([], CrossedRun(a, b, c, d), hash), hash)
    ensures Circular(Execute([], CrossedRun(a, b, c, d), hash), hash)
  {
    TwoKeys(a, b);
    TwoKeys(c, d);
    hide SortedKeys, Less, Execute, Deadlocked, Circular, Blocked;
    var actions := CrossedRun(a, b, c, d);
    var both := [Client([a, b], 0, Acquiring), Client([c, d], 0, Acquiring)];
    assert Apply(Apply([], actions[0], hash), actions[1], hash) == both;
    FourSteps(actions, hash);
    CrossedKeys(a, b, c, d);
    BothAcquire(a, b, c, d, hash);
  }

  lemma {:induction false} CrossedKeys(a: Key, b: Key, c: Key, d: Key)
    ensures KeysOf(CrossedRun(a, b, c, d)) == {a, b, c, d}
  {
    var actions := CrossedRun(a, b, c, d);
    assert actions[1..][1..] == actions[2..] && actions[2..][1..] == actions[3..] && actions[3..][1..] == [];
    assert KeysOf(actions[3..]) == {} && KeysOf(actions[2..]) == {};
  }

  lemma BothAcquire(a: Key, b: Key, c: Key, d: Key, hash: Key -> int)
    requires hash(a) == hash(d) && hash(b) == hash(c) && hash(a) != hash(b)
    ensures var both := [Client([a, b], 0, Acquiring), Client([c, d], 0, Acquiring)];
            var stuck := Apply(Apply(both, Acquire(0), hash), Acquire(1), hash);
            Deadlocked(stuck, hash) && Circular(stuck, hash)
  {
    var both := [Client([a, b], 0, Acquiring), Client([c, d], 0, Acquiring)];
    var one := [Client([a, b], 1, Acquiring), Client([c, d], 0, Acquiring)];
    var stuck := [Client([a, b], 1, Acquiring), Client([c, d], 1, Acquiring)];
    assert !Blocked(both, 0, hash) && Apply(both, Acquire(0), hash) == one;
    assert !Blocked(one, 1, hash) && Apply(one, Acquire(1), hash) == stuck;
    assert hash(stuck[1].keys[0]) == hash(stuck[0].keys[1]) && WaitsFor(stuck, 0, 1, hash);
    assert hash(stuck[0].keys[0]) == hash(stuck[1].keys[1]) && WaitsFor(stuck, 1, 0, hash);
    hide Holds;
    assert Blocked(stuck, 0, hash) && Blocked(stuck, 1, hash) && !stuck[0].phase.Finished?;
    hide WaitsFor, Blocked;
    assert Chain(stuck, [0, 1, 0], hash);
    assert IsCircle(stuck, [0, 1, 0], hash);
  }

  lemma TwoKeys(a: Key, b: Key)
    requires Less(a, b)
    ensures SortedKeys([a, b]) == [a, b]
  {
    assert SortedKeys([a, b][1..][1..]) == [];
    assert SortedKeys([a, b][1..]) == [b];
  }

  lemma FourSteps(actions: seq<Action>, hash: Key -> int)
    requires |actions| == 4
    ensures Execute([], actions, hash)
         == Apply(Apply(Apply(Apply([], actions[0], hash), actions[1], hash), actions[2], hash), actions[3], hash)
  {
    hide Apply;
    var one := Apply([], actions[0], hash);
    var two := Apply(one, actions[1], hash);
    var three := Apply(two, actions[2], hash);
    var four := Apply(three, actions[3], hash);
    assert actions[1..][1..] == actions[2..] && actions[2..][1..] == actions[3..] && actions[3..][1..] == [];
    assert Execute(four, [], hash) == four;
    assert Execute(three, actions[3..], hash) == four;
    assert Execute(two, actions[2..], hash) == four;
    assert Execute(one, actions[1..], hash) == four;
  }
}
