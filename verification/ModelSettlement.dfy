/**
 Charges of model calls: a durable local journal, a ledger of charges, and the
 single flush that moves outcomes from one to the other. Every write and every
 removal is its own step, and the host may crash between any two of them
 (apps/agent/src/model-budget.ts:54-177, apps/agent/src/model-settlement-journal.ts:44-79).
 */
module ModelSettlement {
  import opened Wrappers

  type Id = string

  /** What became of a call: its known cost, or nothing that could be charged. */
  datatype Settlement = Known(amount: nat) | Unknown

  datatype Charge = Reserved | Settled(amount: nat) | Absorbed

  type Journal = map<Id, Settlement>

  type Ledger = map<Id, Charge>

  /** The journal keeps the first outcome; two different known costs are refused. */
  function Keep(journal: Journal, id: Id, outcome: Settlement): (r: Option<Journal>) {
    if id !in journal then Some(journal[id := outcome])
    else if outcome.Known? && journal[id].Known? && outcome != journal[id] then None
    else Some(journal)
  }

  /** The ledger's conditional update; None when it matches no row. */
  function Project(charge: Charge, outcome: Settlement): (r: Option<Charge>) {
    match (charge, outcome)
    case (Reserved, Unknown) => Some(Absorbed)
    case (Reserved, Known(amount)) => Some(Settled(amount))
    case (Settled(amount), Known(other)) => if amount == other then Some(charge) else None
    case _ => Some(charge)
  }

  function Write(ledger: Ledger, id: Id, outcome: Settlement): (r: Option<Ledger>) {
    if id !in ledger then None
    else
      match Project(ledger[id], outcome)
      case None => None
      case Some(charge) => Some(ledger[id := charge])
  }

  predicate Tells(charge: Charge, outcome: Settlement) {
    match charge
    case Reserved => false
    case Settled(amount) => outcome == Known(amount)
    case Absorbed => outcome.Unknown?
  }

  // ----- The protocol -----

  datatype Flush =
    | Writing(left: seq<Id>, written: bool)  // rows still to move; has left[0] reached the ledger?
    | Drained                                // nothing was pending; the promise is not cleared yet
    | Broken                                 // threw; the promise is not cleared yet

  /**
   `first` is history: the first outcome recorded for each charge. `waiting` are
   the charges whose callers share the running flush, `late` those whose callers
   joined it after it had read an empty journal. `swept` is what recovery selected.
   */
  datatype State = State(
    journal: Journal,
    ledger: Ledger,
    flush: Option<Flush>,
    waiting: set<Id>,
    late: set<Id>,
    swept: set<Id>,
    ghost first: map<Id, Settlement>)

  datatype Action =
    | Begin(id: Id)
    | Record(id: Id, outcome: Settlement, order: seq<Id>)  // settle or absorb: record, then reconcile
    | Reconcile(order: seq<Id>)
    | WriteLedger
    | Remove(order: seq<Id>)
    | DatabaseFails
    | ClearPromise
    | SelectReserved
    | Sweep(order: seq<Id>)                               // recovery records what it selected, then reconciles
    | Crash

  /** The rows in the order in which they are read. */
  ghost predicate Lists(order: seq<Id>, journal: Journal) {
    (forall id :: id in order <==> id in journal) && forall i, j :: 0 <= i < j < |order| ==> order[i] != order[j]
  }

  function ReadPending(order: seq<Id>): (r: Flush) {
    if |order| == 0 then Drained else Writing(order, false)
  }

  /** reconcile(): start a flush, or share the running one. */
  ghost function Join(s: State, ids: set<Id>, order: seq<Id>): (next: State) {
    match s.flush
    case None => if Lists(order, s.journal) then s.(flush := Some(ReadPending(order)), waiting := ids) else s
    case Some(Writing(_, _)) => s.(waiting := s.waiting + ids)
    case Some(_) => s.(late := s.late + ids)
  }

  ghost function Noted(first: map<Id, Settlement>, id: Id, outcome: Settlement): (r: map<Id, Settlement>) {
    if id in first then first else first[id := outcome]
  }

  function SweepJournal(journal: Journal, ids: set<Id>): (r: Journal) {
    map id | id in journal.Keys + ids :: if id in journal then journal[id] else Unknown
  }

  ghost function SweepFirst(first: map<Id, Settlement>, ids: set<Id>): (r: map<Id, Settlement>) {
    map id | id in first.Keys + ids :: if id in first then first[id] else Unknown
  }

  ghost function Apply(s: State, action: Action): (next: State) {
    match action
    case Begin(id) =>
      if id in s.ledger || id in s.first then s else s.(ledger := s.ledger[id := Reserved])
    case Record(id, outcome, order) =>
      (match Keep(s.journal, id, outcome)
       case None => s
       case Some(journal) => Join(s.(journal := journal, first := Noted(s.first, id, outcome)), {id}, order))
    case Reconcile(order) => Join(s, {}, order)
    case WriteLedger =>
      if s.flush.Some? && s.flush.value.Writing? && !s.flush.value.written
         && |s.flush.value.left| > 0 && s.flush.value.left[0] in s.journal then
        var id := s.flush.value.left[0];
        match Write(s.ledger, id, s.journal[id])
        case None => s.(journal := s.journal - {id}, flush := Some(Broken))
        case Some(ledger) => s.(ledger := ledger, flush := Some(Writing(s.flush.value.left, true)))
      else s
    case Remove(order) =>
      if s.flush.Some? && s.flush.value.Writing? && s.flush.value.written && |s.flush.value.left| > 0 then
        var left := s.flush.value.left;
        var removed := s.(journal := s.journal - {left[0]});
        if |left| > 1 then removed.(flush := Some(Writing(left[1..], false)))
        else if Lists(order, removed.journal) then removed.(flush := Some(ReadPending(order)))
        else s
      else s
    case DatabaseFails => if s.flush.Some? && s.flush.value.Writing? then s.(flush := Some(Broken)) else s
    case ClearPromise =>
      if s.flush.Some? && !s.flush.value.Writing? then s.(flush := None, waiting := {}, late := {}) else s
    case SelectReserved => s.(swept := set id | id in s.ledger && s.ledger[id].Reserved?)
    case Sweep(order) =>
      Join(s.(journal := SweepJournal(s.journal, s.swept), first := SweepFirst(s.first, s.swept)), s.swept, order)
    case Crash => s.(flush := None, waiting := {}, late := {}, swept := {})
  }

  ghost function Execute(s: State, actions: seq<Action>): (next: State)
    decreases |actions|
  {
    if |actions| == 0 then s else Execute(Apply(s, actions[0]), actions[1..])
  }

  ghost const EMPTY := State(map[], map[], None, {}, {}, {}, map[])

  // ----- What every step keeps -----

  ghost predicate FirstWins(s: State) {
    (forall id :: id in s.journal ==> id in s.first)
    && (forall id :: id in s.ledger && !s.ledger[id].Reserved? ==> id in s.first && Tells(s.ledger[id], s.first[id]))
    && (forall id :: id in s.ledger && id in s.first && s.ledger[id].Reserved? ==>
      id in s.journal && s.journal[id] == s.first[id])
    && (forall id :: id in s.swept ==> id in s.ledger)
  }

  ghost predicate FlushFollows(s: State) {
    s.flush.Some? && s.flush.value.Writing? ==>
      |s.flush.value.left| > 0
      && (forall id :: id in s.flush.value.left ==> id in s.journal)
      && (forall i, j :: 0 <= i < j < |s.flush.value.left| ==> s.flush.value.left[i] != s.flush.value.left[j])
      && (s.flush.value.written ==>
            s.flush.value.left[0] in s.ledger && !s.ledger[s.flush.value.left[0]].Reserved?)
  }

  ghost predicate Decided(s: State, ids: set<Id>) {
    forall id :: id in ids && id in s.ledger ==> !s.ledger[id].Reserved?
  }

  /** Callers share a flush only if their outcomes were recorded before it drained. */
  ghost predicate WaitersAreServed(s: State) {
    (forall id :: id in s.waiting ==> id in s.first)
    && (s.flush == Some(Drained) ==> Decided(s, s.waiting))
  }

  ghost predicate Inv(s: State) {
    FirstWins(s) && FlushFollows(s) && WaitersAreServed(s)
  }

  /** An outcome already told by the ledger is not changed by any other. */
  lemma ProjectKeeps(charge: Charge, outcome: Settlement)
    ensures !charge.Reserved? && Project(charge, outcome).Some? ==> Project(charge, outcome).value == charge
    ensures charge.Reserved? ==> Project(charge, outcome).Some? && Tells(Project(charge, outcome).value, outcome)
  {
  }

  lemma JoinKeeps(s: State, ids: set<Id>, order: seq<Id>)
    requires FirstWins(s) && FlushFollows(s) && WaitersAreServed(s) && forall id :: id in ids ==> id in s.first
    ensures Inv(Join(s, ids, order))
  {
  }

  lemma RecordingKeeps(s: State, id: Id, outcome: Settlement)
    requires Inv(s) && Keep(s.journal, id, outcome).Some?
    ensures Inv(s.(journal := Keep(s.journal, id, outcome).value, first := Noted(s.first, id, outcome)))
    ensures id in Noted(s.first, id, outcome)
  {
    var next := s.(journal := Keep(s.journal, id, outcome).value, first := Noted(s.first, id, outcome));
    assert FirstWins(next);
    assert FlushFollows(next);
    assert WaitersAreServed(next);
  }

  lemma RecordKeeps(s: State, id: Id, outcome: Settlement, order: seq<Id>)
    requires Inv(s)
    ensures Inv(Apply(s, Record(id, outcome, order)))
  {
    hide FirstWins, FlushFollows, WaitersAreServed, Keep, Noted, Join;
    var kept := Keep(s.journal, id, outcome);
    if kept.Some? {
      RecordingKeeps(s, id, outcome);
      JoinKeeps(s.(journal := kept.value, first := Noted(s.first, id, outcome)), {id}, order);
    }
  }

  lemma SweepingKeeps(s: State)
    requires Inv(s)
    ensures Inv(s.(journal := SweepJournal(s.journal, s.swept), first := SweepFirst(s.first, s.swept)))
    ensures forall id :: id in s.swept ==> id in SweepFirst(s.first, s.swept) && id in s.ledger
  {
    var next := s.(journal := SweepJournal(s.journal, s.swept), first := SweepFirst(s.first, s.swept));
    assert FirstWins(next);
    assert FlushFollows(next);
    assert WaitersAreServed(next);
  }

  lemma SweepKeeps(s: State, order: seq<Id>)
    requires Inv(s)
    ensures Inv(Apply(s, Sweep(order)))
  {
    hide FirstWins, FlushFollows, WaitersAreServed, SweepJournal, SweepFirst, Join;
    SweepingKeeps(s);
    JoinKeeps(s.(journal := SweepJournal(s.journal, s.swept), first := SweepFirst(s.first, s.swept)), s.swept, order);
  }

  lemma WriteKeeps(s: State)
    requires Inv(s)
    ensures Inv(Apply(s, WriteLedger))
  {
  }

  lemma RemoveKeeps(s: State, order: seq<Id>)
    requires Inv(s)
    ensures Inv(Apply(s, Remove(order)))
  {
  }

  lemma StepKeepsInv(s: State, action: Action)
    requires Inv(s)
    ensures Inv(Apply(s, action))
  {
    match action
    case Record(id, outcome, order) => RecordKeeps(s, id, outcome, order);
    case Reconcile(order) => JoinKeeps(s, {}, order);
    case Sweep(order) => SweepKeeps(s, order);
    case WriteLedger => WriteKeeps(s);
    case Remove(order) => RemoveKeeps(s, order);
    case _ =>
  }

  lemma {:induction false} RunsKeepInv(s: State, actions: seq<Action>)
    requires Inv(s)
    ensures Inv(Execute(s, actions))
    decreases |actions|
  {
    hide Inv, Apply;
    if |actions| > 0 {
      StepKeepsInv(s, actions[0]);
      RunsKeepInv(Apply(s, actions[0]), actions[1..]);
    }
  }

  // ----- Consequences -----

  ghost predicate Evolves(a: State, b: State) {
    (forall id :: id in a.first ==> id in b.first && b.first[id] == a.first[id])
    && (forall id :: id in a.ledger ==> id in b.ledger && (!a.ledger[id].Reserved? ==> b.ledger[id] == a.ledger[id]))
  }

  lemma StepEvolves(s: State, action: Action)
    ensures Evolves(s, Apply(s, action))
  {
    hide Lists;
    if action.WriteLedger? && Apply(s, action) != s {
      var id := s.flush.value.left[0];
      if id in s.ledger {
        ProjectKeeps(s.ledger[id], s.journal[id]);
      }
    }
  }

  lemma {:induction false} RunsEvolve(s: State, actions: seq<Action>)
    ensures Evolves(s, Execute(s, actions))
    decreases |actions|
  {
    if |actions| > 0 {
      hide Apply;
      StepEvolves(s, actions[0]);
      RunsEvolve(Apply(s, actions[0]), actions[1..]);
    }
  }

  /**
   Over any run from any reachable state: the first outcome recorded for a charge
   is the one its ledger row takes, once, and a known cost is never absorbed.
   */
  lemma FirstOutcomeWins(before: seq<Action>, after: seq<Action>, id: Id)
    ensures var s := Execute(EMPTY, before);
            var later := Execute(s, after);
            (id in s.first ==> id in later.first && later.first[id] == s.first[id])
            && (id in s.first && id in later.ledger && !later.ledger[id].Reserved? ==>
              Tells(later.ledger[id], s.first[id]))
            && (id in s.ledger && !s.ledger[id].Reserved? ==> id in later.ledger && later.ledger[id] == s.ledger[id])
            && (id in s.journal && s.journal[id].Known? && id in s.ledger && s.ledger[id].Reserved? ==>
                  id in later.ledger && !later.ledger[id].Absorbed?)
  {
    RunsKeepInv(EMPTY, before);
    var s := Execute(EMPTY, before);
    RunsKeepInv(s, after);
    RunsEvolve(s, after);
    hide Execute;
  }

  /** Steps taken while one and the same promise is shared. */
  predicate SamePromise(actions: seq<Action>) {
    forall action :: action in actions ==> !action.ClearPromise? && !action.Crash?
  }

  lemma {:induction false} WaiterStays(s: State, actions: seq<Action>, id: Id)
    requires Inv(s) && SamePromise(actions) && s.flush.Some? && id in s.waiting
    ensures var later := Execute(s, actions);
            Inv(later) && later.flush.Some? && id in later.waiting
    decreases |actions|
  {
    if |actions| > 0 {
      StepKeepsInv(s, actions[0]);
      hide Inv, Lists;
      WaiterStays(Apply(s, actions[0]), actions[1..], id);
    }
  }

  lemma {:induction false} DrainedStays(s: State, actions: seq<Action>, id: Id)
    requires SamePromise(actions) && s.flush == Some(Drained) && id in s.ledger
    ensures var later := Execute(s, actions);
            later.flush == Some(Drained) && id in later.ledger && later.ledger[id] == s.ledger[id]
    decreases |actions|
  {
    if |actions| > 0 {
      hide Lists;
      DrainedStays(Apply(s, actions[0]), actions[1..], id);
    }
  }

  /** Whoever joined a flush that ends well is served exactly when the flush had not drained before. */
  lemma SharedPromise(s: State, ids: set<Id>, order: seq<Id>, actions: seq<Action>, id: Id)
    requires Inv(s) && SamePromise(actions) && id in ids && id in s.ledger && forall x :: x in ids ==> x in s.first
    requires Join(s, ids, order).flush.Some? && Execute(Join(s, ids, order), actions).flush == Some(Drained)
    ensures var later := Execute(Join(s, ids, order), actions);
            id in later.ledger && (!later.ledger[id].Reserved? <==> s.flush != Some(Drained) || !s.ledger[id].Reserved?)
  {
    var joined := Join(s, ids, order);
    JoinKeeps(s, ids, order);
    RunsEvolve(joined, actions);
    hide Execute, Lists, FirstWins, FlushFollows;
    if s.flush == Some(Drained) {
      DrainedStays(joined, actions, id);
    } else if s.flush == Some(Broken) {
      BrokenStays(joined, actions);
    } else {
      WaiterStays(joined, actions, id);
    }
  }

  /**
   A settle or absorb whose flush ends well leaves its charge decided exactly when
   it did not join a flush that had already read an empty journal; a call that
   did leaves the row as it found it, with the outcome pending in the journal.
   */
  lemma CallReturnsDecided(s: State, id: Id, outcome: Settlement, order: seq<Id>, actions: seq<Action>)
    requires Inv(s) && id in s.ledger && Keep(s.journal, id, outcome).Some? && SamePromise(actions)
    requires Apply(s, Record(id, outcome, order)).flush.Some?
    requires Execute(Apply(s, Record(id, outcome, order)), actions).flush == Some(Drained)
    ensures var later := Execute(Apply(s, Record(id, outcome, order)), actions);
            id in later.ledger && (!later.ledger[id].Reserved? <==> s.flush != Some(Drained) || !s.ledger[id].Reserved?)
  {
    var recorded := s.(journal := Keep(s.journal, id, outcome).value, first := Noted(s.first, id, outcome));
    RecordingKeeps(s, id, outcome);
    hide Join, Execute, Inv;
    SharedPromise(recorded, {id}, order, actions, id);
  }

  /** Such a call exists: the ledger keeps the reservation although the call has returned well. */
  lemma LateCall(id: Id, amount: nat)
    ensures var s := Execute(EMPTY, [Begin(id), Reconcile([]), Record(id, Known(amount), [])]);
            s.flush == Some(Drained) && id in s.late && id in s.ledger && s.ledger[id].Reserved?
            && id in s.journal && s.journal[id] == Known(amount)
  {
    var actions := [Begin(id), Reconcile([]), Record(id, Known(amount), [])];
    assert actions[1..] == [Reconcile([]), Record(id, Known(amount), [])];
    assert actions[1..][1..] == [Record(id, Known(amount), [])];
    var begun := Apply(EMPTY, actions[0]);
    var drained := Apply(begun, actions[1]);
    assert drained == begun.(flush := Some(Drained));
    var joined := Apply(drained, actions[2]);
    assert Execute(joined, []) == joined;
    assert Execute(drained, [actions[2]]) == Execute(joined, []);
  }

  lemma {:induction false} BrokenStays(s: State, actions: seq<Action>)
    requires SamePromise(actions) && s.flush == Some(Broken)
    ensures Execute(s, actions).flush == Some(Broken)
    decreases |actions|
  {
    if |actions| > 0 {
      hide Lists;
      BrokenStays(Apply(s, actions[0]), actions[1..]);
    }
  }

  /** The same for a recovery: whatever it selected is decided, unless it joined a drained flush. */
  lemma RecoveryReturnsDecided(s: State, id: Id, order: seq<Id>, actions: seq<Action>)
    requires Inv(s) && id in s.swept && SamePromise(actions)
    requires Apply(s, Sweep(order)).flush.Some?
    requires Execute(Apply(s, Sweep(order)), actions).flush == Some(Drained)
    ensures var later := Execute(Apply(s, Sweep(order)), actions);
            id in later.ledger && (!later.ledger[id].Reserved? <==> s.flush != Some(Drained) || !s.ledger[id].Reserved?)
  {
    var swept := s.(journal := SweepJournal(s.journal, s.swept), first := SweepFirst(s.first, s.swept));
    SweepingKeeps(s);
    hide Join, Execute, Inv;
    SharedPromise(swept, s.swept, order, actions, id);
  }

  /** Writing a row again after a crash changes nothing: replay is idempotent. */
  lemma ReplayIsIdempotent(ledger: Ledger, id: Id, outcome: Settlement)
    requires Write(ledger, id, outcome).Some?
    ensures var once := Write(ledger, id, outcome).value;
            Write(once, id, outcome) == Some(once)
  {
    var once := Write(ledger, id, outcome).value;
    assert once[id := once[id]] == once;
  }
}
