/**
 Any order, duplication and interleaving of snapshots leaves the same rows, so
 the same plan; and nothing but a new payment can raise it.
 */
module BillingConvergence {
  import opened Wrappers
  import opened BillingRows

  // ----- One projection -----

  function NextAdjustment(rows: Rows, p: Projection): (r: Adjustment) {
    var before := if p.id in rows.adjustments then rows.adjustments[p.id] else Adjustment(0, false, false);
    Adjustment(Greatest(before.refunded, p.checked.refunded),
               before.disputed || p.checked.disputed || p.Disputed?,
               before.fullyRefunded || p.checked.fullyRefunded)
  }

  /** Only the rows of the projected transaction change, and its payment follows its adjustment. */
  ghost predicate OnlyItsRows(rows: Rows, p: Projection, next: Rows) {
    next.adjustments == rows.adjustments[p.id := NextAdjustment(rows, p)]
    && (p.id in next.payments <==> p.PaidOnce? || p.id in rows.payments)
    && (p.id in next.payments ==>
          next.payments == rows.payments[p.id := next.payments[p.id]]
          && PaymentFollows(next.payments[p.id], next.adjustments[p.id]))
    && (p.id in rows.payments ==> next.payments[p.id].identity == rows.payments[p.id].identity)
    && (p.id !in next.payments ==> next.payments == rows.payments)
    && (p.PaidOnce? ==> next.payments[p.id].identity == p.identity)
    && next.processed == rows.processed
  }

  lemma ProjectChanges(rows: Rows, p: Projection)
    requires Project(rows, p).Some? && PaymentsFollow(rows.payments, rows.adjustments)
    ensures OnlyItsRows(rows, p, Project(rows, p).value)
  {
  }

  lemma SumsAfter(rows: Rows, applied: set<Projection>, p: Projection)
    requires p.id in rows.adjustments <==> Seen(applied, p.id)
    requires p.id in rows.adjustments ==> AdjustmentSums(rows.adjustments[p.id], applied, p.id)
    ensures AdjustmentSums(NextAdjustment(rows, p), applied + {p}, p.id)
  {
    var next := applied + {p};
    assert OfTransaction(next, p, p.id);
    forall q ensures OfTransaction(next, q, p.id) <==> OfTransaction(applied, q, p.id) || q == p {}
  }

  lemma SumsUnaffected(adjustment: Adjustment, applied: set<Projection>, p: Projection, id: Id)
    requires AdjustmentSums(adjustment, applied, id) && id != p.id
    ensures AdjustmentSums(adjustment, applied + {p}, id)
  {
  }

  lemma ProjectKeepsSum(rows: Rows, applied: set<Projection>, p: Projection)
    requires RowsSum(rows, applied) && Project(rows, p).Some?
    ensures RowsSum(Project(rows, p).value, applied + {p})
    ensures OnlyItsRows(rows, p, Project(rows, p).value)
  {
    ProjectChanges(rows, p);
    hide OnlyItsRows, Project, AdjustmentsSum, Identified, PaymentsFollow;
    SumAfter(rows, applied, p, Project(rows, p).value);
  }

  lemma SumAfter(rows: Rows, applied: set<Projection>, p: Projection, next: Rows)
    requires RowsSum(rows, applied) && OnlyItsRows(rows, p, next)
    ensures RowsSum(next, applied + {p})
  {
    hide NextAdjustment, AdjustmentsSum, Identified, PaymentsFollow, OfTransaction, PaymentFollows;
    AdjustmentsAfter(rows, applied, p);
    IdentifiedAfter(rows, next, applied, p);
    FollowAfter(rows, next, p);
  }

  lemma AdjustmentsAfter(rows: Rows, applied: set<Projection>, p: Projection)
    requires AdjustmentsSum(rows.adjustments, applied)
    ensures AdjustmentsSum(rows.adjustments[p.id := NextAdjustment(rows, p)], applied + {p})
  {
    SumsAfter(rows, applied, p);
    Widened(applied, p);
    hide AdjustmentSums, Seen, PaidFor, NextAdjustment, OfTransaction;
    forall id | id != p.id && id in rows.adjustments ensures AdjustmentSums(rows.adjustments[id], applied + {p}, id) {
      SumsUnaffected(rows.adjustments[id], applied, p, id);
    }
  }

  lemma FollowAfter(rows: Rows, next: Rows, p: Projection)
    requires PaymentsFollow(rows.payments, rows.adjustments)
    requires p.id in next.adjustments && next.adjustments == rows.adjustments[p.id := next.adjustments[p.id]]
    requires p.id in next.payments ==>
      next.payments == rows.payments[p.id := next.payments[p.id]]
        && PaymentFollows(next.payments[p.id], next.adjustments[p.id])
    requires p.id !in next.payments ==> next.payments == rows.payments
    ensures PaymentsFollow(next.payments, next.adjustments)
  {
  }

  lemma Widened(applied: set<Projection>, p: Projection)
    ensures forall id, q ::
      OfTransaction(applied + {p}, q, id) <==> OfTransaction(applied, q, id) || (q == p && id == p.id)
    ensures forall id :: Seen(applied + {p}, id) <==> Seen(applied, id) || id == p.id
    ensures forall id :: PaidFor(applied + {p}, id) <==> PaidFor(applied, id) || (id == p.id && p.PaidOnce?)
  {
    assert OfTransaction(applied + {p}, p, p.id);
    assert forall id, q :: OfTransaction(applied, q, id) ==> OfTransaction(applied + {p}, q, id);
  }

  lemma IdentifiedAfter(rows: Rows, next: Rows, applied: set<Projection>, p: Projection)
    requires Identified(rows.payments, applied)
    requires p.id in next.payments <==> p.PaidOnce? || p.id in rows.payments
    requires p.id in next.payments ==> next.payments == rows.payments[p.id := next.payments[p.id]]
    requires p.id in rows.payments ==> next.payments[p.id].identity == rows.payments[p.id].identity
    requires p.PaidOnce? ==> next.payments[p.id].identity == p.identity
    requires p.id !in next.payments ==> next.payments == rows.payments
    ensures Identified(next.payments, applied + {p})
  {
    Widened(applied, p);
    assert forall id, q :: OfTransaction(applied, q, id) && q.PaidOnce? ==> PaidFor(applied, id);
  }

  /** Rows are determined by the set of what was projected. */
  lemma SumIsUnique(a: Rows, b: Rows, applied: set<Projection>)
    requires RowsSum(a, applied) && RowsSum(b, applied)
    ensures a.adjustments == b.adjustments && a.payments == b.payments
  {
    hide AdjustmentSums, Seen, PaidFor;
    assert a.adjustments.Keys == b.adjustments.Keys;
    forall id | id in a.adjustments ensures a.adjustments[id] == b.adjustments[id] {
      SameSums(a.adjustments[id], b.adjustments[id], applied, id);
    }
    assert a.payments.Keys == b.payments.Keys;
    forall id | id in a.payments ensures a.payments[id] == b.payments[id] {
      var p := PaidSnapshot(applied, id);
    }
  }

  lemma PaidSnapshot(applied: set<Projection>, id: Id) returns (p: Projection)
    requires PaidFor(applied, id)
    ensures OfTransaction(applied, p, id) && p.PaidOnce?
  {
    p :| OfTransaction(applied, p, id) && p.PaidOnce?;
  }

  lemma SameSums(a: Adjustment, b: Adjustment, applied: set<Projection>, id: Id)
    requires AdjustmentSums(a, applied, id) && AdjustmentSums(b, applied, id)
    ensures a == b
  {
  }

  // ----- Every delivery -----

  predicate SameIdentity(p: Option<Projection>, q: Option<Projection>) {
    p.Some? && q.Some? && p.value.PaidOnce? && q.value.PaidOnce? && p.value.id == q.value.id ==>
      p.value.identity == q.value.identity
  }

  /** One transaction is paid for under one identity. */
  ghost predicate OneIdentity(attempts: seq<Attempt>) {
    forall a, b :: a in attempts && b in attempts ==> SameIdentity(Decide(a), Decide(b))
  }

  predicate Accepts(a: Attempt, event: Id) {
    a.event == Some(event) && Decide(a).Some?
  }

  ghost predicate AcceptedBefore(attempts: seq<Attempt>, n: nat, event: Id)
    requires n <= |attempts|
  {
    exists i :: 0 <= i < n && Accepts(attempts[i], event)
  }

  /** An attempt counts if its checks pass and no earlier attempt of its event passed. */
  ghost predicate Counts(attempts: seq<Attempt>, n: nat)
    requires n < |attempts|
  {
    Decide(attempts[n]).Some?
    && (attempts[n].event.Some? ==> !AcceptedBefore(attempts, n, attempts[n].event.value))
  }

  /** What attempts[..n] project: an event may be refused any number of times before it is accepted. */
  ghost function Counted(attempts: seq<Attempt>, n: nat): (applied: set<Projection>)
    requires n <= |attempts|
  {
    set i | 0 <= i < n && Counts(attempts, i) :: Decide(attempts[i]).value
  }

  /** So far attempts[..n] have been processed. */
  ghost predicate Follows(rows: Rows, attempts: seq<Attempt>, n: nat)
    requires n <= |attempts|
  {
    RowsSum(rows, Counted(attempts, n))
    && forall e :: e in rows.processed <==> AcceptedBefore(attempts, n, e)
  }

  lemma CountedNext(attempts: seq<Attempt>, n: nat)
    requires n < |attempts|
    ensures Counted(attempts, n + 1)
         == Counted(attempts, n) + (if Counts(attempts, n) then {Decide(attempts[n]).value} else {})
    ensures forall e ::
      AcceptedBefore(attempts, n + 1, e) <==> AcceptedBefore(attempts, n, e) || Accepts(attempts[n], e)
  {
    hide Decide, AcceptedBefore;
    forall e ensures AcceptedBefore(attempts, n + 1, e) <==> AcceptedBefore(attempts, n, e) || Accepts(attempts[n], e) {
      AcceptedNext(attempts, n, e);
    }
  }

  lemma AcceptedNext(attempts: seq<Attempt>, n: nat, event: Id)
    requires n < |attempts|
    ensures AcceptedBefore(attempts, n + 1, event)
      <==> AcceptedBefore(attempts, n, event) || Accepts(attempts[n], event)
  {
    hide Accepts;
  }

  /** Under one identity no payment conflicts. */
  lemma NoConflict(rows: Rows, attempts: seq<Attempt>, n: nat)
    requires OneIdentity(attempts) && n < |attempts| && Follows(rows, attempts, n) && Decide(attempts[n]).Some?
    ensures Project(rows, Decide(attempts[n]).value).Some?
  {
    var p := Decide(attempts[n]).value;
    hide Decide, Counts;
    if p.PaidOnce? && p.id in rows.payments {
      var q := PaidSnapshot(Counted(attempts, n), p.id);
      var i :| 0 <= i < n && Counts(attempts, i) && Decide(attempts[i]) == Some(q);
      assert SameIdentity(Decide(attempts[i]), Decide(attempts[n]));
    }
  }

  lemma OneMore(rows: Rows, attempts: seq<Attempt>, n: nat)
    requires OneIdentity(attempts) && n < |attempts| && Follows(rows, attempts, n)
    ensures Follows(Process(rows, attempts[n]), attempts, n + 1)
  {
    hide Counted, AcceptedBefore, RowsSum, OneIdentity, Decide, Project, Process;
    if Counts(attempts, n) {
      NoConflict(rows, attempts, n);
      OneMoreCounts(rows, attempts, n);
    } else {
      CountedNext(attempts, n);
      UncountedIsIdle(rows, attempts, n);
      assert Counted(attempts, n + 1) == Counted(attempts, n);
    }
  }

  /** A refused attempt changes nothing, and neither does one of an event that was accepted before. */
  lemma UncountedIsIdle(rows: Rows, attempts: seq<Attempt>, n: nat)
    requires n < |attempts| && Follows(rows, attempts, n) && !Counts(attempts, n)
    ensures Process(rows, attempts[n]) == rows
    ensures forall e :: Accepts(attempts[n], e) ==> AcceptedBefore(attempts, n, e)
  {
    hide Counted, AcceptedBefore, RowsSum, Decide, Project;
  }

  lemma OneMoreCounts(rows: Rows, attempts: seq<Attempt>, n: nat)
    requires n < |attempts| && Follows(rows, attempts, n) && Counts(attempts, n)
    requires Project(rows, Decide(attempts[n]).value).Some?
    ensures Follows(Process(rows, attempts[n]), attempts, n + 1)
  {
    var a := attempts[n];
    var p := Decide(a).value;
    CountedNext(attempts, n);
    hide Decide, Counted, AcceptedBefore, RowsSum, Project;
    ProjectKeepsSum(rows, Counted(attempts, n), p);
    SumIgnoresEvents(Project(rows, p).value, Process(rows, a), Counted(attempts, n + 1));
  }

  lemma SumIgnoresEvents(a: Rows, b: Rows, applied: set<Projection>)
    requires RowsSum(a, applied) && b.adjustments == a.adjustments && b.payments == a.payments
    ensures RowsSum(b, applied)
  {
  }

  lemma {:induction false} AllProcessed(rows: Rows, attempts: seq<Attempt>, n: nat)
    requires OneIdentity(attempts) && n <= |attempts| && Follows(rows, attempts, n)
    ensures Follows(ProcessAll(rows, attempts[n..]), attempts, |attempts|)
    decreases |attempts| - n
  {
    if n < |attempts| {
      OneMore(rows, attempts, n);
      hide Follows, OneIdentity, Process;
      assert attempts[n..][0] == attempts[n] && attempts[n..][1..] == attempts[n + 1..];
      AllProcessed(Process(rows, attempts[n]), attempts, n + 1);
    }
  }

  /** The final rows are the sums over the first accepted attempt of every event and over every reconciliation. */
  lemma DeliveriesSumUp(attempts: seq<Attempt>)
    requires OneIdentity(attempts)
    ensures RowsSum(ProcessAll(NO_ROWS, attempts), Counted(attempts, |attempts|))
    ensures forall e :: e in ProcessAll(NO_ROWS, attempts).processed <==> AcceptedBefore(attempts, |attempts|, e)
  {
    hide Decide;
    assert Follows(NO_ROWS, attempts, 0) by {
      assert Counted(attempts, 0) == {};
    }
    AllProcessed(NO_ROWS, attempts, 0);
    assert attempts[0..] == attempts;
  }

  /** Two attempts of one event that are both accepted find the same evidence; refused ones may differ. */
  ghost predicate Consistent(attempts: seq<Attempt>) {
    forall a, b :: a in attempts && b in attempts && a.event.Some? && a.event == b.event ==>
      SameIfAccepted(Decide(a), Decide(b))
  }

  predicate SameIfAccepted(p: Option<Projection>, q: Option<Projection>) {
    p.Some? && q.Some? ==> p == q
  }

  function Decided(attempts: seq<Attempt>): (decided: set<Projection>) {
    set a | a in attempts && Decide(a).Some? :: Decide(a).value
  }

  lemma {:induction false} ConsistentCountsAll(attempts: seq<Attempt>)
    requires Consistent(attempts)
    ensures Counted(attempts, |attempts|) == Decided(attempts)
  {
    hide Decide;
    forall a | a in attempts && Decide(a).Some? ensures Decide(a).value in Counted(attempts, |attempts|) {
      var i :| 0 <= i < |attempts| && attempts[i] == a;
      IsCounted(attempts, i);
    }
    forall p | p in Counted(attempts, |attempts|) ensures p in Decided(attempts) {
      var i :| 0 <= i < |attempts| && Counts(attempts, i) && Decide(attempts[i]).value == p;
    }
  }

  lemma {:induction false} IsCounted(attempts: seq<Attempt>, n: nat)
    requires Consistent(attempts) && n < |attempts| && Decide(attempts[n]).Some?
    ensures Decide(attempts[n]).value in Counted(attempts, |attempts|)
  {
    hide Decide;
    if !Counts(attempts, n) {
      var i :| 0 <= i < n && Accepts(attempts[i], attempts[n].event.value);
      assert SameIfAccepted(Decide(attempts[i]), Decide(attempts[n]));
      IsCounted(attempts, i);
    }
  }

  /** The deliveries differ in order, number and refusals only. */
  ghost predicate SameAccepted(xs: seq<Attempt>, ys: seq<Attempt>) {
    forall a :: Decide(a).Some? ==> (a in xs <==> a in ys)
  }

  /**
   Convergence: two deliveries with the same accepted attempts, in any order and
   number, with any refusals before, between and after them, end with the same rows.
   */
  lemma DeliveriesConverge(xs: seq<Attempt>, ys: seq<Attempt>)
    requires Consistent(xs) && OneIdentity(xs) && SameAccepted(xs, ys)
    ensures ProcessAll(NO_ROWS, xs).adjustments == ProcessAll(NO_ROWS, ys).adjustments
    ensures ProcessAll(NO_ROWS, xs).payments == ProcessAll(NO_ROWS, ys).payments
    ensures ProcessAll(NO_ROWS, xs).processed == ProcessAll(NO_ROWS, ys).processed
  {
    hide Decide, ProcessAll, RowsSum;
    assert Decided(xs) == Decided(ys);
    forall a, b | a in ys && b in ys ensures SameIdentity(Decide(a), Decide(b)) {
      assert Decide(a).Some? && Decide(b).Some? ==> a in xs && b in xs;
    }
    ConsistentCountsAll(xs);
    ConsistentCountsAll(ys);
    DeliveriesSumUp(xs);
    DeliveriesSumUp(ys);
    SumIsUnique(ProcessAll(NO_ROWS, xs), ProcessAll(NO_ROWS, ys), Decided(xs));
    forall e ensures AcceptedBefore(xs, |xs|, e) <==> AcceptedBefore(ys, |ys|, e) {
      if AcceptedBefore(xs, |xs|, e) { SameEvents(xs, ys, e); }
      if AcceptedBefore(ys, |ys|, e) { SameEvents(ys, xs, e); }
    }
  }

  lemma SameEvents(xs: seq<Attempt>, ys: seq<Attempt>, event: Id)
    requires SameAccepted(xs, ys) && AcceptedBefore(xs, |xs|, event)
    ensures AcceptedBefore(ys, |ys|, event)
  {
    hide Decide;
    var i :| 0 <= i < |xs| && Accepts(xs[i], event);
    assert xs[i] in ys;
    var k :| 0 <= k < |ys| && ys[k] == xs[i];
  }

  // ----- Plans -----

  /** A payment that gives its plan at this time. */
  predicate Entitles(payment: Payment, now: int) {
    payment.identity.startsAt <= now < payment.identity.endsAt && !payment.disputed && !payment.fullyRefunded
    && !(payment.identity.amount > 0 && payment.refunded >= payment.identity.amount)
  }

  ghost predicate Has(payments: map<Id, Payment>, researcher: Id, now: int, plan: Plan) {
    exists id :: id in payments && payments[id].identity.researcher == researcher
                 && payments[id].identity.plan == plan && Entitles(payments[id], now)
  }

  ghost function PlanOf(payments: map<Id, Payment>, researcher: Id, now: int): (r: Plan) {
    if Has(payments, researcher, now, Max) then Max else if Has(payments, researcher, now, Pro) then Pro else Free
  }

  predicate AtMost(a: Plan, b: Plan) {
    a.Free? || b.Max? || (a.Pro? && b.Pro?)
  }

  /** Whatever is processed, unless it stores a payment that was not there, no plan rises. */
  lemma OnlyNewPaymentsRaise(rows: Rows, a: Attempt, researcher: Id, now: int)
    requires Process(rows, a).payments.Keys == rows.payments.Keys
    ensures AtMost(PlanOf(Process(rows, a).payments, researcher, now), PlanOf(rows.payments, researcher, now))
  {
    var next := Process(rows, a);
    forall id | id in next.payments
      ensures next.payments[id].identity == rows.payments[id].identity
      ensures Entitles(next.payments[id], now) ==> Entitles(rows.payments[id], now)
    {
      PaymentsOnlyWorsen(rows, a, id, now);
    }
    hide Process, Entitles;
    forall plan: Plan | Has(next.payments, researcher, now, plan) ensures Has(rows.payments, researcher, now, plan) {
      var id :| id in next.payments && next.payments[id].identity.researcher == researcher
                && next.payments[id].identity.plan == plan && Entitles(next.payments[id], now);
    }
  }

  lemma PaymentsOnlyWorsen(rows: Rows, a: Attempt, id: Id, now: int)
    requires id in rows.payments
    ensures var next := Process(rows, a);
            id in next.payments && next.payments[id].identity == rows.payments[id].identity
            && (Entitles(next.payments[id], now) ==> Entitles(rows.payments[id], now))
  {
    hide Decide;
  }

  /** Over any deliveries: while no payment is added, no plan rises. */
  lemma {:induction false} PlansOnlyFall(rows: Rows, attempts: seq<Attempt>, researcher: Id, now: int)
    requires ProcessAll(rows, attempts).payments.Keys == rows.payments.Keys
    ensures AtMost(PlanOf(ProcessAll(rows, attempts).payments, researcher, now), PlanOf(rows.payments, researcher, now))
    decreases |attempts|
  {
    if |attempts| > 0 {
      var next := Process(rows, attempts[0]);
      PaymentsStay(rows, [attempts[0]]);
      PaymentsStay(next, attempts[1..]);
      hide Process, PlanOf;
      assert ProcessAll(rows, [attempts[0]]) == ProcessAll(next, []);
      OnlyNewPaymentsRaise(rows, attempts[0], researcher, now);
      PlansOnlyFall(next, attempts[1..], researcher, now);
    }
  }

  lemma {:induction false} PaymentsStay(rows: Rows, attempts: seq<Attempt>)
    ensures rows.payments.Keys <= ProcessAll(rows, attempts).payments.Keys
    decreases |attempts|
  {
    if |attempts| > 0 {
      hide Decide;
      PaymentsStay(Process(rows, attempts[0]), attempts[1..]);
    }
  }

  /** So plans do not depend on the order of delivery. */
  lemma PlansConverge(xs: seq<Attempt>, ys: seq<Attempt>, researcher: Id, now: int)
    requires Consistent(xs) && OneIdentity(xs) && SameAccepted(xs, ys)
    ensures PlanOf(ProcessAll(NO_ROWS, xs).payments, researcher, now)
      == PlanOf(ProcessAll(NO_ROWS, ys).payments, researcher, now)
  {
    DeliveriesConverge(xs, ys);
  }
}
