/** BillingEvents and effectivePlan() in their own form. */
module BillingEvents {
  import opened Wrappers
  import opened BillingRows
  import opened BillingConvergence

  datatype PaidEntitlement = PaidEntitlement(
    plan: PaidPlan, startsAt: int, endsAt: int, amount: int, refunded: int, fullyRefunded: bool, disputed: bool)

  predicate Gives(p: PaidEntitlement, now: int) {
    p.startsAt <= now < p.endsAt && !p.disputed && p.amount >= 0 && !p.fullyRefunded
      && (p.amount == 0 || p.refunded < p.amount)
  }

  /** The best plan that any payment gives, wherever it stands in the list. */
  method EffectivePlan(payments: seq<PaidEntitlement>, now: int) returns (plan: Plan)
    ensures plan.Max? <==> exists i :: 0 <= i < |payments| && Gives(payments[i], now) && payments[i].plan.Max?
    ensures plan.Free? <==> forall i :: 0 <= i < |payments| ==> !Gives(payments[i], now)
  {
    plan := Free;
    for n := 0 to |payments|
      invariant !plan.Max? && forall i :: 0 <= i < n ==> !(Gives(payments[i], now) && payments[i].plan.Max?)
      invariant plan.Free? <==> forall i :: 0 <= i < n ==> !Gives(payments[i], now)
    {
      var payment := payments[n];
      if payment.startsAt > now || payment.endsAt <= now || payment.disputed || payment.amount < 0
        || payment.fullyRefunded
         || (payment.amount > 0 && payment.refunded >= payment.amount) {
        continue;
      }
      if payment.plan.Max? {
        return Max;
      }
      plan := Pro;
    }
  }

  function AsEntitlement(payment: Payment): (r: PaidEntitlement) {
    PaidEntitlement(payment.identity.plan, payment.identity.startsAt, payment.identity.endsAt, payment.identity.amount,
                    payment.refunded, payment.fullyRefunded, payment.disputed)
  }

  class BillingEvents {
    var adjustments: map<Id, Adjustment>
    var payments: map<Id, Payment>
    var processed: set<Id>

    function State(): (next: Rows)
      reads this
    {
      Rows(adjustments, payments, processed)
    }

    constructor ()
      ensures State() == NO_ROWS
    {
      adjustments, payments, processed := map[], map[], {};
    }

    /** Upserts the adjustment, then lets an existing payment follow. */
    method ProjectTransaction(id: Id, checked: Checked)
      modifies this
      ensures State() == BillingRows.ProjectTransaction(old(State()), id, checked)
    {
      if id in adjustments {
        var known := adjustments[id];
        adjustments := adjustments[id := Adjustment(
          Greatest(known.refunded, checked.refunded),
          known.disputed || checked.disputed,
          known.fullyRefunded || checked.fullyRefunded)];
      } else {
        adjustments := adjustments[id := Adjustment(checked.refunded, checked.disputed, checked.fullyRefunded)];
      }
      if id in payments {
        var payment := payments[id];
        payments := payments[id := payment.(
          refunded := Least(payment.identity.amount, Greatest(payment.refunded, checked.refunded)),
          disputed := payment.disputed || checked.disputed,
          fullyRefunded := payment.fullyRefunded || checked.fullyRefunded)];
      }
    }

    /** Inserts the payment, or merges into one with the same identity. */
    method StorePayment(id: Id, identity: Identity) returns (ok: bool)
      requires id in adjustments
      modifies this
      ensures ok == BillingRows.StorePayment(old(State()), id, identity).Some?
      ensures State() == if ok then BillingRows.StorePayment(old(State()), id, identity).value else old(State())
    {
      var adjustment := adjustments[id];
      var refunded := Least(identity.amount, adjustment.refunded);
      if id in payments {
        var payment := payments[id];
        if payment.identity != identity {
          return false;
        }
        payments := payments[id := payment.(
          refunded := Greatest(payment.refunded, refunded),
          disputed := payment.disputed || adjustment.disputed,
          fullyRefunded := payment.fullyRefunded || adjustment.fullyRefunded)];
      } else {
        payments := payments[id := Payment(identity, refunded, adjustment.disputed, adjustment.fullyRefunded)];
      }
      ok := true;
    }

    method Dispute(id: Id)
      requires id in adjustments
      modifies this
      ensures State() == MarkDisputed(old(State()), id)
    {
      adjustments := adjustments[id := adjustments[id].(disputed := true)];
      if id in payments {
        payments := payments[id := payments[id].(disputed := true)];
      }
    }

    /** One transaction of process() or of reconcile(); whatever it threw was rolled back. */
    method Process(a: Attempt) returns (ok: bool)
      modifies this
      ensures State() == BillingRows.Process(old(State()), a)
      ensures ok
        <==> AlreadyProcessed(old(State()), a) || (Decide(a).Some? && Project(old(State()), Decide(a).value).Some?)
    {
      if a.event.Some? && a.event.value in processed {
        return true;
      }
      var decided := Decide(a);
      if decided.None? {
        return false;
      }
      var saved := State();
      var p := decided.value;
      hide Decide;
      ProjectTransaction(p.id, p.checked);
      match p {
        case PaidOnce(id, _, identity) =>
          var stored := StorePayment(id, identity);
          if !stored {
            adjustments, payments, processed := saved.adjustments, saved.payments, saved.processed;
            return false;
          }
        case Disputed(id, _) => Dispute(id);
        case Adjusted(_, _) =>
      }
      if a.event.Some? {
        processed := processed + {a.event.value};
      }
      ok := true;
    }

    method ProcessAll(attempts: seq<Attempt>)
      modifies this
      ensures State() == BillingRows.ProcessAll(old(State()), attempts)
    {
      var n := 0;
      while n < |attempts|
        invariant 0 <= n <= |attempts|
        invariant BillingRows.ProcessAll(State(), attempts[n..]) == BillingRows.ProcessAll(old(State()), attempts)
      {
        hide BillingRows.Process;
        assert attempts[n..][0] == attempts[n] && attempts[n..][1..] == attempts[n + 1..];
        var _ := Process(attempts[n]);
        n := n + 1;
      }
    }

    /** researcherPlan(): the payments that have not ended yet, in whatever order they are read. */
    method ResearcherPlan(researcher: Id, now: int) returns (plan: Plan)
      ensures plan == PlanOf(payments, researcher, now)
    {
      var selected := set id | id in payments && payments[id].identity.researcher == researcher
        && payments[id].identity.endsAt > now;
      var left, rows, ids := selected, [], [];
      while left != {}
        invariant left <= selected && |ids| == |rows|
        invariant forall i :: 0 <= i < |rows| ==> ids[i] in selected && rows[i] == AsEntitlement(payments[ids[i]])
        invariant forall id :: id in selected && id !in left ==> id in ids
        decreases left
      {
        var id :| id in left;
        ids, rows := ids + [id], rows + [AsEntitlement(payments[id])];
        left := left - {id};
      }
      plan := EffectivePlan(rows, now);
      forall wanted: PaidPlan
        ensures Has(payments, researcher, now, wanted)
          <==> exists i :: 0 <= i < |rows| && Gives(rows[i], now) && rows[i].plan == wanted
      {
        if Has(payments, researcher, now, wanted) {
          var id :| id in payments && payments[id].identity.researcher == researcher
                    && payments[id].identity.plan == wanted && Entitles(payments[id], now);
          assert id in selected;
          var i :| 0 <= i < |rows| && ids[i] == id;
          assert Gives(rows[i], now);
        }
      }
    }
  }
}
