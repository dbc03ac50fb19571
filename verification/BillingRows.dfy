/**
 Billing projections: provider snapshots of transactions, delivered in any order
 and any number of times, become one adjustment and one payment row each
 (apps/auth/src/billing-events.ts). Dispute resolution by a merchant is not
 part of this model.
 */
module BillingRows {
  import opened Wrappers

  type Id = string

  const MAX_SAFE := 9_007_199_254_740_991

  // ----- Snapshots -----

  datatype TransactionStatus = Paid | PartialRefund | Refunded | ChargedBack | OtherStatus

  datatype Transaction = Transaction(
    id: Id,
    inDollars: bool,
    subscription: Option<Id>,
    customer: Option<Id>,
    amountPaid: Option<int>,
    amount: int,
    refundedAmount: Option<int>,
    status: TransactionStatus,
    periodStart: Option<int>,
    periodEnd: Option<int>)

  datatype Checked = Checked(amount: nat, refunded: nat, fullyRefunded: bool, disputed: bool)

  function Or<T>(value: Option<T>, other: T): (r: T) {
    if value.Some? then value.value else other
  }

  predicate SafeCount(n: int) {
    0 <= n <= MAX_SAFE
  }

  /** checkTransaction(). */
  function CheckTransaction(t: Transaction, subscription: Id, customer: Option<Id>): (r: Option<Checked>)
    ensures r.Some? ==> r.value.refunded <= r.value.amount
    ensures r.Some? && r.value.amount > 0 ==> (r.value.refunded == r.value.amount <==> r.value.fullyRefunded)
  {
    if !t.inDollars || t.subscription != Some(subscription)
       || (customer.Some? && t.customer.Some? && t.customer != customer) then None
    else
      var amount := Or(t.amountPaid, t.amount);
      var refunded := if t.status.Refunded? then amount else Or(t.refundedAmount, 0);
      if !SafeCount(amount) || !SafeCount(refunded) || refunded > amount
         || (amount > 0 && !t.status.Refunded? && refunded == amount) then None
      else Some(Checked(amount, refunded, t.status.Refunded?, t.status.ChargedBack?))
  }

  // ----- Rows -----

  datatype Adjustment = Adjustment(refunded: nat, disputed: bool, fullyRefunded: bool)

  datatype Plan = Free | Pro | Max

  type PaidPlan = plan: Plan | plan != Free witness Pro

  datatype Identity = Identity(
    researcher: Id, subscription: Id, plan: PaidPlan, startsAt: int, endsAt: int, amount: nat)

  datatype Payment = Payment(identity: Identity, refunded: nat, disputed: bool, fullyRefunded: bool)

  datatype Rows = Rows(adjustments: map<Id, Adjustment>, payments: map<Id, Payment>, processed: set<Id>)

  const NO_ROWS := Rows(map[], map[], {})

  function Least(a: nat, b: nat): (r: nat) {
    if a < b then a else b
  }

  function Greatest(a: nat, b: nat): (r: nat) {
    if a < b then b else a
  }

  // ----- Projections -----

  datatype Projection =
    | PaidOnce(id: Id, checked: Checked, identity: Identity)
    | Adjusted(id: Id, checked: Checked)
    | Disputed(id: Id, checked: Checked)

  /** projectTransaction(): the adjustment is inserted or raised, an existing payment follows. */
  function ProjectTransaction(rows: Rows, id: Id, checked: Checked): (next: Rows) {
    var adjustment :=
      if id in rows.adjustments then
        var known := rows.adjustments[id];
        Adjustment(Greatest(known.refunded, checked.refunded), known.disputed || checked.disputed,
          known.fullyRefunded || checked.fullyRefunded)
      else Adjustment(checked.refunded, checked.disputed, checked.fullyRefunded);
    rows.(
    adjustments := rows.adjustments[id := adjustment],
    payments :=
      if id in rows.payments then
        var payment := rows.payments[id];
        rows.payments[id := payment.(
          refunded := Least(payment.identity.amount, Greatest(payment.refunded, checked.refunded)),
          disputed := payment.disputed || checked.disputed,
          fullyRefunded := payment.fullyRefunded || checked.fullyRefunded)]
      else rows.payments)
  }

  /** INSERT … ON CONFLICT … WHERE the identity is unchanged; None is a payment conflict. */
  function StorePayment(rows: Rows, id: Id, identity: Identity): (r: Option<Rows>)
    requires id in rows.adjustments
  {
    var adjustment := rows.adjustments[id];
    var refunded := Least(identity.amount, adjustment.refunded);
    if id !in rows.payments then
      Some(rows.(payments := rows.payments[id := Payment(identity, refunded, adjustment.disputed,
        adjustment.fullyRefunded)]))
    else
      var payment := rows.payments[id];
      if payment.identity != identity then None
      else
        Some(rows.(payments := rows.payments[id := payment.(
          refunded := Greatest(payment.refunded, refunded),
          disputed := payment.disputed || adjustment.disputed,
          fullyRefunded := payment.fullyRefunded || adjustment.fullyRefunded)]))
  }

  function MarkDisputed(rows: Rows, id: Id): (next: Rows)
    requires id in rows.adjustments
  {
    rows.(
    adjustments := rows.adjustments[id := rows.adjustments[id].(disputed := true)],
    payments := if id in rows.payments then rows.payments[id := rows.payments[id].(disputed := true)]
      else rows.payments)
  }

  function Project(rows: Rows, p: Projection): (r: Option<Rows>) {
    var adjusted := ProjectTransaction(rows, p.id, p.checked);
    match p
    case PaidOnce(id, _, identity) => StorePayment(adjusted, id, identity)
    case Adjusted(_, _) => Some(adjusted)
    case Disputed(id, _) => Some(MarkDisputed(adjusted, id))
  }

  // ----- Attempts -----

  datatype EventKind =
    | SubscriptionPaid(customer: Id, researcher: Id, plan: PaidPlan, startsAt: Option<int>, endsAt: Option<int>)
    | RefundCreated
    | DisputeCreated
    | Reconciled

  /**
   One attempt to process a snapshot: an inbox event, or a reconciliation, which
   has none. `subscription` is the one the event or the stored payment names;
   refunds and disputes take the transaction's own. `admitted` stands for the checks that do not look at these rows: the
   owner, the mode, the product and the identity of the evidence.
   */
  datatype Attempt = Attempt(
    event: Option<Id>, kind: EventKind, subscription: Id, transaction: Transaction, admitted: bool)

  predicate PeriodMatches(t: Transaction, startsAt: Option<int>, endsAt: Option<int>) {
    startsAt.Some? && endsAt.Some? && startsAt.value < endsAt.value
    && (t.periodStart.Some? ==> t.periodStart == startsAt)
    && (t.periodEnd.Some? ==> t.periodEnd == endsAt)
  }

  /** What an attempt projects once its checks pass. */
  function Decide(a: Attempt): (r: Option<Projection>) {
    var t := a.transaction;
    if !a.admitted then None
    else
      match a.kind
      case SubscriptionPaid(customer, researcher, plan, startsAt, endsAt) =>
        var checked := CheckTransaction(t, a.subscription, Some(customer));
        if checked.None? || t.status.OtherStatus? || !PeriodMatches(t, startsAt, endsAt) then None
        else Some(PaidOnce(t.id, checked.value,
                           Identity(researcher, a.subscription, plan, startsAt.value, endsAt.value,
                             checked.value.amount)))
      case Reconciled =>
        var checked := CheckTransaction(t, a.subscription, None);
        if checked.None? then None else Some(Adjusted(t.id, checked.value))
      case _ =>
        var checked := if t.subscription.None? then None else CheckTransaction(t, t.subscription.value, None);
        if checked.None? then None
        else Some(if a.kind.DisputeCreated? then Disputed(t.id, checked.value) else Adjusted(t.id, checked.value))
  }

  predicate AlreadyProcessed(rows: Rows, a: Attempt) {
    a.event.Some? && a.event.value in rows.processed
  }

  /** One transaction: committed with its event marked as processed, or rolled back whole. */
  function Process(rows: Rows, a: Attempt): (r: Rows) {
    if AlreadyProcessed(rows, a) || Decide(a).None? then rows
    else
      match Project(rows, Decide(a).value)
      case None => rows
      case Some(next) => if a.event.Some? then next.(processed := next.processed + {a.event.value}) else next
  }

  function ProcessAll(rows: Rows, attempts: seq<Attempt>): (next: Rows)
    decreases |attempts|
  {
    if |attempts| == 0 then rows else ProcessAll(Process(rows, attempts[0]), attempts[1..])
  }

  // ----- What the rows say about what was projected -----

  ghost predicate OfTransaction(applied: set<Projection>, p: Projection, id: Id) {
    p in applied && p.id == id
  }

  /** The adjustment is the largest refund and any dispute or full refund that was seen. */
  ghost predicate AdjustmentSums(adjustment: Adjustment, applied: set<Projection>, id: Id) {
    (forall p :: OfTransaction(applied, p, id) ==> p.checked.refunded <= adjustment.refunded)
    && (exists p :: OfTransaction(applied, p, id) && p.checked.refunded == adjustment.refunded)
    && (adjustment.disputed <==> exists p :: OfTransaction(applied, p, id) && (p.checked.disputed || p.Disputed?))
    && (adjustment.fullyRefunded <==> exists p :: OfTransaction(applied, p, id) && p.checked.fullyRefunded)
  }

  predicate PaymentFollows(payment: Payment, adjustment: Adjustment) {
    payment.refunded == Least(payment.identity.amount, adjustment.refunded)
    && payment.disputed == adjustment.disputed && payment.fullyRefunded == adjustment.fullyRefunded
  }

  ghost predicate Seen(applied: set<Projection>, id: Id) {
    exists p :: OfTransaction(applied, p, id)
  }

  ghost predicate PaidFor(applied: set<Projection>, id: Id) {
    exists p :: OfTransaction(applied, p, id) && p.PaidOnce?
  }

  ghost predicate AdjustmentsSum(adjustments: map<Id, Adjustment>, applied: set<Projection>) {
    (forall id :: id in adjustments <==> Seen(applied, id))
    && forall id :: id in adjustments ==> AdjustmentSums(adjustments[id], applied, id)
  }

  /** Every payment has the identity of each paid snapshot of its transaction. */
  ghost predicate Identified(payments: map<Id, Payment>, applied: set<Projection>) {
    (forall id :: id in payments <==> PaidFor(applied, id))
    && forall id, p :: id in payments && OfTransaction(applied, p, id) && p.PaidOnce? ==>
      payments[id].identity == p.identity
  }

  ghost predicate PaymentsFollow(payments: map<Id, Payment>, adjustments: map<Id, Adjustment>) {
    forall id :: id in payments ==> id in adjustments && PaymentFollows(payments[id], adjustments[id])
  }

  ghost predicate RowsSum(rows: Rows, applied: set<Projection>) {
    AdjustmentsSum(rows.adjustments, applied)
    && Identified(rows.payments, applied)
    && PaymentsFollow(rows.payments, rows.adjustments)
  }
}
