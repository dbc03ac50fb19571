/**
 One metered call of a provider: when its invocation is begun, and which outcome
 the budget is asked to record for it (apps/agent/src/metered-language-model.ts:43-151).
 */
module MeteredModel {
  import opened Wrappers
  import opened ModelSettlement

  const MAX_SAFE := 9_007_199_254_740_991

  datatype Usage = Usage(input: Option<int>, output: Option<int>, cacheRead: Option<int>, cacheWrite: Option<int>)

  datatype Pricing = Pricing(input: nat, output: nat, cacheRead: nat, cacheWrite: nat)

  datatype Cost = Amount(nanodollars: nat) | Unusable | Inexact

  predicate Counted(tokens: Option<int>) {
    tokens.Some? && 0 <= tokens.value <= MAX_SAFE
  }

  /** modelCost(): cache tokens priced like input need no count of their own. */
  function ModelCost(usage: Usage, pricing: Pricing): (r: Cost) {
    var read := if pricing.cacheRead == pricing.input then Some(0) else usage.cacheRead;
    var write := if pricing.cacheWrite == pricing.input then Some(0) else usage.cacheWrite;
    if !Counted(usage.input) || !Counted(usage.output) || !Counted(read) || !Counted(write) then Unusable
    else if read.value + write.value > usage.input.value then Unusable
    else
      var amount := (usage.input.value - read.value - write.value) * pricing.input
                    + read.value * pricing.cacheRead + write.value * pricing.cacheWrite
                      + usage.output.value * pricing.output;
      if 0 <= amount <= MAX_SAFE then Amount(amount) else Inexact
  }

  function CostOf(usage: Usage, pricing: Pricing): (r: Cost) {
    if pricing == Pricing(0, 0, 0, 0) then Amount(0) else ModelCost(usage, pricing)
  }

  /** A pull that is open when the consumer cancels: its read ends, or had just been answered. */
  datatype OpenPull =
    | NoPull
    | ReadEnds
    | GotPart
    | GotFinish(usage: Usage, settles: bool)

  /** What the provider's stream does next, and whether the budget takes a settlement or an absorption. */
  datatype Event =
    | Part
    | Finish(usage: Usage, settles: bool)
    | Done(absorbs: bool)
    | ReadFails
    | Cancelled(pull: OpenPull)

  /** The stream has no further pull after this event. */
  predicate Ends(event: Event, pricing: Pricing) {
    match event
    case Part => false
    case Finish(usage, settles) => !CostOf(usage, pricing).Amount? || !settles
    case _ => true
  }

  function UsageOf(event: Event): (usage: Option<Usage>) {
    match event
    case Finish(usage, _) => Some(usage)
    case Cancelled(GotFinish(usage, _)) => Some(usage)
    case _ => None
  }

  predicate Costed(event: Event, pricing: Pricing) {
    UsageOf(event).Some? && CostOf(UsageOf(event).value, pricing).Amount?
  }

  function Ruling(event: Event, pricing: Pricing): (ruling: Option<Settlement>) {
    if Costed(event, pricing) then Some(Known(CostOf(UsageOf(event).value, pricing).nanodollars))
    else if Ends(event, pricing) then Some(Unknown)
    else None
  }

  /** The ruling of the first of events[..n] that has one. */
  function Verdict(events: seq<Event>, n: nat, pricing: Pricing): (r: Option<Settlement>)
    requires n <= |events|
  {
    if n == 0 then None
    else if Verdict(events, n - 1, pricing).Some? then Verdict(events, n - 1, pricing)
    else Ruling(events[n - 1], pricing)
  }

  ghost predicate Decides(events: seq<Event>, d: nat, pricing: Pricing)
    requires d < |events|
  {
    Ruling(events[d], pricing).Some? && forall i :: 0 <= i < d ==> Ruling(events[i], pricing).None?
  }

  lemma {:induction false} VerdictIsFirst(events: seq<Event>, n: nat, pricing: Pricing, outcome: Settlement)
    requires n <= |events|
    ensures Verdict(events, n, pricing) == Some(outcome) <==>
      exists d: nat :: d < n && Decides(events, d, pricing) && Ruling(events[d], pricing) == Some(outcome)
    ensures Verdict(events, n, pricing) == None <==> forall i :: 0 <= i < n ==> Ruling(events[i], pricing).None?
  {
    if n > 0 {
      VerdictIsFirst(events, n - 1, pricing, outcome);
      if Verdict(events, n - 1, pricing).None? && Ruling(events[n - 1], pricing).Some? {
        assert Decides(events, n - 1, pricing);
      }
    }
  }

  /** What the budget has been told: one kind of outcome only. Unknown may be repeated while a stream comes down. */
  predicate Told(recorded: seq<Settlement>, begun: bool, verdict: Option<Settlement>) {
    if !begun || verdict.None? then recorded == []
    else if verdict == Some(Unknown)
      then 1 <= |recorded| <= 3 && forall i :: 0 <= i < |recorded| ==> recorded[i] == Unknown
    else |recorded| > 0 && recorded[0] == verdict.value && Unknown !in recorded
  }

  class MeteredCall {
    const price: Pricing
    var begun: bool
    var known: bool
    /** What the budget was asked to record for this invocation, in order. */
    var recorded: seq<Settlement>

    constructor (price: Pricing)
      ensures this.price == price && !begun && !known && recorded == []
    {
      this.price := price;
      begun, known, recorded := false, false, [];
    }

    ghost predicate Valid()
      reads this
    {
      (recorded != [] ==> begun) && (known <==> exists i :: 0 <= i < |recorded| && recorded[i].Known?)
    }

    /** The metered fetch: one invocation of the provider per call. */
    method Fetch(admitted: bool) returns (ok: bool)
      requires Valid()
      modifies `begun
      ensures Valid()
      ensures ok <==> !old(begun) && admitted
      ensures begun == (old(begun) || admitted)
    {
      if begun {
        return false;
      }
      begun := admitted;
      ok := admitted;
    }

    /** settle(): `known` is set before the budget answers. */
    method Settle(usage: Usage, settles: bool) returns (ok: bool)
      requires Valid()
      modifies this
      ensures Valid() && begun == old(begun)
      ensures begun && CostOf(usage, price).Amount? ==>
        known && ok == settles && recorded == old(recorded) + [Known(CostOf(usage, price).nanodollars)]
      ensures !(begun && CostOf(usage, price).Amount?) ==> !ok && known == old(known) && recorded == old(recorded)
    {
      if !begun {
        return false;
      }
      var cost := CostOf(usage, price);
      if !cost.Amount? {
        return false;
      }
      known := true;
      recorded := recorded + [Known(cost.nanodollars)];
      assert recorded[|recorded| - 1].Known?;
      ok := settles;
    }

    /** unknown(): a cost that is known is never given up. */
    method GiveUp()
      requires Valid()
      modifies this
      ensures Valid() && begun == old(begun) && known == old(known)
      ensures recorded == if begun && !known then old(recorded) + [Unknown] else old(recorded)
    {
      if begun && !known {
        recorded := recorded + [Unknown];
      }
    }

    /** A part was read: a finish settles the charge, and a pull that throws gives it up. */
    method Answer(usage: Option<Usage>, settles: bool, open: bool) returns (ok: bool)
      requires Valid()
      modifies this
      ensures Valid() && begun == old(begun)
      ensures var costed := begun && usage.Some? && CostOf(usage.value, price).Amount?;
              known == (old(known) || costed)
              && recorded == if costed then old(recorded) + [Known(CostOf(usage.value, price).nanodollars)]
                          else if ok || !begun || old(known) then old(recorded)
                          else old(recorded) + [Unknown]
      ensures ok <==> open && (usage.Some? ==> begun && CostOf(usage.value, price).Amount? && settles)
    {
      ok := true;
      if usage.Some? {
        ok := Settle(usage.value, settles);
      }
      ok := ok && open;
      if !ok {
        GiveUp();
      }
    }

    /** The consumer cancels. An open pull ends first; nothing can be passed on any more, so it throws. */
    method Cancel(pull: OpenPull)
      requires Valid()
      modifies this
      ensures Valid() && begun == old(begun)
      ensures begun && Costed(Cancelled(pull), price) ==>
        recorded == old(recorded) + [Known(CostOf(UsageOf(Cancelled(pull)).value, price).nanodollars)]
      ensures !(begun && Costed(Cancelled(pull), price)) ==>
        recorded == old(recorded) + if !begun || old(known) then []
                                    else seq(if pull.ReadEnds? then 3 else if pull.NoPull? then 1 else 2, _ => Unknown)
    {
      match pull {
        case NoPull =>
        case ReadEnds =>
          GiveUp();
          GiveUp();  // closing the cancelled stream throws
        case GotPart =>
          var _ := Answer(None, true, false);
        case GotFinish(usage, settles) =>
          var _ := Answer(Some(usage), settles, false);
      }
      GiveUp();
    }

    /**
     The pulls of one stream. The budget hears the cost of the first usable finish,
     whatever follows it, and that the cost is unknown only if the stream ended
     before one, as often as the stream comes down; a stream still running before
     either has told it nothing.
     */
    method Stream(events: seq<Event>) returns (pulled: nat)
      requires Valid() && recorded == []
      modifies this
      ensures Valid() && begun == old(begun)
      ensures pulled <= |events|
      ensures pulled < |events| ==> pulled > 0 && (Ends(events[pulled - 1], price) || !begun)
      ensures forall i :: 0 <= i < pulled - 1 ==> !Ends(events[i], price)
      ensures Told(recorded, begun, Verdict(events, pulled, price))
    {
      pulled := 0;
      while pulled < |events|
        invariant 0 <= pulled <= |events| && Valid() && begun == old(begun)
        invariant forall i :: 0 <= i < pulled ==> !Ends(events[i], price)
        invariant Told(recorded, begun, Verdict(events, pulled, price))
        invariant Unknown !in recorded && Verdict(events, pulled, price) != Some(Unknown)
      {
        var event := events[pulled];
        pulled := pulled + 1;
        match event
        case Part =>
        case Finish(usage, settles) =>
          var ok := Answer(Some(usage), settles, true);
          if !ok {
            return;
          }
        case Done(absorbs) =>
          GiveUp();
          if !absorbs {
            GiveUp();  // the failed absorption is caught, and asked for again
          }
          return;
        case ReadFails =>
          GiveUp();
          return;
        case Cancelled(pull) =>
          Cancel(pull);
          return;
      }
    }
  }
}
