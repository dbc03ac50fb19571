/**
 Choosing the retained tail at compaction (session-context-selection.ts).

 Two parts are bound when the source may not separate them: they lie in one
 protocol step, in one message with a top-level envelope, or they represent the
 same tool call. The specification speaks only of that relation; the groups,
 the growing sets and the greedy scan are the method's business.
 */
module ContextSelection {
  import opened Wrappers
  import opened ContextSource

  datatype Item = Item(message: Message, partIndex: nat)

  datatype Options = Options(
    recentTokens: int,
    currentRequestId: Option<Id>,
    fixedMessageIds: set<Id>,
    excludedMessageIds: set<Id>,
    previous: Option<Boundary>)

  datatype Selection = Selection(
    retainedParts: seq<Reference>,
    removedParts: seq<Reference>,
    retained: seq<Message>,
    removed: seq<Message>)

  const MAX_SAFE_INTEGER := 9_007_199_254_740_991

  predicate ValidItem(item: Item) {
    item.partIndex < |item.message.parts|
  }

  predicate ValidItems(items: seq<Item>) {
    forall i :: 0 <= i < |items| ==> ValidItem(items[i])
  }

  function PartOf(item: Item): (r: Part)
    requires ValidItem(item)
  {
    item.message.parts[item.partIndex]
  }

  function ReferenceOf(item: Item): (r: Reference) {
    Reference(item.message.id, item.partIndex)
  }

  predicate Enveloped(message: Message) {
    exists key :: key in message.header.contentKeys && key !in {"format", "parts", "metadata"}
  }

  predicate IsProtocol(part: Part) {
    part.Reasoning? || part.ToolInvocation? || part.StepStart?
  }

  predicate Unfinished(part: Part) {
    part.ToolInvocation? && part.state !in {"result", "output-error", "output-denied"}
  }

  // ----- What may not be separated -----

  ghost predicate SameSegment(items: seq<Item>, i: nat, j: nat)
    requires ValidItems(items)
  {
    i < |items| && j < |items| && items[i].message.id == items[j].message.id
    && forall k :: (i < k <= j || j < k <= i) && items[k].message.id == items[i].message.id ==>
      !PartOf(items[k]).StepStart?
  }

  ghost predicate SameStep(items: seq<Item>, i: nat, j: nat)
    requires ValidItems(items)
  {
    SameSegment(items, i, j) && exists p: nat :: SameSegment(items, i, p) && IsProtocol(PartOf(items[p]))
  }

  ghost predicate SameEnvelope(items: seq<Item>, i: nat, j: nat) {
    i < |items| && j < |items| && items[i].message == items[j].message && Enveloped(items[i].message)
  }

  ghost predicate SameCall(items: seq<Item>, i: nat, j: nat)
    requires ValidItems(items)
  {
    i < |items| && j < |items|
    && PartOf(items[i]).ToolInvocation? && PartOf(items[j]).ToolInvocation?
    && PartOf(items[i]).toolCallId == PartOf(items[j]).toolCallId
  }

  ghost predicate Bound(items: seq<Item>, i: nat, j: nat)
    requires ValidItems(items)
  {
    SameStep(items, i, j) || SameEnvelope(items, i, j) || SameCall(items, i, j)
  }

  ghost predicate ClosedUnder(items: seq<Item>, s: set<nat>)
    requires ValidItems(items)
  {
    forall i, j :: i in s && Bound(items, i, j) ==> j in s
  }

  predicate AtOrAfter(i: nat, from: nat) {
    from <= i
  }

  ghost function Suffix(items: seq<Item>, from: nat): (r: set<nat>) {
    set i | 0 <= i < |items| && AtOrAfter(i, from)
  }

  ghost function Positions(items: seq<Item>): (r: set<nat>) {
    Suffix(items, 0)
  }

  /** The least closed set containing s. */
  ghost function Closure(items: seq<Item>, s: set<nat>): (r: set<nat>)
    requires ValidItems(items)
  {
    set i | 0 <= i < |items| && InEveryClosedSuperset(items, s, i)
  }

  ghost predicate InEveryClosedSuperset(items: seq<Item>, s: set<nat>, i: nat)
    requires ValidItems(items)
  {
    forall t: set<nat> :: s <= t && ClosedUnder(items, t) ==> i in t
  }

  lemma ClosureIsLeast(items: seq<Item>, s: set<nat>)
    requires ValidItems(items) && s <= Positions(items)
    ensures s <= Closure(items, s) <= Positions(items)
    ensures ClosedUnder(items, Closure(items, s))
    ensures forall t :: s <= t && ClosedUnder(items, t) ==> Closure(items, s) <= t
  {
  }

  /** A closed superset contained in every closed superset is the closure. */
  lemma LeastIsClosure(items: seq<Item>, s: set<nat>, r: set<nat>)
    requires ValidItems(items) && s <= r <= Positions(items) && ClosedUnder(items, r)
    requires forall t :: s <= t && ClosedUnder(items, t) ==> r <= t
    ensures r == Closure(items, s)
  {
  }

  lemma ClosureMonotone(items: seq<Item>, a: set<nat>, b: set<nat>)
    requires ValidItems(items) && a <= b <= Positions(items)
    ensures Closure(items, a) <= Closure(items, b)
  {
  }

  /** Closing in two rounds is closing once: the fixpoint may be reached incrementally. */
  lemma ClosureAbsorbs(items: seq<Item>, a: set<nat>, b: set<nat>)
    requires ValidItems(items) && a <= Positions(items) && b <= Positions(items)
    ensures Closure(items, a) + b <= Positions(items)
    ensures Closure(items, Closure(items, a) + b) == Closure(items, a + b)
  {
  }

  // ----- The budgeted tail -----

  ghost function Cost(costs: seq<nat>, s: set<nat>, upTo: nat): (r: nat)
    requires upTo <= |costs|
  {
    if upTo == 0 then 0 else Cost(costs, s, upTo - 1) + (if upTo - 1 in s then costs[upTo - 1] else 0)
  }

  lemma {:induction false} CostMonotone(costs: seq<nat>, a: set<nat>, b: set<nat>, upTo: nat)
    requires upTo <= |costs| && a <= b
    ensures Cost(costs, a, upTo) <= Cost(costs, b, upTo)
  {
    if upTo > 0 {
      CostMonotone(costs, a, b, upTo - 1);
    }
  }

  ghost predicate TailFits(items: seq<Item>, costs: seq<nat>, budget: int, from: nat)
    requires ValidItems(items) && |costs| == |items|
  {
    Cost(costs, Closure(items, Suffix(items, from)), |costs|) <= budget
  }

  /** Where the longest affordable suffix begins. */
  ghost function TailStart(items: seq<Item>, costs: seq<nat>, budget: int, from: nat): (start: nat)
    requires ValidItems(items) && |costs| == |items|
    ensures start <= from
  {
    if from == 0 || !TailFits(items, costs, budget, from - 1) then from
    else TailStart(items, costs, budget, from - 1)
  }

  lemma ShorterTailIsCheaper(items: seq<Item>, costs: seq<nat>, budget: int, a: nat, b: nat)
    requires ValidItems(items) && |costs| == |items| && a <= b
    requires TailFits(items, costs, budget, a)
    ensures TailFits(items, costs, budget, b)
  {
    ClosureMonotone(items, Suffix(items, b), Suffix(items, a));
    CostMonotone(costs, Closure(items, Suffix(items, b)), Closure(items, Suffix(items, a)), |costs|);
  }

  lemma EmptyTailFits(items: seq<Item>, costs: seq<nat>, budget: int)
    requires ValidItems(items) && |costs| == |items| && budget >= 0
    ensures Closure(items, Suffix(items, |items|)) == {}
    ensures TailFits(items, costs, budget, |items|)
  {
    assert Suffix(items, |items|) == {};
    assert ClosedUnder(items, {});
    ClosureIsLeast(items, {});
    NothingCostsNothing(costs, |costs|);
  }

  lemma {:induction false} NothingCostsNothing(costs: seq<nat>, upTo: nat)
    requires upTo <= |costs|
    ensures Cost(costs, {}, upTo) == 0
  {
    if upTo > 0 {
      NothingCostsNothing(costs, upTo - 1);
    }
  }

  lemma {:induction false} TailStartFrom(items: seq<Item>, costs: seq<nat>, budget: int, from: nat)
    requires ValidItems(items) && |costs| == |items|
    requires TailFits(items, costs, budget, from)
    ensures var start := TailStart(items, costs, budget, from);
            TailFits(items, costs, budget, start)
            && (start > 0 ==> !TailFits(items, costs, budget, start - 1))
  {
    if from > 0 && TailFits(items, costs, budget, from - 1) {
      TailStartFrom(items, costs, budget, from - 1);
    }
  }

  /** The budget keeps exactly the affordable suffixes: no longer one fits, every shorter one does. */
  lemma TailStartIsLongest(items: seq<Item>, costs: seq<nat>, budget: int, k: nat)
    requires ValidItems(items) && |costs| == |items| && budget >= 0 && k <= |items|
    ensures TailFits(items, costs, budget, k) <==> k >= TailStart(items, costs, budget, |items|)
  {
    EmptyTailFits(items, costs, budget);
    TailStartFrom(items, costs, budget, |items|);
    var start := TailStart(items, costs, budget, |items|);
    if k >= start {
      ShorterTailIsCheaper(items, costs, budget, start, k);
    } else if TailFits(items, costs, budget, k) {
      ShorterTailIsCheaper(items, costs, budget, k, start - 1);
    }
  }

  /** Positions that stay whatever they cost. */
  ghost function Pinned(items: seq<Item>, options: Options): (r: set<nat>)
    requires ValidItems(items)
  {
    set i | 0 <= i < |items| &&
      (Some(items[i].message.id) == options.currentRequestId
       || items[i].message.id in options.fixedMessageIds
       || Unfinished(PartOf(items[i])))
  }

  ghost function RetainedPositions(items: seq<Item>, costs: seq<nat>, options: Options): (r: set<nat>)
    requires ValidItems(items) && |costs| == |items|
  {
    Closure(items, Suffix(items, TailStart(items, costs, options.recentTokens, |items|)) + Pinned(items, options))
  }

  // ----- The whole selection -----

  function MessageItems(message: Message, upTo: nat): (items: seq<Item>)
    requires upTo <= |message.parts|
    ensures |items| == upTo
    ensures forall k :: 0 <= k < upTo ==> items[k] == Item(message, k)
  {
    seq(upTo, k requires k >= 0 => Item(message, k))
  }

  function AllItems(messages: seq<Message>): (items: seq<Item>)
    ensures ValidItems(items)
  {
    if |messages| == 0 then []
    else
      var last := messages[|messages| - 1];
      AllItems(messages[..|messages| - 1]) + MessageItems(last, |last.parts|)
  }

  function Active(items: seq<Item>, excluded: set<Id>, keys: Option<set<Reference>>): (active: seq<Item>)
    ensures ValidItems(items) ==> ValidItems(active)
    ensures forall x :: x in active <==>
      x in items && x.message.id !in excluded && (keys.None? || ReferenceOf(x) in keys.value)
  {
    if |items| == 0 then []
    else
      var last := items[|items| - 1];
      var rest := Active(items[..|items| - 1], excluded, keys);
      if last.message.id !in excluded && (keys.None? || ReferenceOf(last) in keys.value) then rest + [last] else rest
  }

  function Pick(items: seq<Item>, s: set<nat>, upTo: nat): (refs: seq<Reference>)
    requires upTo <= |items|
  {
    if upTo == 0 then []
    else
      var rest := Pick(items, s, upTo - 1);
      if upTo - 1 in s then rest + [ReferenceOf(items[upTo - 1])] else rest
  }

  ghost function PreviousKeys(messages: seq<Message>, previous: Option<Boundary>)
    : (result: Result<Option<set<Reference>>, ContextError>) {
    match previous
    case None => Success(None)
    case Some(boundary) =>
      match EffectiveReferences(messages, boundary)
      case Failure(e) => Failure(e)
      case Success(refs) => Success(Some(set r | r in refs))
  }

  function CostsOf(items: seq<Item>, cost: Part -> nat): (costs: seq<nat>)
    requires ValidItems(items)
    ensures |costs| == |items|
  {
    seq<nat>(|items|, i requires 0 <= i < |items| => cost(PartOf(items[i])))
  }

  ghost predicate HasCurrentRequest(items: seq<Item>, id: Id) {
    exists i :: 0 <= i < |items| && items[i].message.id == id && items[i].message.header.role == User
  }

  ghost function Select(messages: seq<Message>, options: Options, cost: Part -> nat)
    : (result: Result<Selection, ContextError>) {
    if options.recentTokens < 1 || options.recentTokens > MAX_SAFE_INTEGER then Failure(TailBudgetInvalid)
    else
      var keys := PreviousKeys(messages, options.previous);
      if keys.Failure? then Failure(keys.error)
      else if !Distinct(messages) then Failure(DuplicateMessage)
      else
        var items := Active(AllItems(messages), options.excludedMessageIds, keys.value);
        if options.currentRequestId.Some? && options.currentRequestId.value != ""
           && !HasCurrentRequest(items, options.currentRequestId.value)
        then Failure(CurrentRequestMissing)
        else
          var kept := RetainedPositions(items, CostsOf(items, cost), options);
          var retainedParts := Pick(items, kept, |items|);
          var removedParts := Pick(items, Positions(items) - kept, |items|);
          Success(Selection(retainedParts, removedParts,
                            Projection(messages, set r | r in retainedParts),
                            Projection(messages, set r | r in removedParts)))
  }

  lemma {:induction false} PickedIff(items: seq<Item>, s: set<nat>, upTo: nat, r: Reference)
    requires upTo <= |items|
    ensures r in Pick(items, s, upTo) <==> exists i :: 0 <= i < upTo && i in s && ReferenceOf(items[i]) == r
  {
    if upTo > 0 {
      PickedIff(items, s, upTo - 1, r);
    }
  }
}
