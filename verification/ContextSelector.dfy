/**
 The loops of selectContextHistory (session-context-selection.ts:10-83): it
 gathers groups, grows sets to a fixpoint and scans for the tail, and returns
 exactly what ContextSelection.Select specifies.
 */
module ContextSelector {
  import opened Wrappers
  import opened ContextSource
  import opened ContextSelection

  ghost predicate Together(groups: seq<seq<nat>>, i: nat, j: nat) {
    exists g :: 0 <= g < |groups| && i in groups[g] && j in groups[g]
  }

  ghost predicate GroupClosed(groups: seq<seq<nat>>, s: set<nat>) {
    forall g, i, j :: 0 <= g < |groups| && i in groups[g] && j in groups[g] && i in s ==> j in s
  }

  // ----- Fixpoint -----

  method AddGroup(group: seq<nat>, s: set<nat>) returns (r: set<nat>, changed: bool)
    ensures r == s + set i | i in group
    ensures changed <==> r != s
  {
    r, changed := s, false;
    var k := 0;
    while k < |group|
      invariant 0 <= k <= |group|
      invariant r == s + set i | i in group[..k]
      invariant changed <==> r != s
    {
      assert group[..k + 1] == group[..k] + [group[k]];
      if group[k] !in r {
        r := r + {group[k]};
        changed := true;
      }
      k := k + 1;
    }
    assert group[..k] == group;
  }

  /** closeGroups(): sweeps until nothing changes, and stops at the least closed superset. */
  method CloseGroups(groups: seq<seq<nat>>, start: set<nat>, ghost universe: set<nat>) returns (s: set<nat>)
    requires start <= universe
    requires forall g, i :: 0 <= g < |groups| && i in groups[g] ==> i in universe
    ensures start <= s <= universe
    ensures GroupClosed(groups, s)
    ensures forall t :: start <= t && GroupClosed(groups, t) ==> s <= t
  {
    s := start;
    var changed := true;
    while changed
      invariant start <= s <= universe
      invariant !changed ==> GroupClosed(groups, s)
      invariant forall t :: start <= t && GroupClosed(groups, t) ==> s <= t
      decreases |universe - s|, changed
    {
      changed := false;
      ghost var before := s;
      var g := 0;
      while g < |groups|
        invariant 0 <= g <= |groups|
        invariant start <= before <= s <= universe
        invariant changed <==> s != before
        invariant !changed ==> GroupClosed(groups[..g], s)
        invariant forall t :: start <= t && GroupClosed(groups, t) ==> s <= t
      {
        var group := groups[g];
        var touched := exists i :: i in group && i in s;
        if touched {
          var grown, grew := AddGroup(group, s);
          s := grown;
          changed := changed || grew;
        }
        g := g + 1;
      }
      assert groups[..g] == groups;
      if changed {
        assert universe - s < universe - before;
        SmallerSet(universe - s, universe - before);
      }
    }
  }

  lemma {:induction false} SmallerSet(a: set<nat>, b: set<nat>)
    requires a < b
    ensures |a| < |b|
  {
    var x :| x in b && x !in a;
    SubsetSize(a, b - {x});
  }

  // ----- Groups -----

  ghost predicate Lists(items: seq<Item>, positions: seq<nat>, id: Id) {
    (forall x, y :: 0 <= x < y < |positions| ==> positions[x] < positions[y])
    && forall k: nat :: k in positions <==> k < |items| && items[k].message.id == id
  }

  /** A range that starts at a step start (or the message) and ends before one holds whole segments. */
  ghost predicate WholeSegments(items: seq<Item>, positions: seq<nat>, a: nat, x: nat)
    requires ValidItems(items) && a <= x <= |positions|
    requires InBounds(items, positions)
  {
    (a > 0 && a < |positions| ==> PartOf(items[positions[a]]).StepStart?)
    && (forall y :: a < y < x ==> !PartOf(items[positions[y]]).StepStart?)
    && (x < |positions| ==> PartOf(items[positions[x]]).StepStart?)
  }

  lemma SegmentStaysInside(items: seq<Item>, positions: seq<nat>, id: Id, a: nat, x: nat, y: nat, p: nat)
    requires ValidItems(items) && Lists(items, positions, id) && a <= y < x <= |positions|
    requires InBounds(items, positions)
    requires WholeSegments(items, positions, a, x)
    ensures SameSegment(items, positions[y], p) <==> p in positions[a..x]
  {
  }

  predicate InBounds(items: seq<Item>, positions: seq<nat>) {
    forall z :: 0 <= z < |positions| ==> positions[z] < |items|
  }

  ghost predicate HasProtocol(items: seq<Item>, step: seq<nat>)
    requires ValidItems(items) && InBounds(items, step)
  {
    exists y :: 0 <= y < |step| && IsProtocol(PartOf(items[step[y]]))
  }

  /** When a step holds exactly the segment of i, sharing a protocol step means lying in a step with a protocol part. */
  lemma SegmentIsStep(items: seq<Item>, step: seq<nat>, i: nat, j: nat)
    requires ValidItems(items) && InBounds(items, step)
    requires forall p: nat :: SameSegment(items, i, p) <==> p in step
    ensures SameStep(items, i, j) <==> HasProtocol(items, step) && j in step
  {
  }

  lemma RangeIsStep(items: seq<Item>, positions: seq<nat>, id: Id, a: nat, x: nat, i: nat, j: nat)
    requires ValidItems(items) && Lists(items, positions, id) && a <= x <= |positions|
    requires InBounds(items, positions)
    requires WholeSegments(items, positions, a, x)
    requires i in positions[a..x]
    ensures SameStep(items, i, j) <==> HasProtocol(items, positions[a..x]) && j in positions[a..x]
  {
    hide Lists, SameSegment, WholeSegments, HasProtocol;
    var y :| 0 <= y < x - a && positions[a..x][y] == i;
    forall p: nat
      ensures SameSegment(items, i, p) <==> p in positions[a..x]
    {
      SegmentStaysInside(items, positions, id, a, x, a + y, p);
    }
    SegmentIsStep(items, positions[a..x], i, j);
  }

  ghost predicate StepsGrouped(items: seq<Item>, positions: seq<nat>, upTo: nat, groups: seq<seq<nat>>)
    requires ValidItems(items) && upTo <= |positions|
  {
    forall i: nat, j: nat :: Together(groups, i, j) <==> i in positions[..upTo] && SameStep(items, i, j)
  }

  lemma GroupAdded(items: seq<Item>, positions: seq<nat>, id: Id, a: nat, x: nat,
                   groups: seq<seq<nat>>, extended: seq<seq<nat>>)
    requires ValidItems(items) && Lists(items, positions, id) && a <= x <= |positions|
    requires InBounds(items, positions)
    requires WholeSegments(items, positions, a, x)
    requires StepsGrouped(items, positions, a, groups)
    requires extended == if HasProtocol(items, positions[a..x]) then groups + [positions[a..x]] else groups
    ensures StepsGrouped(items, positions, x, extended)
  {
    var protocol := HasProtocol(items, positions[a..x]);
    assert positions[..x] == positions[..a] + positions[a..x];
    forall i: nat, j: nat
      ensures Together(extended, i, j) <==> i in positions[..x] && SameStep(items, i, j)
    {
      if i in positions[a..x] {
        RangeIsStep(items, positions, id, a, x, i, j);
      }
      if Together(groups, i, j) {
        var g :| 0 <= g < |groups| && i in groups[g] && j in groups[g];
        assert extended[g] == groups[g];
      }
      if protocol && i in positions[a..x] && j in positions[a..x] {
        assert extended[|groups|] == positions[a..x];
      }
      if Together(extended, i, j) {
        var g :| 0 <= g < |extended| && i in extended[g] && j in extended[g];
        assert g < |groups| ==> extended[g] == groups[g];
      }
    }
  }

  /** The groups still to come when positions[a..x] is the open step. */
  ghost function Steps(items: seq<Item>, positions: seq<nat>, a: nat, x: nat): (r: seq<seq<nat>>)
    requires ValidItems(items) && a <= x <= |positions|
    requires InBounds(items, positions)
    decreases |positions| - x
  {
    var closing := if HasProtocol(items, positions[a..x]) then [positions[a..x]] else [];
    if x == |positions| then closing
    else if PartOf(items[positions[x]]).StepStart? then closing + Steps(items, positions, x, x + 1)
    else Steps(items, positions, a, x + 1)
  }

  ghost predicate OpenStep(items: seq<Item>, positions: seq<nat>, a: nat, x: nat)
    requires ValidItems(items) && InBounds(items, positions) && a <= x <= |positions|
  {
    (a > 0 ==> a < |positions| && PartOf(items[positions[a]]).StepStart?)
    && forall y :: a < y < x ==> !PartOf(items[positions[y]]).StepStart?
  }

  lemma {:induction false} StepsAreGrouped(items: seq<Item>, positions: seq<nat>, id: Id, a: nat, x: nat,
      groups: seq<seq<nat>>)
    requires ValidItems(items) && InBounds(items, positions) && a <= x <= |positions|
    requires Lists(items, positions, id)
    requires OpenStep(items, positions, a, x)
    requires StepsGrouped(items, positions, a, groups)
    ensures StepsGrouped(items, positions, |positions|, groups + Steps(items, positions, a, x))
    decreases |positions| - x
  {
    hide Lists, StepsGrouped, HasProtocol, SameSegment;
    if x == |positions| || PartOf(items[positions[x]]).StepStart? {
      var step := positions[a..x];
      var extended := if HasProtocol(items, step) then groups + [step] else groups;
      GroupAdded(items, positions, id, a, x, groups, extended);
      if x == |positions| {
        assert extended == groups + Steps(items, positions, a, x);
      } else {
        StepsAreGrouped(items, positions, id, x, x + 1, extended);
        var rest := Steps(items, positions, x, x + 1);
        assert Steps(items, positions, a, x) == (if HasProtocol(items, step) then [step] else []) + rest;
        hide *;
        assert groups + ([step] + rest) == (groups + [step]) + rest;
        assert [] + rest == rest;
      }
    } else {
      StepsAreGrouped(items, positions, id, a, x + 1, groups);
    }
  }

  lemma NoProtocolYet(items: seq<Item>)
    requires ValidItems(items)
    ensures !HasProtocol(items, [])
  {
  }

  lemma ProtocolOfLonger(items: seq<Item>, step: seq<nat>, k: nat)
    requires ValidItems(items) && InBounds(items, step) && k < |items|
    ensures HasProtocol(items, step + [k]) == (HasProtocol(items, step) || IsProtocol(PartOf(items[k])))
  {
    assert (step + [k])[|step|] == k;
    assert forall y :: 0 <= y < |step| ==> (step + [k])[y] == step[y];
  }

  /** The protocol steps of one message: finish() at every step-start and at the end. */
  method StepGroups(items: seq<Item>, positions: seq<nat>) returns (groups: seq<seq<nat>>)
    requires ValidItems(items) && InBounds(items, positions)
    ensures groups == Steps(items, positions, 0, 0)
  {
    hide HasProtocol;
    NoProtocolYet(items);
    groups := [];
    var step: seq<nat> := [];
    var protocol := false;
    ghost var a := 0;
    var x := 0;
    while x < |positions|
      invariant 0 <= a <= x <= |positions|
      invariant step == positions[a..x]
      invariant protocol == HasProtocol(items, step)
      invariant groups + Steps(items, positions, a, x) == Steps(items, positions, 0, 0)
    {
      var k := positions[x];
      if PartOf(items[k]).StepStart? {
        if protocol && |step| > 0 {
          groups := groups + [step];
        }
        step, protocol := [], false;
        a := x;
      }
      ProtocolOfLonger(items, step, k);
      step := step + [k];
      protocol := protocol || IsProtocol(PartOf(items[k]));
      x := x + 1;
    }
    if protocol && |step| > 0 {
      groups := groups + [step];
    }
  }

  lemma StepGroupsAreSteps(items: seq<Item>, positions: seq<nat>, id: Id)
    requires ValidItems(items) && InBounds(items, positions) && Lists(items, positions, id)
    ensures forall i: nat, j: nat :: Together(Steps(items, positions, 0, 0), i, j)
                                <==> i in positions && SameStep(items, i, j)
  {
    StepsAreGrouped(items, positions, id, 0, 0, []);
    assert [] + Steps(items, positions, 0, 0) == Steps(items, positions, 0, 0);
    assert positions[..|positions|] == positions;
  }

  /** The byMessage map: the positions of each message, in order. */
  method IndexMessages(items: seq<Item>) returns (byMessage: map<Id, seq<nat>>)
    ensures forall id :: id in byMessage ==> InBounds(items, byMessage[id]) && Lists(items, byMessage[id], id)
    ensures forall i :: 0 <= i < |items| ==> items[i].message.id in byMessage
  {
    byMessage := map[];
    var i := 0;
    while i < |items|
      invariant 0 <= i <= |items|
      invariant forall id :: id in byMessage ==>
        InBounds(items[..i], byMessage[id]) && Lists(items[..i], byMessage[id], id)
      invariant forall k :: 0 <= k < i ==> items[k].message.id in byMessage
    {
      var id := items[i].message.id;
      var group := if id in byMessage then byMessage[id] else [];
      assert Lists(items[..i], group, id);
      ListExtends(items, i, group);
      forall other | other in byMessage && other != id
        ensures InBounds(items[..i + 1], byMessage[other]) && Lists(items[..i + 1], byMessage[other], other)
      {
        ListUnchanged(items, i, byMessage[other], other);
      }
      byMessage := byMessage[id := group + [i]];
      i := i + 1;
    }
    assert items[..i] == items;
  }

  lemma ListExtends(items: seq<Item>, i: nat, group: seq<nat>)
    requires i < |items| && InBounds(items[..i], group) && Lists(items[..i], group, items[i].message.id)
    ensures InBounds(items[..i + 1], group + [i]) && Lists(items[..i + 1], group + [i], items[i].message.id)
  {
  }

  lemma ListUnchanged(items: seq<Item>, i: nat, group: seq<nat>, id: Id)
    requires i < |items| && InBounds(items[..i], group) && Lists(items[..i], group, id) && items[i].message.id != id
    ensures InBounds(items[..i + 1], group) && Lists(items[..i + 1], group, id)
  {
  }

  ghost predicate CallsGrouped(items: seq<Item>, upTo: nat, calls: map<Id, seq<nat>>)
    requires ValidItems(items) && upTo <= |items|
  {
    (forall call, k: nat {:trigger k in calls[call]} :: call in calls && k in calls[call] ==>
       k < upTo && PartOf(items[k]).ToolInvocation? && PartOf(items[k]).toolCallId == call)
    && forall k :: 0 <= k < upTo && PartOf(items[k]).ToolInvocation? ==>
         PartOf(items[k]).toolCallId in calls && k in calls[PartOf(items[k]).toolCallId]
  }

  /** The calls map: every representation of one tool call. */
  method IndexCalls(items: seq<Item>) returns (calls: map<Id, seq<nat>>)
    requires ValidItems(items)
    ensures CallsGrouped(items, |items|, calls)
  {
    calls := map[];
    var i := 0;
    while i < |items|
      invariant 0 <= i <= |items|
      invariant CallsGrouped(items, i, calls)
    {
      var part := PartOf(items[i]);
      if part.ToolInvocation? {
        var group := if part.toolCallId in calls then calls[part.toolCallId] else [];
        calls := calls[part.toolCallId := group + [i]];
        assert forall k :: k in group + [i] <==> k in group || k == i;
      }
      i := i + 1;
    }
  }

  lemma CallMembers(items: seq<Item>, calls: map<Id, seq<nat>>, call: Id, i: nat, j: nat)
    requires ValidItems(items) && CallsGrouped(items, |items|, calls) && call in calls
    ensures i in calls[call] && j in calls[call] <==> SameCall(items, i, j) && PartOf(items[i]).toolCallId == call
  {
  }

  method CallGroups(items: seq<Item>) returns (groups: seq<seq<nat>>)
    requires ValidItems(items)
    ensures forall i: nat, j: nat :: Together(groups, i, j) <==> SameCall(items, i, j)
  {
    var calls := IndexCalls(items);
    groups := [];
    var left := calls.Keys;
    while left != {}
      invariant left <= calls.Keys
      invariant forall i :: 0 <= i < |items| && PartOf(items[i]).ToolInvocation? ==>
        PartOf(items[i]).toolCallId in calls
      invariant forall i: nat, j: nat :: Together(groups, i, j) <==>
        SameCall(items, i, j) && PartOf(items[i]).toolCallId !in left
      decreases |left|
    {
      var call :| call in left;
      ghost var before := groups;
      groups := groups + [calls[call]];
      assert groups[|before|] == calls[call];
      left := left - {call};
      forall i: nat, j: nat
        ensures Together(groups, i, j) <==> SameCall(items, i, j) && PartOf(items[i]).toolCallId !in left
      {
        TogetherAppended(before, calls[call], i, j);
        CallMembers(items, calls, call, i, j);
      }
    }
  }

  lemma TogetherAppended(groups: seq<seq<nat>>, group: seq<nat>, i: nat, j: nat)
    ensures Together(groups + [group], i, j) <==> Together(groups, i, j) || (i in group && j in group)
  {
    TogetherConcatenated(groups, [group], i, j);
    assert [group][0] == group;
  }

  lemma TogetherConcatenated(a: seq<seq<nat>>, b: seq<seq<nat>>, i: nat, j: nat)
    ensures Together(a + b, i, j) <==> Together(a, i, j) || Together(b, i, j)
  {
    if Together(a, i, j) {
      var g :| 0 <= g < |a| && i in a[g] && j in a[g];
      assert (a + b)[g] == a[g];
    }
    if Together(b, i, j) {
      var g :| 0 <= g < |b| && i in b[g] && j in b[g];
      assert (a + b)[|a| + g] == b[g];
    }
  }

  ghost predicate InMessages(messages: seq<Message>, id: Id) {
    exists m :: 0 <= m < |messages| && messages[m].id == id
  }

  ghost predicate FromMessages(items: seq<Item>, messages: seq<Message>) {
    forall i :: 0 <= i < |items| ==> items[i].message in messages
  }

  /** Steps and envelopes of every source message. */
  method MessageGroups(messages: seq<Message>, items: seq<Item>) returns (groups: seq<seq<nat>>)
    requires ValidItems(items) && Distinct(messages) && FromMessages(items, messages)
    ensures forall i: nat, j: nat :: Together(groups, i, j) <==> SameStep(items, i, j) || SameEnvelope(items, i, j)
  {
    var byMessage := IndexMessages(items);
    groups := [];
    var m := 0;
    while m < |messages|
      invariant 0 <= m <= |messages|
      invariant forall i: nat, j: nat :: Together(groups, i, j) <==>
        i < |items| && InMessages(messages[..m], items[i].message.id)
          && (SameStep(items, i, j) || SameEnvelope(items, i, j))
    {
      var message := messages[m];
      ghost var before := groups;
      if message.id in byMessage {
        var positions := byMessage[message.id];
        var steps := StepGroups(items, positions);
        groups := groups + steps + if Enveloped(message) then [positions] else [];
        OneMessageGrouped(messages, items, m, positions, before, groups);
      } else {
        NoItemsOf(messages, items, m);
      }
      m := m + 1;
    }
    assert messages[..m] == messages;
    EveryItemHasMessage(messages, items);
  }

  lemma InLonger(messages: seq<Message>, m: nat, id: Id)
    requires m < |messages|
    ensures InMessages(messages[..m + 1], id) <==> InMessages(messages[..m], id) || messages[m].id == id
  {
  }

  lemma NoItemsOf(messages: seq<Message>, items: seq<Item>, m: nat)
    requires m < |messages|
    requires forall i :: 0 <= i < |items| ==> items[i].message.id != messages[m].id
    ensures forall i :: 0 <= i < |items| ==>
      (InMessages(messages[..m + 1], items[i].message.id) <==> InMessages(messages[..m], items[i].message.id))
  {
  }

  lemma EveryItemHasMessage(messages: seq<Message>, items: seq<Item>)
    requires FromMessages(items, messages)
    ensures forall i :: 0 <= i < |items| ==> InMessages(messages, items[i].message.id)
  {
  }

  lemma OneMessageGrouped(messages: seq<Message>, items: seq<Item>, m: nat, positions: seq<nat>,
                          before: seq<seq<nat>>, after: seq<seq<nat>>)
    requires ValidItems(items) && Distinct(messages) && FromMessages(items, messages) && m < |messages|
    requires InBounds(items, positions) && Lists(items, positions, messages[m].id)
    requires forall i: nat, j: nat :: Together(before, i, j) <==>
      i < |items| && InMessages(messages[..m], items[i].message.id)
        && (SameStep(items, i, j) || SameEnvelope(items, i, j))
    requires after == before + Steps(items, positions, 0, 0) + if Enveloped(messages[m]) then [positions] else []
    ensures forall i: nat, j: nat :: Together(after, i, j) <==>
      i < |items| && InMessages(messages[..m + 1], items[i].message.id)
        && (SameStep(items, i, j) || SameEnvelope(items, i, j))
  {
    var steps := Steps(items, positions, 0, 0);
    StepGroupsAreSteps(items, positions, messages[m].id);
    forall i: nat, j: nat
      ensures Together(after, i, j) <==>
        i < |items| && InMessages(messages[..m + 1], items[i].message.id)
          && (SameStep(items, i, j) || SameEnvelope(items, i, j))
    {
      if i < |items| {
        InLonger(messages, m, items[i].message.id);
        EnvelopeOf(messages, items, m, i);
      }
      if j < |items| {
        EnvelopeOf(messages, items, m, j);
      }
      TogetherConcatenated(before, steps, i, j);
      if Enveloped(messages[m]) {
        TogetherAppended(before + steps, positions, i, j);
      } else {
        assert after == before + steps;
      }
    }
  }

  lemma EnvelopeOf(messages: seq<Message>, items: seq<Item>, m: nat, i: nat)
    requires Distinct(messages) && FromMessages(items, messages) && m < |messages| && i < |items|
    ensures items[i].message.id == messages[m].id <==> items[i].message == messages[m]
  {
  }

  /** All groups: together in some group exactly when bound. */
  method BuildGroups(messages: seq<Message>, items: seq<Item>) returns (groups: seq<seq<nat>>)
    requires ValidItems(items) && Distinct(messages) && FromMessages(items, messages)
    ensures forall i: nat, j: nat :: Together(groups, i, j) <==> Bound(items, i, j)
  {
    var ofMessages := MessageGroups(messages, items);
    var ofCalls := CallGroups(items);
    groups := ofMessages + ofCalls;
    forall i: nat, j: nat
      ensures Together(groups, i, j) <==> Bound(items, i, j)
    {
      TogetherConcatenated(ofMessages, ofCalls, i, j);
    }
  }

  // ----- The scan and the whole selection -----

  ghost predicate Express(items: seq<Item>, groups: seq<seq<nat>>)
    requires ValidItems(items)
  {
    forall i: nat, j: nat :: Together(groups, i, j) <==> Bound(items, i, j)
  }

  lemma GroupClosedIsClosed(items: seq<Item>, groups: seq<seq<nat>>, t: set<nat>)
    requires ValidItems(items) && Express(items, groups)
    ensures GroupClosed(groups, t) <==> ClosedUnder(items, t)
  {
  }

  method Close(items: seq<Item>, groups: seq<seq<nat>>, start: set<nat>) returns (s: set<nat>)
    requires ValidItems(items) && Express(items, groups) && start <= Positions(items)
    ensures s == Closure(items, start)
    ensures start <= s <= Positions(items)
  {
    forall g, i: nat | 0 <= g < |groups| && i in groups[g]
      ensures i in Positions(items)
    {
      assert Together(groups, i, i);
    }
    s := CloseGroups(groups, start, Positions(items));
    GroupClosedIsClosed(items, groups, s);
    forall t | start <= t && ClosedUnder(items, t)
      ensures s <= t
    {
      GroupClosedIsClosed(items, groups, t);
    }
    LeastIsClosure(items, start, s);
  }

  method TotalCost(costs: seq<nat>, s: set<nat>) returns (total: nat)
    ensures total == Cost(costs, s, |costs|)
  {
    total := 0;
    var i := 0;
    while i < |costs|
      invariant 0 <= i <= |costs|
      invariant total == Cost(costs, s, i)
    {
      if i in s {
        total := total + costs[i];
      }
      i := i + 1;
    }
  }

  lemma NextSuffix(items: seq<Item>, index: nat)
    requires ValidItems(items) && index < |items|
    ensures Suffix(items, index) == Suffix(items, index + 1) + {index}
    ensures Closure(items, Closure(items, Suffix(items, index + 1)) + {index}) == Closure(items, Suffix(items, index))
    ensures index in Closure(items, Suffix(items, index + 1)) ==>
      Closure(items, Suffix(items, index)) == Closure(items, Suffix(items, index + 1))
  {
  }

  /** The greedy scan from the newest part, stopping at the first closure that is too expensive. */
  method RetainTail(items: seq<Item>, groups: seq<seq<nat>>, costs: seq<nat>, budget: int) returns (retained: set<nat>)
    requires ValidItems(items) && Express(items, groups) && |costs| == |items| && budget >= 0
    ensures retained == Closure(items, Suffix(items, TailStart(items, costs, budget, |items|)))
    ensures retained <= Positions(items)
  {
    hide Bound, Closure, Cost, Express;
    EmptyTailFits(items, costs, budget);
    retained := {};
    var index := |items|;
    while index > 0
      invariant 0 <= index <= |items|
      invariant retained == Closure(items, Suffix(items, index)) <= Positions(items)
      invariant TailFits(items, costs, budget, index)
      invariant TailStart(items, costs, budget, index) == TailStart(items, costs, budget, |items|)
    {
      NextSuffix(items, index - 1);
      if index - 1 !in retained {
        var candidate := Close(items, groups, retained + {index - 1});
        var total := TotalCost(costs, candidate);
        if total > budget {
          return;
        }
        retained := retained + candidate;
      }
      index := index - 1;
    }
  }

  method PinParts(items: seq<Item>, retained: set<nat>, options: Options) returns (r: set<nat>)
    requires ValidItems(items)
    ensures r == retained + Pinned(items, options)
  {
    r := retained;
    var i := 0;
    while i < |items|
      invariant 0 <= i <= |items|
      invariant forall k :: k in r <==> k in retained || (0 <= k < i && k in Pinned(items, options))
    {
      if Some(items[i].message.id) == options.currentRequestId || items[i].message.id in options.fixedMessageIds
         || Unfinished(PartOf(items[i]))
      {
        r := r + {i};
      }
      i := i + 1;
    }
  }

  method PickReferences(items: seq<Item>, retained: set<nat>) returns (kept: seq<Reference>, removed: seq<Reference>)
    ensures kept == Pick(items, retained, |items|)
    ensures removed == Pick(items, Positions(items) - retained, |items|)
  {
    kept, removed := [], [];
    var i := 0;
    while i < |items|
      invariant 0 <= i <= |items|
      invariant kept == Pick(items, retained, i)
      invariant removed == Pick(items, Positions(items) - retained, i)
    {
      if i in retained {
        kept := kept + [ReferenceOf(items[i])];
      } else {
        removed := removed + [ReferenceOf(items[i])];
      }
      i := i + 1;
    }
  }

  /** Everything between the active parts and the retained positions. */
  method ChooseRetained(messages: seq<Message>, items: seq<Item>, costs: seq<nat>, options: Options)
    returns (retained: set<nat>)
    requires ValidItems(items) && Distinct(messages) && FromMessages(items, messages)
    requires |costs| == |items| && options.recentTokens >= 0
    ensures retained == RetainedPositions(items, costs, options)
  {
    var groups := BuildGroups(messages, items);
    var tail := RetainTail(items, groups, costs, options.recentTokens);
    var pinned := PinParts(items, tail, options);
    retained := Close(items, groups, pinned);
    ClosureAbsorbs(items, Suffix(items, TailStart(items, costs, options.recentTokens, |items|)),
      Pinned(items, options));
  }

  /** flatten(): refuses a repeated identity, otherwise lists every part in order. */
  method Flatten(messages: seq<Message>) returns (r: Result<seq<Item>, ContextError>)
    ensures r == if Distinct(messages) then Success(AllItems(messages)) else Failure(DuplicateMessage)
  {
    var ids: set<Id> := {};
    var items: seq<Item> := [];
    var n := 0;
    while n < |messages|
      invariant 0 <= n <= |messages|
      invariant forall id :: id in ids <==> InMessages(messages[..n], id)
      invariant Distinct(messages[..n])
      invariant items == AllItems(messages[..n])
    {
      InLonger(messages, n, messages[n].id);
      assert messages[..n + 1][..n] == messages[..n];
      if messages[n].id in ids {
        var k :| 0 <= k < n && messages[..n][k].id == messages[n].id;
        assert messages[k].id == messages[n].id;
        return Failure(DuplicateMessage);
      }
      forall id ensures id in ids + {messages[n].id} <==> InMessages(messages[..n + 1], id) {
        InLonger(messages, n, id);
      }
      assert forall i :: 0 <= i < n ==> messages[..n + 1][i] == messages[..n][i];
      forall i | 0 <= i < n ensures messages[i].id != messages[n].id {
        assert InMessages(messages[..n], messages[..n][i].id);
      }
      ids := ids + {messages[n].id};
      items := items + MessageItems(messages[n], |messages[n].parts|);
      n := n + 1;
    }
    assert messages[..n] == messages;
    r := Success(items);
  }

  method FilterActive(items: seq<Item>, excluded: set<Id>, keys: Option<set<Reference>>) returns (active: seq<Item>)
    ensures active == Active(items, excluded, keys)
  {
    active := [];
    var i := 0;
    while i < |items|
      invariant 0 <= i <= |items|
      invariant active == Active(items[..i], excluded, keys)
    {
      assert items[..i + 1][..i] == items[..i];
      if items[i].message.id !in excluded && (keys.None? || ReferenceOf(items[i]) in keys.value) {
        active := active + [items[i]];
      }
      i := i + 1;
    }
    assert items[..i] == items;
  }

  lemma {:induction false} ItemsComeFromMessages(messages: seq<Message>)
    ensures FromMessages(AllItems(messages), messages)
    ensures forall x :: x in AllItems(messages) ==> x.message in messages
  {
    if |messages| > 0 {
      ItemsComeFromMessages(messages[..|messages| - 1]);
    }
  }

  method ActiveKeys(messages: seq<Message>, previous: Option<Boundary>)
    returns (r: Result<Option<set<Reference>>, ContextError>)
    ensures r == PreviousKeys(messages, previous)
  {
    match previous
    case None => r := Success(None);
    case Some(boundary) =>
      var effective := ComputeEffectiveReferences(messages, boundary);
      r := match effective
        case Failure(e) => Failure(e)
        case Success(refs) => Success(Some(set x | x in refs));
  }

  /** selectContextHistory(). */
  method SelectContextHistory(messages: seq<Message>, options: Options, cost: Part -> nat)
    returns (r: Result<Selection, ContextError>)
    ensures r == Select(messages, options, cost)
  {
    if options.recentTokens < 1 || options.recentTokens > MAX_SAFE_INTEGER {
      return Failure(TailBudgetInvalid);
    }
    var keys := ActiveKeys(messages, options.previous);
    if keys.Failure? {
      return Failure(keys.error);
    }
    var flat := Flatten(messages);
    if flat.Failure? {
      return Failure(flat.error);
    }
    var items := FilterActive(flat.value, options.excludedMessageIds, keys.value);
    if options.currentRequestId.Some? && options.currentRequestId.value != ""
       && !(exists i :: 0 <= i < |items| && items[i].message.id == options.currentRequestId.value
                        && items[i].message.header.role == User)
    {
      return Failure(CurrentRequestMissing);
    }
    ItemsComeFromMessages(messages);
    var costs := CostsOf(items, cost);
    var kept := ChooseRetained(messages, items, costs, options);
    var retainedParts, removedParts := PickReferences(items, kept);
    PickedResolve(messages, items, kept);
    PickedResolve(messages, items, Positions(items) - kept);
    var retained := Project(messages, retainedParts);
    var removed := Project(messages, removedParts);
    r := Success(Selection(retainedParts, removedParts, retained.value, removed.value));
  }

  lemma PickedResolve(messages: seq<Message>, items: seq<Item>, s: set<nat>)
    requires Distinct(messages) && ValidItems(items) && FromMessages(items, messages)
    ensures AllResolve(messages, Pick(items, s, |items|))
  {
    forall r | r in Pick(items, s, |items|)
      ensures Resolves(messages, r)
    {
      PickedIff(items, s, |items|, r);
      var i :| 0 <= i < |items| && i in s && ReferenceOf(items[i]) == r;
      var m :| 0 <= m < |messages| && messages[m] == items[i].message;
      ResolvesIsValid(messages, r);
    }
  }
}
