/**
 Grouping evidence so that no tool exchange is torn apart
 (session-context-batches.ts:75-93).
 */
module EvidenceGroups {
  import opened Wrappers
  import opened ContextSource

  predicate Calls(message: Message, call: Id) {
    exists p :: 0 <= p < |message.parts| && message.parts[p].ToolInvocation? && message.parts[p].toolCallId == call
  }

  /** No tool call has representations on both sides of the cut. */
  ghost predicate CleanCut(messages: seq<Message>, cut: nat) {
    forall i, j, call :: 0 <= i < cut <= j < |messages| && Calls(messages[i], call) ==> !Calls(messages[j], call)
  }

  function Flatten<T>(groups: seq<seq<T>>): (r: seq<T>) {
    if |groups| == 0 then [] else Flatten(groups[..|groups| - 1]) + groups[|groups| - 1]
  }

  /** Where the groups meet, the end included. */
  ghost function Cuts<T>(groups: seq<seq<T>>): (r: set<nat>) {
    if |groups| == 0 then {} else Cuts(groups[..|groups| - 1]) + {|Flatten(groups)|}
  }

  ghost predicate NonEmptyGroups<T>(groups: seq<seq<T>>) {
    forall g :: 0 <= g < |groups| ==> groups[g] != []
  }

  /** The contract of the grouping: a partition cut at every clean place and nowhere else. */
  ghost predicate FinestGrouping(messages: seq<Message>, groups: seq<seq<Message>>) {
    Flatten(groups) == messages
    && NonEmptyGroups(groups)
    && forall cut :: cut in Cuts(groups) <==> 0 < cut <= |messages| && CleanCut(messages, cut)
  }

  ghost predicate CallWithin(group: seq<Message>, call: Id) {
    exists m :: 0 <= m < |group| && Calls(group[m], call)
  }

  ghost predicate NoSharedCall(groups: seq<seq<Message>>) {
    forall g, h, call :: 0 <= g < h < |groups| && CallWithin(groups[g], call) ==> !CallWithin(groups[h], call)
  }

  lemma {:induction false} FlattenAt<T>(groups: seq<seq<T>>, g: nat, m: nat)
    requires g < |groups| && m < |groups[g]|
    ensures |Flatten(groups[..g])| + m < |Flatten(groups)|
    ensures Flatten(groups)[|Flatten(groups[..g])| + m] == groups[g][m]
    ensures |Flatten(groups[..g + 1])| == |Flatten(groups[..g])| + |groups[g]|
  {
    var n := |groups| - 1;
    assert groups[..g + 1][..g] == groups[..g];
    if g < n {
      FlattenAt(groups[..n], g, m);
      assert groups[..n][..g] == groups[..g];
      assert groups[..n][..g + 1] == groups[..g + 1];
    } else {
      assert groups[..g + 1] == groups;
    }
  }

  lemma {:induction false} CutsAreMeetings<T>(groups: seq<seq<T>>, cut: nat)
    ensures cut in Cuts(groups) <==> exists g :: 0 < g <= |groups| && cut == |Flatten(groups[..g])|
  {
    if |groups| > 0 {
      var n := |groups| - 1;
      CutsAreMeetings(groups[..n], cut);
      assert groups[..|groups|] == groups;
      assert forall g :: 0 < g <= n ==> groups[..n][..g] == groups[..g];
    }
  }

  lemma {:induction false} FlattenSplits<T>(groups: seq<seq<T>>, g: nat)
    requires g <= |groups|
    ensures Flatten(groups) == Flatten(groups[..g]) + Flatten(groups[g..])
  {
    if g == |groups| {
      assert groups[..g] == groups && groups[g..] == [];
    } else {
      var n := |groups| - 1;
      FlattenSplits(groups[..n], g);
      assert groups[..n][..g] == groups[..g];
      assert groups[g..][..|groups[g..]| - 1] == groups[..n][g..];
    }
  }

  /** No tool call spans two groups of the finest grouping. */
  lemma FinestKeepsCallsTogether(messages: seq<Message>, groups: seq<seq<Message>>)
    requires FinestGrouping(messages, groups)
    ensures NoSharedCall(groups)
  {
    forall g, h, call | 0 <= g < h < |groups| && CallWithin(groups[g], call)
      ensures !CallWithin(groups[h], call)
    {
      if CallWithin(groups[h], call) {
        var a :| 0 <= a < |groups[g]| && Calls(groups[g][a], call);
        var b :| 0 <= b < |groups[h]| && Calls(groups[h][b], call);
        FlattenAt(groups, g, a);
        FlattenAt(groups, h, b);
        var cut := |Flatten(groups[..g + 1])|;
        CutsAreMeetings(groups, cut);
        FlattenPrefixGrows(groups, g + 1, h);
        assert false;
      }
    }
  }

  lemma {:induction false} FlattenPrefixGrows<T>(groups: seq<seq<T>>, g: nat, h: nat)
    requires g <= h <= |groups|
    ensures |Flatten(groups[..g])| <= |Flatten(groups[..h])|
  {
    FlattenSplits(groups[..h], g);
    assert groups[..h][..g] == groups[..g];
  }

  /** Every contiguous grouping that keeps calls together is a coarsening of the finest one. */
  lemma FinestRefinesEveryOther(messages: seq<Message>, finest: seq<seq<Message>>, other: seq<seq<Message>>)
    requires FinestGrouping(messages, finest)
    requires Flatten(other) == messages && NonEmptyGroups(other) && NoSharedCall(other)
    ensures Cuts(other) <= Cuts(finest)
  {
    forall cut | cut in Cuts(other)
      ensures cut in Cuts(finest)
    {
      CutsAreMeetings(other, cut);
      var g :| 0 < g <= |other| && cut == |Flatten(other[..g])|;
      FlattenSplits(other, g);
      FlattenAt(other, g - 1, 0);
      forall i, j, call | 0 <= i < cut <= j < |messages| && Calls(messages[i], call)
        ensures !Calls(messages[j], call)
      {
        InSomeGroup(other[..g], i);
        var a, m :| 0 <= a < g && 0 <= m < |other[..g][a]| && other[..g][a][m] == messages[i];
        InSomeGroup(other[g..], j - cut);
        var b, n :| 0 <= b < |other| - g && 0 <= n < |other[g..][b]| && other[g..][b][n] == messages[j];
        assert CallWithin(other[a], call);
        assert Calls(messages[j], call) ==> CallWithin(other[g + b], call);
      }
    }
  }

  lemma {:induction false} InSomeGroup<T>(groups: seq<seq<T>>, i: nat)
    requires i < |Flatten(groups)|
    ensures exists g, m :: 0 <= g < |groups| && 0 <= m < |groups[g]| && groups[g][m] == Flatten(groups)[i]
  {
    var n := |groups| - 1;
    var before := |Flatten(groups[..n])|;
    if i < before {
      InSomeGroup(groups[..n], i);
      var g, m :| 0 <= g < n && 0 <= m < |groups[..n][g]| && groups[..n][g][m] == Flatten(groups[..n])[i];
      assert groups[g][m] == Flatten(groups)[i];
    } else {
      assert groups[n][i - before] == Flatten(groups)[i];
    }
  }

  // ----- The algorithm -----

  ghost predicate LastCalls(messages: seq<Message>, upTo: nat, lastCall: map<Id, nat>)
    requires upTo <= |messages|
  {
    (forall call :: call in lastCall ==> lastCall[call] < upTo && Calls(messages[lastCall[call]], call))
    && forall i, call :: 0 <= i < upTo && Calls(messages[i], call) ==> call in lastCall && i <= lastCall[call]
  }

  /** One message of the forEach: its calls now end here. */
  method IndexCallsOf(messages: seq<Message>, i: nat, before: map<Id, nat>) returns (lastCall: map<Id, nat>)
    requires i < |messages| && LastCalls(messages, i, before)
    ensures LastCalls(messages, i + 1, lastCall)
  {
    lastCall := before;
    var p := 0;
    while p < |messages[i].parts|
      invariant 0 <= p <= |messages[i].parts|
      invariant forall call :: call in lastCall ==>
        (call in before && lastCall[call] == before[call]) || (lastCall[call] == i && Calls(messages[i], call))
      invariant forall call :: call in before ==> call in lastCall && before[call] <= lastCall[call]
      invariant forall q :: 0 <= q < p && messages[i].parts[q].ToolInvocation? ==>
        messages[i].parts[q].toolCallId in lastCall && lastCall[messages[i].parts[q].toolCallId] == i
    {
      if messages[i].parts[p].ToolInvocation? {
        lastCall := lastCall[messages[i].parts[p].toolCallId := i];
      }
      p := p + 1;
    }
  }

  method IndexLastCalls(messages: seq<Message>) returns (lastCall: map<Id, nat>)
    ensures LastCalls(messages, |messages|, lastCall)
  {
    lastCall := map[];
    var i := 0;
    while i < |messages|
      invariant 0 <= i <= |messages|
      invariant LastCalls(messages, i, lastCall)
    {
      lastCall := IndexCallsOf(messages, i, lastCall);
      i := i + 1;
    }
  }

  /** Nothing in messages[first..index] reaches past last. */
  ghost predicate ReachWithin(messages: seq<Message>, first: nat, index: nat, last: nat) {
    forall i, j, call :: first <= i < index && i < |messages| && last < j < |messages| && Calls(messages[i], call) ==>
      !Calls(messages[j], call)
  }

  /** No clean cut falls strictly inside messages[first..last]. */
  ghost predicate NoCutInside(messages: seq<Message>, first: nat, last: nat) {
    forall cut :: first < cut <= last ==> !CleanCut(messages, cut)
  }

  /** The growing inner bound: last moves to the furthest use of any call met on the way. */
  method GroupEnd(messages: seq<Message>, lastCall: map<Id, nat>, first: nat) returns (last: nat)
    requires LastCalls(messages, |messages|, lastCall) && first < |messages|
    ensures first <= last < |messages|
    ensures ReachWithin(messages, first, last + 1, last)
    ensures NoCutInside(messages, first, last)
  {
    last := first;
    var index := first;
    while index <= last
      invariant first <= last && first <= index <= last + 1 <= |messages|
      invariant ReachWithin(messages, first, index, last)
      invariant NoCutInside(messages, first, last)
      decreases |messages| - index
    {
      var p := 0;
      ghost var entry := last;
      while p < |messages[index].parts|
        invariant 0 <= p <= |messages[index].parts|
        invariant index <= entry <= last < |messages|
        invariant NoCutInside(messages, first, last)
        invariant forall q :: 0 <= q < p && messages[index].parts[q].ToolInvocation? ==>
          messages[index].parts[q].toolCallId in lastCall && lastCall[messages[index].parts[q].toolCallId] <= last
      {
        var part := messages[index].parts[p];
        if part.ToolInvocation? {
          assert Calls(messages[index], part.toolCallId);
          var reach := lastCall[part.toolCallId];
          forall cut | first < cut <= reach
            ensures !CleanCut(messages, cut)
          {
            if cut > index {
              assert Calls(messages[index], part.toolCallId) && Calls(messages[reach], part.toolCallId);
            }
          }
          if reach > last {
            last := reach;
          }
        }
        p := p + 1;
      }
      index := index + 1;
    }
  }

  /** Advancing one group extends the list of cuts by exactly the next clean one. */
  ghost predicate GroupedUpTo(messages: seq<Message>, first: nat, groups: seq<seq<Message>>) {
    first <= |messages|
    && Flatten(groups) == messages[..first]
    && NonEmptyGroups(groups)
    && (first > 0 ==> CleanCut(messages, first))
    && forall cut :: cut in Cuts(groups) <==> 0 < cut <= first && CleanCut(messages, cut)
  }

  lemma NextGroup(messages: seq<Message>, first: nat, last: nat, groups: seq<seq<Message>>)
    requires GroupedUpTo(messages, first, groups) && first <= last < |messages|
    requires ReachWithin(messages, first, last + 1, last) && NoCutInside(messages, first, last)
    ensures GroupedUpTo(messages, last + 1, groups + [messages[first..last + 1]])
  {
  }

  /** groupContextEvidence(). */
  method GroupContextEvidence(messages: seq<Message>) returns (groups: seq<seq<Message>>)
    ensures FinestGrouping(messages, groups)
  {
    var lastCall := IndexLastCalls(messages);
    groups := [];
    var first := 0;
    while first < |messages|
      invariant GroupedUpTo(messages, first, groups)
      decreases |messages| - first
    {
      var last := GroupEnd(messages, lastCall, first);
      NextGroup(messages, first, last, groups);
      groups := groups + [messages[first..last + 1]];
      first := last + 1;
    }
    assert messages[..first] == messages;
  }
}
