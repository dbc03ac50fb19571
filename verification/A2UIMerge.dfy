/**
 mergeA2UIActivities(): activities are spliced into the transcript one at a time,
 with an offset kept per owner (apps/agent/src/session-repository.ts:2480-2509).
 */
module A2UIMerge {
  import opened Wrappers

  type Id = string

  datatype Role = User | Assistant | Tool | Activity

  datatype Message = Message(id: Id, role: Role, toolCalls: set<Id>, toolCallId: Id)

  datatype StoredActivity = StoredActivity(owner: Id, message: Message)

  // ----- What the merge means -----

  /** A tool result of the message before it. */
  predicate Answers(owner: Message, candidate: Message) {
    owner.role.Assistant? && candidate.role.Tool? && candidate.toolCallId in owner.toolCalls
  }

  /** The end of the contiguous run of tool results that starts at `from`. */
  function RunEnd(messages: seq<Message>, owner: Message, from: nat): (end: nat)
    requires from <= |messages|
    ensures from <= end <= |messages|
    ensures forall i :: from <= i < end ==> Answers(owner, messages[i])
    ensures end < |messages| ==> !Answers(owner, messages[end])
    decreases |messages| - from
  {
    if from < |messages| && Answers(owner, messages[from]) then RunEnd(messages, owner, from + 1) else from
  }

  function Of(activities: seq<StoredActivity>, owner: Id): (r: seq<Message>) {
    if |activities| == 0 then []
    else Of(activities[..|activities| - 1], owner)
         + if activities[|activities| - 1].owner == owner then [activities[|activities| - 1].message] else []
  }

  /** Each message in order; after a message and the run of its own tool results, all its activities. */
  function Merged(messages: seq<Message>, activities: seq<StoredActivity>, from: nat, end: nat): (r: seq<Message>)
    requires from <= |messages| && end <= |messages|
    decreases end - from
  {
    if from >= end then []
    else
      var run := RunEnd(messages, messages[from], from + 1);
      messages[from..run] + Of(activities, messages[from].id) + Merged(messages, activities, run, end)
  }

  predicate DistinctIds(messages: seq<Message>) {
    forall i, j :: 0 <= i < j < |messages| ==> messages[i].id != messages[j].id
  }

  predicate Known(messages: seq<Message>, id: Id) {
    exists i :: 0 <= i < |messages| && messages[i].id == id
  }

  /** Activities belong to no tool message, and none carries the id of an owner. */
  predicate ProperActivities(messages: seq<Message>, activities: seq<StoredActivity>) {
    (forall a :: a in activities ==> forall i :: 0 <= i < |messages| && messages[i].id == a.owner ==>
      !messages[i].role.Tool?)
    && forall a, b :: a in activities && b in activities ==> a.message.id != b.owner
  }

  // ----- Where an owner stands in the merged list -----

  /** A message that is no tool result starts a block of its own. */
  lemma {:induction false} MergedSplits(messages: seq<Message>, activities: seq<StoredActivity>, from: nat, k: nat)
    requires from <= k < |messages| && !messages[k].role.Tool?
    ensures Merged(messages, activities, from, |messages|)
         == Merged(messages, activities, from, k) + Merged(messages, activities, k, |messages|)
    decreases k - from
  {
    if from < k {
      var run := RunEnd(messages, messages[from], from + 1);
      assert run <= k;
      MergedSplits(messages, activities, run, k);
    }
  }

  lemma {:induction false} OfNext(activities: seq<StoredActivity>, a: StoredActivity, owner: Id)
    ensures Of(activities + [a], owner) == Of(activities, owner) + if a.owner == owner then [a.message] else []
  {
  }

  lemma {:induction false} OfIn(activities: seq<StoredActivity>, owner: Id)
    ensures forall m :: m in Of(activities, owner) ==> exists a :: a in activities && a.message == m
  {
    if |activities| > 0 {
      OfIn(activities[..|activities| - 1], owner);
    }
  }

  /** Blocks of other owners do not change. */
  lemma {:induction false} OthersUnchanged(messages: seq<Message>, activities: seq<StoredActivity>, a: StoredActivity,
      from: nat, end: nat)
    requires from <= |messages| && end <= |messages|
    requires forall i :: from <= i < end ==> messages[i].id != a.owner
    ensures Merged(messages, activities + [a], from, end) == Merged(messages, activities, from, end)
    decreases end - from
  {
    if from < end {
      OfNext(activities, a, messages[from].id);
      OthersUnchanged(messages, activities, a, RunEnd(messages, messages[from], from + 1), end);
    }
  }

  /** The first message with the owner's id is the owner itself. */
  lemma {:induction false} NotBefore(messages: seq<Message>, activities: seq<StoredActivity>, id: Id, from: nat,
      end: nat)
    requires from <= |messages| && end <= |messages|
    requires forall i :: from <= i < |messages| ==> i < end ==> messages[i].id != id
    requires end < |messages| ==> !messages[end].role.Tool?
    requires forall a :: a in activities ==> a.message.id != id
    ensures forall m :: m in Merged(messages, activities, from, end) ==> m.id != id
    decreases end - from
  {
    if from < end {
      var run := RunEnd(messages, messages[from], from + 1);
      OfIn(activities, messages[from].id);
      assert run <= end;
      NotBefore(messages, activities, id, run, end);
    }
  }

  // ----- The splices -----

  method FindIndex(messages: seq<Message>, id: Id) returns (index: int)
    ensures -1 <= index < |messages|
    ensures index >= 0 ==> messages[index].id == id && forall i :: 0 <= i < index ==> messages[i].id != id
    ensures index < 0 ==> forall i :: 0 <= i < |messages| ==> messages[i].id != id
  {
    for n := 0 to |messages|
      invariant forall i :: 0 <= i < n ==> messages[i].id != id
    {
      if messages[n].id == id {
        return n;
      }
    }
    index := -1;
  }

  /** What the offset map holds: the run and the activities already behind each owner. */
  ghost predicate Offsets(inserted: map<Id, nat>, messages: seq<Message>, activities: seq<StoredActivity>) {
    forall k :: 0 <= k < |messages| && !messages[k].role.Tool? ==>
      (messages[k].id in inserted <==> Of(activities, messages[k].id) != [])
      && (messages[k].id in inserted ==>
            inserted[messages[k].id] == RunEnd(messages, messages[k], k + 1) - k - 1 + |Of(activities, messages[k].id)|)
  }

  lemma {:induction false} FirstBlock(messages: seq<Message>, activities: seq<StoredActivity>, k: nat)
    requires k < |messages|
    ensures RunEnd(messages, messages[k], k + 1) <= |messages|
    ensures Merged(messages, activities, k, |messages|)
         == messages[k..RunEnd(messages, messages[k], k + 1)] + Of(activities, messages[k].id)
            + Merged(messages, activities, RunEnd(messages, messages[k], k + 1), |messages|)
  {
  }

  /** The owner's block: itself, its run, its activities, and what follows. */
  lemma {:induction false} OwnerBlock(messages: seq<Message>, activities: seq<StoredActivity>, k: nat)
    requires k < |messages| && !messages[k].role.Tool?
    ensures RunEnd(messages, messages[k], k + 1) <= |messages|
    ensures Merged(messages, activities, 0, |messages|)
         == Merged(messages, activities, 0, k) + messages[k..RunEnd(messages, messages[k], k + 1)]
           + Of(activities, messages[k].id)
            + Merged(messages, activities, RunEnd(messages, messages[k], k + 1), |messages|)
  {
    MergedSplits(messages, activities, 0, k);
    FirstBlock(messages, activities, k);
    hide Merged, Of, RunEnd;
    var run := RunEnd(messages, messages[k], k + 1);
    Associative(Merged(messages, activities, 0, k), messages[k..run], Of(activities, messages[k].id),
                Merged(messages, activities, run, |messages|));
  }

  lemma Associative(a: seq<Message>, b: seq<Message>, c: seq<Message>, d: seq<Message>)
    ensures a + (b + c + d) == a + b + c + d
  {
  }

  lemma {:induction false} Splice(messages: seq<Message>, activities: seq<StoredActivity>, a: StoredActivity, k: nat)
    requires DistinctIds(messages) && k < |messages| && !messages[k].role.Tool? && messages[k].id == a.owner
    ensures var merged := Merged(messages, activities, 0, |messages|);
            var at := |Merged(messages, activities, 0, k)| + RunEnd(messages, messages[k], k + 1) - k
              + |Of(activities, a.owner)|;
            at <= |merged|
              && Merged(messages, activities + [a], 0, |messages|) == merged[..at] + [a.message] + merged[at..]
  {
    var run := RunEnd(messages, messages[k], k + 1);
    OwnerBlock(messages, activities, k);
    OwnerBlock(messages, activities + [a], k);
    OthersUnchanged(messages, activities, a, 0, k);
    OthersUnchanged(messages, activities, a, run, |messages|);
    OfNext(activities, a, a.owner);
    hide Merged, Of, RunEnd;
    SpliceAt(Merged(messages, activities, 0, k), messages[k..run], Of(activities, a.owner), a.message,
             Merged(messages, activities, run, |messages|));
  }

  lemma SpliceAt(head: seq<Message>, block: seq<Message>, own: seq<Message>, x: Message, tail: seq<Message>)
    ensures var all := head + block + own + tail;
            var at := |head| + |block| + |own|;
            head + block + (own + [x]) + tail == all[..at] + [x] + all[at..]
  {
  }

  /** The source's scan over the owner's tool results, in the list merged so far. */
  method SkipOwnResults(merged: seq<Message>, owner: Message, start: nat) returns (index: nat)
    requires start <= |merged| && owner.role.Assistant?
    ensures index == RunEnd(merged, owner, start)
  {
    index := start;
    while index < |merged|
      invariant start <= index <= |merged|
      invariant RunEnd(merged, owner, index) == RunEnd(merged, owner, start)
    {
      var candidate := merged[index];
      if !candidate.role.Tool? || candidate.toolCallId !in owner.toolCalls {
        break;
      }
      index := index + 1;
    }
  }

  lemma {:induction false} RunAfter(head: seq<Message>, run: seq<Message>, tail: seq<Message>, owner: Message)
    requires forall i :: 0 <= i < |run| ==> Answers(owner, run[i])
    requires |tail| > 0 ==> !Answers(owner, tail[0])
    ensures RunEnd(head + run + tail, owner, |head|) == |head| + |run|
    decreases |run|
  {
    var all := head + run + tail;
    if |run| > 0 {
      assert all[|head|] == run[0];
      assert (head + [run[0]]) + run[1..] + tail == all;
      RunAfter(head + [run[0]], run[1..], tail, owner);
    } else {
      assert |head| < |all| ==> all[|head|] == tail[0];
    }
  }

  /** After the owner, its run is followed by the next block. */
  lemma {:induction false} RunInMerged(messages: seq<Message>, activities: seq<StoredActivity>, k: nat)
    requires k < |messages| && messages[k].role.Assistant? && Of(activities, messages[k].id) == []
    ensures var merged := Merged(messages, activities, 0, |messages|);
            var at := |Merged(messages, activities, 0, k)|;
            at + 1 <= |merged|
            && RunEnd(merged, messages[k], at + 1) == at + (RunEnd(messages, messages[k], k + 1) - k)
  {
    var head := Merged(messages, activities, 0, k);
    var run := RunEnd(messages, messages[k], k + 1);
    OwnerBlock(messages, activities, k);
    TailStarts(messages, activities, run);
    var tail := Merged(messages, activities, run, |messages|);
    hide Merged, Of, RunEnd;
    assert messages[k..run] == [messages[k]] + messages[k + 1..run];
    Regroup(head, messages[k], messages[k + 1..run], tail);
    RunAfter(head + [messages[k]], messages[k + 1..run], tail, messages[k]);
  }

  lemma Regroup(head: seq<Message>, owner: Message, run: seq<Message>, tail: seq<Message>)
    ensures head + ([owner] + run) + [] + tail == (head + [owner]) + run + tail
  {
  }

  lemma {:induction false} TailStarts(messages: seq<Message>, activities: seq<StoredActivity>, run: nat)
    requires run <= |messages|
    ensures var tail := Merged(messages, activities, run, |messages|);
            (run < |messages| ==> |tail| > 0 && tail[0] == messages[run]) && (run == |messages| ==> tail == [])
  {
  }

  lemma {:induction false} NothingMerged(messages: seq<Message>, from: nat)
    requires from <= |messages|
    ensures Merged(messages, [], from, |messages|) == messages[from..]
    decreases |messages| - from
  {
    if from < |messages| {
      NothingMerged(messages, RunEnd(messages, messages[from], from + 1));
    }
  }

  lemma {:induction false} MergedElements(messages: seq<Message>, activities: seq<StoredActivity>, from: nat, end: nat)
    requires from <= |messages| && end <= |messages|
    ensures forall m :: m in Merged(messages, activities, from, end) ==>
      m in messages || exists a :: a in activities && a.message == m
    decreases end - from
  {
    if from < end {
      OfIn(activities, messages[from].id);
      MergedElements(messages, activities, RunEnd(messages, messages[from], from + 1), end);
    }
  }

  lemma {:induction false} Standing(messages: seq<Message>, activities: seq<StoredActivity>, k: nat)
    requires DistinctIds(messages) && k < |messages| && !messages[k].role.Tool?
    requires forall a :: a in activities ==> a.message.id != messages[k].id
    ensures var merged := Merged(messages, activities, 0, |messages|);
            var at := |Merged(messages, activities, 0, k)|;
            at < |merged| && merged[at] == messages[k] && forall i :: 0 <= i < at ==> merged[i].id != messages[k].id
  {
    OwnerBlock(messages, activities, k);
    NotBefore(messages, activities, messages[k].id, 0, k);
    var head := Merged(messages, activities, 0, k);
    var run := RunEnd(messages, messages[k], k + 1);
    assert messages[k..run][0] == messages[k];
    forall i | 0 <= i < |head| ensures Merged(messages, activities, 0, |messages|)[i] == head[i] && head[i] in head {}
  }

  /** findIndex finds the owner in the merged list exactly when the transcript has it. */
  lemma {:induction false} FindOwner(messages: seq<Message>, activities: seq<StoredActivity>, id: Id, index: int)
    returns (k: nat)
    requires DistinctIds(messages)
    requires forall i :: 0 <= i < |messages| && messages[i].id == id ==> !messages[i].role.Tool?
    requires forall a :: a in activities ==> a.message.id != id
    requires var merged := Merged(messages, activities, 0, |messages|);
             -1 <= index < |merged|
             && (index >= 0 ==> merged[index].id == id && forall i :: 0 <= i < index ==> merged[i].id != id)
             && (index < 0 ==> forall i :: 0 <= i < |merged| ==> merged[i].id != id)
    ensures index < 0 ==> !Known(messages, id)
    ensures index >= 0 ==>
      k < |messages| && messages[k].id == id && Known(messages, id) && index == |Merged(messages, activities, 0, k)|
      && Merged(messages, activities, 0, |messages|)[index] == messages[k]
  {
    k := 0;
    if index >= 0 {
      MergedElements(messages, activities, 0, |messages|);
      assert Merged(messages, activities, 0, |messages|)[index] in messages;
      k :| 0 <= k < |messages| && messages[k].id == id;
      Standing(messages, activities, k);
    } else if Known(messages, id) {
      var i :| 0 <= i < |messages| && messages[i].id == id;
      Standing(messages, activities, i);
    }
  }

  lemma {:induction false} OffsetsNext(messages: seq<Message>, activities: seq<StoredActivity>, a: StoredActivity,
                                       k: nat, inserted: map<Id, nat>, offset: nat)
    requires DistinctIds(messages) && Offsets(inserted, messages, activities)
    requires k < |messages| && !messages[k].role.Tool? && messages[k].id == a.owner
    requires offset == RunEnd(messages, messages[k], k + 1) - k + |Of(activities, a.owner)|
    ensures Offsets(inserted[a.owner := offset], messages, activities + [a])
  {
  }

  lemma {:induction false} StartUp(messages: seq<Message>)
    ensures Merged(messages, [], 0, |messages|) == messages && Offsets(map[], messages, [])
  {
    NothingMerged(messages, 0);
  }

  lemma {:induction false} OffsetAt(inserted: map<Id, nat>, messages: seq<Message>, activities: seq<StoredActivity>,
      k: nat)
    requires Offsets(inserted, messages, activities) && k < |messages| && !messages[k].role.Tool?
    ensures messages[k].id in inserted <==> Of(activities, messages[k].id) != []
    ensures messages[k].id in inserted ==>
      inserted[messages[k].id] == RunEnd(messages, messages[k], k + 1) - k - 1 + |Of(activities, messages[k].id)|
      && inserted[messages[k].id] > 0
  {
  }

  lemma {:induction false} NoRun(messages: seq<Message>, k: nat)
    requires k < |messages| && !messages[k].role.Assistant?
    ensures RunEnd(messages, messages[k], k + 1) == k + 1
  {
  }

  // ----- One splice after the other, whatever the ids and roles -----

  datatype Progress = Progress(merged: seq<Message>, inserted: map<Id, nat>)

  function FirstIndex(messages: seq<Message>, id: Id): (index: nat)
    ensures index <= |messages|
    ensures forall i :: 0 <= i < index ==> messages[i].id != id
    ensures index < |messages| ==> messages[index].id == id
  {
    if |messages| == 0 || messages[0].id == id then 0 else 1 + FirstIndex(messages[1..], id)
  }

  function Previous(inserted: map<Id, nat>, owner: Id): (offset: nat) {
    if owner in inserted then inserted[owner] else 0
  }

  /** Behind the owner's tool results at first, and behind its earlier activities later. */
  function InsertionIndex(p: Progress, owner: Id, at: nat): (index: nat)
    requires at < |p.merged|
    ensures index > at
  {
    if p.merged[at].role.Assistant? && Previous(p.inserted, owner) == 0 then RunEnd(p.merged, p.merged[at], at + 1)
    else at + 1 + Previous(p.inserted, owner)
  }

  /** Array.prototype.splice(): a start beyond the end inserts at the end. */
  function Inserted(messages: seq<Message>, index: nat, x: Message): (longer: seq<Message>) {
    var at := if index < |messages| then index else |messages|;
    messages[..at] + [x] + messages[at..]
  }

  function SpliceNext(p: Progress, a: StoredActivity): (r: Option<Progress>) {
    var at := FirstIndex(p.merged, a.owner);
    if at == |p.merged| then None
    else
      var index := InsertionIndex(p, a.owner, at);
      Some(Progress(Inserted(p.merged, index, a.message), p.inserted[a.owner := index - at]))
  }

  /** The splices of activities[..n]. */
  function Splices(messages: seq<Message>, activities: seq<StoredActivity>, n: nat): (r: Option<Progress>)
    requires n <= |activities|
  {
    if n == 0 then Some(Progress(messages, map[]))
    else
      var before := Splices(messages, activities, n - 1);
      if before.None? then None else SpliceNext(before.value, activities[n - 1])
  }

  lemma {:induction false} ConflictStays(messages: seq<Message>, activities: seq<StoredActivity>, n: nat, m: nat)
    requires n <= m <= |activities| && Splices(messages, activities, n).None?
    ensures Splices(messages, activities, m).None?
  {
    if n < m {
      ConflictStays(messages, activities, n, m - 1);
    }
  }

  /** One turn of the source's loop: find the owner, skip its tool results, splice. */
  method MergeOne(merged: seq<Message>, inserted: map<Id, nat>, activity: StoredActivity)
    returns (r: Option<Progress>)
    ensures r == SpliceNext(Progress(merged, inserted), activity)
  {
    var ownerIndex := FindIndex(merged, activity.owner);
    assert FirstIndex(merged, activity.owner) == if ownerIndex < 0 then |merged| else ownerIndex;
    hide FirstIndex, Inserted;
    if ownerIndex < 0 {
      return None;
    }
    var previous := if activity.owner in inserted then inserted[activity.owner] else 0;
    var index: nat := ownerIndex + 1 + previous;
    var owner := merged[ownerIndex];
    if owner.role.Assistant? && previous == 0 {
      index := SkipOwnResults(merged, owner, index);
    }
    hide RunEnd;
    assert index == InsertionIndex(Progress(merged, inserted), activity.owner, ownerIndex);
    hide InsertionIndex;
    r := Some(Progress(Inserted(merged, index, activity.message),
                       inserted[activity.owner := previous + 1 + (index - ownerIndex - 1 - previous)]));
  }

  /** mergeA2UIActivities(); None is a transcript conflict. */
  method MergeA2UIActivities(messages: seq<Message>, activities: seq<StoredActivity>) returns (r: Option<seq<Message>>)
    ensures var spliced := Splices(messages, activities, |activities|);
            r == if spliced.Some? then Some(spliced.value.merged) else None
  {
    hide SpliceNext;
    var merged := messages;
    var inserted: map<Id, nat> := map[];
    for n := 0 to |activities|
      invariant Splices(messages, activities, n) == Some(Progress(merged, inserted))
    {
      var next := MergeOne(merged, inserted, activities[n]);
      if next.None? {
        ConflictStays(messages, activities, n + 1, |activities|);
        return None;
      }
      merged, inserted := next.value.merged, next.value.inserted;
    }
    r := Some(merged);
  }

  // ----- What holds of every input -----

  function MessagesOf(activities: seq<StoredActivity>, n: nat): (r: seq<Message>)
    requires n <= |activities|
  {
    if n == 0 then [] else MessagesOf(activities, n - 1) + [activities[n - 1].message]
  }

  /** All messages of a are in b, in the same order. */
  predicate Subsequence(a: seq<Message>, b: seq<Message>) {
    |a| == 0 || (|b| > 0 && ((a[0] == b[0] && Subsequence(a[1..], b[1..])) || Subsequence(a, b[1..])))
  }

  lemma {:induction false} SubsequenceOfItself(a: seq<Message>)
    ensures Subsequence(a, a)
  {
    if |a| > 0 {
      SubsequenceOfItself(a[1..]);
    }
  }

  lemma {:induction false} SubsequenceOfLonger(a: seq<Message>, b: seq<Message>, at: nat, x: Message)
    requires Subsequence(a, b) && at <= |b|
    ensures Subsequence(a, b[..at] + [x] + b[at..])
    decreases |b|
  {
    var longer := b[..at] + [x] + b[at..];
    if |a| > 0 {
      if at == 0 {
        assert longer[1..] == b;
      } else {
        assert longer[1..] == b[1..][..at - 1] + [x] + b[1..][at - 1..];
        if a[0] == b[0] && Subsequence(a[1..], b[1..]) {
          SubsequenceOfLonger(a[1..], b[1..], at - 1, x);
        } else {
          SubsequenceOfLonger(a, b[1..], at - 1, x);
        }
      }
    }
  }

  lemma InsertedHas(messages: seq<Message>, index: nat, x: Message)
    ensures multiset(Inserted(messages, index, x)) == multiset(messages) + multiset{x}
  {
    var at := if index < |messages| then index else |messages|;
    assert messages[..at] + messages[at..] == messages;
  }

  /** The merge adds every activity once, loses nothing, and keeps the transcript in order. */
  lemma {:induction false} NothingIsLost(messages: seq<Message>, activities: seq<StoredActivity>, n: nat)
    requires n <= |activities| && Splices(messages, activities, n).Some?
    ensures var merged := Splices(messages, activities, n).value.merged;
            multiset(merged) == multiset(messages) + multiset(MessagesOf(activities, n))
              && Subsequence(messages, merged)
  {
    if n == 0 {
      SubsequenceOfItself(messages);
    } else {
      NothingIsLost(messages, activities, n - 1);
      var p := Splices(messages, activities, n - 1).value;
      var index := InsertionIndex(p, activities[n - 1].owner, FirstIndex(p.merged, activities[n - 1].owner));
      hide Subsequence, InsertionIndex, FirstIndex;
      InsertedHas(p.merged, index, activities[n - 1].message);
      SubsequenceOfLonger(messages, p.merged, if index < |p.merged| then index else |p.merged|,
        activities[n - 1].message);
    }
  }

  /** The owner is a message of the transcript, or an activity merged before. */
  predicate OwnerStands(messages: seq<Message>, activities: seq<StoredActivity>, n: nat)
    requires n < |activities|
  {
    Known(messages, activities[n].owner) || Known(MessagesOf(activities, n), activities[n].owner)
  }

  lemma SameMessagesKnown(a: seq<Message>, b: seq<Message>, c: seq<Message>, id: Id)
    requires multiset(a) == multiset(b) + multiset(c)
    ensures Known(a, id) <==> Known(b, id) || Known(c, id)
  {
    if Known(a, id) {
      var i :| 0 <= i < |a| && a[i].id == id;
      assert a[i] in multiset(a);
      assert a[i] in b || a[i] in c;
    }
    if Known(b, id) {
      var i :| 0 <= i < |b| && b[i].id == id;
      assert b[i] in multiset(a) && b[i] in a;
    }
    if Known(c, id) {
      var i :| 0 <= i < |c| && c[i].id == id;
      assert c[i] in multiset(a) && c[i] in a;
    }
  }

  lemma {:induction false} StandsNext(messages: seq<Message>, activities: seq<StoredActivity>, n: nat)
    requires n < |activities| && Splices(messages, activities, n).Some?
    ensures Splices(messages, activities, n + 1).Some? <==> OwnerStands(messages, activities, n)
  {
    NothingIsLost(messages, activities, n);
    hide Subsequence;
    var p := Splices(messages, activities, n).value;
    SameMessagesKnown(p.merged, messages, MessagesOf(activities, n), activities[n].owner);
    assert Known(p.merged, activities[n].owner) <==> FirstIndex(p.merged, activities[n].owner) < |p.merged|;
    hide Known, InsertionIndex, Inserted, MessagesOf, FirstIndex;
  }

  /** It fails exactly where an owner stands nowhere yet. */
  lemma {:induction false} FailsWithoutOwner(messages: seq<Message>, activities: seq<StoredActivity>, n: nat)
    requires n <= |activities|
    ensures Splices(messages, activities, n).Some? <==> forall i :: 0 <= i < n ==> OwnerStands(messages, activities, i)
  {
    hide OwnerStands, SpliceNext;
    if n > 0 {
      FailsWithoutOwner(messages, activities, n - 1);
      if Splices(messages, activities, n - 1).Some? {
        StandsNext(messages, activities, n - 1);
      }
    }
  }

  // ----- What it means for a proper transcript -----

  lemma {:induction false} ProperAt(messages: seq<Message>, activities: seq<StoredActivity>, n: nat)
    requires ProperActivities(messages, activities) && n < |activities|
    ensures forall i :: 0 <= i < |messages| && messages[i].id == activities[n].owner ==> !messages[i].role.Tool?
    ensures forall a :: a in activities[..n] ==> a.message.id != activities[n].owner
  {
  }

  /** One splice, at the place that the offset map and the scan give. */
  lemma {:induction false} SplicesBlock(
    p: Progress, messages: seq<Message>, done: seq<StoredActivity>, a: StoredActivity, k: nat)
    requires DistinctIds(messages) && k < |messages| && messages[k].id == a.owner && !messages[k].role.Tool?
    requires p.merged == Merged(messages, done, 0, |messages|) && Offsets(p.inserted, messages, done)
    requires FirstIndex(p.merged, a.owner) == |Merged(messages, done, 0, k)| < |p.merged|
    requires p.merged[|Merged(messages, done, 0, k)|] == messages[k]
    ensures SpliceNext(p, a).Some?
    ensures SpliceNext(p, a).value.merged == Merged(messages, done + [a], 0, |messages|)
    ensures Offsets(SpliceNext(p, a).value.inserted, messages, done + [a])
  {
    hide Merged, Of, DistinctIds, RunEnd;
    OffsetAt(p.inserted, messages, done, k);
    hide Offsets;
    var at := |Merged(messages, done, 0, k)|;
    if messages[k].role.Assistant? && Previous(p.inserted, a.owner) == 0 {
      RunInMerged(messages, done, k);
    } else if a.owner !in p.inserted {
      NoRun(messages, k);
    }
    assert InsertionIndex(p, a.owner, at) == at + RunEnd(messages, messages[k], k + 1) - k + |Of(done, a.owner)|;
    Splice(messages, done, a, k);
    OffsetsNext(messages, done, a, k, p.inserted, InsertionIndex(p, a.owner, at) - at);
  }

  /** One activity: find its owner, then splice. */
  lemma {:induction false} SplicesOne(p: Progress, messages: seq<Message>, done: seq<StoredActivity>, a: StoredActivity)
    requires DistinctIds(messages) && p.merged == Merged(messages, done, 0, |messages|)
      && Offsets(p.inserted, messages, done)
    requires forall i :: 0 <= i < |messages| && messages[i].id == a.owner ==> !messages[i].role.Tool?
    requires forall b :: b in done ==> b.message.id != a.owner
    ensures SpliceNext(p, a).Some? <==> Known(messages, a.owner)
    ensures SpliceNext(p, a).Some? ==>
      SpliceNext(p, a).value.merged == Merged(messages, done + [a], 0, |messages|)
      && Offsets(SpliceNext(p, a).value.inserted, messages, done + [a])
  {
    hide Merged, Offsets, DistinctIds, Known;
    var at := FirstIndex(p.merged, a.owner);
    var k := FindOwner(messages, done, a.owner, if at < |p.merged| then at else -1);
    if at < |p.merged| {
      SplicesBlock(p, messages, done, a, k);
    }
  }

  /**
   With distinct message ids, owners that are no tool messages and activities that
   carry no owner's id, the splices give every message in order and, after an
   owner's run of its own tool results, its activities in their order.
   */
  lemma {:induction false} SplicesMerge(messages: seq<Message>, activities: seq<StoredActivity>, n: nat)
    requires DistinctIds(messages) && ProperActivities(messages, activities) && n <= |activities|
    ensures Splices(messages, activities, n).Some? <==> forall i :: 0 <= i < n ==> Known(messages, activities[i].owner)
    ensures Splices(messages, activities, n).Some? ==>
      Splices(messages, activities, n).value.merged == Merged(messages, activities[..n], 0, |messages|)
      && Offsets(Splices(messages, activities, n).value.inserted, messages, activities[..n])
  {
    hide Merged, Offsets, DistinctIds, Known, ProperActivities, SpliceNext;
    if n == 0 {
      assert activities[..0] == [];
      StartUp(messages);
    } else {
      SplicesMerge(messages, activities, n - 1);
      if Splices(messages, activities, n - 1).Some? {
        ProperAt(messages, activities, n - 1);
        SplicesOne(Splices(messages, activities, n - 1).value, messages, activities[..n - 1], activities[n - 1]);
        assert activities[..n] == activities[..n - 1] + [activities[n - 1]];
      }
    }
  }
}
