/**
 The immutable source history of a chat session, the frozen watermark of that
 history, and references into it (session-context-state.ts and the reference
 half of session-context-selection.ts).

 A stamp's digests are modelled by the digested values: SHA-256 over the
 canonical JSON text is taken to be injective.
 */
module ContextSource {
  import opened Wrappers

  type Id = string

  datatype Role = User | Assistant | System | Tool

  datatype Part =
    | StepStart
    | Reasoning(text: string)
    | ToolInvocation(toolCallId: Id, state: string, payload: string)
    | OtherPart(kind: string, payload: string)

  /** Role, creation time and the content object without its parts. */
  datatype Header = Header(role: Role, createdAt: int, contentKeys: set<string>, content: string)

  datatype Message = Message(id: Id, header: Header, parts: seq<Part>)

  datatype Reference = Reference(messageId: Id, partIndex: nat)

  datatype Stamp = Stamp(messageId: Id, header: Header, parts: seq<Part>)

  datatype Boundary = Boundary(watermark: seq<Stamp>, retained: seq<Reference>)

  datatype ContextError =
    | TailBudgetInvalid
    | SourceChanged
    | RetainedReferenceInvalid
    | DuplicateMessage
    | CurrentRequestMissing

  ghost predicate Distinct(messages: seq<Message>) {
    forall i, j :: 0 <= i < j < |messages| ==> messages[i].id != messages[j].id
  }

  // ----- Watermarks -----

  function FreezeContextSource(messages: seq<Message>): (stamps: seq<Stamp>)
    ensures |stamps| == |messages|
    ensures forall i :: 0 <= i < |messages| ==>
      stamps[i] == Stamp(messages[i].id, messages[i].header, messages[i].parts)
  {
    seq(|messages|, i requires 0 <= i < |messages| =>
      Stamp(messages[i].id, messages[i].header, messages[i].parts))
  }

  /** A JavaScript Map built from the stamps: the last stamp of an identity wins. */
  function Latest(stamps: seq<Stamp>, id: Id): (r: Option<Stamp>)
    ensures r.None? <==> forall i :: 0 <= i < |stamps| ==> stamps[i].messageId != id
    ensures r.Some? ==> r.value in stamps && r.value.messageId == id
  {
    if |stamps| == 0 then None
    else if stamps[|stamps| - 1].messageId == id then Some(stamps[|stamps| - 1])
    else Latest(stamps[..|stamps| - 1], id)
  }

  predicate Extends(later: Stamp, earlier: Stamp) {
    later.header == earlier.header && earlier.parts <= later.parts
  }

  predicate ContextSourceMatches(frozen: seq<Stamp>, current: seq<Stamp>) {
    |current| >= |frozen|
    && forall i :: 0 <= i < |frozen| ==>
      var latest := Latest(current, frozen[i].messageId);
      latest.Some? && current[i].messageId == frozen[i].messageId && Extends(latest.value, frozen[i])
  }

  lemma LatestOfDistinct(stamps: seq<Stamp>, i: nat)
    requires i < |stamps|
    requires forall j :: 0 <= j < |stamps| && j != i ==> stamps[j].messageId != stamps[i].messageId
    ensures Latest(stamps, stamps[i].messageId) == Some(stamps[i])
  {
  }

  /** Matching composes along any history, even one that repeats an identity. */
  lemma MatchesTransitive(a: seq<Stamp>, b: seq<Stamp>, c: seq<Stamp>)
    requires ContextSourceMatches(a, b) && ContextSourceMatches(b, c)
    ensures ContextSourceMatches(a, c)
  {
  }

  /** With distinct identities a match is a pointwise, in-place extension. */
  lemma MatchesIsGrowth(frozen: seq<Stamp>, current: seq<Message>)
    requires Distinct(current)
    ensures ContextSourceMatches(frozen, FreezeContextSource(current)) <==>
      (|frozen| <= |current|
       && forall i :: 0 <= i < |frozen| ==>
         current[i].id == frozen[i].messageId
         && current[i].header == frozen[i].header
         && frozen[i].parts <= current[i].parts)
  {
    var stamps := FreezeContextSource(current);
    forall i | 0 <= i < |current|
      ensures Latest(stamps, current[i].id) == Some(stamps[i])
    {
      LatestOfDistinct(stamps, i);
    }
  }

  // ----- References -----

  ghost predicate ValidReference(messages: seq<Message>, r: Reference) {
    exists i :: 0 <= i < |messages| && messages[i].id == r.messageId && r.partIndex < |messages[i].parts|
  }

  /** What projection accepts: a known identity, and an existing part in every message of that identity. */
  ghost predicate Resolves(messages: seq<Message>, r: Reference) {
    (exists i :: 0 <= i < |messages| && messages[i].id == r.messageId)
    && forall i :: 0 <= i < |messages| && messages[i].id == r.messageId ==> r.partIndex < |messages[i].parts|
  }

  lemma ResolvesIsValid(messages: seq<Message>, r: Reference)
    requires Distinct(messages)
    ensures Resolves(messages, r) <==> ValidReference(messages, r)
  {
  }

  /** The parts appended to one message beyond the first `from`. */
  function MessageReferences(message: Message, from: nat): (refs: seq<Reference>)
    ensures |refs| == if from < |message.parts| then |message.parts| - from else 0
    ensures forall k :: 0 <= k < |refs| ==> refs[k] == Reference(message.id, from + k)
  {
    seq(if from < |message.parts| then |message.parts| - from else 0,
      k requires k >= 0 => Reference(message.id, from + k))
  }

  function Count(watermark: seq<Stamp>, id: Id): (r: nat) {
    match Latest(watermark, id)
    case Some(stamp) => |stamp.parts|
    case None => 0
  }

  /** Every part the watermark does not cover, in source order. */
  function AppendedReferences(messages: seq<Message>, watermark: seq<Stamp>): (r: seq<Reference>) {
    if |messages| == 0 then []
    else
      var last := messages[|messages| - 1];
      AppendedReferences(messages[..|messages| - 1], watermark) + MessageReferences(last, Count(watermark, last.id))
  }

  ghost predicate Uncovered(messages: seq<Message>, watermark: seq<Stamp>, r: Reference) {
    exists i :: 0 <= i < |messages| && messages[i].id == r.messageId
                && Count(watermark, r.messageId) <= r.partIndex < |messages[i].parts|
  }

  lemma {:induction false} AppendedAreUncovered(messages: seq<Message>, watermark: seq<Stamp>, r: Reference)
    ensures r in AppendedReferences(messages, watermark) <==> Uncovered(messages, watermark, r)
  {
    if |messages| > 0 {
      var n := |messages| - 1;
      var count := Count(watermark, messages[n].id);
      var added := MessageReferences(messages[n], count);
      AppendedAreUncovered(messages[..n], watermark, r);
      if messages[n].id == r.messageId && count <= r.partIndex < |messages[n].parts| {
        assert added[r.partIndex - count] == r;
      }
      if Uncovered(messages, watermark, r) {
        var i :| 0 <= i < |messages| && messages[i].id == r.messageId
                 && Count(watermark, r.messageId) <= r.partIndex < |messages[i].parts|;
        assert i < n ==> messages[..n][i] == messages[i];
      }
    }
  }

  ghost predicate AllResolve(messages: seq<Message>, refs: seq<Reference>) {
    forall r :: r in refs ==> Resolves(messages, r)
  }

  /** The retained references followed by everything appended after publication. */
  ghost function EffectiveReferences(messages: seq<Message>, boundary: Boundary)
    : (r: Result<seq<Reference>, ContextError>)
  {
    if !ContextSourceMatches(boundary.watermark, FreezeContextSource(messages)) then Failure(SourceChanged)
    else
      var refs := boundary.retained + AppendedReferences(messages, boundary.watermark);
      if AllResolve(messages, refs) then Success(refs) else Failure(RetainedReferenceInvalid)
  }

  // ----- Projection -----

  function KeptParts(message: Message, refs: set<Reference>, upTo: nat): (parts: seq<Part>)
    requires upTo <= |message.parts|
  {
    if upTo == 0 then []
    else
      var rest := KeptParts(message, refs, upTo - 1);
      if Reference(message.id, upTo - 1) in refs then rest + [message.parts[upTo - 1]] else rest
  }

  /** Each message cut down to its referenced parts; a message without any is dropped. */
  function Projection(messages: seq<Message>, refs: set<Reference>): (r: seq<Message>) {
    if |messages| == 0 then []
    else
      var last := messages[|messages| - 1];
      var rest := Projection(messages[..|messages| - 1], refs);
      if exists k :: 0 <= k < |last.parts| && Reference(last.id, k) in refs
      then rest + [last.(parts := KeptParts(last, refs, |last.parts|))]
      else rest
  }

  /** Two projections that share out a message's references hold each of its parts exactly once. */
  lemma {:induction false} PartsAreSharedOut(message: Message, a: set<Reference>, b: set<Reference>, upTo: nat)
    requires upTo <= |message.parts|
    requires forall k: nat :: k < upTo ==> (Reference(message.id, k) in a <==> Reference(message.id, k) !in b)
    ensures multiset(KeptParts(message, a, upTo)) + multiset(KeptParts(message, b, upTo))
      == multiset(message.parts[..upTo])
  {
    if upTo > 0 {
      PartsAreSharedOut(message, a, b, upTo - 1);
      var before, last := message.parts[..upTo - 1], message.parts[upTo - 1];
      assert message.parts[..upTo] == before + [last];
      var x, y := KeptParts(message, a, upTo - 1), KeptParts(message, b, upTo - 1);
      if Reference(message.id, upTo - 1) in a {
        assert KeptParts(message, a, upTo) == x + [last] && KeptParts(message, b, upTo) == y;
        hide KeptParts;
        SharedOnceMore(x, y, before, last);
      } else {
        assert KeptParts(message, a, upTo) == x && KeptParts(message, b, upTo) == y + [last];
        hide KeptParts;
        SharedOnceMore(y, x, before, last);
      }
    }
  }

  lemma SharedOnceMore(x: seq<Part>, y: seq<Part>, parts: seq<Part>, part: Part)
    requires multiset(x) + multiset(y) == multiset(parts) || multiset(y) + multiset(x) == multiset(parts)
    ensures multiset(x + [part]) + multiset(y) == multiset(parts + [part])
    ensures multiset(y) + multiset(x + [part]) == multiset(parts + [part])
  {
    CountedOnceMore(x, part);
    CountedOnceMore(parts, part);
  }

  lemma CountedOnceMore(parts: seq<Part>, part: Part)
    ensures multiset(parts + [part]) == multiset(parts) + multiset{part}
  {
  }

  method KeepParts(message: Message, indices: set<nat>, ghost refs: set<Reference>)
    returns (parts: seq<Part>, count: nat)
    requires forall k: nat :: k in indices <==> Reference(message.id, k) in refs
    ensures parts == KeptParts(message, refs, |message.parts|)
    ensures count == |parts|
    ensures count == |indices| <==> forall k :: k in indices ==> k < |message.parts|
  {
    parts, count := [], 0;
    var i := 0;
    ghost var seen: set<nat> := {};
    while i < |message.parts|
      invariant 0 <= i <= |message.parts|
      invariant parts == KeptParts(message, refs, i)
      invariant seen == set k | k in indices && k < i
      invariant count == |seen| == |parts|
    {
      if i in indices {
        parts := parts + [message.parts[i]];
        count := count + 1;
        assert i !in seen;
        seen := seen + {i};
      }
      i := i + 1;
    }
    assert seen <= indices;
    assert (forall k :: k in indices ==> k < |message.parts|) ==> seen == indices;
    if count == |indices| {
      SubsetOfEqualSize(seen, indices);
    }
  }

  lemma SubsetOfEqualSize<T>(a: set<T>, b: set<T>)
    requires a <= b && |a| == |b|
    ensures a == b
  {
    if x :| x in b && x !in a {
      assert a <= b - {x};
      SubsetSize(a, b - {x});
    }
  }

  lemma {:induction false} SubsetSize<T>(a: set<T>, b: set<T>)
    requires a <= b
    ensures |a| <= |b|
  {
    if x :| x in a {
      SubsetSize(a - {x}, b - {x});
    }
  }

  ghost predicate Indexed(references: seq<Reference>, selected: map<Id, set<nat>>) {
    (forall r :: r in references ==> r.messageId in selected)
    && (forall id :: id in selected ==> selected[id] != {})
    && forall id, k: nat {:trigger Reference(id, k)} :: id in selected ==>
      (k in selected[id] <==> Reference(id, k) in references)
  }

  /** project()'s first loop: the selected indices of each known message. */
  method IndexReferences(messages: seq<Message>, references: seq<Reference>) returns (r: Option<map<Id, set<nat>>>)
    ensures r.None? ==> !AllResolve(messages, references)
    ensures r.Some? ==> Indexed(references, r.value)
    ensures r.Some? ==> forall x :: x in references ==> exists i :: 0 <= i < |messages| && messages[i].id == x.messageId
  {
    var selected: map<Id, set<nat>> := map[];
    var messageIds := set m | m in messages :: m.id;
    var i := 0;
    while i < |references|
      invariant 0 <= i <= |references|
      invariant forall j :: 0 <= j < i ==> references[j].messageId in messageIds
      invariant Indexed(references[..i], selected)
    {
      var reference := references[i];
      if reference.messageId !in messageIds {
        assert !Resolves(messages, reference);
        return None;
      }
      var indices := if reference.messageId in selected then selected[reference.messageId] else {};
      selected := selected[reference.messageId := indices + {reference.partIndex}];
      assert references[..i + 1] == references[..i] + [reference];
      i := i + 1;
    }
    assert references[..i] == references;
    r := Some(selected);
  }

  lemma SelectedIffKept(message: Message, references: seq<Reference>, selected: map<Id, set<nat>>)
    requires Indexed(references, selected)
    requires forall x :: x in references && x.messageId == message.id ==> x.partIndex < |message.parts|
    ensures message.id in selected <==>
      exists k :: 0 <= k < |message.parts| && Reference(message.id, k) in set x | x in references
  {
    if message.id in selected {
      var k: nat :| k in selected[message.id];
      assert Reference(message.id, k) in references;
    }
  }

  /** project(): rejects any reference the source cannot resolve. */
  method Project(messages: seq<Message>, references: seq<Reference>) returns (r: Result<seq<Message>, ContextError>)
    ensures r == if AllResolve(messages, references)
                 then Success(Projection(messages, set x | x in references))
                 else Failure(RetainedReferenceInvalid)
  {
    var indexed := IndexReferences(messages, references);
    if indexed.None? {
      return Failure(RetainedReferenceInvalid);
    }
    r := ProjectIndexed(messages, references, indexed.value);
  }

  method ProjectIndexed(messages: seq<Message>, ghost references: seq<Reference>, selected: map<Id, set<nat>>)
    returns (r: Result<seq<Message>, ContextError>)
    requires Indexed(references, selected)
    requires forall x :: x in references ==> exists i :: 0 <= i < |messages| && messages[i].id == x.messageId
    ensures r == if AllResolve(messages, references)
                 then Success(Projection(messages, set x | x in references))
                 else Failure(RetainedReferenceInvalid)
  {
    ghost var refs := set x | x in references;
    var projected: seq<Message> := [];
    var n := 0;
    while n < |messages|
      invariant 0 <= n <= |messages|
      invariant projected == Projection(messages[..n], refs)
      invariant forall m, x :: 0 <= m < n && x in references && x.messageId == messages[m].id ==>
        x.partIndex < |messages[m].parts|
    {
      var message := messages[n];
      assert messages[..n + 1][..n] == messages[..n];
      if message.id in selected {
        var indices := selected[message.id];
        var parts, count := KeepParts(message, indices, refs);
        if count != |indices| {
          var k :| k in indices && k >= |message.parts|;
          assert Reference(message.id, k) in references && !Resolves(messages, Reference(message.id, k));
          return Failure(RetainedReferenceInvalid);
        }
        projected := projected + [message.(parts := parts)];
      }
      SelectedIffKept(message, references, selected);
      n := n + 1;
    }
    assert messages[..n] == messages;
    r := Success(projected);
  }

  /** The counts map of effectiveReferences(): how many parts of each message were frozen. */
  method CountFrozenParts(watermark: seq<Stamp>) returns (counts: map<Id, nat>)
    ensures forall id :: (if id in counts then counts[id] else 0) == Count(watermark, id)
  {
    counts := map[];
    var w := 0;
    while w < |watermark|
      invariant 0 <= w <= |watermark|
      invariant forall id :: (if id in counts then counts[id] else 0) == Count(watermark[..w], id)
    {
      counts := counts[watermark[w].messageId := |watermark[w].parts|];
      assert watermark[..w + 1][..w] == watermark[..w];
      w := w + 1;
    }
    assert watermark[..w] == watermark;
  }

  method AppendMessage(references: seq<Reference>, message: Message, from: nat) returns (r: seq<Reference>)
    ensures r == references + MessageReferences(message, from)
  {
    r := references;
    ghost var added := MessageReferences(message, from);
    var partIndex := from;
    while partIndex < |message.parts|
      invariant from <= partIndex <= from + |added|
      invariant r == references + added[..partIndex - from]
    {
      r := r + [Reference(message.id, partIndex)];
      partIndex := partIndex + 1;
    }
  }

  method AppendUncovered(messages: seq<Message>, watermark: seq<Stamp>, retained: seq<Reference>)
    returns (references: seq<Reference>)
    ensures references == retained + AppendedReferences(messages, watermark)
  {
    var counts := CountFrozenParts(watermark);
    references := retained;
    var n := 0;
    while n < |messages|
      invariant 0 <= n <= |messages|
      invariant references == retained + AppendedReferences(messages[..n], watermark)
    {
      var id := messages[n].id;
      assert messages[..n + 1][..n] == messages[..n];
      references := AppendMessage(references, messages[n], if id in counts then counts[id] else 0);
      n := n + 1;
    }
    assert messages[..n] == messages;
  }

  /** effectiveReferences(): retained references, appended references, then a validating projection. */
  method ComputeEffectiveReferences(messages: seq<Message>, boundary: Boundary)
    returns (r: Result<seq<Reference>, ContextError>)
    ensures r == EffectiveReferences(messages, boundary)
  {
    if !ContextSourceMatches(boundary.watermark, FreezeContextSource(messages)) {
      return Failure(SourceChanged);
    }
    var references := AppendUncovered(messages, boundary.watermark, boundary.retained);
    var checked := Project(messages, references);
    match checked
    case Failure(e) => r := Failure(e);
    case Success(_) => r := Success(references);
  }

  /** restoreContextTail(): what an ordinary request sees after a published boundary. */
  method RestoreContextTail(messages: seq<Message>, boundary: Boundary, excluded: set<Id>)
    returns (r: Result<seq<Message>, ContextError>)
    ensures var effective := EffectiveReferences(messages, boundary);
            r == if effective.Failure? then Failure(effective.error)
                 else Success(Projection(messages, set x | x in effective.value && x.messageId !in excluded))
  {
    var effective := ComputeEffectiveReferences(messages, boundary);
    if effective.Failure? {
      return Failure(effective.error);
    }
    var kept: seq<Reference> := [];
    var i := 0;
    while i < |effective.value|
      invariant 0 <= i <= |effective.value|
      invariant forall x :: x in kept <==> x in effective.value[..i] && x.messageId !in excluded
    {
      if effective.value[i].messageId !in excluded {
        kept := kept + [effective.value[i]];
      }
      assert effective.value[..i + 1] == effective.value[..i] + [effective.value[i]];
      i := i + 1;
    }
    assert effective.value[..i] == effective.value;
    r := Project(messages, kept);
    assert (set x | x in kept) == set x | x in effective.value && x.messageId !in excluded;
  }
}
