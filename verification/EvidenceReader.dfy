/** The mutable reader ContextEvidenceBatches and the loop that drains it (session-context-batches.ts:8-66). */
module EvidenceReader {
  import opened Wrappers
  import opened ContextSource
  import opened EvidenceGroups
  import opened EvidenceBatches
  import opened Utf16

  /** Larger fragments of one group never fit when a smaller one does not. */
  ghost predicate Monotone(evidence: Evidence, at: Cursor, fits: Batch -> bool)
    requires at.group < |evidence.groups| && at.offset <= |evidence.TextOf(at.group)|
  {
    forall a, b :: at.offset <= a <= b <= |evidence.TextOf(at.group)| ==>
      fits(evidence.FragmentOf(at.group, at.offset, b)) ==> fits(evidence.FragmentOf(at.group, at.offset, a))
  }

  /** Some non-empty fragment that does not cut a surrogate pair passes. */
  ghost predicate SomeFragmentFits(evidence: Evidence, at: Cursor, fits: Batch -> bool)
    requires at.group < |evidence.groups| && at.offset <= |evidence.TextOf(at.group)|
  {
    exists end :: FragmentFits(evidence, at, fits, end)
  }

  ghost predicate FragmentFits(evidence: Evidence, at: Cursor, fits: Batch -> bool, end: nat)
    requires at.group < |evidence.groups| && at.offset <= |evidence.TextOf(at.group)|
  {
    at.offset < end <= |evidence.TextOf(at.group)| && !InsidePair(evidence.TextOf(at.group), end)
    && fits(evidence.FragmentOf(at.group, at.offset, end))
  }

  /** The longest run of whole groups every prefix of which fits ends at `end`. */
  ghost predicate GreedyRun(evidence: Evidence, first: nat, fits: Batch -> bool, end: nat) {
    first <= end <= |evidence.groups|
    && (forall k :: first < k <= end ==> fits(AsBatch(Flatten(evidence.groups[first..k]))))
    && (end < |evidence.groups| ==> !fits(AsBatch(Flatten(evidence.groups[first..end + 1]))))
  }

  class ContextEvidenceBatches {
    const evidence: Evidence
    var groupIndex: nat
    var offset: nat

    ghost function At(): (r: Cursor)
      reads this
    {
      Cursor(groupIndex, offset)
    }

    ghost predicate Valid()
      reads this
    {
      evidence.Valid() && evidence.AtBoundary(At())
    }

    constructor (messages: seq<Message>, serialize: seq<Message> -> Text, sourceParts: Option<seq<Reference>>)
      requires forall group :: serialize(group) != []
      ensures Valid() && At() == Cursor(0, 0)
      ensures FinestGrouping(messages, evidence.groups)
      ensures evidence == Evidence(evidence.groups, serialize, sourceParts)
    {
      var groups := GroupContextEvidence(messages);
      evidence := Evidence(groups, serialize, sourceParts);
      groupIndex, offset := 0, 0;
    }

    /** assertComplete(). */
    method AssertComplete() returns (ok: bool)
      ensures ok <==> At() == Cursor(|evidence.groups|, 0)
    {
      ok := groupIndex == |evidence.groups| && offset == 0;
    }

    /** The longest fitting run of whole groups; empty when the first group alone is too large. */
    method TakeWholeGroups(fits: Batch -> bool, aborted: nat -> bool, tick: nat)
      returns (batch: Batch, end: nat, stopped: bool, after: nat)
      requires Valid() && groupIndex < |evidence.groups| && offset == 0
      ensures groupIndex <= end <= |evidence.groups|
      ensures batch == AsBatch(Flatten(evidence.groups[groupIndex..end]))
      ensures end > groupIndex ==> batch != [] && fits(batch)
      ensures !stopped ==> GreedyRun(evidence, groupIndex, fits, end)
      ensures stopped ==> exists t :: aborted(t)
    {
      end, batch, stopped, after := groupIndex, [], false, tick;
      assert evidence.groups[groupIndex..end] == [];
      assert AsBatch(Flatten<Message>([])) == [];
      while end < |evidence.groups|
        invariant groupIndex <= end <= |evidence.groups|
        invariant batch == AsBatch(Flatten(evidence.groups[groupIndex..end]))
        invariant end > groupIndex ==> batch != [] && fits(batch)
        invariant forall k :: groupIndex < k <= end ==> fits(AsBatch(Flatten(evidence.groups[groupIndex..k])))
      {
        var candidate := batch + AsBatch(evidence.groups[end]);
        OneMoreGroup(evidence.groups, groupIndex, end);
        if !fits(candidate) {
          return;
        }
        if aborted(after) {
          stopped := true;
          return;
        }
        after := after + 1;
        batch := candidate;
        end := end + 1;
      }
    }

    static lemma OneMoreGroup(groups: seq<seq<Message>>, first: nat, end: nat)
      requires first <= end < |groups|
      ensures AsBatch(Flatten(groups[first..end])) + AsBatch(groups[end]) == AsBatch(Flatten(groups[first..end + 1]))
    {
      assert groups[first..end + 1][..end - first] == groups[first..end];
    }

    /** next(). */
    method Next(fits: Batch -> bool, aborted: nat -> bool) returns (r: NextResult)
      requires Valid()
      modifies `groupIndex, `offset
      ensures Valid()
      ensures !r.Read? ==> At() == old(At())
      ensures r.Aborted? ==> exists t :: aborted(t)
      ensures r.Drained? ==> old(At()) == Cursor(|evidence.groups|, 0)
      ensures r.Read? ==> r.batch != [] && fits(r.batch) && evidence.Step(old(At()), r.batch, At())
      ensures r.Read? && r.batch[0].Whole? ==>
        evidence.WholeStep(old(At()), r.batch, At()) && GreedyRun(evidence, old(groupIndex), fits, groupIndex)
      ensures r.Read? && r.batch[0].Fragment? && old(offset) == 0 ==> !fits(AsBatch(evidence.groups[old(groupIndex)]))
      ensures old(groupIndex) == |evidence.groups| ==> r.Drained? || r.Aborted?
      ensures r.CompactionFailed? ==> fits([]) ==>
        old(groupIndex) < |evidence.groups|
        && (old(offset) == 0 ==> !fits(AsBatch(evidence.groups[old(groupIndex)])))
        && (Monotone(evidence, old(At()), fits) ==> !SomeFragmentFits(evidence, old(At()), fits))
    {
      if aborted(0) {
        return Aborted;
      }
      if groupIndex == |evidence.groups| {
        return Drained;
      }
      if !fits([]) {
        return CompactionFailed;
      }
      if aborted(1) {
        return Aborted;
      }
      if offset != 0 {
        r := NextFragment(fits, aborted, 2);
        return;
      }
      var batch, end, stopped, tick := TakeWholeGroups(fits, aborted, 2);
      if stopped {
        return Aborted;
      }
      if |batch| > 0 {
        assert evidence.groups[groupIndex..groupIndex] == [];
        assert end > groupIndex;
        groupIndex := end;
        return Read(batch);
      }
      assert end == groupIndex;
      assert evidence.groups[groupIndex..groupIndex + 1] == [evidence.groups[groupIndex]];
      assert Flatten([evidence.groups[groupIndex]]) == evidence.groups[groupIndex];
      r := NextFragment(fits, aborted, tick);
    }

    /** fragment(): bisection for the largest end, then a final fit check at a text boundary. */
    method NextFragment(fits: Batch -> bool, aborted: nat -> bool, tick: nat) returns (r: NextResult)
      requires Valid() && groupIndex < |evidence.groups|
      modifies `groupIndex, `offset
      ensures Valid()
      ensures r.Read? || r.CompactionFailed? || r.Aborted?
      ensures !r.Read? ==> At() == old(At())
      ensures r.Aborted? ==> exists t :: aborted(t)
      ensures r.Read? ==> fits(r.batch) && evidence.FragmentStep(old(At()), r.batch, At())
      ensures r.CompactionFailed? && Monotone(evidence, old(At()), fits) ==>
        !SomeFragmentFits(evidence, old(At()), fits)
    {
      var text := evidence.TextOf(groupIndex);
      var lower, after, stopped := Bisect(fits, aborted, tick);
      if stopped {
        return Aborted;
      }
      var end := UnicodeBoundary(text, lower);
      if end <= offset || !fits(evidence.FragmentOf(groupIndex, offset, end)) {
        return CompactionFailed;
      }
      if aborted(after) {
        return Aborted;
      }
      var batch := evidence.FragmentOf(groupIndex, offset, end);
      if end == |text| {
        groupIndex, offset := groupIndex + 1, 0;
      } else {
        offset := end;
      }
      return Read(batch);
    }

    method Bisect(fits: Batch -> bool, aborted: nat -> bool, tick: nat) returns (lower: nat, after: nat, stopped: bool)
      requires Valid() && groupIndex < |evidence.groups|
      ensures offset <= lower <= |evidence.TextOf(groupIndex)|
      ensures stopped ==> exists t :: aborted(t)
      ensures !stopped && Monotone(evidence, At(), fits) ==>
        forall end :: UnicodeBoundary(evidence.TextOf(groupIndex), lower) < end ==>
          !FragmentFits(evidence, At(), fits, end)
      ensures lower == offset
        || (UnicodeBoundary(evidence.TextOf(groupIndex), lower) >= offset
            && fits(evidence.FragmentOf(groupIndex, offset, UnicodeBoundary(evidence.TextOf(groupIndex), lower))))
    {
      var text := evidence.TextOf(groupIndex);
      lower, after, stopped := offset, tick, false;
      var upper := |text|;
      while lower < upper
        invariant offset <= lower <= upper <= |text|
        invariant lower == offset
          || (UnicodeBoundary(text, lower) >= offset
            && fits(evidence.FragmentOf(groupIndex, offset, UnicodeBoundary(text, lower))))
        invariant Monotone(evidence, At(), fits) ==> forall end :: upper < end ==>
          !FragmentFits(evidence, At(), fits, end)
        decreases upper - lower
      {
        if aborted(after) {
          stopped := true;
          return;
        }
        after := after + 1;
        var middle := (lower + upper + 1) / 2;
        var end := UnicodeBoundary(text, middle);
        if fits(evidence.FragmentOf(groupIndex, offset, end)) {
          lower := middle;
        } else {
          if Monotone(evidence, At(), fits) {
            forall e | middle - 1 < e
              ensures !FragmentFits(evidence, At(), fits, e)
            {
              assert e >= end;
            }
          }
          upper := middle - 1;
        }
      }
    }
  }

  lemma ReadsOneMore(evidence: Evidence, readings: seq<Reading>, batch: Batch, after: Cursor)
    requires evidence.Reads(readings) && evidence.Step(evidence.Before(readings, |readings|), batch, after)
    ensures evidence.Reads(readings + [Reading(batch, after)])
    ensures evidence.Before(readings + [Reading(batch, after)], |readings| + 1) == after
  {
    hide Evidence.Step;
    var longer := readings + [Reading(batch, after)];
    forall i | 0 <= i < |longer|
      ensures evidence.Step(evidence.Before(longer, i), longer[i].batch, longer[i].after)
    {
      assert evidence.Before(longer, i) == evidence.Before(readings, i);
    }
  }

  ghost function Remaining(evidence: Evidence, at: Cursor): (r: nat) {
    if at.group < |evidence.groups| && at.offset <= |evidence.TextOf(at.group)|
      then |evidence.TextOf(at.group)| - at.offset else 0
  }

  ghost predicate Advances(evidence: Evidence, from: Cursor, to: Cursor) {
    from.group < to.group <= |evidence.groups|
    || (from.group == to.group && Remaining(evidence, to) < Remaining(evidence, from))
  }

  lemma StepsAdvance(evidence: Evidence, from: Cursor, batch: Batch, to: Cursor)
    requires evidence.Step(from, batch, to) && evidence.AtBoundary(from)
    ensures Advances(evidence, from, to)
  {
  }

  lemma NothingRead(evidence: Evidence)
    ensures evidence.Reads([]) && evidence.Before([], 0) == Cursor(0, 0)
  {
  }

  /** One call that is never aborted: a reading, or the reason there is none. */
  method ReadOne(reader: ContextEvidenceBatches, fits: Batch -> bool) returns (r: Option<Reading>)
    requires reader.Valid()
    modifies reader
    ensures reader.Valid()
    ensures r.Some? ==> r.value.after == reader.At() && fits(r.value.batch)
    ensures r.Some? ==> reader.evidence.Step(old(reader.At()), r.value.batch, r.value.after)
    ensures r.Some? ==> Advances(reader.evidence, old(reader.At()), reader.At())
    ensures r.None? ==> reader.At() == old(reader.At())
    ensures r.None? && reader.At() != Cursor(|reader.evidence.groups|, 0) ==>
      FailedAt(reader.evidence, reader.At(), fits)
  {
    var result := reader.Next(fits, (t: nat) => false);
    match result {
      case Read(batch) =>
        StepsAdvance(reader.evidence, old(reader.At()), batch, reader.At());
        r := Some(Reading(batch, Cursor(reader.groupIndex, reader.offset)));
      case _ =>
        r := None;
    }
  }

  /** The consumer's loop: read until nothing is left, with a size test of its own each time. */
  method ReadAll(reader: ContextEvidenceBatches, fits: nat -> (Batch -> bool))
    returns (readings: seq<Reading>, complete: bool)
    requires reader.Valid() && reader.At() == Cursor(0, 0)
    modifies reader
    ensures reader.evidence.Reads(readings)
    ensures forall i :: 0 <= i < |readings| ==> fits(i)(readings[i].batch)
    ensures complete ==> reader.evidence.Before(readings, |readings|) == Cursor(|reader.evidence.groups|, 0)
    ensures !complete ==> FailedAt(reader.evidence, reader.At(), fits(|readings|))
  {
    hide Evidence.Step, Evidence.Reads, Evidence.Before, Evidence.Valid, Evidence.AtBoundary, FailedAt,
         Remaining, ContextEvidenceBatches.Valid;
    readings := [];
    assert reader.evidence.Reads(readings) by { NothingRead(reader.evidence); }
    assert reader.At() == reader.evidence.Before(readings, 0) by { NothingRead(reader.evidence); }
    while true
      invariant reader.Valid()
      invariant reader.evidence.Reads(readings)
      invariant reader.At() == reader.evidence.Before(readings, |readings|)
      invariant forall i :: 0 <= i < |readings| ==> fits(i)(readings[i].batch)
      decreases |reader.evidence.groups| - reader.At().group, Remaining(reader.evidence, reader.At())
    {
      ghost var from := reader.At();
      var r := ReadOne(reader, fits(|readings|));
      match r {
        case Some(reading) =>
          ReadsOneMore(reader.evidence, readings, reading.batch, reading.after);
          readings := readings + [reading];
        case None =>
          complete := reader.AssertComplete();
          return;
      }
    }
  }

  /**
   Why reading stopped early: the empty batch, the next group and (for a monotone
   test) every fragment were refused.
   */
  ghost predicate FailedAt(evidence: Evidence, at: Cursor, fits: Batch -> bool) {
    !fits([])
    || (at.group < |evidence.groups| && at.offset <= |evidence.TextOf(at.group)|
        && (at.offset == 0 ==> !fits(AsBatch(evidence.groups[at.group])))
        && (Monotone(evidence, at, fits) ==> !SomeFragmentFits(evidence, at, fits)))
  }
}
