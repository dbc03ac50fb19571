/**
 GuardedLanguageModel.doStream(): tool parts of a response are held back until
 the response has a validated finish (apps/agent/src/guarded-language-model.ts:92-250).
 */
module StreamGuard {
  import opened Wrappers

  datatype Reason = StopReason | ToolCalls | Length | ContentFilter | OtherReason

  datatype Delta = TextDelta | ReasoningDelta

  /** A part of the provider's stream. `sound` says that its text fields are strings and that it can be measured. */
  datatype Part =
    | Text(delta: Delta, blank: bool, sound: bool, id: nat)
    | ToolInput(sound: bool, id: nat)
    | ToolCall(sound: bool, id: nat)
    | Finish(reason: Reason, sound: bool)
    | ProviderError
    | Malformed
    | Plain(sound: bool, id: nat)

  datatype Read = Next(part: Part) | Done | ReadFails

  datatype Purpose = Answer | Memory

  /** What the consumer sees. */
  datatype Out = Emitted(part: Part) | Failed | Closed

  predicate HeldBack(part: Part) {
    part.ToolInput? || part.ToolCall?
  }

  /** Text that is not blank, or a tool call. */
  predicate IsAnswer(part: Part) {
    part.ToolCall? || (part.Text? && part.delta.TextDelta? && !part.blank)
  }

  predicate HasAnswer(parts: seq<Part>) {
    exists i :: 0 <= i < |parts| && IsAnswer(parts[i])
  }

  /** RunModelObservation.finish(): which completions are accepted. */
  predicate Completes(reason: Reason, stepAnswer: bool, purpose: Purpose, runAnswer: bool) {
    (reason.StopReason? || reason.ToolCalls?)
    && (stepAnswer || (purpose.Answer? && reason.StopReason? && runAnswer))
  }

  // ----- What the stream means -----

  function Parts(incoming: seq<Read>): (parts: seq<Part>)
    requires forall i :: 0 <= i < |incoming| ==> incoming[i].Next?
    ensures |parts| == |incoming| && forall i :: 0 <= i < |incoming| ==> parts[i] == incoming[i].part
  {
    seq(|incoming|, i requires 0 <= i < |incoming| => incoming[i].part)
  }

  predicate Sound(part: Part) {
    match part
    case Text(_, _, sound, _) => sound
    case ToolInput(sound, _) => sound
    case ToolCall(sound, _) => sound
    case Finish(_, sound) => sound
    case Plain(sound, _) => sound
    case _ => false
  }

  /** parts[..n] were all accepted: sound, no part behind a finish, and each finish validated. */
  predicate Accepted(parts: seq<Part>, purpose: Purpose, runAnswer: bool) {
    forall i :: 0 <= i < |parts| ==>
      Sound(parts[i])
      && (parts[i].Finish? ==>
        i == |parts| - 1 && Completes(parts[i].reason, HasAnswer(parts[..i]), purpose, runAnswer))
  }

  function Select(parts: seq<Part>, held: bool): (r: seq<Part>) {
    if |parts| == 0 then []
    else
      var last := parts[|parts| - 1];
      Select(parts[..|parts| - 1], held) + if HeldBack(last) == held then [last] else []
  }

  predicate Ended(parts: seq<Part>) {
    |parts| > 0 && parts[|parts| - 1].Finish?
  }

  function Before(parts: seq<Part>): (r: seq<Part>) {
    if |parts| == 0 then [] else parts[..|parts| - 1]
  }

  /**
   The consumer's view of accepted parts: all other parts in order, and the held
   ones as one block right before the finish.
   */
  function Visible(parts: seq<Part>): (r: seq<Part>) {
    if Ended(parts) then
      Select(Before(parts), false) + Select(Before(parts), true) + [parts[|parts| - 1]]
    else Select(parts, false)
  }

  function AsOut(parts: seq<Part>): (r: seq<Out>) {
    seq(|parts|, i requires 0 <= i < |parts| => Emitted(parts[i]))
  }

  predicate AllNext(incoming: seq<Read>) {
    forall i :: 0 <= i < |incoming| ==> incoming[i].Next?
  }

  /** The read that comes next ends the stream well, or ends it with the one error. */
  function Ending(parts: seq<Part>, read: Read, purpose: Purpose, runAnswer: bool): (r: Option<Out>) {
    match read
    case Done => Some(if Ended(parts) then Closed else Failed)
    case ReadFails => Some(Failed)
    case Next(part) => if Accepted(parts + [part], purpose, runAnswer) then None else Some(Failed)
  }

  // ----- Consequences -----

  lemma {:induction false} SelectKeeps(parts: seq<Part>, held: bool)
    ensures forall part :: part in Select(parts, held) ==> part in parts && HeldBack(part) == held
  {
    if |parts| > 0 {
      SelectKeeps(parts[..|parts| - 1], held);
    }
  }

  /** Until a validated finish, the consumer sees no tool part; with it, it sees every one. */
  lemma {:induction false} ToolsOnlyWithAFinish(parts: seq<Part>, purpose: Purpose, runAnswer: bool)
    requires Accepted(parts, purpose, runAnswer)
    ensures !Ended(parts) ==> forall part :: part in Visible(parts) ==> !HeldBack(part)
    ensures Ended(parts) ==> multiset(Visible(parts)) == multiset(parts)
    ensures Ended(parts) ==>
      Completes(parts[|parts| - 1].reason, HasAnswer(parts[..|parts| - 1]), purpose, runAnswer)
      && Visible(parts)[|Visible(parts)| - 1] == parts[|parts| - 1]
  {
    if Ended(parts) {
      var before := parts[..|parts| - 1];
      SelectPartitions(before);
      assert parts == before + [parts[|parts| - 1]];
    } else {
      SelectKeeps(parts, false);
    }
  }

  lemma MultisetAppended(parts: seq<Part>, part: Part)
    ensures multiset(parts + [part]) == multiset(parts) + multiset{part}
  {
  }

  lemma {:induction false} SelectAppended(parts: seq<Part>, part: Part)
    ensures Select(parts + [part], HeldBack(part)) == Select(parts, HeldBack(part)) + [part]
    ensures Select(parts + [part], !HeldBack(part)) == Select(parts, !HeldBack(part))
  {
  }

  lemma {:induction false} SelectPartitions(parts: seq<Part>)
    ensures multiset(Select(parts, false)) + multiset(Select(parts, true)) == multiset(parts)
  {
    if |parts| > 0 {
      var before, last := parts[..|parts| - 1], parts[|parts| - 1];
      assert parts == before + [last];
      SelectPartitions(before);
      SelectAppended(before, last);
      hide Select;
      MultisetAppended(before, last);
      if HeldBack(last) {
        MultisetAppended(Select(before, true), last);
      } else {
        MultisetAppended(Select(before, false), last);
      }
    }
  }

  // ----- The stream -----

  /** The fields of an open stream that has accepted these parts. */
  datatype Fields = Fields(runAnswer: bool, finished: bool, hasAnswer: bool, pending: seq<Part>, out: seq<Out>)

  ghost predicate Tracks(f: Fields, parts: seq<Part>, purpose: Purpose, initial: bool) {
    Accepted(parts, purpose, initial)
    && f.finished == Ended(parts)
    && (!f.finished ==> f.runAnswer == initial && f.hasAnswer == HasAnswer(parts) && f.pending == Select(parts, true))
    && (f.finished ==> f.pending == [] && f.runAnswer == (initial || (purpose.Answer? && HasAnswer(Before(parts)))))
    && f.out == AsOut(Visible(parts))
  }

  lemma {:induction false} TracksNext(f: Fields, parts: seq<Part>, part: Part, purpose: Purpose, initial: bool)
    requires Tracks(f, parts, purpose, initial) && !f.finished && Accepted(parts + [part], purpose, initial)
    ensures HeldBack(part) ==>
      Tracks(f.(hasAnswer := f.hasAnswer || IsAnswer(part), pending := f.pending + [part]), parts + [part], purpose,
        initial)
    ensures !HeldBack(part) && !part.Finish? ==>
      Tracks(f.(hasAnswer := f.hasAnswer || IsAnswer(part), out := f.out + [Emitted(part)]), parts + [part], purpose,
        initial)
    ensures part.Finish? ==>
      Tracks(Fields(f.runAnswer || (purpose.Answer? && f.hasAnswer), true, f.hasAnswer, [],
        f.out + (AsOut(f.pending) + [Emitted(part)])),
             parts + [part], purpose, initial)
  {
    AnswerAppended(parts, part);
    ViewAppended(parts, part);
    assert Before(parts + [part]) == parts;
    hide Accepted, Select, Visible, HasAnswer, AsOut, IsAnswer, Ended, Before;
  }

  class GuardedStream {
    const purpose: Purpose
    /** Did an earlier step of the run already answer? Updated by an accepted finish. */
    var runAnswer: bool
    var finished: bool
    var hasAnswer: bool
    var pending: seq<Part>
    var closed: bool
    var out: seq<Out>

    constructor (purpose: Purpose, runAnswer: bool)
      ensures this.purpose == purpose && this.runAnswer == runAnswer && out == [] && !closed
      ensures Follows([], runAnswer)
    {
      this.purpose, this.runAnswer := purpose, runAnswer;
      finished, hasAnswer, pending, closed, out := false, false, [], false, [];
    }

    ghost function State(): (r: Fields)
      reads this
    {
      Fields(runAnswer, finished, hasAnswer, pending, out)
    }

    /** The stream has accepted these parts and is still open. */
    ghost predicate Follows(parts: seq<Part>, initial: bool)
      reads this
    {
      !closed && Tracks(State(), parts, purpose, initial)
    }

    method Fail()
      modifies `out, `closed
      ensures closed && out == old(out) + [Failed]
    {
      out := out + [Failed];
      closed := true;
    }

    /** The checks that come before a part is counted or forwarded; false where the source throws. */
    method Check(part: Part) returns (ok: bool)
      ensures ok == (!finished && Sound(part))
    {
      if finished || part.Malformed? || part.ProviderError? {
        return false;
      }
      ok := Sound(part);
    }

    /** One read of the provider inside a pull. Tells whether the pull is over. */
    method Take(read: Read, ghost parts: seq<Part>, ghost initial: bool) returns (over: bool)
      requires Follows(parts, initial)
      modifies this
      ensures var ending := Ending(parts, read, purpose, initial);
        if ending.None? then Follows(parts + [read.part], initial) && (over <==> !HeldBack(read.part))
        else over && closed && out == AsOut(Visible(parts)) + (if ending.value.Failed? then [Failed] else [])
    {
      hide Accepted, Select, Visible, HasAnswer, AsOut, Completes;
      if read.Done? {
        if !finished {
          Fail();
        }
        closed := true;
        return true;
      }
      if read.ReadFails? {
        Fail();
        return true;
      }
      var part := read.part;
      var ok := Check(part);
      if !ok {
        NotAccepted(parts, part, purpose, initial);
        Fail();
        return true;
      }
      if part.Finish? && !Completes(part.reason, hasAnswer, purpose, runAnswer) {
        NotAccepted(parts, part, purpose, initial);
        Fail();
        return true;
      }
      Appended(parts, part, purpose, initial);
      over := Accept(part, parts, initial);
    }

    /** An accepted part is counted, then held back or forwarded; a finish releases what was held. */
    method Accept(part: Part, ghost parts: seq<Part>, ghost initial: bool) returns (over: bool)
      requires Follows(parts, initial) && !finished && Accepted(parts + [part], purpose, initial)
      modifies `runAnswer, `finished, `hasAnswer, `pending, `out
      ensures Follows(parts + [part], initial) && (over <==> !HeldBack(part))
    {
      hide Tracks, AsOut, Accepted, Select, Visible, Ended, HasAnswer;
      TracksNext(State(), parts, part, purpose, initial);
      if IsAnswer(part) {
        hasAnswer := true;
      }
      if HeldBack(part) {
        pending := pending + [part];
        return false;
      }
      if part.Finish? {
        runAnswer := runAnswer || (purpose.Answer? && hasAnswer);
        finished := true;
        out := out + (AsOut(pending) + [Emitted(part)]);
        pending := [];
      } else {
        out := out + [Emitted(part)];
      }
      over := true;
    }

    /** The consumer pulls until the stream closes or the provider has sent nothing more. */
    method Drain(incoming: seq<Read>, ghost initial: bool) returns (n: nat)
      requires Follows([], initial)
      modifies this
      ensures n <= |incoming| && (n < |incoming| ==> closed)
      ensures !closed ==> n == |incoming| && AllNext(incoming) && Follows(Parts(incoming), initial)
      ensures closed ==>
        n > 0 && AllNext(incoming[..n - 1]) && var parts := Parts(incoming[..n - 1]);
        var ending := Ending(parts, incoming[n - 1], purpose, initial);
        Accepted(parts, purpose, initial) && ending.Some?
        && out == AsOut(Visible(parts)) + (if ending.value.Failed? then [Failed] else [])
    {
      hide Accepted, Select, Visible, AsOut, Ending;
      n := 0;
      assert Parts(incoming[..0]) == [];
      while n < |incoming|
        invariant n <= |incoming| && AllNext(incoming[..n]) && Follows(Parts(incoming[..n]), initial)
      {
        ghost var parts := Parts(incoming[..n]);
        assert Accepted(parts, purpose, initial);
        var _ := Take(incoming[n], parts, initial);
        n := n + 1;
        if closed {
          return;
        }
        NextIsAPart(parts, incoming[n - 1], purpose, initial);
        OneMorePart(incoming, n - 1);
      }
      assert incoming[..n] == incoming;
    }
  }

  lemma NextIsAPart(parts: seq<Part>, read: Read, purpose: Purpose, runAnswer: bool)
    requires Ending(parts, read, purpose, runAnswer).None?
    ensures read.Next?
  {
  }

  lemma OneMorePart(incoming: seq<Read>, n: nat)
    requires n < |incoming| && AllNext(incoming[..n]) && incoming[n].Next?
    ensures AllNext(incoming[..n + 1]) && Parts(incoming[..n + 1]) == Parts(incoming[..n]) + [incoming[n].part]
  {
  }

  lemma {:induction false} NotAccepted(parts: seq<Part>, part: Part, purpose: Purpose, runAnswer: bool)
    requires Ended(parts) || !Sound(part)
      || (part.Finish? && !Completes(part.reason, HasAnswer(parts), purpose, runAnswer))
    ensures !Accepted(parts + [part], purpose, runAnswer)
  {
    var all := parts + [part];
    assert all[|parts|] == part && all[..|parts|] == parts;
    if Ended(parts) {
      assert all[|parts| - 1].Finish?;
    }
  }

  lemma {:induction false} Appended(parts: seq<Part>, part: Part, purpose: Purpose, runAnswer: bool)
    requires Accepted(parts, purpose, runAnswer) && !Ended(parts) && Sound(part)
    requires part.Finish? ==> Completes(part.reason, HasAnswer(parts), purpose, runAnswer)
    ensures Accepted(parts + [part], purpose, runAnswer)
  {
  }

  lemma {:induction false} AnswerAppended(parts: seq<Part>, part: Part)
    ensures HasAnswer(parts + [part]) <==> HasAnswer(parts) || IsAnswer(part)
  {
    var all := parts + [part];
    assert all[|parts|] == part && forall i :: 0 <= i < |parts| ==> all[i] == parts[i];
  }

  lemma AsOutAppended(a: seq<Part>, b: seq<Part>)
    ensures AsOut(a + b) == AsOut(a) + AsOut(b)
  {
  }

  /** What one more accepted part adds to the consumer's view. */
  lemma {:induction false} ViewAppended(parts: seq<Part>, part: Part)
    requires !Ended(parts)
    ensures Ended(parts + [part]) == part.Finish?
    ensures !part.Finish? ==>
      Select(parts + [part], true) == Select(parts, true) + if HeldBack(part) then [part] else []
    ensures AsOut(Visible(parts + [part])) == AsOut(Visible(parts))
      + (if HeldBack(part) then [] else if part.Finish? then AsOut(Select(parts, true)) + [Emitted(part)]
        else [Emitted(part)])
  {
    var all := parts + [part];
    assert all[..|parts|] == parts && all[|parts|] == part;
    if part.Finish? {
      assert Visible(all) == Select(parts, false) + (Select(parts, true) + [part]);
      hide Select;
      AsOutAppended(Select(parts, false), Select(parts, true) + [part]);
      AsOutAppended(Select(parts, true), [part]);
    } else if HeldBack(part) {
      assert Visible(all) == Visible(parts);
    } else {
      assert Visible(all) == Visible(parts) + [part];
      hide Select, Visible;
      AsOutAppended(Visible(parts), [part]);
    }
  }
}
