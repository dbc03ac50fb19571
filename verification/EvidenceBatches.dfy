/**
 Streaming evidence to a summarizer under an arbitrary size test
 (session-context-batches.ts:8-73): whole groups while they fit, UTF-16
 fragments of a group's JSON text when one does not.

 JSON.stringify is an arbitrary function to non-empty UTF-16 text; `fits` is an
 arbitrary predicate that may differ from call to call; the abort signal is an
 arbitrary answer to each check.
 */
module EvidenceBatches {
  import opened Wrappers
  import opened ContextSource
  import opened EvidenceGroups
  import opened Utf16

  datatype BatchMessage =
    | Whole(message: Message)
    | Fragment(group: nat, sources: seq<Reference>, offset: nat, end: nat, total: nat, content: Text)

  type Batch = seq<BatchMessage>

  datatype NextResult = Drained | Read(batch: Batch) | CompactionFailed | Aborted

  datatype Cursor = Cursor(group: nat, offset: nat)

  /** A batch and where it left the reader. */
  datatype Reading = Reading(batch: Batch, after: Cursor)

  // ----- Text boundaries -----

  predicate InsidePair(text: Text, end: nat) {
    0 < end < |text| && HighSurrogate(text[end - 1]) && LowSurrogate(text[end])
  }

  /** unicodeBoundary(): charCodeAt outside the text is NaN, so the ends are boundaries. */
  function UnicodeBoundary(text: Text, end: nat): (r: nat)
    ensures !InsidePair(text, r)
    ensures r == end || (r == end - 1 && InsidePair(text, end))
  {
    if InsidePair(text, end) then end - 1 else end
  }

  // ----- What a batch contains -----

  function AsBatch(messages: seq<Message>): (batch: Batch)
    ensures |batch| == |messages|
    ensures forall i :: 0 <= i < |messages| ==> batch[i] == Whole(messages[i])
  {
    seq(|messages|, i requires 0 <= i < |messages| => Whole(messages[i]))
  }

  /** The immutable inputs of one reader. */
  datatype Evidence = Evidence(
    groups: seq<seq<Message>>, serialize: seq<Message> -> Text, sourceParts: Option<seq<Reference>>) {
    ghost predicate Valid() {
      NonEmptyGroups(groups) && forall g :: 0 <= g < |groups| ==> serialize(groups[g]) != []
    }

    function TextOf(g: nat): (r: Text)
      requires g < |groups|
    {
      serialize(groups[g])
    }

    function SourcesOf(g: nat): (r: seq<Reference>)
      requires g < |groups|
    {
      match sourceParts
      case Some(parts) => OfGroup(parts, groups[g])
      case None => AllParts(groups[g])
    }

    function FragmentOf(g: nat, offset: nat, end: nat): (r: Batch)
      requires g < |groups| && offset <= end <= |TextOf(g)|
    {
      [Fragment(g, SourcesOf(g), offset, end, |TextOf(g)|, TextOf(g)[offset..end])]
    }

    ghost predicate AtBoundary(at: Cursor) {
      at.group <= |groups|
      && (at.offset > 0 ==>
        at.group < |groups| && at.offset < |TextOf(at.group)| && !InsidePair(TextOf(at.group), at.offset))
    }

    ghost predicate WholeStep(from: Cursor, batch: Batch, to: Cursor) {
      from.offset == 0 && to.offset == 0 && from.group < to.group <= |groups|
      && batch == AsBatch(Flatten(groups[from.group..to.group]))
    }

    ghost predicate FragmentStep(from: Cursor, batch: Batch, to: Cursor) {
      from.group < |groups|
      && var text := TextOf(from.group);
         var end := if to == Cursor(from.group + 1, 0) then |text| else to.offset;
         from.offset < end <= |text|
         && (to.group == from.group ==> end < |text|)
         && (to.group == from.group || to == Cursor(from.group + 1, 0))
         && !InsidePair(text, from.offset) && !InsidePair(text, end)
         && batch == FragmentOf(from.group, from.offset, end)
    }

    ghost predicate Step(from: Cursor, batch: Batch, to: Cursor) {
      WholeStep(from, batch, to) || FragmentStep(from, batch, to)
    }

    ghost function Before(readings: seq<Reading>, n: nat): (r: Cursor)
      requires n <= |readings|
    {
      if n == 0 then Cursor(0, 0) else readings[n - 1].after
    }

    /** Batches read one after the other from the start. */
    ghost predicate Reads(readings: seq<Reading>) {
      forall i :: 0 <= i < |readings| ==> Step(Before(readings, i), readings[i].batch, readings[i].after)
    }
  }

  function OfGroup(parts: seq<Reference>, group: seq<Message>): (r: seq<Reference>) {
    if |parts| == 0 then []
    else
      var rest := OfGroup(parts[..|parts| - 1], group);
      if exists m :: m in group && m.id == parts[|parts| - 1].messageId then rest + [parts[|parts| - 1]] else rest
  }

  function AllParts(group: seq<Message>): (r: seq<Reference>) {
    if |group| == 0 then []
    else AllParts(group[..|group| - 1]) + MessageReferences(group[|group| - 1], 0)
  }

  // ----- Reassembly, as a consumer would do it from the batches alone -----

  datatype Piece = OfMessage(message: Message) | OfJson(text: Text)

  datatype Assembly = Assembly(pieces: seq<Piece>, open: Text)

  /** Refuses a gap, an overlap, a whole message inside an open group, and a wrong total. */
  function Receive(state: Option<Assembly>, m: BatchMessage): (r: Option<Assembly>) {
    match (state, m)
    case (None, _) => None
    case (Some(a), Whole(message)) => if a.open != [] then None else Some(a.(pieces := a.pieces + [OfMessage(message)]))
    case (Some(a), Fragment(_, _, offset, end, total, content)) =>
      if offset != |a.open| || end != offset + |content| || end > total then None
      else if end == total then Some(Assembly(a.pieces + [OfJson(a.open + content)], []))
      else Some(a.(open := a.open + content))
  }

  function Assemble(state: Option<Assembly>, batch: Batch): (r: Option<Assembly>) {
    if |batch| == 0 then state
    else Receive(Assemble(state, batch[..|batch| - 1]), batch[|batch| - 1])
  }

  function AssembleAll(readings: seq<Reading>): (r: Option<Assembly>) {
    if |readings| == 0 then Some(Assembly([], []))
    else Assemble(AssembleAll(readings[..|readings| - 1]), readings[|readings| - 1].batch)
  }

  /** The evidence itself, each group either as its messages or as its one JSON text. */
  ghost function Render(evidence: Evidence, asJson: seq<bool>): (r: seq<Piece>)
    requires |asJson| <= |evidence.groups|
  {
    if |asJson| == 0 then []
    else
      var g := |asJson| - 1;
      Render(evidence, asJson[..g])
      + if asJson[g] then [OfJson(evidence.TextOf(g))] else Messages(evidence.groups[g])
  }

  function Messages(messages: seq<Message>): (pieces: seq<Piece>)
    ensures |pieces| == |messages|
    ensures forall i :: 0 <= i < |messages| ==> pieces[i] == OfMessage(messages[i])
  {
    seq(|messages|, i requires 0 <= i < |messages| => OfMessage(messages[i]))
  }

  lemma {:induction false} AssembleMessages(pieces: seq<Piece>, messages: seq<Message>)
    ensures Assemble(Some(Assembly(pieces, [])), AsBatch(messages)) == Some(Assembly(pieces + Messages(messages), []))
  {
    if |messages| > 0 {
      var n := |messages| - 1;
      AssembleMessages(pieces, messages[..n]);
      assert AsBatch(messages)[..n] == AsBatch(messages[..n]);
      assert pieces + Messages(messages) == pieces + Messages(messages[..n]) + [OfMessage(messages[n])];
    } else {
      assert pieces + Messages(messages) == pieces;
    }
  }

  /** What has been received when the cursor stands at `at`. */
  ghost predicate Received(evidence: Evidence, at: Cursor, state: Option<Assembly>) {
    evidence.AtBoundary(at)
    && exists asJson: seq<bool> :: |asJson| == at.group
         && state == Some(Assembly(Render(evidence, asJson),
           if at.offset == 0 then [] else evidence.TextOf(at.group)[..at.offset]))
  }

  lemma MessagesConcatenate(a: seq<Message>, b: seq<Message>)
    ensures Messages(a + b) == Messages(a) + Messages(b)
  {
  }

  lemma {:induction false} RenderWholeGroups(evidence: Evidence, asJson: seq<bool>, upTo: nat)
    returns (longer: seq<bool>)
    requires |asJson| <= upTo <= |evidence.groups|
    ensures |longer| == upTo
    ensures Render(evidence, longer) == Render(evidence, asJson) + Messages(Flatten(evidence.groups[|asJson|..upTo]))
    decreases upTo
  {
    hide *;
    var from := |asJson|;
    if from == upTo {
      longer := asJson;
      NoGroups();
      assert evidence.groups[from..upTo] == [];
      assert Render(evidence, asJson) + [] == Render(evidence, asJson);
    } else {
      var shorter := RenderWholeGroups(evidence, asJson, upTo - 1);
      longer := shorter + [false];
      RenderOneMore(evidence, shorter);
      var before, group := evidence.groups[from..upTo - 1], evidence.groups[upTo - 1];
      FlattenOneMore(before, group);
      assert evidence.groups[from..upTo] == before + [group];
      MessagesConcatenate(Flatten(before), group);
      PiecesAssociate(Render(evidence, asJson), Messages(Flatten(before)), Messages(group));
    }
  }

  lemma NoGroups()
    ensures Messages(Flatten([])) == []
  {
  }

  lemma RenderOneMore(evidence: Evidence, asJson: seq<bool>)
    requires |asJson| < |evidence.groups|
    ensures Render(evidence, asJson + [false]) == Render(evidence, asJson) + Messages(evidence.groups[|asJson|])
  {
  }

  lemma PiecesAssociate(a: seq<Piece>, b: seq<Piece>, c: seq<Piece>)
    ensures (a + b) + c == a + (b + c)
  {
  }

  lemma FlattenOneMore(groups: seq<seq<Message>>, group: seq<Message>)
    ensures Flatten(groups + [group]) == Flatten(groups) + group
  {
  }

  lemma WholeStepReceived(evidence: Evidence, from: Cursor, batch: Batch, to: Cursor, state: Option<Assembly>)
    requires Received(evidence, from, state) && evidence.WholeStep(from, batch, to)
    ensures Received(evidence, to, Assemble(state, batch))
  {
    var asJson: seq<bool> :| |asJson| == from.group && state == Some(Assembly(Render(evidence, asJson), []));
    var longer := RenderWholeGroups(evidence, asJson, to.group);
    AssembleMessages(Render(evidence, asJson), Flatten(evidence.groups[from.group..to.group]));
  }

  lemma OneFragment(evidence: Evidence, from: Cursor, batch: Batch, to: Cursor, asJson: seq<bool>)
    requires evidence.AtBoundary(from) && evidence.FragmentStep(from, batch, to)
    requires |asJson| == from.group
    ensures var text := evidence.TextOf(from.group);
            Assemble(Some(Assembly(Render(evidence, asJson), text[..from.offset])), batch)
            == Some(if to.group == from.group then Assembly(Render(evidence, asJson), text[..to.offset])
                    else Assembly(Render(evidence, asJson) + [OfJson(text)], []))
  {
    hide Render;
    var text := evidence.TextOf(from.group);
    var end := if to == Cursor(from.group + 1, 0) then |text| else to.offset;
    assert batch[..0] == [];
    assert text[..from.offset] + text[from.offset..end] == text[..end];
    assert text[..|text|] == text;
  }

  lemma FragmentStepReceived(evidence: Evidence, from: Cursor, batch: Batch, to: Cursor, state: Option<Assembly>)
    requires Received(evidence, from, state) && evidence.FragmentStep(from, batch, to)
    ensures Received(evidence, to, Assemble(state, batch))
  {
    hide Assemble, Render;
    var text := evidence.TextOf(from.group);
    assert text[..0] == [];
    var asJson: seq<bool> :| |asJson| == from.group
      && state == Some(Assembly(Render(evidence, asJson), text[..from.offset]));
    OneFragment(evidence, from, batch, to, asJson);
    if to.group != from.group {
      RenderJson(evidence, asJson);
      assert |asJson + [true]| == to.group;
    } else {
      assert |asJson| == to.group;
    }
  }

  lemma RenderJson(evidence: Evidence, asJson: seq<bool>)
    requires |asJson| < |evidence.groups|
    ensures Render(evidence, asJson + [true]) == Render(evidence, asJson) + [OfJson(evidence.TextOf(|asJson|))]
  {
    assert (asJson + [true])[..|asJson|] == asJson;
  }

  lemma StepReceived(evidence: Evidence, from: Cursor, batch: Batch, to: Cursor, state: Option<Assembly>)
    requires Received(evidence, from, state) && evidence.Step(from, batch, to)
    ensures Received(evidence, to, Assemble(state, batch))
  {
    hide Received, Assemble, Evidence.WholeStep, Evidence.FragmentStep;
    if evidence.WholeStep(from, batch, to) {
      WholeStepReceived(evidence, from, batch, to, state);
    } else {
      FragmentStepReceived(evidence, from, batch, to, state);
    }
  }

  lemma {:induction false} BatchesReassemblePrefix(evidence: Evidence, readings: seq<Reading>, n: nat)
    requires evidence.Reads(readings) && n <= |readings|
    ensures Received(evidence, evidence.Before(readings, n), AssembleAll(readings[..n]))
    decreases n
  {
    hide *;
    if n == 0 {
      NothingReceived(evidence, readings);
    } else {
      BatchesReassemblePrefix(evidence, readings, n - 1);
      LastReading(evidence, readings, n);
      StepReceived(evidence, evidence.Before(readings, n - 1), readings[n - 1].batch, readings[n - 1].after,
                   AssembleAll(readings[..n - 1]));
    }
  }

  lemma NothingReceived(evidence: Evidence, readings: seq<Reading>)
    requires evidence.Reads(readings)
    ensures Received(evidence, evidence.Before(readings, 0), AssembleAll(readings[..0]))
  {
  }

  lemma LastReading(evidence: Evidence, readings: seq<Reading>, n: nat)
    requires evidence.Reads(readings) && 0 < n <= |readings|
    ensures evidence.Step(evidence.Before(readings, n - 1), readings[n - 1].batch, readings[n - 1].after)
    ensures evidence.Before(readings, n) == readings[n - 1].after
    ensures AssembleAll(readings[..n]) == Assemble(AssembleAll(readings[..n - 1]), readings[n - 1].batch)
  {
    hide Evidence.Step, Assemble;
    assert readings[..n][..n - 1] == readings[..n - 1];
  }

  /**
   A complete reading reassembles the evidence exactly: every group once and in
   order, as its messages or as its whole JSON text, with no gap and no overlap.
   */
  lemma BatchesReassemble(evidence: Evidence, readings: seq<Reading>)
    requires evidence.Reads(readings)
    requires evidence.Before(readings, |readings|) == Cursor(|evidence.groups|, 0)
    ensures exists asJson: seq<bool> ::
      |asJson| == |evidence.groups| && AssembleAll(readings) == Some(Assembly(Render(evidence, asJson), []))
  {
    BatchesReassemblePrefix(evidence, readings, |readings|);
    assert readings[..|readings|] == readings;
  }
}
