/**
 canonicalJson(): one text per JSON value, whatever the order of its object
 members (apps/agent/src/canonical-json.ts:2-11). Strings are sequences of UTF-16
 code units and are quoted as in section 7 of RFC 8259, with the well-formed
 escapes that JSON.stringify gives to surrogates that stand alone.
 */
module CanonicalJson {
  import opened Utf16

  // ----- Values -----

  /** A number is the text that its finite value prints as; equal numbers print alike. */
  datatype Json =
    | Null
    | Bool(value: bool)
    | Number(numeral: Text)
    | String(text: Text)
    | List(items: seq<Json>)
    | Object(entries: seq<Entry>)

  datatype Entry = Entry(key: Text, value: Json)

  predicate InNumeral(unit: CodeUnit) {
    48 <= unit <= 57 || unit == 43 || unit == 45 || unit == 46 || unit == 69 || unit == 101
  }

  predicate IsNumeral(text: Text) {
    |text| > 0 && forall i :: 0 <= i < |text| ==> InNumeral(text[i])
  }

  /** Keys of an object are distinct. */
  predicate WellFormed(v: Json) {
    match v
    case Number(numeral) => IsNumeral(numeral)
    case List(items) => forall i :: 0 <= i < |items| ==> WellFormed(items[i])
    case Object(entries) =>
      (forall i, j :: 0 <= i < j < |entries| ==> entries[i].key != entries[j].key)
      && forall i :: 0 <= i < |entries| ==> WellFormed(entries[i].value)
    case _ => true
  }

  /** Equality of JSON values: the order of object members does not count. */
  ghost predicate Equivalent(v: Json, w: Json)
    decreases v, 0
  {
    if v.List? && w.List? then
      |v.items| == |w.items| && forall i :: 0 <= i < |v.items| ==> Equivalent(v.items[i], w.items[i])
    else if v.Object? && w.Object? then
      (forall i :: 0 <= i < |v.entries| ==> HasEquivalent(v.entries[i], w.entries))
      && (forall j :: 0 <= j < |w.entries| ==> HasKey(v.entries, w.entries[j].key))
    else v == w
  }

  ghost predicate HasEquivalent(e: Entry, entries: seq<Entry>)
    decreases e.value, 1
  {
    exists j :: 0 <= j < |entries| && e.key == entries[j].key && Equivalent(e.value, entries[j].value)
  }

  ghost predicate HasKey(entries: seq<Entry>, key: Text) {
    exists i :: 0 <= i < |entries| && entries[i].key == key
  }

  // ----- Printing -----

  const QUOTE: CodeUnit := 34
  const COMMA: CodeUnit := 44
  const COLON: CodeUnit := 58
  const BACKSLASH: CodeUnit := 92
  const OPEN_LIST: CodeUnit := 91
  const CLOSE_LIST: CodeUnit := 93
  const OPEN_OBJECT: CodeUnit := 123
  const CLOSE_OBJECT: CodeUnit := 125

  function HexDigit(n: nat): (r: CodeUnit)
    requires n < 16
  {
    if n < 10 then (48 + n) as CodeUnit else (87 + n) as CodeUnit
  }

  function UnicodeEscape(unit: CodeUnit): (r: Text) {
    var n := unit as int;
    [BACKSLASH, 117, HexDigit(n / 4096), HexDigit(n / 256 % 16), HexDigit(n / 16 % 16), HexDigit(n % 16)]
  }

  predicate Surrogate(unit: CodeUnit) {
    HighSurrogate(unit) || LowSurrogate(unit)
  }

  predicate StartsPair(s: Text) {
    |s| > 1 && HighSurrogate(s[0]) && LowSurrogate(s[1])
  }

  function Escape(unit: CodeUnit): (r: Text) {
    if unit == QUOTE || unit == BACKSLASH then [BACKSLASH, unit]
    else if unit == 8 then [BACKSLASH, 98]
    else if unit == 9 then [BACKSLASH, 116]
    else if unit == 10 then [BACKSLASH, 110]
    else if unit == 12 then [BACKSLASH, 102]
    else if unit == 13 then [BACKSLASH, 114]
    else if unit < 32 || Surrogate(unit) then UnicodeEscape(unit)
    else [unit]
  }

  /** What is quoted first, and how many code units that takes. */
  function Chunk(s: Text): (r: Text) {
    if |s| == 0 then [QUOTE] else if StartsPair(s) then s[..2] else Escape(s[0])
  }

  function Taken(s: Text): (n: nat)
    requires |s| > 0
    ensures 0 < n <= |s|
  {
    if StartsPair(s) then 2 else 1
  }

  function Quoted(s: Text): (r: Text)
    decreases |s|
  {
    if |s| == 0 then Chunk(s) else Chunk(s) + Quoted(s[Taken(s)..])
  }

  function Quote(s: Text): (r: Text) {
    [QUOTE] + Quoted(s)
  }

  function Join(texts: seq<Text>): (r: Text) {
    if |texts| == 0 then []
    else if |texts| == 1 then texts[0]
    else texts[0] + [COMMA] + Join(texts[1..])
  }

  datatype Member = Member(key: Text, value: Text)

  function Insert(m: Member, sorted: seq<Member>): (r: seq<Member>) {
    if |sorted| == 0 || Less(m.key, sorted[0].key) then [m] + sorted
    else [sorted[0]] + Insert(m, sorted[1..])
  }

  function Sort(members: seq<Member>): (r: seq<Member>) {
    if |members| == 0 then [] else Insert(members[0], Sort(members[1..]))
  }

  function MemberText(m: Member): (r: Text) {
    Quote(m.key) + [COLON] + m.value
  }

  /** Each member with its printed value; since sorting looks at keys only, it may come before or after printing. */
  function Members(v: Json): (r: seq<Member>)
    requires v.Object?
    decreases v, 0
  {
    seq(|v.entries|, i requires 0 <= i < |v.entries| => Member(v.entries[i].key, Canonical(v.entries[i].value)))
  }

  function ItemTexts(v: Json): (r: seq<Text>)
    requires v.List?
    decreases v, 0
  {
    seq(|v.items|, i requires 0 <= i < |v.items| => Canonical(v.items[i]))
  }

  function MemberTexts(members: seq<Member>): (r: seq<Text>) {
    seq(|members|, i requires 0 <= i < |members| => MemberText(members[i]))
  }

  function Canonical(v: Json): (r: Text)
    decreases v, 1
  {
    match v
    case Null => [110, 117, 108, 108]
    case Bool(value) => if value then [116, 114, 117, 101] else [102, 97, 108, 115, 101]
    case Number(numeral) => numeral
    case String(text) => Quote(text)
    case List(_) => [OPEN_LIST] + Join(ItemTexts(v)) + [CLOSE_LIST]
    case Object(_) => [OPEN_OBJECT] + Join(MemberTexts(Sort(Members(v)))) + [CLOSE_OBJECT]
  }

  // ----- Strings can be read back -----

  lemma HexDigitsDiffer(m: nat, n: nat)
    requires m < 16 && n < 16 && HexDigit(m) == HexDigit(n)
    ensures m == n
  {
  }

  lemma FourDigits(n: nat)
    ensures n == n / 4096 * 4096 + n / 256 % 16 * 256 + n / 16 % 16 * 16 + n % 16
  {
    assert n / 256 == n / 4096 * 16 + n / 256 % 16;
    assert n / 16 == n / 256 * 16 + n / 16 % 16;
  }

  lemma EscapesDiffer(x: CodeUnit, y: CodeUnit)
    requires UnicodeEscape(x) == UnicodeEscape(y)
    ensures x == y
  {
    var a, b := UnicodeEscape(x), UnicodeEscape(y);
    var m, n := x as int, y as int;
    assert a[2] == b[2] && a[3] == b[3] && a[4] == b[4] && a[5] == b[5];
    HexDigitsDiffer(m / 4096, n / 4096);
    HexDigitsDiffer(m / 256 % 16, n / 256 % 16);
    HexDigitsDiffer(m / 16 % 16, n / 16 % 16);
    HexDigitsDiffer(m % 16, n % 16);
    hide HexDigit, UnicodeEscape;
    FourDigits(m);
    FourDigits(n);
  }

  /** How long a quoted chunk is can be told from its first two code units. */
  function ChunkLength(text: Text): (r: nat) {
    if |text| == 0 then 0
    else if text[0] == BACKSLASH then (if |text| > 1 && text[1] == 117 then 6 else 2)
    else if Surrogate(text[0]) then 2
    else 1
  }

  lemma ChunkTellsItsLength(s: Text, rest: Text)
    ensures |Chunk(s)| > 0 && ChunkLength(Chunk(s) + rest) == |Chunk(s)|
  {
  }

  lemma SameChunk(s: Text, t: Text)
    requires |s| > 0 && |t| > 0 && Chunk(s) == Chunk(t)
    ensures Taken(s) == Taken(t) && s[..Taken(s)] == t[..Taken(t)]
  {
    if StartsPair(s) || StartsPair(t) {
      assert Surrogate(Chunk(s)[0]);
    } else if Chunk(s)[0] == BACKSLASH {
      if Chunk(s)[1] == 117 {
        EscapesDiffer(s[0], t[0]);
      } else {
        assert s[0] == t[0];
      }
    }
  }

  lemma SplitEqual(x: Text, a: Text, y: Text, b: Text)
    requires x + a == y + b && |x| == |y|
    ensures x == y && a == b
  {
    assert x == (x + a)[..|x|] && y == (y + b)[..|y|];
    assert a == (x + a)[|x|..] && b == (y + b)[|y|..];
  }

  function AfterChunk(s: Text, a: Text): (r: Text) {
    if |s| == 0 then a else Quoted(s[Taken(s)..]) + a
  }

  lemma FirstChunk(s: Text, a: Text)
    ensures Quoted(s) + a == Chunk(s) + AfterChunk(s, a)
  {
  }

  lemma {:induction false} QuotedReads(s: Text, t: Text, a: Text, b: Text)
    requires Quoted(s) + a == Quoted(t) + b
    ensures s == t && a == b
    decreases |s|
  {
    FirstChunk(s, a);
    FirstChunk(t, b);
    ChunkTellsItsLength(s, AfterChunk(s, a));
    ChunkTellsItsLength(t, AfterChunk(t, b));
    hide Chunk, ChunkLength, Taken, Quoted;
    SplitEqual(Chunk(s), AfterChunk(s, a), Chunk(t), AfterChunk(t, b));
    assert |s| == 0 <==> |t| == 0 by { EndIsAQuote(s); EndIsAQuote(t); }
    if |s| > 0 {
      SameChunk(s, t);
      QuotedReads(s[Taken(s)..], t[Taken(t)..], a, b);
      assert s == s[..Taken(s)] + s[Taken(s)..] && t == t[..Taken(t)] + t[Taken(t)..];
    }
  }

  lemma EndIsAQuote(s: Text)
    ensures |Chunk(s)| > 0 && (Chunk(s)[0] == QUOTE <==> |s| == 0)
  {
  }

  lemma QuoteReads(s: Text, t: Text, a: Text, b: Text)
    requires Quote(s) + a == Quote(t) + b
    ensures s == t && a == b
  {
    hide Quoted;
    assert Quote(s) + a == [QUOTE] + (Quoted(s) + a);
    assert Quote(t) + b == [QUOTE] + (Quoted(t) + b);
    SplitEqual([QUOTE], Quoted(s) + a, [QUOTE], Quoted(t) + b);
    QuotedReads(s, t, a, b);
  }

  // ----- Sorting -----

  ghost predicate Sorted(ms: seq<Member>) {
    forall i, j :: 0 <= i < j < |ms| ==> Less(ms[i].key, ms[j].key)
  }

  ghost predicate DistinctKeys(ms: seq<Member>) {
    forall i, j :: 0 <= i < j < |ms| ==> ms[i].key != ms[j].key
  }

  lemma {:induction false} InsertSorts(m: Member, sorted: seq<Member>)
    requires Sorted(sorted) && forall i :: 0 <= i < |sorted| ==> sorted[i].key != m.key
    ensures Sorted(Insert(m, sorted))
    ensures forall x :: x in Insert(m, sorted) <==> x == m || x in sorted
  {
    if |sorted| > 0 {
      if Less(m.key, sorted[0].key) {
        forall i | 0 < i < |sorted| ensures Less(m.key, sorted[i].key) {
          LessIsTransitive(m.key, sorted[0].key, sorted[i].key);
        }
      } else {
        LessIsTotal(m.key, sorted[0].key);
        InsertSorts(m, sorted[1..]);
        assert sorted == [sorted[0]] + sorted[1..];
        var rest := Insert(m, sorted[1..]);
        forall i | 0 <= i < |rest| ensures Less(sorted[0].key, rest[i].key) {
          assert rest[i] in rest;
        }
      }
    }
  }

  /** Sorting gives the same members in strictly increasing key order. */
  lemma {:induction false} SortSorts(ms: seq<Member>)
    requires DistinctKeys(ms)
    ensures Sorted(Sort(ms))
    ensures forall x :: x in Sort(ms) <==> x in ms
  {
    if |ms| > 0 {
      SortSorts(ms[1..]);
      assert ms == [ms[0]] + ms[1..];
      var rest := Sort(ms[1..]);
      forall i | 0 <= i < |rest| ensures rest[i].key != ms[0].key {
        assert rest[i] in ms[1..];
      }
      InsertSorts(ms[0], rest);
    }
  }

  /** A sorted sequence is determined by its members. */
  lemma {:induction false} SortedIsUnique(a: seq<Member>, b: seq<Member>)
    requires Sorted(a) && Sorted(b) && forall x :: x in a <==> x in b
    ensures a == b
  {
    assert |b| > 0 ==> b[0] in a;
    assert |a| > 0 ==> a[0] in b;
    if |a| > 0 {
      var i :| 0 <= i < |b| && b[i] == a[0];
      assert b[0] in a;
      var j :| 0 <= j < |a| && a[j] == b[0];
      LessIsTotal(a[0].key, b[0].key);
      assert i == 0;
      HeadIsAlone(a);
      HeadIsAlone(b);
      SortedIsUnique(a[1..], b[1..]);
      assert a == [a[0]] + a[1..] && b == [b[0]] + b[1..];
    }
  }

  lemma HeadIsAlone(a: seq<Member>)
    requires |a| > 0 && Sorted(a)
    ensures forall x :: x in a[1..] <==> x in a && x != a[0]
  {
    LessIsTotal(a[0].key, a[0].key);
    assert a == [a[0]] + a[1..];
  }

  // ----- Every value can be read back -----

  predicate Terminated(rest: Text) {
    |rest| == 0 || !InNumeral(rest[0])
  }

  function NumeralLength(text: Text): (r: nat) {
    if |text| == 0 || !InNumeral(text[0]) then 0 else 1 + NumeralLength(text[1..])
  }

  lemma {:induction false} NumeralEnds(m: Text, a: Text)
    requires (forall i :: 0 <= i < |m| ==> InNumeral(m[i])) && Terminated(a)
    ensures NumeralLength(m + a) == |m|
  {
    if |m| == 0 {
      assert m + a == a;
    } else {
      assert (m + a)[1..] == m[1..] + a;
      NumeralEnds(m[1..], a);
    }
  }

  lemma NumeralReads(m: Text, n: Text, a: Text, b: Text)
    requires IsNumeral(m) && IsNumeral(n) && Terminated(a) && Terminated(b) && m + a == n + b
    ensures m == n && a == b
  {
    NumeralEnds(m, a);
    NumeralEnds(n, b);
    SplitEqual(m, a, n, b);
  }

  /** The first code unit tells the kind of a value, and is never a closing bracket. */
  lemma FirstUnit(v: Json)
    requires WellFormed(v)
    ensures |Canonical(v)| > 0
    ensures var unit := Canonical(v)[0];
            unit != CLOSE_LIST && unit != CLOSE_OBJECT
            && (v.Null? <==> unit == 110) && (v.Bool? <==> unit == 116 || unit == 102)
              && (v.Number? <==> InNumeral(unit))
            && (v.String? <==> unit == QUOTE) && (v.List? <==> unit == OPEN_LIST)
              && (v.Object? <==> unit == OPEN_OBJECT)
  {
  }

  /** A piece that a list or object puts between its commas. */
  ghost predicate Piece(v: Json, text: Text)
    requires v.List? || v.Object?
  {
    if v.List? then exists i :: 0 <= i < |v.items| && text == Canonical(v.items[i])
    else exists i :: 0 <= i < |v.entries| && text == EntryText(v.entries[i])
  }

  ghost predicate Pieces(v: Json, texts: seq<Text>)
    requires v.List? || v.Object?
  {
    forall i :: 0 <= i < |texts| ==> Piece(v, texts[i])
  }

  function EntryText(e: Entry): (r: Text)
    decreases e.value, 2
  {
    Quote(e.key) + [COLON] + Canonical(e.value)
  }

  lemma EntryThen(e: Entry, a: Text)
    ensures EntryText(e) + a == Quote(e.key) + ([COLON] + (Canonical(e.value) + a))
  {
  }

  lemma {:induction false} PieceReads(v: Json, w: Json, s: Text, t: Text, a: Text, b: Text)
    requires WellFormed(v) && WellFormed(w) && ((v.List? && w.List?) || (v.Object? && w.Object?))
    requires Piece(v, s) && Piece(w, t) && s + a == t + b && Terminated(a) && Terminated(b)
    ensures s == t && a == b
    decreases v, 0, 1
  {
    hide Canonical, EntryText, Terminated;
    if v.List? {
      var i :| 0 <= i < |v.items| && s == Canonical(v.items[i]);
      var j :| 0 <= j < |w.items| && t == Canonical(w.items[j]);
      ValueReads(v.items[i], w.items[j], a, b);
    } else {
      var i :| 0 <= i < |v.entries| && s == EntryText(v.entries[i]);
      var j :| 0 <= j < |w.entries| && t == EntryText(w.entries[j]);
      EntryReads(v, w, i, j, a, b);
    }
  }

  lemma {:induction false} EntryReads(v: Json, w: Json, i: nat, j: nat, a: Text, b: Text)
    requires WellFormed(v) && WellFormed(w) && v.Object? && w.Object? && i < |v.entries| && j < |w.entries|
    requires EntryText(v.entries[i]) + a == EntryText(w.entries[j]) + b && Terminated(a) && Terminated(b)
    ensures EntryText(v.entries[i]) == EntryText(w.entries[j]) && a == b
    decreases v, 0, 0
  {
    var e, f := v.entries[i], w.entries[j];
    EntryThen(e, a);
    EntryThen(f, b);
    hide Canonical, Quote, Terminated;
    QuoteReads(e.key, f.key, [COLON] + (Canonical(e.value) + a), [COLON] + (Canonical(f.value) + b));
    SplitEqual([COLON], Canonical(e.value) + a, [COLON], Canonical(f.value) + b);
    ValueReads(e.value, f.value, a, b);
  }

  function AfterFirst(texts: seq<Text>, rest: Text): (r: Text)
    requires |texts| > 0
  {
    if |texts| == 1 then rest else [COMMA] + (Join(texts[1..]) + rest)
  }

  lemma {:induction false} JoinReads(v: Json, w: Json, ss: seq<Text>, ts: seq<Text>, close: CodeUnit, a: Text, b: Text)
    requires WellFormed(v) && WellFormed(w) && ((v.List? && w.List?) || (v.Object? && w.Object?))
    requires Pieces(v, ss) && Pieces(w, ts) && (close == CLOSE_LIST || close == CLOSE_OBJECT)
    requires Join(ss) + ([close] + a) == Join(ts) + ([close] + b)
    ensures ss == ts && a == b
    decreases v, 1, |ss|
  {
    var x, y := [close] + a, [close] + b;
    hide Canonical, WellFormed, Piece;
    if |ss| > 0 && |ts| > 0 {
      JoinThen(ss, x);
      JoinThen(ts, y);
      assert Terminated(AfterFirst(ss, x)) && Terminated(AfterFirst(ts, y));
      PieceReads(v, w, ss[0], ts[0], AfterFirst(ss, x), AfterFirst(ts, y));
      hide Join;
      assert AfterFirst(ss, x)[0] == AfterFirst(ts, y)[0];
      if |ss| > 1 {
        SplitEqual([COMMA], Join(ss[1..]) + x, [COMMA], Join(ts[1..]) + y);
        JoinReads(v, w, ss[1..], ts[1..], close, a, b);
      } else {
        SplitEqual([close], a, [close], b);
      }
      assert ss == [ss[0]] + ss[1..] && ts == [ts[0]] + ts[1..];
    } else {
      if |ts| > 0 {
        NoPieceCloses(w, ts, x, close, y);
      } else if |ss| > 0 {
        NoPieceCloses(v, ss, y, close, x);
      }
      assert Join(ss) + x == x && Join(ts) + y == y;
      SplitEqual([close], a, [close], b);
    }
  }

  lemma JoinThen(texts: seq<Text>, rest: Text)
    requires |texts| > 0
    ensures Join(texts) + rest == texts[0] + AfterFirst(texts, rest)
  {
  }

  lemma NoPieceCloses(v: Json, texts: seq<Text>, closed: Text, close: CodeUnit, rest: Text)
    requires WellFormed(v) && (v.List? || v.Object?) && Pieces(v, texts) && |texts| > 0
    requires |closed| > 0 && closed[0] == close && (close == CLOSE_LIST || close == CLOSE_OBJECT)
    ensures closed != Join(texts) + rest
  {
  }

  lemma MembersArePieces(v: Json)
    requires WellFormed(v) && v.Object?
    ensures DistinctKeys(Members(v)) && Sorted(Sort(Members(v)))
    ensures forall x :: x in Sort(Members(v)) <==> x in Members(v)
    ensures Pieces(v, MemberTexts(Sort(Members(v))))
  {
    SortSorts(Members(v));
    hide Canonical, Quoted, Sort;
    var sorted := Sort(Members(v));
    forall i | 0 <= i < |sorted| ensures Piece(v, MemberTexts(sorted)[i]) {
      assert sorted[i] in Members(v);
      var k :| 0 <= k < |Members(v)| && Members(v)[k] == sorted[i];
      assert MemberTexts(sorted)[i] == EntryText(v.entries[k]);
    }
  }

  /** The encoding is self-delimiting: whatever follows, the text of a value can be cut off in one way only. */
  lemma {:induction false} ValueReads(v: Json, w: Json, a: Text, b: Text)
    requires WellFormed(v) && WellFormed(w) && Terminated(a) && Terminated(b)
    requires Canonical(v) + a == Canonical(w) + b
    ensures Canonical(v) == Canonical(w) && a == b
    decreases v, 2, 0
  {
    FirstUnit(v);
    FirstUnit(w);
    assert (Canonical(v) + a)[0] == Canonical(v)[0] && (Canonical(w) + b)[0] == Canonical(w)[0];
    match v
    case Null => SplitEqual(Canonical(v), a, Canonical(w), b);
    case Bool(value) => SplitEqual(Canonical(v), a, Canonical(w), b);
    case Number(numeral) => NumeralReads(numeral, w.numeral, a, b);
    case String(text) => QuoteReads(text, w.text, a, b);
    case List(_) => ListReads(v, w, a, b);
    case Object(_) => ObjectReads(v, w, a, b);
  }

  lemma Bracketed(open: CodeUnit, inner: Text, close: CodeUnit, a: Text)
    ensures [open] + inner + [close] + a == [open] + (inner + ([close] + a))
  {
  }

  lemma {:induction false} ListReads(v: Json, w: Json, a: Text, b: Text)
    requires WellFormed(v) && WellFormed(w) && v.List? && w.List? && Canonical(v) + a == Canonical(w) + b
    ensures Canonical(v) == Canonical(w) && a == b && ItemTexts(v) == ItemTexts(w)
    decreases v, 1, |v.items| + 1
  {
    var ss, ts := ItemTexts(v), ItemTexts(w);
    assert Canonical(v) == [OPEN_LIST] + Join(ss) + [CLOSE_LIST]
      && Canonical(w) == [OPEN_LIST] + Join(ts) + [CLOSE_LIST];
    hide Canonical;
    Bracketed(OPEN_LIST, Join(ss), CLOSE_LIST, a);
    Bracketed(OPEN_LIST, Join(ts), CLOSE_LIST, b);
    SplitEqual([OPEN_LIST], Join(ss) + ([CLOSE_LIST] + a), [OPEN_LIST], Join(ts) + ([CLOSE_LIST] + b));
    JoinReads(v, w, ss, ts, CLOSE_LIST, a, b);
  }

  lemma {:induction false} ObjectReads(v: Json, w: Json, a: Text, b: Text)
    requires WellFormed(v) && WellFormed(w) && v.Object? && w.Object? && Canonical(v) + a == Canonical(w) + b
    ensures Canonical(v) == Canonical(w) && a == b && MemberTexts(Sort(Members(v))) == MemberTexts(Sort(Members(w)))
    decreases v, 1, |Sort(Members(v))| + 1
  {
    MembersArePieces(v);
    MembersArePieces(w);
    var ss, ts := MemberTexts(Sort(Members(v))), MemberTexts(Sort(Members(w)));
    assert Canonical(v) == [OPEN_OBJECT] + Join(ss) + [CLOSE_OBJECT]
      && Canonical(w) == [OPEN_OBJECT] + Join(ts) + [CLOSE_OBJECT];
    hide Canonical, Sort, Members, MemberText;
    Bracketed(OPEN_OBJECT, Join(ss), CLOSE_OBJECT, a);
    Bracketed(OPEN_OBJECT, Join(ts), CLOSE_OBJECT, b);
    SplitEqual([OPEN_OBJECT], Join(ss) + ([CLOSE_OBJECT] + a), [OPEN_OBJECT], Join(ts) + ([CLOSE_OBJECT] + b));
    JoinReads(v, w, ss, ts, CLOSE_OBJECT, a, b);
  }

  // ----- The theorem -----

  lemma {:induction false} EquivalentPrintsAlike(v: Json, w: Json)
    requires WellFormed(v) && WellFormed(w) && Equivalent(v, w)
    ensures Canonical(v) == Canonical(w)
  {
    if v.List? {
      forall i | 0 <= i < |v.items| ensures ItemTexts(v)[i] == ItemTexts(w)[i] {
        EquivalentPrintsAlike(v.items[i], w.items[i]);
      }
      assert ItemTexts(v) == ItemTexts(w);
    } else if v.Object? {
      forall i, j | 0 <= i < |v.entries| && 0 <= j < |w.entries| && Equivalent(v.entries[i].value, w.entries[j].value)
        ensures Canonical(v.entries[i].value) == Canonical(w.entries[j].value)
      {
        EquivalentPrintsAlike(v.entries[i].value, w.entries[j].value);
      }
      SameMembers(v, w);
      MembersArePieces(v);
      MembersArePieces(w);
      hide Sort, Members, Equivalent, WellFormed;
      SortedIsUnique(Sort(Members(v)), Sort(Members(w)));
    }
  }

  lemma MemberAt(v: Json, i: nat)
    requires v.Object? && i < |v.entries|
    ensures Member(v.entries[i].key, Canonical(v.entries[i].value)) in Members(v)
  {
    hide Canonical;
    assert Members(v)[i] in Members(v);
  }

  lemma FindMember(v: Json, x: Member) returns (i: nat)
    requires v.Object? && x in Members(v)
    ensures i < |v.entries| && x == Member(v.entries[i].key, Canonical(v.entries[i].value))
  {
    hide Canonical;
    var k :| 0 <= k < |Members(v)| && Members(v)[k] == x;
    i := k;
  }

  lemma SameMembers(v: Json, w: Json)
    requires WellFormed(v) && WellFormed(w) && v.Object? && w.Object? && Equivalent(v, w)
    requires forall i, j ::
      0 <= i < |v.entries| && 0 <= j < |w.entries| && Equivalent(v.entries[i].value, w.entries[j].value) ==>
      Canonical(v.entries[i].value) == Canonical(w.entries[j].value)
    ensures forall x :: x in Members(v) <==> x in Members(w)
  {
    hide Canonical, Members, Equivalent, WellFormed;
    forall x | x in Members(v) ensures x in Members(w) {
      var i := FindMember(v, x);
      var j := EquivalentEntry(v, i, w);
      MemberAt(w, j);
    }
    forall y | y in Members(w) ensures y in Members(v) {
      var j := FindMember(w, y);
      var i := SameKey(v, w, j);
      MemberAt(v, i);
      var k := EquivalentEntry(v, i, w);
      KeysDiffer(w, j, k);
    }
  }

  lemma EquivalentEntry(v: Json, i: nat, w: Json) returns (j: nat)
    requires v.Object? && w.Object? && Equivalent(v, w) && i < |v.entries|
    ensures j < |w.entries| && v.entries[i].key == w.entries[j].key
      && Equivalent(v.entries[i].value, w.entries[j].value)
  {
    assert HasEquivalent(v.entries[i], w.entries);
    j :| 0 <= j < |w.entries| && v.entries[i].key == w.entries[j].key
      && Equivalent(v.entries[i].value, w.entries[j].value);
  }

  lemma SameKey(v: Json, w: Json, j: nat) returns (i: nat)
    requires v.Object? && w.Object? && Equivalent(v, w) && j < |w.entries|
    ensures i < |v.entries| && v.entries[i].key == w.entries[j].key
  {
    assert HasKey(v.entries, w.entries[j].key);
    i :| 0 <= i < |v.entries| && v.entries[i].key == w.entries[j].key;
  }

  lemma KeysDiffer(w: Json, j: nat, k: nat)
    requires w.Object? && WellFormed(w) && j < |w.entries| && k < |w.entries| && w.entries[j].key == w.entries[k].key
    ensures j == k
  {
  }

  /** An entry of w with the key and the printed value of the i-th entry of v. */
  ghost predicate Twin(v: Json, i: nat, w: Json, j: nat)
    requires v.Object? && w.Object? && i < |v.entries| && j < |w.entries|
  {
    v.entries[i].key == w.entries[j].key && Canonical(v.entries[i].value) == Canonical(w.entries[j].value)
  }

  lemma FindTwin(v: Json, i: nat, w: Json) returns (j: nat)
    requires WellFormed(v) && WellFormed(w) && v.Object? && w.Object? && Canonical(v) == Canonical(w) && i < |v.entries|
    ensures j < |w.entries| && Twin(v, i, w, j)
  {
    assert Canonical(v) + [] == Canonical(w) + [];
    ObjectReads(v, w, [], []);
    hide Canonical, Sort, WellFormed, Members;
    SameTextsSameMembers(Sort(Members(v)), Sort(Members(w)));
    MembersArePieces(v);
    MembersArePieces(w);
    MemberAt(v, i);
    j := FindMember(w, Member(v.entries[i].key, Canonical(v.entries[i].value)));
  }

  lemma {:induction false} PrintedAlikeIsEquivalent(v: Json, w: Json)
    requires WellFormed(v) && WellFormed(w) && Canonical(v) == Canonical(w)
    ensures Equivalent(v, w)
    decreases v, 1
  {
    FirstUnit(v);
    FirstUnit(w);
    assert Canonical(v) + [] == Canonical(w) + [];
    match v
    case Null =>
    case Bool(value) =>
    case Number(numeral) =>
    case String(text) => QuoteReads(text, w.text, [], []);
    case List(xs) =>
      ListReads(v, w, [], []);
      hide Canonical;
      assert |xs| == |ItemTexts(v)| == |ItemTexts(w)| == |w.items|;
      forall i | 0 <= i < |xs| ensures Equivalent(xs[i], w.items[i]) {
        assert ItemTexts(v)[i] == ItemTexts(w)[i];
        PrintedAlikeIsEquivalent(xs[i], w.items[i]);
      }
    case Object(es) => ObjectsPrintedAlike(v, w);
  }

  lemma {:induction false} ObjectsPrintedAlike(v: Json, w: Json)
    requires WellFormed(v) && WellFormed(w) && v.Object? && w.Object? && Canonical(v) == Canonical(w)
    ensures Equivalent(v, w)
    decreases v, 0
  {
    hide Canonical;
    forall i | 0 <= i < |v.entries| ensures HasEquivalent(v.entries[i], w.entries) {
      var j := FindTwin(v, i, w);
      PrintedAlikeIsEquivalent(v.entries[i].value, w.entries[j].value);
    }
    forall j | 0 <= j < |w.entries| ensures HasKey(v.entries, w.entries[j].key) {
      var i := FindTwin(w, j, v);
    }
  }

  lemma SameTextsSameMembers(a: seq<Member>, b: seq<Member>)
    requires MemberTexts(a) == MemberTexts(b)
    ensures a == b
  {
    assert |a| == |MemberTexts(a)| == |MemberTexts(b)| == |b|;
    forall i | 0 <= i < |a| ensures a[i] == b[i] {
      assert MemberTexts(a)[i] == MemberTexts(b)[i];
      assert MemberText(a[i]) == Quote(a[i].key) + ([COLON] + a[i].value);
      assert MemberText(b[i]) == Quote(b[i].key) + ([COLON] + b[i].value);
      QuoteReads(a[i].key, b[i].key, [COLON] + a[i].value, [COLON] + b[i].value);
      SplitEqual([COLON], a[i].value, [COLON], b[i].value);
    }
  }

  /** Two JSON values print alike exactly when they are equal up to the order of object members. */
  lemma CanonicalIsInjective(v: Json, w: Json)
    requires WellFormed(v) && WellFormed(w)
    ensures Canonical(v) == Canonical(w) <==> Equivalent(v, w)
  {
    if Equivalent(v, w) {
      EquivalentPrintsAlike(v, w);
    }
    if Canonical(v) == Canonical(w) {
      PrintedAlikeIsEquivalent(v, w);
    }
  }
}
