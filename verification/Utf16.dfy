/** Text as the program's runtime sees it: a sequence of UTF-16 code units. */
module Utf16 {
  newtype CodeUnit = u: int | 0 <= u < 0x10000

  type Text = seq<CodeUnit>

  predicate HighSurrogate(u: CodeUnit) { 0xd800 <= u <= 0xdbff }

  predicate LowSurrogate(u: CodeUnit) { 0xdc00 <= u <= 0xdfff }

  /** The order of `left < right` on strings: by code units. */
  predicate Less(a: Text, b: Text) {
    if |b| == 0 then false
    else if |a| == 0 then true
    else a[0] < b[0] || (a[0] == b[0] && Less(a[1..], b[1..]))
  }

  lemma {:induction false} LessIsTotal(a: Text, b: Text)
    ensures a == b || Less(a, b) || Less(b, a)
    ensures !(Less(a, b) && Less(b, a)) && !Less(a, a)
  {
    if |a| > 0 && |b| > 0 {
      LessIsTotal(a[1..], b[1..]);
      if a[0] == b[0] && a[1..] == b[1..] {
        assert a == [a[0]] + a[1..] && b == [b[0]] + b[1..];
      }
    }
    if |a| > 0 {
      LessIsTotal(a[1..], a[1..]);
    }
  }

  lemma {:induction false} LessIsTransitive(a: Text, b: Text, c: Text)
    requires Less(a, b) && Less(b, c)
    ensures Less(a, c)
  {
    if |a| > 0 && |b| > 0 && |c| > 0 && a[0] == b[0] == c[0] {
      LessIsTransitive(a[1..], b[1..], c[1..]);
    }
  }
}
