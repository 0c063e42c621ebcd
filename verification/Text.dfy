// Searching and splitting byte strings: the slice and str helpers the parsers are built on.

module Text {
  import opened Prelude

  const NUL: byte := 0
  const COMMA: byte := 44

  /** An ASCII literal as bytes. */
  function Ascii(s: string): (b: bytes)
    requires forall i :: 0 <= i < |s| ==> s[i] as int < 128
    ensures |b| == |s| && forall i :: 0 <= i < |s| ==> b[i] as int == s[i] as int
  {
    seq(|s|, i requires 0 <= i < |s| => s[i] as byte)
  }

  predicate Free(s: bytes, c: byte) {
    forall i :: 0 <= i < |s| ==> s[i] != c
  }

  /** Where the first `c` at or after `from` is, or the length when there is none. */
  function IndexFrom(s: bytes, c: byte, from: nat): (p: nat)
    requires from <= |s|
    ensures from <= p <= |s|
    ensures p < |s| ==> s[p] == c
    ensures forall i :: from <= i < p ==> s[i] != c
    decreases |s| - from
  {
    if from == |s| || s[from] == c then from else IndexFrom(s, c, from + 1)
  }

  lemma IndexFromAt(s: bytes, c: byte, from: nat, p: nat)
    requires from <= p < |s| && s[p] == c
    requires Free(s[from..p], c)
    ensures IndexFrom(s, c, from) == p
  {
    assert forall i :: from <= i < p ==> s[i] == s[from..p][i - from];
  }

  /** `s.split(c)`: the pieces between separators, one more than there are separators. */
  function Split(s: bytes, c: byte): (parts: seq<bytes>)
    ensures |parts| >= 1
    ensures forall i :: 0 <= i < |parts| ==> Free(parts[i], c)
    decreases |s|
  {
    var p := IndexFrom(s, c, 0);
    if p == |s| then [s] else [s[..p]] + Split(s[p + 1..], c)
  }

  lemma SplitPiece(a: bytes, c: byte, rest: bytes)
    requires Free(a, c)
    ensures Split(a + [c] + rest, c) == [a] + Split(rest, c)
  {
    var s := a + [c] + rest;
    assert s[0..|a|] == a;
    IndexFromAt(s, c, 0, |a|);
    assert s[..|a|] == a && s[|a| + 1..] == rest;
  }

  lemma SplitWhole(a: bytes, c: byte)
    requires Free(a, c)
    ensures Split(a, c) == [a]
  {
    assert IndexFrom(a, c, 0) == |a|;
  }

  /** Splitting in front of a separator splits the two sides. */
  lemma {:induction false} SplitAppend(a: bytes, c: byte, rest: bytes)
    ensures Split(a + [c] + rest, c) == Split(a, c) + Split(rest, c)
    decreases |a|
  {
    var p := IndexFrom(a, c, 0);
    if p == |a| {
      assert a[0..p] == a;
      SplitPiece(a, c, rest);
    } else {
      var tail := a[p + 1..];
      assert a == a[..p] + [c] + tail;
      assert a + [c] + rest == a[..p] + [c] + (tail + [c] + rest);
      SplitPiece(a[..p], c, tail + [c] + rest);
      SplitAppend(tail, c, rest);
    }
  }

  /** `strip_prefix` */
  function StripPrefix(s: bytes, pre: bytes): Option<bytes> {
    if pre <= s then Some(s[|pre|..]) else None
  }

  /** UTF-8 well-formedness of a byte string (section 4 of RFC 3629). */
  predicate ValidUtf8(s: bytes)
    decreases |s|
  {
    if s == [] then true
    else if s[0] < 0x80 then ValidUtf8(s[1..])
    else if 0xC2 <= s[0] <= 0xDF then |s| >= 2 && Tail(s[1]) && ValidUtf8(s[2..])
    else if 0xE0 <= s[0] <= 0xEF then
      && |s| >= 3 && Tail(s[1]) && Tail(s[2])
      && (s[0] == 0xE0 ==> s[1] >= 0xA0) && (s[0] == 0xED ==> s[1] <= 0x9F)
      && ValidUtf8(s[3..])
    else
      && 0xF0 <= s[0] <= 0xF4 && |s| >= 4 && Tail(s[1]) && Tail(s[2]) && Tail(s[3])
      && (s[0] == 0xF0 ==> s[1] >= 0x90) && (s[0] == 0xF4 ==> s[1] <= 0x8F)
      && ValidUtf8(s[4..])
  }

  predicate Tail(b: byte) {
    0x80 <= b <= 0xBF
  }
}
