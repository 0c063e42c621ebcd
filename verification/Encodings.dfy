// The text encodings SCRAM messages are made of: base64 without padding (section 4 of
// RFC 4648, padding omitted per its section 3.2), decimal u32 numbers, and byte-wise xor.

module Base64 {
  import opened Prelude
  import opened Text

  type sextet = x: int | 0 <= x < 64

  // ---- The alphabet ----

  function Char(i: sextet): (c: byte)
    ensures c != COMMA
  {
    if i < 26 then 65 + i          // A-Z
    else if i < 52 then 71 + i     // a-z
    else if i < 62 then i - 4      // 0-9
    else if i == 62 then 43        // +
    else 47                        // /
  }

  function Value(c: byte): (v: Option<sextet>) {
    if 65 <= c <= 90 then Some(c - 65)
    else if 97 <= c <= 122 then Some(c - 71)
    else if 48 <= c <= 57 then Some(c + 4)
    else if c == 43 then Some(62)
    else if c == 47 then Some(63)
    else None
  }

  function Chars(v: seq<sextet>): (s: bytes)
    ensures |s| == |v|
    ensures Free(s, COMMA)
  {
    seq(|v|, i requires 0 <= i < |v| => Char(v[i]))
  }

  function Values(s: bytes): (v: Option<seq<sextet>>)
    ensures v.Some? ==> |v.value| == |s|
  {
    if s == [] then Some([])
    else
      match (Value(s[0]), Values(s[1..]))
      case (Some(v0), Some(rest)) => Some([v0] + rest)
      case _ => None
  }

  lemma {:induction false} ValuesOfChars(v: seq<sextet>)
    ensures Values(Chars(v)) == Some(v)
  {
    if v != [] {
      ValuesOfChars(v[1..]);
      assert Chars(v)[1..] == Chars(v[1..]);
      assert v == [v[0]] + v[1..];
    }
  }

  lemma {:induction false} CharsOfValues(s: bytes)
    requires Values(s).Some?
    ensures Chars(Values(s).value) == s
  {
    if s != [] {
      CharsOfValues(s[1..]);
      var v := Values(s).value;
      assert v[1..] == Values(s[1..]).value;
      assert forall i :: 0 < i < |s| ==> Chars(v)[i] == Chars(v[1..])[i - 1] == s[i];
    }
  }

  // ---- Regrouping eight bits by six ----

  function SextetBlock(b0: byte, b1: byte, b2: byte): (v: seq<sextet>)
    ensures |v| == 4
  {
    [b0 / 4, b0 as int % 4 * 16 + b1 / 16, b1 as int % 16 * 4 + b2 / 64, b2 % 64]
  }

  function OctetBlock(v0: sextet, v1: sextet, v2: sextet, v3: sextet): (b: bytes)
    ensures |b| == 3
  {
    [v0 as int * 4 + v1 / 16, v1 as int % 16 * 16 + v2 / 4, v2 as int % 4 * 64 + v3]
  }

  lemma OctetsOfSextetBlock(b0: byte, b1: byte, b2: byte)
    ensures var v := SextetBlock(b0, b1, b2); OctetBlock(v[0], v[1], v[2], v[3]) == [b0, b1, b2]
  {
  }

  lemma SextetsOfOctetBlock(v0: sextet, v1: sextet, v2: sextet, v3: sextet)
    ensures var b := OctetBlock(v0, v1, v2, v3); SextetBlock(b[0], b[1], b[2]) == [v0, v1, v2, v3]
  {
    var b := OctetBlock(v0, v1, v2, v3);
    assert b[0] / 4 == v0 && b[0] % 4 == v1 / 16;
    assert b[1] / 16 == v1 % 16 && b[1] % 16 == v2 / 4;
    assert b[2] / 64 == v2 % 4 && b[2] % 64 == v3;
  }

  function Sextets(b: bytes): (v: seq<sextet>)
    ensures |v| > 0 <==> |b| > 0
    decreases |b|
  {
    if |b| == 0 then []
    else if |b| == 1 then SextetBlock(b[0], 0, 0)[..2]
    else if |b| == 2 then SextetBlock(b[0], b[1], 0)[..3]
    else SextetBlock(b[0], b[1], b[2]) + Sextets(b[3..])
  }

  /** A lone sextet carries no byte; bits beyond the last byte must be zero. */
  function Octets(v: seq<sextet>): Option<bytes>
    decreases |v|
  {
    if |v| == 0 then Some([])
    else if |v| == 1 then None
    else if |v| == 2 then
      if v[1] % 16 == 0 then Some(OctetBlock(v[0], v[1], 0, 0)[..1]) else None
    else if |v| == 3 then
      if v[2] % 4 == 0 then Some(OctetBlock(v[0], v[1], v[2], 0)[..2]) else None
    else
      match Octets(v[4..])
      case None => None
      case Some(rest) => Some(OctetBlock(v[0], v[1], v[2], v[3]) + rest)
  }

  lemma {:induction false} OctetsOfSextets(b: bytes)
    ensures Octets(Sextets(b)) == Some(b)
    decreases |b|
  {
    if |b| == 1 {
      OctetsOfSextetBlock(b[0], 0, 0);
      var v := SextetBlock(b[0], 0, 0);
      assert v[1] % 16 == 0 && v[2] == 0 && v[3] == 0;
      assert OctetBlock(v[0], v[1], v[2], v[3])[..1] == b;
    } else if |b| == 2 {
      OctetsOfSextetBlock(b[0], b[1], 0);
      var v := SextetBlock(b[0], b[1], 0);
      assert v[2] % 4 == 0 && v[3] == 0;
      assert OctetBlock(v[0], v[1], v[2], v[3])[..2] == b;
    } else if |b| >= 3 {
      OctetsOfSextetBlock(b[0], b[1], b[2]);
      OctetsOfSextets(b[3..]);
      var v := SextetBlock(b[0], b[1], b[2]);
      assert Sextets(b)[..4] == v && Sextets(b)[4..] == Sextets(b[3..]);
      assert b == [b[0], b[1], b[2]] + b[3..];
    }
  }

  lemma {:induction false} SextetsOfOctets(v: seq<sextet>)
    requires Octets(v).Some?
    ensures Sextets(Octets(v).value) == v
    decreases |v|
  {
    if |v| == 2 {
      SextetsOfOctetBlock(v[0], v[1], 0, 0);
      assert OctetBlock(v[0], v[1], 0, 0)[1] == 0;
    } else if |v| == 3 {
      SextetsOfOctetBlock(v[0], v[1], v[2], 0);
      assert OctetBlock(v[0], v[1], v[2], 0)[2] == 0;
    } else if |v| >= 4 {
      SextetsOfOctetBlock(v[0], v[1], v[2], v[3]);
      SextetsOfOctets(v[4..]);
      var b := OctetBlock(v[0], v[1], v[2], v[3]);
      var all := Octets(v).value;
      assert all[..3] == b && all[3..] == Octets(v[4..]).value;
      assert v == [v[0], v[1], v[2], v[3]] + v[4..];
    }
  }

  // ---- The codec ----

  /** `STANDARD_NO_PAD.encode` */
  function Encode(b: bytes): (s: bytes)
    ensures Free(s, COMMA)
    ensures |s| > 0 <==> |b| > 0
  {
    Chars(Sextets(b))
  }

  /** `STANDARD_NO_PAD.decode`, which is strict; `None` is an error. */
  function Decode(s: bytes): Option<bytes> {
    match Values(s)
    case None => None
    case Some(v) => Octets(v)
  }

  /**
   * The codec is a bijection between byte strings and the texts it accepts: decoding undoes
   * encoding, and nothing but encodings decodes.
   */
  lemma DecodesExactly(s: bytes, b: bytes)
    ensures Decode(s) == Some(b) <==> s == Encode(b)
  {
    ValuesOfChars(Sextets(b));
    OctetsOfSextets(b);
    if Decode(s) == Some(b) {
      CharsOfValues(s);
      SextetsOfOctets(Values(s).value);
    }
  }

  // ---- What section 4 of RFC 4648 says ----

  /** The alphabet, in the order of the values. */
  lemma AlphabetIs(i: sextet)
    ensures Char(i) as int ==
      if i < 26 then 'A' as int + i
      else if i < 52 then 'a' as int + i - 26
      else if i < 62 then '0' as int + i - 52
      else if i == 62 then '+' as int
      else '/' as int
  {
  }

  /** Four sextets and three bytes, or fewer filled up with zero bits, are the same 24 bits. */
  predicate SameBits(v: seq<sextet>, b: bytes) {
    ValueOf4(At(v, 0), At(v, 1), At(v, 2), At(v, 3)) == (ByteAt(b, 0) * 256 + ByteAt(b, 1)) * 256 + ByteAt(b, 2)
  }

  function ValueOf4(v0: int, v1: int, v2: int, v3: int): int {
    ((v0 * 64 + v1) * 64 + v2) * 64 + v3
  }

  function At(v: seq<sextet>, i: nat): int {
    if i < |v| then v[i] else 0
  }

  function ByteAt(b: bytes, i: nat): int {
    if i < |b| then b[i] else 0
  }

  lemma BlockIsSameBits(b0: byte, b1: byte, b2: byte)
    ensures var v := SextetBlock(b0, b1, b2);
      ValueOf4(v[0], v[1], v[2], v[3]) == (b0 as int * 256 + b1) * 256 + b2
    ensures b2 == 0 ==> SextetBlock(b0, b1, b2)[3] == 0
    ensures b1 == 0 && b2 == 0 ==> SextetBlock(b0, b1, b2)[2] == 0
  {
    var q0, r0, q1, r1, q2, r2 := b0 / 4, b0 % 4, b1 / 16, b1 % 16, b2 / 64, b2 % 64;
    assert b0 as int == 4 * q0 + r0 && b1 as int == 16 * q1 + r1 && b2 as int == 64 * q2 + r2;
    assert SextetBlock(b0, b1, b2) == [q0, r0 as int * 16 + q1, r1 as int * 4 + q2, r2];
  }

  /** The `k`th group of the sextets belongs to that of the bytes, and if that is the last one it ends there. */
  predicate GroupsMatch(v: seq<sextet>, b: bytes, k: nat)
    requires 3 * k < |b|
  {
    var n := Min(|b| - 3 * k, 3);
    && 4 * k + n + 1 <= |v| && (|b| <= 3 * k + 3 ==> |v| == 4 * k + n + 1)
    && SameBits(v[4 * k..4 * k + n + 1], b[3 * k..3 * k + n])
  }

  lemma NextGroup(first: seq<sextet>, rest: seq<sextet>, b: bytes, k: nat)
    requires |first| == 4 && k > 0 && 3 * k < |b| && GroupsMatch(rest, b[3..], k - 1)
    ensures GroupsMatch(first + rest, b, k)
  {
    hide SameBits;
    var v, n, i := first + rest, Min(|b| - 3 * k, 3), k - 1;
    assert 4 * k == 4 * i + 4 && 3 * k == 3 * i + 3;
    assert rest[4 * i..4 * i + n + 1] == v[4 * k..4 * k + n + 1];
    assert b[3..][3 * i..3 * i + n] == b[3 * k..3 * k + n];
  }

  lemma FirstGroup(b: bytes)
    requires b != []
    ensures GroupsMatch(Sextets(b), b, 0)
  {
    var b1, b2 := if |b| > 1 then b[1] else 0, if |b| > 2 then b[2] else 0;
    BlockIsSameBits(b[0], b1, b2);
    hide SextetBlock;
    var v, n := Sextets(b), Min(|b|, 3);
    assert v[..n + 1] == SextetBlock(b[0], b1, b2)[..n + 1];
  }

  /**
   * Group by group, the text has the characters whose values are the 24 bits of three bytes, most
   * significant first; of a last group of one byte two characters, and of two bytes three.
   */
  lemma {:induction false} EncodesGroups(b: bytes, k: nat)
    requires 3 * k < |b|
    ensures GroupsMatch(Sextets(b), b, k)
    decreases k
  {
    hide GroupsMatch, SextetBlock;
    if k == 0 {
      FirstGroup(b);
    } else {
      EncodesGroups(b[3..], k - 1);
      NextGroup(SextetBlock(b[0], b[1], b[2]), Sextets(b[3..]), b, k);
    }
  }
}

module Decimal {
  import opened Prelude

  const U32_LIMIT: int := 0x1_0000_0000
  const PLUS: byte := 43

  predicate IsDigit(c: byte) {
    48 <= c <= 57
  }

  /** `format!("{}", n)` */
  function Print(n: nat): (s: bytes)
    ensures |s| > 0 && forall i :: 0 <= i < |s| ==> IsDigit(s[i])
  {
    if n < 10 then [48 + n] else Print(n / 10) + [48 + n % 10]
  }

  /** Digit by digit, failing on anything else and on leaving the range of u32. */
  function ParseDigits(s: bytes): (r: Option<nat>)
    ensures r.Some? ==> r.value < U32_LIMIT
  {
    if s == [] then Some(0)
    else
      var last := s[|s| - 1];
      match ParseDigits(s[..|s| - 1])
      case None => None
      case Some(n) =>
        if IsDigit(last) && n * 10 + (last - 48) < U32_LIMIT then Some(n * 10 + (last - 48)) else None
  }

  /** `str::parse::<u32>`: a leading plus is allowed, an empty number is not. */
  function Parse(s: bytes): Option<nat> {
    var digits := if |s| > 0 && s[0] == PLUS then s[1..] else s;
    if digits == [] then None else ParseDigits(digits)
  }

  lemma {:induction false} ParseDigitsOfPrint(n: nat)
    ensures ParseDigits(Print(n)) == if n < U32_LIMIT then Some(n) else None
  {
    var s := Print(n);
    if n < 10 {
      assert s[..0] == [];
    } else {
      ParseDigitsOfPrint(n / 10);
      assert s[..|s| - 1] == Print(n / 10);
    }
  }

  /** A printed number parses back exactly when it is a u32. */
  lemma ParsePrintExactly(n: nat)
    ensures Parse(Print(n)) == Some(n) <==> n < U32_LIMIT
  {
    ParseDigitsOfPrint(n);
    assert Print(n)[0] != PLUS;
  }

  /** The number that digits stand for, read from the left. */
  function NumberOf(s: bytes): int {
    if s == [] then 0 else NumberOf(s[..|s| - 1]) * 10 + (s[|s| - 1] as int - 48)
  }

  predicate AllDigits(s: bytes) {
    forall i :: 0 <= i < |s| ==> '0' as int <= s[i] as int <= '9' as int
  }

  lemma {:induction false} ParseDigitsExactly(s: bytes)
    ensures ParseDigits(s).Some? <==> AllDigits(s) && NumberOf(s) < U32_LIMIT
    ensures ParseDigits(s).Some? ==> ParseDigits(s).value == NumberOf(s)
    ensures AllDigits(s) ==> NumberOf(s) >= 0
    decreases |s|
  {
    if s != [] {
      var before := s[..|s| - 1];
      assert AllDigits(s) <==> AllDigits(before) && IsDigit(s[|s| - 1]);
      ParseDigitsExactly(before);
    }
  }

  /** What parses are the texts of one or more digits, after a plus or not, that stand for a u32. */
  lemma ParsesExactly(s: bytes)
    ensures var digits := if |s| > 0 && s[0] as int == '+' as int then s[1..] else s;
      && (Parse(s).Some? <==> digits != [] && AllDigits(digits) && NumberOf(digits) < 0x1_0000_0000)
      && (Parse(s).Some? ==> Parse(s).value == NumberOf(digits))
  {
    ParseDigitsExactly(if |s| > 0 && s[0] == PLUS then s[1..] else s);
  }

  /** What is printed stands for the number, without a zero in front. */
  lemma {:induction false} PrintsTheNumber(n: nat)
    ensures AllDigits(Print(n)) && NumberOf(Print(n)) == n
    ensures Print(n)[0] as int == '0' as int ==> n == 0 && |Print(n)| == 1
  {
    var s := Print(n);
    if n >= 10 {
      PrintsTheNumber(n / 10);
      assert s[..|s| - 1] == Print(n / 10);
    } else {
      assert s[..|s| - 1] == [];
    }
  }
}

module Xor {
  import opened Prelude

  /** Exclusive or of the low `bits` bits, bit by bit. */
  function XorBits(a: nat, b: nat, bits: nat): nat
    decreases bits
  {
    if bits == 0 then 0
    else (a % 2 + b % 2) % 2 + 2 * XorBits(a / 2, b / 2, bits - 1)
  }

  function Pow2(k: nat): (p: nat)
    ensures p >= 1
  {
    if k == 0 then 1 else 2 * Pow2(k - 1)
  }

  lemma {:induction false} XorBitsFits(a: nat, b: nat, bits: nat)
    ensures XorBits(a, b, bits) < Pow2(bits)
    decreases bits
  {
    if bits > 0 {
      XorBitsFits(a / 2, b / 2, bits - 1);
    }
  }

  /** The lowest bit, and what the others are. */
  lemma LowAndHigh(a: nat, b: nat, bits: nat)
    requires bits > 0
    ensures XorBits(a, b, bits) % 2 == (a % 2 + b % 2) % 2
    ensures XorBits(a, b, bits) / 2 == XorBits(a / 2, b / 2, bits - 1)
  {
    var low, high := (a % 2 + b % 2) % 2, XorBits(a / 2, b / 2, bits - 1);
    assert XorBits(a, b, bits) == low + 2 * high && 0 <= low < 2;
  }

  lemma FlippedTwice(a: nat, b: nat)
    ensures ((a % 2 + b % 2) % 2 + b % 2) % 2 == a % 2
  {
  }

  lemma {:induction false} XorBitsCancels(a: nat, b: nat, bits: nat)
    requires a < Pow2(bits)
    ensures XorBits(XorBits(a, b, bits), b, bits) == a
    decreases bits
  {
    if bits > 0 {
      XorBitsCancels(a / 2, b / 2, bits - 1);
      var x := XorBits(a, b, bits);
      LowAndHigh(a, b, bits);
      LowAndHigh(x, b, bits);
      FlippedTwice(a, b);
      hide XorBits;
      var y := XorBits(x, b, bits);
      assert y % 2 == a % 2 && y / 2 == a / 2;
    }
  }

  lemma Pow2Eight()
    ensures Pow2(8) == 256
  {
    assert Pow2(4) == 16;
    assert Pow2(6) == 64;
  }

  function XorByte(a: byte, b: byte): byte {
    XorBitsFits(a, b, 8);
    Pow2Eight();
    XorBits(a, b, 8)
  }

  lemma XorByteCancels(a: byte, b: byte)
    ensures XorByte(XorByte(a, b), b) == a
  {
    Pow2Eight();
    XorBitsCancels(a, b, 8);
  }

  /** `a.iter().zip(b.iter()).map(|(x, y)| x ^ y)`: as long as the shorter one. */
  function XorBytes(a: bytes, b: bytes): (r: bytes)
    ensures |r| == Min(|a|, |b|)
  {
    seq(Min(|a|, |b|), i requires 0 <= i < Min(|a|, |b|) => XorByte(a[i], b[i]))
  }

  /** Xor with the same bytes twice gives back as much of `a` as `b` covers. */
  lemma XorBytesCancels(a: bytes, b: bytes)
    ensures XorBytes(XorBytes(a, b), b) == a[..Min(|a|, |b|)]
  {
    var x := XorBytes(a, b);
    forall i | 0 <= i < Min(|a|, |b|)
      ensures XorBytes(x, b)[i] == a[i]
    {
      XorByteCancels(a[i], b[i]);
    }
  }

  /** Bit `k` of a number, counted from the lowest. */
  predicate Bit(a: nat, k: nat) {
    if k == 0 then a % 2 == 1 else Bit(a / 2, k - 1)
  }

  lemma {:induction false} XorBitsIs(a: nat, b: nat, bits: nat, k: nat)
    requires k < bits
    ensures Bit(XorBits(a, b, bits), k) <==> Bit(a, k) != Bit(b, k)
    decreases k
  {
    LowAndHigh(a, b, bits);
    if k > 0 {
      XorBitsIs(a / 2, b / 2, bits - 1, k - 1);
    }
  }

  /** Each bit of each byte is set exactly if it is set in one of the two and not in the other. */
  lemma XorBytesIs(a: bytes, b: bytes, i: nat, k: nat)
    requires i < |a| && i < |b| && k < 8
    ensures Bit(XorBytes(a, b)[i], k) <==> Bit(a[i], k) != Bit(b[i], k)
  {
    XorBitsIs(a[i], b[i], 8, k);
  }
}
