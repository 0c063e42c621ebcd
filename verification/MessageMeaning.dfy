// src/pgproto/mod.rs and src/auth/auth_query.rs: what the payload parsers make of which bytes.

module MessageMeaning {
  import opened Prelude
  import opened BigEndian
  import opened Picking
  import opened Text
  import opened Frames
  import opened Messages

  // ---- Pieces between separators ----

  function Join(parts: seq<bytes>, c: byte): bytes
    requires parts != []
  {
    if |parts| == 1 then parts[0] else parts[0] + [c] + Join(parts[1..], c)
  }

  lemma {:induction false} JoinsBack(s: bytes, c: byte)
    ensures Join(Split(s, c), c) == s
    decreases |s|
  {
    var p := IndexFrom(s, c, 0);
    if p < |s| {
      JoinsBack(s[p + 1..], c);
      assert Split(s, c)[1..] == Split(s[p + 1..], c);
      assert s == s[..p] + [c] + s[p + 1..];
    }
  }

  lemma {:induction false} SplitsBack(parts: seq<bytes>, c: byte)
    requires parts != [] && forall i :: 0 <= i < |parts| ==> Free(parts[i], c)
    ensures Split(Join(parts, c), c) == parts
    decreases |parts|
  {
    if |parts| == 1 {
      SplitWhole(parts[0], c);
    } else {
      SplitsBack(parts[1..], c);
      SplitPiece(parts[0], c, Join(parts[1..], c));
      assert parts == [parts[0]] + parts[1..];
    }
  }

  /** The pieces are those without the separator that give the text back with it between them. */
  lemma SplitExactly(s: bytes, c: byte, parts: seq<bytes>)
    ensures Split(s, c) == parts <==>
      parts != [] && (forall i :: 0 <= i < |parts| ==> Free(parts[i], c)) && Join(parts, c) == s
  {
    JoinsBack(s, c);
    if parts != [] && (forall i :: 0 <= i < |parts| ==> Free(parts[i], c)) {
      SplitsBack(parts, c);
    }
  }

  // ---- Authentication requests ----

  lemma CodeIs(payload: bytes, n: int)
    requires |payload| >= 4 && 0 <= n < 256
    ensures FromBe32(payload[0..4]) == n <==> payload[..4] == [0, 0, 0, n as byte]
  {
    Be32RoundTrip(n);
    FromBe32RoundTrip(payload[0..4]);
    assert payload[0..4] == payload[..4];
    assert Be32(n) == [0, 0, 0, n as byte];
  }

  /** What an authentication request is, for each result: the code in four bytes, and what follows. */
  lemma AuthRequestExactly(payload: bytes)
    ensures var r, rest := ParseAuthRequest(payload), if |payload| < 4 then [] else payload[4..];
      && (r == Ok <==> [0, 0, 0, 0] <= payload)
      && (r == CleartextPassword <==> [0, 0, 0, 3] <= payload)
      && (r.Md5Password? <==> [0, 0, 0, 5] <= payload && |rest| >= 4)
      && (r.Md5Password? ==> r.salt == rest[..4])
      && (r.Sasl? <==> [0, 0, 0, 10] <= payload)
      && (r.Sasl? ==> r.mechs == NonEmpty(Split(rest, NUL)))
      && (r.SaslContinue? <==> [0, 0, 0, 11] <= payload)
      && (r.SaslContinue? ==> r.data == rest)
      && (r == TooShort <==> |payload| < 4 || ([0, 0, 0, 5] <= payload && |rest| < 4))
      && (r.Unknown? ==> r.data == rest && Be32(r.code) == payload[..4])
  {
    hide NonEmpty, Split;
    if |payload| >= 4 {
      CodeIs(payload, 0);
      CodeIs(payload, 3);
      CodeIs(payload, 5);
      CodeIs(payload, 10);
      CodeIs(payload, 11);
      FromBe32RoundTrip(payload[0..4]);
      assert payload[0..4] == payload[..4];
      assert forall n: byte :: [0, 0, 0, n] <= payload <==> payload[..4] == [0, 0, 0, n];
    }
  }

  predicate IsName(piece: bytes) {
    piece != []
  }

  lemma {:induction false} NonEmptyAppend(parts: seq<bytes>, piece: bytes)
    ensures NonEmpty(parts + [piece]) == NonEmpty(parts) + if IsName(piece) then [piece] else []
    decreases |parts|
  {
    if parts == [] {
      assert parts + [piece] == [piece] && [piece][1..] == [];
    } else {
      assert (parts + [piece])[1..] == parts[1..] + [piece];
      NonEmptyAppend(parts[1..], piece);
    }
  }

  lemma NoneNonEmpty()
    ensures NonEmpty([]) == []
  {
  }

  /** The mechanisms are the pieces that are not empty, all of them, in their order. */
  lemma {:induction false} NonEmptyIs(parts: seq<bytes>) returns (at: seq<nat>)
    ensures Picks(parts, IsName, at, NonEmpty(parts))
    decreases |parts|
  {
    hide Picks, NonEmpty;
    if parts == [] {
      at := [];
      NoneNonEmpty();
      PicksNothing(IsName);
    } else {
      var n := |parts| - 1;
      at := NonEmptyIs(parts[..n]);
      assert parts[..n] + [parts[n]] == parts;
      NonEmptyAppend(parts[..n], parts[n]);
      PicksOneMore(parts[..n], IsName, parts[n], at, NonEmpty(parts[..n]));
      assert NonEmpty(parts[..n]) + [] == NonEmpty(parts[..n]) && |parts[..n]| == n;
      at := if IsName(parts[n]) then at + [n] else at;
    }
  }

  // ---- Names ----

  /** The bytes in front of the first NUL, or all of them without one. */
  predicate UpToNul(s: bytes, name: bytes) {
    Free(name, NUL) && (s == name || name + [NUL] <= s)
  }

  lemma PrefixIsUpToNul(s: bytes, from: nat, name: bytes)
    requires from <= |s|
    ensures UpToNul(s[from..], name) <==> s[from..IndexFrom(s, NUL, from)] == name
  {
    var tail, p := s[from..], IndexFrom(s, NUL, from);
    assert forall i :: from <= i < |s| ==> s[i] == tail[i - from];
    var found := s[from..p];
    assert found == tail[..p - from];
    if p < |s| {
      assert tail[p - from] == NUL;
      assert found + [NUL] == tail[..p - from + 1];
    } else {
      assert found == tail;
    }
    if UpToNul(tail, name) && name != tail {
      assert tail[|name|] == (name + [NUL])[|name|] == NUL;
      assert forall i :: 0 <= i < |name| ==> tail[i] == (name + [NUL])[i] == name[i];
      assert s[from..from + |name|] == name;
      IndexFromAt(s, NUL, from, from + |name|);
    } else if UpToNul(tail, name) {
      assert Free(tail, NUL);
    }
  }

  /**
   * For every payload: the name in a Parse message is what stands in front of its first NUL, or
   * empty if that is not UTF-8, and in a Close message the same behind the kind of object.
   */
  lemma NamesAre(payload: bytes, name: bytes)
    requires ValidUtf8(name) && name != []
    ensures ParseStatementName(payload) == name <==> UpToNul(payload, name)
    ensures ParseCloseTarget(payload).1 == name <==> |payload| >= 2 && UpToNul(payload[1..], name)
    ensures if |payload| >= 2 then ParseCloseTarget(payload).0 == payload[0] else ParseCloseTarget(payload) == (0, [])
    ensures ValidUtf8(ParseStatementName(payload)) && ValidUtf8(ParseCloseTarget(payload).1)
  {
    PrefixIsUpToNul(payload, 0, name);
    assert payload[0..] == payload && payload[0..IndexFrom(payload, NUL, 0)] == payload[..IndexFrom(payload, NUL, 0)];
    if |payload| >= 2 {
      PrefixIsUpToNul(payload, 1, name);
    }
  }

  // ---- UTF-8 ----

  /** A character as a number: all up to 10FFFF but for the surrogates. */
  predicate IsScalar(u: int) {
    0 <= u < 0xD800 || 0xE000 <= u < 0x110000
  }

  /** Its one to four bytes, as in section 3 of RFC 3629. */
  function EncodeScalar(u: int): (b: bytes)
    requires IsScalar(u)
    ensures 1 <= |b| <= 4
  {
    if u < 0x80 then [u]
    else if u < 0x800 then [0xC0 + u / 64, 0x80 + u % 64]
    else if u < 0x10000 then [0xE0 + u / 4096, 0x80 + u / 64 % 64, 0x80 + u % 64]
    else [0xF0 + u / 262144, 0x80 + u / 4096 % 64, 0x80 + u / 64 % 64, 0x80 + u % 64]
  }

  predicate AllScalars(us: seq<int>) {
    forall i :: 0 <= i < |us| ==> IsScalar(us[i])
  }

  function EncodeText(us: seq<int>): bytes
    requires AllScalars(us)
  {
    if us == [] then [] else EncodeScalar(us[0]) + EncodeText(us[1..])
  }

  lemma EncodedIsValid(u: int, rest: bytes)
    requires IsScalar(u)
    ensures ValidUtf8(EncodeScalar(u) + rest) <==> ValidUtf8(rest)
  {
    var b := EncodeScalar(u);
    var s := b + rest;
    assert s[|b|..] == rest;
    if u >= 0x80 {
      assert s[0] == b[0] && s[1] == b[1];
      if u >= 0x800 {
        assert s[2] == b[2];
        if u >= 0x10000 {
          assert s[3] == b[3];
        }
      }
    }
  }

  lemma TwoBytesAre(s: bytes) returns (u: int)
    requires |s| >= 2 && 0xC2 <= s[0] <= 0xDF && Tail(s[1])
    ensures IsScalar(u) && s == EncodeScalar(u) + s[2..]
  {
    u := (s[0] as int - 0xC0) * 64 + (s[1] as int - 0x80);
    assert u / 64 == s[0] as int - 0xC0 && u % 64 == s[1] as int - 0x80;
  }

  lemma ThreeBytesAre(s: bytes) returns (u: int)
    requires |s| >= 3 && 0xE0 <= s[0] <= 0xEF && Tail(s[1]) && Tail(s[2])
    requires (s[0] == 0xE0 ==> s[1] >= 0xA0) && (s[0] == 0xED ==> s[1] <= 0x9F)
    ensures IsScalar(u) && s == EncodeScalar(u) + s[3..]
  {
    var a, b, c := s[0] as int - 0xE0, s[1] as int - 0x80, s[2] as int - 0x80;
    u := (a * 64 + b) * 64 + c;
    assert u / 64 == a * 64 + b && u % 64 == c;
    assert u / 4096 == a && u / 64 % 64 == b;
    assert EncodeScalar(u) == [s[0], s[1], s[2]];
  }

  lemma FourBytesAre(s: bytes) returns (u: int)
    requires |s| >= 4 && 0xF0 <= s[0] <= 0xF4 && Tail(s[1]) && Tail(s[2]) && Tail(s[3])
    requires (s[0] == 0xF0 ==> s[1] >= 0x90) && (s[0] == 0xF4 ==> s[1] <= 0x8F)
    ensures IsScalar(u) && s == EncodeScalar(u) + s[4..]
  {
    var a, b, c, d := s[0] as int - 0xF0, s[1] as int - 0x80, s[2] as int - 0x80, s[3] as int - 0x80;
    u := ((a * 64 + b) * 64 + c) * 64 + d;
    assert u / 64 == (a * 64 + b) * 64 + c && u % 64 == d;
    assert u / 4096 == a * 64 + b && u / 64 % 64 == c;
    assert u / 262144 == a && u / 4096 % 64 == b;
    assert EncodeScalar(u) == [s[0], s[1], s[2], s[3]];
  }

  lemma FirstScalar(s: bytes) returns (u: int)
    requires s != [] && ValidUtf8(s)
    ensures IsScalar(u) && EncodeScalar(u) <= s && s == EncodeScalar(u) + s[|EncodeScalar(u)|..]
  {
    if s[0] < 0x80 {
      u := s[0];
    } else if s[0] <= 0xDF {
      u := TwoBytesAre(s);
    } else if s[0] <= 0xEF {
      u := ThreeBytesAre(s);
    } else {
      u := FourBytesAre(s);
    }
  }

  lemma {:induction false} TextOf(s: bytes) returns (us: seq<int>)
    requires ValidUtf8(s)
    ensures AllScalars(us) && EncodeText(us) == s
    decreases |s|
  {
    hide ValidUtf8, EncodeScalar;
    if s == [] {
      us := [];
    } else {
      var u := FirstScalar(s);
      EncodedIsValid(u, s[|EncodeScalar(u)|..]);
      var rest := TextOf(s[|EncodeScalar(u)|..]);
      us := [u] + rest;
      assert us[1..] == rest;
    }
  }

  lemma {:induction false} TextIsValid(us: seq<int>)
    requires AllScalars(us)
    ensures ValidUtf8(EncodeText(us))
  {
    hide EncodeScalar;
    if us != [] {
      TextIsValid(us[1..]);
      EncodedIsValid(us[0], EncodeText(us[1..]));
    }
  }

  /** The byte strings that count as UTF-8 are the encodings of characters, and only they. */
  lemma Utf8Exactly(s: bytes)
    ensures ValidUtf8(s) <==> exists us :: AllScalars(us) && EncodeText(us) == s
  {
    hide ValidUtf8, EncodeText;
    if ValidUtf8(s) {
      var us := TextOf(s);
    }
    if exists us :: AllScalars(us) && EncodeText(us) == s {
      var us :| AllScalars(us) && EncodeText(us) == s;
      TextIsValid(us);
    }
  }

  // ---- Frames ----

  /** What is not a message: nothing at all, a length field below 4, or less than is announced. */
  lemma FrameFailuresExactly(data: bytes)
    ensures var (r, left) := ReadFrame(data);
      && (r == Closed <==> data == [])
      && (r == ReadResult.Panicked <==> |data| >= 5 && FromBe32(data[1..5]) < 4)
      && (r == IoError <==>
            && data != []
            && (|data| < 5 || (FromBe32(data[1..5]) >= 4 && |data| < 1 + FromBe32(data[1..5]))))
      && (r.Got? ==>
            && |data| >= 5
            && var end := 1 + FromBe32(data[1..5]);
               5 <= end <= |data| && r.m.t == data[0] && r.m.payload == data[5..end] && left == data[end..])
      && (r == ReadResult.Panicked ==> left == data[5..]) && (r == IoError || r == Closed ==> left == [])
  {
  }

  // ---- DataRow ----

  /** What stops the loop at this offset: no room for a length, or one that no column has. */
  predicate NoColumnAt(payload: bytes, off: nat) {
    || off + 4 > |payload|
    || (var len := FromBe32(payload[off..off + 4]);
        (len < -1 && !WrapsAt(payload, off)) || (len >= 0 && off + 4 + len > |payload|))
  }

  /** These are the columns that the loop goes through, of the `n` announced. */
  predicate Columns(payload: bytes, off: nat, n: nat, cols: seq<Option<bytes>>) {
    && |cols| <= n && ColumnsFit(cols) && EncodedAt(payload, off, cols)
    && (|cols| < n ==> NoColumnAt(payload, off + |EncodeColumns(cols)|))
  }

  lemma NoColumns(payload: bytes, off: nat, n: nat)
    requires off <= |payload| && (n == 0 || NoColumnAt(payload, off))
    ensures Columns(payload, off, n, [])
  {
  }

  lemma ColumnsMore(payload: bytes, off: nat, n: nat, c: Option<bytes>, cols: seq<Option<bytes>>)
    requires n > 0 && off + |EncodeColumn(c)| <= |payload| && EncodeColumn(c) == payload[off..off + |EncodeColumn(c)|]
    requires c.Some? ==> |c.value| < TWO_31
    requires Columns(payload, off + |EncodeColumn(c)|, n - 1, cols)
    ensures Columns(payload, off, n, [c] + cols)
  {
    hide EncodeColumn, NoColumnAt;
    var next, all := off + |EncodeColumn(c)|, [c] + cols;
    assert all[1..] == cols;
    assert payload[off..] == payload[off..next] + payload[next..];
    assert EncodeColumns(all) == EncodeColumn(c) + EncodeColumns(cols);
  }

  lemma {:induction false} GoesThrough(payload: bytes, off: nat, n: nat, password: Option<bytes>)
      returns (cols: seq<Option<bytes>>)
    requires off <= |payload| && DecodeColumns(payload, off, n, password).Row?
    ensures Columns(payload, off, n, cols)
    ensures DecodeColumns(payload, off, n, password) == Row(LastNonNull(cols, password))
    decreases n
  {
    hide Columns, EncodeColumn, LastNonNull;
    if n == 0 || NoColumnAt(payload, off) {
      cols := [];
      NoColumns(payload, off, n);
      NothingDecoded(payload, off, n, password);
    } else {
      var len := FromBe32(payload[off..off + 4]);
      ColumnIsEncoded(payload, off);
      var c := if len == -1 then None else Some(payload[off + 4..off + 4 + len]);
      var rest := GoesThrough(payload, off + |EncodeColumn(c)|, n - 1, Latest(c, password));
      ColumnsMore(payload, off, n, c, rest);
      cols := [c] + rest;
      LastNonNullFromTheLeft(cols, password);
      assert cols[1..] == rest;
    }
  }

  lemma NothingDecoded(payload: bytes, off: nat, n: nat, password: Option<bytes>)
    requires n == 0 || NoColumnAt(payload, off)
    ensures DecodeColumns(payload, off, n, password) == Row(LastNonNull([], password))
  {
  }

  lemma ColumnsRest(payload: bytes, off: nat, n: nat, cols: seq<Option<bytes>>)
    requires cols != [] && Columns(payload, off, n, cols)
    requires var next := off + |EncodeColumn(cols[0])|; EncodedAt(payload, next, cols[1..]) && ColumnsFit(cols[1..])
    ensures n > 0 && Columns(payload, off + |EncodeColumn(cols[0])|, n - 1, cols[1..])
  {
    hide EncodeColumn, NoColumnAt, EncodedAt;
  }

  lemma {:induction false} DecodesColumns(payload: bytes, off: nat, n: nat, cols: seq<Option<bytes>>,
      password: Option<bytes>)
    requires Columns(payload, off, n, cols)
    ensures DecodeColumns(payload, off, n, password) == Row(LastNonNull(cols, password))
    decreases |cols|
  {
    hide DecodeColumns, EncodeColumn, EncodeColumns, EncodedAt, ColumnsFit, NoColumnAt, Latest, LastNonNull;
    if cols == [] {
      assert off + |EncodeColumns(cols)| == off by { NothingEncoded(); }
      NothingDecoded(payload, off, n, password);
    } else {
      DecodeColumnOf(payload, off, n, cols, password);
      ColumnsRest(payload, off, n, cols);
      DecodesColumns(payload, off + |EncodeColumn(cols[0])|, n - 1, cols[1..], Latest(cols[0], password));
      LastNonNullFromTheLeft(cols, password);
    }
  }

  /**
   * For every payload: the loop yields a password exactly if the payload begins with encoded
   * columns, as many as are announced or else up to something that is none, and the password is
   * the last of these columns that is not NULL, or the one from before.
   */
  lemma DataRowExactly(payload: bytes, before: Option<bytes>, password: Option<bytes>)
    ensures DecodeRow(payload, before) == Row(password) <==>
      if |payload| < 2 then password == before
      else exists cols ::
        Columns(payload, 2, payload[0] as int * 256 + payload[1], cols) && password == LastNonNull(cols, before)
  {
    hide Columns, DecodeColumns, LastNonNull;
    if |payload| >= 2 {
      var n := FromBe16(payload[0], payload[1]);
      if DecodeColumns(payload, 2, n, before).Row? {
        var cols := GoesThrough(payload, 2, n, before);
      }
      forall cols | Columns(payload, 2, n, cols)
        ensures DecodeColumns(payload, 2, n, before) == Row(LastNonNull(cols, before))
      {
        DecodesColumns(payload, 2, n, cols, before);
      }
    }
  }
}
