// src/pgproto/mod.rs and src/auth/auth_query.rs: what single message payloads mean.

module Messages {
  import opened Prelude
  import opened BigEndian
  import opened Text

  // ---- Authentication requests ----

  datatype AuthRequest =
    | Ok
    | CleartextPassword
    | Md5Password(salt: bytes)
    | Sasl(mechs: seq<bytes>)
    | SaslContinue(data: bytes)
    | Unknown(code: int, data: bytes)
    | TooShort

  function NonEmpty(parts: seq<bytes>): (r: seq<bytes>)
    ensures forall i :: 0 <= i < |r| ==> r[i] != [] && r[i] in parts
  {
    if parts == [] then []
    else if parts[0] == [] then NonEmpty(parts[1..])
    else [parts[0]] + NonEmpty(parts[1..])
  }

  function ParseAuthRequest(payload: bytes): AuthRequest {
    if |payload| < 4 then TooShort
    else
      var code := FromBe32(payload[0..4]);
      var rest := payload[4..];
      if code == 0 then Ok
      else if code == 3 then CleartextPassword
      else if code == 5 then (if |rest| < 4 then TooShort else Md5Password(rest[..4]))
      else if code == 10 then Sasl(NonEmpty(Split(rest, NUL)))
      else if code == 11 then SaslContinue(rest)
      else Unknown(code, rest)
  }

  /** Mechanism names as AuthenticationSASL carries them: each with its NUL, then one more. */
  function NulTerminated(names: seq<bytes>): bytes {
    if names == [] then [NUL] else names[0] + [NUL] + NulTerminated(names[1..])
  }

  predicate PlainNames(names: seq<bytes>) {
    forall i :: 0 <= i < |names| ==> names[i] != [] && Free(names[i], NUL)
  }

  lemma TwoEmpty(parts: seq<bytes>, none: bytes)
    requires none == [] && parts == [none, none]
    ensures NonEmpty(parts) == []
  {
    var tail := parts[1..];
    assert tail == [none] && NonEmpty(tail[1..]) == [];
    assert NonEmpty(tail) == NonEmpty(tail[1..]);
  }

  lemma NonEmptyFirst(name: bytes, parts: seq<bytes>)
    requires name != []
    ensures NonEmpty([name] + parts) == [name] + NonEmpty(parts)
  {
    assert ([name] + parts)[1..] == parts;
  }

  lemma NothingTerminated()
    ensures NonEmpty(Split(NulTerminated([]), NUL)) == []
  {
    var none: bytes := [];
    SplitPiece(none, NUL, none);
    SplitWhole(none, NUL);
    assert none + [NUL] + none == NulTerminated([]);
    TwoEmpty(Split(NulTerminated([]), NUL), none);
  }

  lemma {:induction false} NonEmptyOfTerminated(names: seq<bytes>)
    requires PlainNames(names)
    ensures NonEmpty(Split(NulTerminated(names), NUL)) == names
  {
    hide Split, NonEmpty;
    if names == [] {
      NothingTerminated();
    } else {
      var rest := NulTerminated(names[1..]);
      SplitPiece(names[0], NUL, rest);
      NonEmptyOfTerminated(names[1..]);
      NonEmptyFirst(names[0], Split(rest, NUL));
    }
  }

  /** A SASL request parses back to its mechanism list exactly when the list can be printed. */
  lemma SaslRoundTripExactly(names: seq<bytes>)
    ensures ParseAuthRequest(Be32(10) + NulTerminated(names)) == Sasl(names) <==> PlainNames(names)
  {
    var payload := Be32(10) + NulTerminated(names);
    Be32RoundTrip(10);
    assert payload[0..4] == Be32(10) && payload[4..] == NulTerminated(names);
    if PlainNames(names) {
      NonEmptyOfTerminated(names);
    }
  }

  // ---- Statement names ----

  /** `from_utf8(..).unwrap_or("")` */
  function Utf8OrEmpty(s: bytes): bytes {
    if ValidUtf8(s) then s else []
  }

  function ParseStatementName(payload: bytes): bytes {
    Utf8OrEmpty(payload[..IndexFrom(payload, NUL, 0)])
  }

  /** The object kind and the name of a Close message. */
  function ParseCloseTarget(payload: bytes): (byte, bytes) {
    if |payload| < 2 then (0, [])
    else (payload[0], Utf8OrEmpty(payload[1..IndexFrom(payload, NUL, 1)]))
  }

  /** Parse and Close payloads start with a NUL-terminated name; it comes back if it can. */
  lemma NamesComeBackExactly(kind: byte, name: bytes, rest: bytes)
    ensures ParseStatementName(name + [NUL] + rest) == name <==> Free(name, NUL) && ValidUtf8(name)
    ensures ParseCloseTarget([kind] + name + [NUL] + rest) == (kind, name)
      <==> Free(name, NUL) && ValidUtf8(name)
  {
    var p, c := name + [NUL] + rest, [kind] + name + [NUL] + rest;
    var i, j := IndexFrom(p, NUL, 0), IndexFrom(c, NUL, 1);
    if Free(name, NUL) {
      assert p[0..|name|] == name && c[1..1 + |name|] == name;
      IndexFromAt(p, NUL, 0, |name|);
      IndexFromAt(c, NUL, 1, 1 + |name|);
      assert p[..i] == name && c[1..j] == name;
    } else {
      var k :| 0 <= k < |name| && name[k] == NUL;
      assert p[k] == NUL && c[1 + k] == NUL;
      assert |p[..i]| < |name| && |c[1..j]| < |name|;
    }
  }

  // ---- DataRow ----

  datatype RowResult =
    | Row(password: Option<bytes>)
    | RowPanic        // a slice whose end lies before its start

  /**
   * The column loop of `lookup_password` with `n` columns to go.  A length below -1 becomes
   * an enormous usize: adding the offset either wraps round, and the slice then ends before
   * it starts, or stays enormous and leaves the loop.
   */
  function DecodeColumns(payload: bytes, off: nat, n: nat, password: Option<bytes>): RowResult
    decreases n
  {
    if n == 0 || off + 4 > |payload| then Row(password)
    else
      var len := FromBe32(payload[off..off + 4]);
      var start := off + 4;
      if len == -1 then DecodeColumns(payload, start, n - 1, password)
      else if len < 0 then (if -len <= start then RowPanic else Row(password))
      else if len + start > |payload| then Row(password)
      else DecodeColumns(payload, start + len, n - 1, Some(payload[start..start + len]))
  }

  function DecodeRow(payload: bytes, password: Option<bytes>): RowResult {
    if |payload| < 2 then Row(password)
    else DecodeColumns(payload, 2, FromBe16(payload[0], payload[1]), password)
  }

  method DecodeDataRow(payload: bytes, before: Option<bytes>) returns (r: RowResult)
    ensures r == DecodeRow(payload, before)
  {
    var password := before;
    if |payload| < 2 {
      return Row(password);
    }
    var cols := FromBe16(payload[0], payload[1]);
    var off: nat := 2;
    for i := 0 to cols
      invariant 0 <= off
      invariant DecodeColumns(payload, off, cols - i, password) == DecodeRow(payload, before)
    {
      if off + 4 > |payload| {
        break;
      }
      var colLen := FromBe32(payload[off..off + 4]);
      off := off + 4;
      if colLen == -1 {
        continue;
      }
      if colLen < 0 && -colLen <= off {
        return RowPanic;
      }
      if colLen < 0 || colLen + off > |payload| {
        break;
      }
      password := Some(payload[off..off + colLen]);
      off := off + colLen;
    }
    r := Row(password);
  }

  /** A column as DataRow carries it: an i32 length and the bytes, or -1 for NULL. */
  function EncodeColumn(c: Option<bytes>): bytes {
    match c
    case None => Be32(-1)
    case Some(v) => Be32(|v|) + v
  }

  function EncodeColumns(cols: seq<Option<bytes>>): bytes {
    if cols == [] then [] else EncodeColumn(cols[0]) + EncodeColumns(cols[1..])
  }

  function EncodeRow(cols: seq<Option<bytes>>): bytes
    requires |cols| < 65536
  {
    Be16(|cols|) + EncodeColumns(cols)
  }

  /** The last column that is not NULL, or else `before`. */
  function LastNonNull(cols: seq<Option<bytes>>, before: Option<bytes>): Option<bytes> {
    if cols == [] then before
    else if cols[|cols| - 1].Some? then cols[|cols| - 1]
    else LastNonNull(cols[..|cols| - 1], before)
  }

  function Latest(c: Option<bytes>, password: Option<bytes>): Option<bytes> {
    if c.Some? then c else password
  }

  predicate ColumnsFit(cols: seq<Option<bytes>>) {
    forall i :: 0 <= i < |cols| && cols[i].Some? ==> |cols[i].value| < TWO_31
  }

  lemma {:induction false} LastNonNullFromTheLeft(cols: seq<Option<bytes>>, before: Option<bytes>)
    requires cols != []
    ensures LastNonNull(cols, before) == LastNonNull(cols[1..], Latest(cols[0], before))
    decreases |cols|
  {
    var n := |cols| - 1;
    if n > 0 && cols[n].None? {
      LastNonNullFromTheLeft(cols[..n], before);
      assert cols[..n][1..] == cols[1..][..n - 1];
    }
  }

  /** One encoded column at `off`: where it ends and what it leaves in `password`. */
  lemma DecodeOneColumn(payload: bytes, off: nat, n: nat, c: Option<bytes>, password: Option<bytes>)
    requires n > 0 && off <= |payload| && EncodeColumn(c) <= payload[off..]
    requires c.Some? ==> |c.value| < TWO_31
    ensures DecodeColumns(payload, off, n, password) ==
      DecodeColumns(payload, off + |EncodeColumn(c)|, n - 1, Latest(c, password))
  {
    var text := EncodeColumn(c);
    assert forall i :: 0 <= i < |text| ==> payload[off + i] == text[i];
    assert payload[off..off + 4] == text[..4];
    if c.Some? {
      Be32RoundTrip(|c.value|);
      assert text[..4] == Be32(|c.value|);
      assert payload[off + 4..off + 4 + |c.value|] == c.value;
    } else {
      Be32RoundTrip(-1);
    }
  }

  lemma Onwards(payload: bytes, off: nat, text: bytes, rest: bytes)
    requires off <= |payload| && text + rest <= payload[off..]
    ensures text <= payload[off..] && off + |text| <= |payload|
    ensures rest <= payload[off + |text|..]
  {
    assert (text + rest)[..|text|] == text && (text + rest)[|text|..] == rest;
    assert payload[off + |text|..] == payload[off..][|text|..];
  }

  predicate EncodedAt(payload: bytes, off: nat, cols: seq<Option<bytes>>) {
    off <= |payload| && EncodeColumns(cols) <= payload[off..]
  }

  lemma DecodeColumnOf(payload: bytes, off: nat, n: nat, cols: seq<Option<bytes>>, password: Option<bytes>)
    requires cols != [] && n > 0 && ColumnsFit(cols) && EncodedAt(payload, off, cols)
    ensures var next := off + |EncodeColumn(cols[0])|;
      && EncodedAt(payload, next, cols[1..]) && ColumnsFit(cols[1..])
      && DecodeColumns(payload, off, n, password) == DecodeColumns(payload, next, n - 1, Latest(cols[0], password))
  {
    hide EncodeColumn, DecodeColumns;
    Onwards(payload, off, EncodeColumn(cols[0]), EncodeColumns(cols[1..]));
    DecodeOneColumn(payload, off, n, cols[0], password);
  }

  lemma {:induction false} DecodeEncodedColumns(payload: bytes, off: nat,
      cols: seq<Option<bytes>>, password: Option<bytes>)
    requires ColumnsFit(cols) && EncodedAt(payload, off, cols)
    ensures DecodeColumns(payload, off, |cols|, password) == Row(LastNonNull(cols, password))
    decreases |cols|
  {
    hide EncodeColumn, EncodedAt, DecodeColumns, LastNonNull, Latest, ColumnsFit;
    if cols == [] {
      NoColumns(payload, off, password);
    } else {
      DecodeColumnOf(payload, off, |cols|, cols, password);
      DecodeEncodedColumns(payload, off + |EncodeColumn(cols[0])|, cols[1..], Latest(cols[0], password));
      LastNonNullFromTheLeft(cols, password);
    }
  }

  lemma NoColumns(payload: bytes, off: nat, password: Option<bytes>)
    ensures DecodeColumns(payload, off, 0, password) == Row(LastNonNull([], password))
  {
  }

  /**
   * On the encoding of any list of nullable columns, whatever follows it, the loop stays in
   * bounds and yields the last column that is not NULL.
   */
  lemma DataRowYieldsLastNonNull(cols: seq<Option<bytes>>, trailing: bytes, before: Option<bytes>)
    requires |cols| < 65536 && ColumnsFit(cols)
    ensures DecodeRow(EncodeRow(cols) + trailing, before) == Row(LastNonNull(cols, before))
  {
    var payload := EncodeRow(cols) + trailing;
    assert payload[2..] == EncodeColumns(cols) + trailing;
    DecodeEncodedColumns(payload, 2, cols, before);
  }

  // ---- When the DataRow loop panics ----

  /** A length field below -1 that, added to the offset behind it as a usize, wraps round. */
  predicate WrapsAt(payload: bytes, off: nat) {
    off + 4 <= |payload| && FromBe32(payload[off..off + 4]) < -1 && -FromBe32(payload[off..off + 4]) <= off + 4
  }

  /** `n` columns are announced, and some encoded columns, fewer than `n`, come before such a length. */
  ghost predicate WrapsAfterColumns(payload: bytes, off: nat, n: nat) {
    exists cols: seq<Option<bytes>> :: WrapsAfter(payload, off, n, cols)
  }

  predicate WrapsAfter(payload: bytes, off: nat, n: nat, cols: seq<Option<bytes>>) {
    |cols| < n && ColumnsFit(cols) && EncodedAt(payload, off, cols) && WrapsAt(payload, off + |EncodeColumns(cols)|)
  }

  lemma NoColumnBefore(payload: bytes, off: nat, n: nat)
    requires off <= |payload|
    ensures WrapsAfter(payload, off, n, []) <==> n > 0 && WrapsAt(payload, off)
  {
  }

  lemma PanicsAt(payload: bytes, off: nat, n: nat, password: Option<bytes>)
    requires n > 0 && WrapsAt(payload, off)
    ensures DecodeColumns(payload, off, n, password) == RowPanic
  {
  }

  lemma WrapsAfterRest(payload: bytes, off: nat, n: nat, cols: seq<Option<bytes>>)
    requires cols != [] && WrapsAfter(payload, off, n, cols)
    requires var next := off + |EncodeColumn(cols[0])|; EncodedAt(payload, next, cols[1..]) && ColumnsFit(cols[1..])
    ensures n > 0 && WrapsAfter(payload, off + |EncodeColumn(cols[0])|, n - 1, cols[1..])
  {
    hide EncodeColumn, WrapsAt, EncodedAt;
  }

  lemma {:induction false} PanicsAfterColumns(payload: bytes, off: nat, n: nat, cols: seq<Option<bytes>>,
      password: Option<bytes>)
    requires WrapsAfter(payload, off, n, cols)
    ensures DecodeColumns(payload, off, n, password) == RowPanic
    decreases |cols|
  {
    hide DecodeColumns, EncodeColumn, EncodeColumns, EncodedAt, ColumnsFit, WrapsAt, Latest;
    if cols == [] {
      assert off + |EncodeColumns(cols)| == off by { NothingEncoded(); }
      PanicsAt(payload, off, n, password);
    } else {
      DecodeColumnOf(payload, off, n, cols, password);
      WrapsAfterRest(payload, off, n, cols);
      PanicsAfterColumns(payload, off + |EncodeColumn(cols[0])|, n - 1, cols[1..], Latest(cols[0], password));
    }
  }

  lemma NothingEncoded()
    ensures EncodeColumns([]) == []
  {
  }

  /** What the loop takes for a column is an encoded column. */
  lemma ColumnIsEncoded(payload: bytes, off: nat)
    requires off + 4 <= |payload|
    requires var len := FromBe32(payload[off..off + 4]); len == -1 || (len >= 0 && off + 4 + len <= |payload|)
    ensures var len := FromBe32(payload[off..off + 4]);
      var c := if len == -1 then None else Some(payload[off + 4..off + 4 + len]);
      && EncodeColumn(c) == payload[off..off + |EncodeColumn(c)|]
      && |EncodeColumn(c)| == 4 + (if len == -1 then 0 else len)
      && (c.Some? ==> |c.value| < TWO_31)
  {
    FromBe32RoundTrip(payload[off..off + 4]);
  }

  lemma OneColumnMore(payload: bytes, off: nat, n: nat, c: Option<bytes>, cols: seq<Option<bytes>>)
    requires off + |EncodeColumn(c)| <= |payload| && EncodeColumn(c) == payload[off..off + |EncodeColumn(c)|]
    requires c.Some? ==> |c.value| < TWO_31
    requires n > 0 && WrapsAfter(payload, off + |EncodeColumn(c)|, n - 1, cols)
    ensures WrapsAfter(payload, off, n, [c] + cols)
  {
    hide EncodeColumn, WrapsAt;
    var next, all := off + |EncodeColumn(c)|, [c] + cols;
    assert all[1..] == cols;
    assert payload[off..] == payload[off..next] + payload[next..];
    assert EncodeColumns(all) == EncodeColumn(c) + EncodeColumns(cols);
  }

  lemma {:induction false} ColumnsIfPanics(payload: bytes, off: nat, n: nat, password: Option<bytes>)
      returns (cols: seq<Option<bytes>>)
    requires off <= |payload| && DecodeColumns(payload, off, n, password) == RowPanic
    ensures WrapsAfter(payload, off, n, cols)
    decreases n
  {
    hide WrapsAfter, EncodeColumn;
    NoColumnBefore(payload, off, n);
    var len := FromBe32(payload[off..off + 4]);
    if len < -1 {
      cols := [];
    } else {
      ColumnIsEncoded(payload, off);
      var c := if len == -1 then None else Some(payload[off + 4..off + 4 + len]);
      cols := ColumnsIfPanics(payload, off + |EncodeColumn(c)|, n - 1, if len == -1 then password else c);
      OneColumnMore(payload, off, n, c, cols);
      cols := [c] + cols;
    }
  }

  /**
   * The loop panics if and only if fewer encoded columns than announced are followed by a length
   * field below -1 that is no more than its own end below 0: the sum wraps round, and the slice
   * ends before it starts.
   */
  lemma DataRowPanicsExactly(payload: bytes, password: Option<bytes>)
    ensures DecodeRow(payload, password) == RowPanic <==>
      |payload| >= 2 && WrapsAfterColumns(payload, 2, FromBe16(payload[0], payload[1]))
  {
    hide WrapsAfter, DecodeColumns;
    if |payload| >= 2 {
      var n := FromBe16(payload[0], payload[1]);
      if WrapsAfterColumns(payload, 2, n) {
        var cols :| WrapsAfter(payload, 2, n, cols);
        PanicsAfterColumns(payload, 2, n, cols, password);
      }
      if DecodeColumns(payload, 2, n, password) == RowPanic {
        var cols := ColumnsIfPanics(payload, 2, n, password);
      }
    }
  }
}
