// src/pgproto/mod.rs: the untyped messages that open a connection.

module Startup {
  import opened Prelude
  import opened BigEndian
  import opened Text
  import opened Streams

  const PROTOCOL_VERSION_3 := 196608
  const SSL_REQUEST_CODE := 80877103
  const CANCEL_REQUEST_CODE := 80877102

  const USER: bytes := [117, 115, 101, 114]                          // "user"
  const DATABASE: bytes := [100, 97, 116, 97, 98, 97, 115, 101]      // "database"

  datatype Param = Param(key: bytes, value: bytes)
  datatype StartupParams = StartupParams(user: bytes, database: bytes, params: seq<Param>)

  datatype InitialResult =
    | SslRequest
    | Cancel(pid: int, secretKey: int)
    | Startup(startup: StartupParams)
    | ShortRead          // a read_exact that failed
    | UnknownCode        // eight bytes, neither SSL nor cancel
    | BadVersion
    | NoUser
    | Panicked           // a slice or an allocation out of range

  function Lookup(params: seq<Param>, key: bytes): Option<bytes> {
    if params == [] then None
    else if params[0].key == key then Some(params[0].value)
    else Lookup(params[1..], key)
  }

  /** What the key/value loop meets at one offset. */
  datatype Item =
    | End                                   // an empty key, or no further NUL
    | Pair(param: Param, next: nat)
    | OutOfRange                            // slicing from beyond the end: a panic

  /** A value without its NUL runs to the end and leaves the offset one beyond it. */
  function NextItem(buf: bytes, offset: nat): (item: Item)
    ensures item.Pair? ==> offset < item.next <= |buf| + 1
    ensures item.OutOfRange? <==> offset > |buf|
  {
    if offset > |buf| then OutOfRange
    else
      var keyEnd := IndexFrom(buf, NUL, offset);
      if keyEnd == |buf| || keyEnd == offset then End
      else
        var valEnd := IndexFrom(buf, NUL, keyEnd + 1);
        Pair(Param(buf[offset..keyEnd], buf[keyEnd + 1..valEnd]), valEnd + 1)
  }

  /** The key/value loop from `offset` on; `None` is a panic. */
  function ParseParams(buf: bytes, offset: nat): Option<seq<Param>>
    decreases |buf| + 1 - offset
  {
    match NextItem(buf, offset)
    case End => Some([])
    case OutOfRange => None
    case Pair(p, next) => Prepend([p], ParseParams(buf, next))
  }

  function Prepend(ps: seq<Param>, rest: Option<seq<Param>>): Option<seq<Param>> {
    if rest.None? then None else Some(ps + rest.value)
  }

  /** What the payload of a startup message means. */
  function ParseStartup(buf: bytes): InitialResult {
    if |buf| < 4 then Panicked
    else if FromBe32(buf[0..4]) != PROTOCOL_VERSION_3 then BadVersion
    else
      match ParseParams(buf, 4)
      case None => Panicked
      case Some(params) => WithParams(params)
  }

  /** `user` is required, `database` defaults to it; the first of several wins. */
  function WithParams(params: seq<Param>): InitialResult {
    match Lookup(params, USER)
    case None => NoUser
    case Some(user) =>
      match Lookup(params, DATABASE)
      case None => Startup(StartupParams(user, user, params))
      case Some(database) => Startup(StartupParams(user, database, params))
  }

  /** What `read_initial_message` makes of the unread bytes, and what it leaves unread. */
  function ReadInitial(data: bytes): (r: (InitialResult, bytes)) {
    if |data| < 4 then (ShortRead, [])
    else
      var len := FromBe32(data[0..4]);
      if len == 8 then
        if |data| < 8 then (ShortRead, [])
        else
          var code := FromBe32(data[4..8]);
          if code == SSL_REQUEST_CODE then (SslRequest, data[8..])
          else if code != CANCEL_REQUEST_CODE then (UnknownCode, data[8..])
          else if |data| < 16 then (ShortRead, [])
          else (Cancel(FromBe32(data[8..12]), FromBe32(data[12..16])), data[16..])
      else if len < 4 then (Panicked, data[4..])
      else if |data| < len then (ShortRead, [])
      else (ParseStartup(data[4..len]), data[len..])
  }

  method ReadInitialMessage(stream: ByteSource) returns (r: InitialResult)
    modifies stream
    ensures (r, stream.unread) == ReadInitial(old(stream.unread))
  {
    ghost var data := stream.unread;
    var ok, lenBuf := stream.ReadExact(4);
    if !ok { return ShortRead; }
    assert lenBuf == data[0..4];
    var len := FromBe32(lenBuf);
    if len == 8 {
      var okCode, codeBuf := stream.ReadExact(4);
      if !okCode { return ShortRead; }
      assert codeBuf == data[4..8] && stream.unread == data[8..];
      var code := FromBe32(codeBuf);
      if code == SSL_REQUEST_CODE { return SslRequest; }
      if code != CANCEL_REQUEST_CODE { return UnknownCode; }
      var okCancel, cancelBuf := stream.ReadExact(8);
      if !okCancel { return ShortRead; }
      assert cancelBuf[..4] == data[8..12] && cancelBuf[4..] == data[12..16];
      assert stream.unread == data[16..];
      return Cancel(FromBe32(cancelBuf[..4]), FromBe32(cancelBuf[4..]));
    }
    if len < 4 { return Panicked; }
    var okBuf, buf := stream.ReadExact(len - 4);
    if !okBuf { return ShortRead; }
    assert buf == data[4..len] && stream.unread == data[len..];
    r := ReadParams(buf);
  }

  /** What the loop finds at an offset, and what that makes of the parameters. */
  lemma OneItem(buf: bytes, offset: nat)
    requires offset <= |buf|
    ensures var keyEnd := IndexFrom(buf, NUL, offset);
      if keyEnd == |buf| || keyEnd == offset then ParseParams(buf, offset) == Some([])
      else
        var valEnd := IndexFrom(buf, NUL, keyEnd + 1);
        var p := Param(buf[offset..keyEnd], buf[keyEnd + 1..valEnd]);
        valEnd + 1 > offset && ParseParams(buf, offset) == Prepend([p], ParseParams(buf, valEnd + 1))
  {
    hide IndexFrom;
  }

  lemma OutOfRangePanics(buf: bytes)
    ensures ParseParams(buf, |buf| + 1) == None
  {
  }

  lemma NothingMore(params: seq<Param>)
    ensures Prepend(params, Some([])) == Some(params) && Prepend(params, None) == None
  {
    assert params + [] == params;
  }

  /** The loop of `read_initial_message` over the bytes after the length. */
  method ReadParams(buf: bytes) returns (r: InitialResult)
    ensures r == ParseStartup(buf)
  {
    hide ParseParams, Prepend, IndexFrom, NextItem;
    if |buf| < 4 { return Panicked; }
    if FromBe32(buf[0..4]) != PROTOCOL_VERSION_3 { return BadVersion; }
    var params: seq<Param> := [];
    var offset := 4;
    PrependNothing(ParseParams(buf, 4));
    OutOfRangePanics(buf);
    while true
      invariant 4 <= offset <= |buf| + 1
      invariant ParseParams(buf, 4) == Prepend(params, ParseParams(buf, offset))
      decreases |buf| + 1 - offset
    {
      NothingMore(params);
      if offset > |buf| { return Panicked; }
      OneItem(buf, offset);
      var keyEnd := IndexFrom(buf, NUL, offset);
      if keyEnd == |buf| || keyEnd == offset {
        break;
      }
      var key := buf[offset..keyEnd];
      var valEnd := IndexFrom(buf, NUL, keyEnd + 1);
      var value := buf[keyEnd + 1..valEnd];
      PrependOne(params, Param(key, value), ParseParams(buf, valEnd + 1));
      offset := valEnd + 1;
      params := params + [Param(key, value)];
    }
    NothingMore(params);
    r := WithParams(params);
  }

  lemma PrependNothing(rest: Option<seq<Param>>)
    ensures Prepend([], rest) == rest
  {
    if rest.Some? {
      assert [] + rest.value == rest.value;
    }
  }

  lemma PrependOne(ps: seq<Param>, p: Param, rest: Option<seq<Param>>)
    ensures Prepend(ps, Prepend([p], rest)) == Prepend(ps + [p], rest)
  {
    if rest.Some? {
      assert ps + ([p] + rest.value) == ps + [p] + rest.value;
    }
  }

  // ---- Printing ----

  function PrintParam(p: Param): bytes {
    p.key + [NUL] + p.value + [NUL]
  }

  function PrintParams(ps: seq<Param>): bytes {
    if ps == [] then [] else PrintParam(ps[0]) + PrintParams(ps[1..])
  }

  /** The parameters other than the two that are always written first. */
  function Others(ps: seq<Param>): seq<Param> {
    if ps == [] then []
    else if ps[0].key != USER && ps[0].key != DATABASE then [ps[0]] + Others(ps[1..])
    else Others(ps[1..])
  }

  /** The same startup with `user` and `database` first, once each, in front of the others. */
  function Canonical(s: StartupParams): StartupParams {
    StartupParams(s.user, s.database,
      [Param(USER, s.user), Param(DATABASE, s.database)] + Others(s.params))
  }

  function Body(ps: seq<Param>): bytes {
    Be32(PROTOCOL_VERSION_3) + PrintParams(ps) + [NUL]
  }

  /** The bytes of `write_startup_message`; the length is cast with `as i32`. */
  function StartupBytes(s: StartupParams): bytes {
    var body := Body(Canonical(s).params);
    Be32(|body| + 4) + body
  }

  lemma PrintAppend(a: seq<Param>, b: seq<Param>)
    ensures PrintParams(a + b) == PrintParams(a) + PrintParams(b)
  {
    if a == [] {
      assert a + b == b;
    } else {
      assert (a + b)[1..] == a[1..] + b;
      PrintAppend(a[1..], b);
    }
  }

  lemma OthersAppend(a: seq<Param>, b: seq<Param>)
    ensures Others(a + b) == Others(a) + Others(b)
  {
    if a == [] {
      assert a + b == b;
    } else {
      assert (a + b)[1..] == a[1..] + b;
      OthersAppend(a[1..], b);
    }
  }

  method WriteStartupMessage(stream: ByteSink, s: StartupParams)
    modifies stream
    ensures stream.written == old(stream.written) + StartupBytes(s)
  {
    var buf := Be32(PROTOCOL_VERSION_3);
    buf := AppendParam(buf, Param(USER, s.user));
    buf := AppendParam(buf, Param(DATABASE, s.database));
    buf := AppendOthers(buf, s.params);
    buf := buf + [NUL];
    CanonicalBody(s);
    var header := Be32(|buf| + 4);
    stream.WriteAll(header + buf);
  }

  /** The loop of `write_startup_message` over the caller's parameters. */
  method AppendOthers(before: bytes, ps: seq<Param>) returns (buf: bytes)
    ensures buf == before + PrintParams(Others(ps))
  {
    buf := before;
    for i := 0 to |ps|
      invariant buf == before + PrintParams(Others(ps[..i]))
    {
      var p := ps[i];
      OthersTake(ps, i);
      if p.key != USER && p.key != DATABASE {
        PrintAppendOne(Others(ps[..i]), p);
        buf := AppendParam(buf, p);
      }
    }
    assert ps[..|ps|] == ps;
  }

  /** The four pushes that write one key and its value. */
  method AppendParam(before: bytes, p: Param) returns (buf: bytes)
    ensures buf == before + PrintParam(p)
  {
    buf := before + p.key;
    buf := buf + [NUL];
    buf := buf + p.value;
    buf := buf + [NUL];
  }

  lemma Flattened(v: bytes, a: bytes, b: bytes, c: bytes, end: bytes)
    ensures v + (a + (b + c)) + end == v + a + b + c + end
  {
  }

  lemma CanonicalBody(s: StartupParams)
    ensures Body(Canonical(s).params) ==
      Be32(PROTOCOL_VERSION_3) + PrintParam(Param(USER, s.user))
      + PrintParam(Param(DATABASE, s.database)) + PrintParams(Others(s.params)) + [NUL]
  {
    hide PrintParam, Others;
    var user, database := Param(USER, s.user), Param(DATABASE, s.database);
    var ps := Canonical(s).params;
    assert ps[1..] == [database] + Others(s.params);
    assert ps[1..][1..] == Others(s.params);
    assert PrintParams(ps[1..]) == PrintParam(database) + PrintParams(Others(s.params));
    hide PrintParams;
    Flattened(Be32(PROTOCOL_VERSION_3), PrintParam(user), PrintParam(database), PrintParams(Others(s.params)), [NUL]);
  }

  lemma PrintAppendOne(ps: seq<Param>, p: Param)
    ensures PrintParams(ps + [p]) == PrintParams(ps) + PrintParam(p)
  {
    PrintAppend(ps, [p]);
    assert PrintParams([p]) == PrintParam(p) + PrintParams([]);
  }

  lemma OthersTake(ps: seq<Param>, i: nat)
    requires i < |ps|
    ensures Others(ps[..i + 1]) ==
      if ps[i].key != USER && ps[i].key != DATABASE
      then Others(ps[..i]) + [ps[i]]
      else Others(ps[..i])
  {
    assert ps[..i + 1] == ps[..i] + [ps[i]];
    OthersAppend(ps[..i], [ps[i]]);
    assert Others([ps[i]][1..]) == [];
  }

  // ---- Round trips ----

  predicate Printable(p: Param) {
    p.key != [] && Free(p.key, NUL) && Free(p.value, NUL)
  }

  predicate AllPrintable(ps: seq<Param>) {
    forall i :: 0 <= i < |ps| ==> Printable(ps[i])
  }

  /** One key/value pair in the middle of a buffer, and where the loop stands after it. */
  lemma NextPrinted(buf: bytes, offset: nat, p: Param)
    requires Printable(p)
    requires offset <= |buf| && PrintParam(p) <= buf[offset..]
    ensures NextItem(buf, offset) == Pair(p, offset + |PrintParam(p)|)
  {
    var text := PrintParam(p);
    var k, v := |p.key|, |p.value|;
    assert forall i :: 0 <= i < |text| ==> buf[offset + i] == text[i];
    assert buf[offset..offset + k] == p.key;
    assert buf[offset + k + 1..offset + k + 1 + v] == p.value;
    IndexFromAt(buf, NUL, offset, offset + k);
    IndexFromAt(buf, NUL, offset + k + 1, offset + k + 1 + v);
  }

  /** The printed parameters and the final NUL, read from the left. */
  function Terminated(ps: seq<Param>): bytes {
    if ps == [] then [NUL] else PrintParam(ps[0]) + Terminated(ps[1..])
  }

  lemma {:induction false} TerminatedIsPrinted(ps: seq<Param>)
    ensures Terminated(ps) == PrintParams(ps) + [NUL]
  {
    if ps != [] {
      TerminatedIsPrinted(ps[1..]);
    }
  }

  lemma SplitOff(buf: bytes, offset: nat, text: bytes, tail: bytes)
    requires offset <= |buf| && buf[offset..] == text + tail
    ensures offset + |text| <= |buf|
    ensures text <= buf[offset..] && buf[offset + |text|..] == tail
  {
    assert |text + tail| == |buf| - offset;
    assert buf[offset + |text|..] == buf[offset..][|text|..];
  }

  lemma NextAtEnd(buf: bytes, offset: nat)
    requires offset <= |buf| && buf[offset..] == [NUL]
    ensures NextItem(buf, offset) == End
  {
    assert buf[offset] == buf[offset..][0] == NUL;
  }

  lemma {:induction false} ParsePrinted(buf: bytes, offset: nat, ps: seq<Param>)
    requires AllPrintable(ps)
    requires offset <= |buf| && buf[offset..] == Terminated(ps)
    ensures ParseParams(buf, offset) == Some(ps)
    decreases |ps|
  {
    if ps == [] {
      NextAtEnd(buf, offset);
    } else {
      var p, rest := ps[0], ps[1..];
      SplitOff(buf, offset, PrintParam(p), Terminated(rest));
      NextPrinted(buf, offset, p);
      var next := offset + |PrintParam(p)|;
      ParsePrinted(buf, next, rest);
      ParseCons(buf, offset, next, p, rest);
      assert [p] + rest == ps;
    }
  }

  lemma ParseCons(buf: bytes, offset: nat, next: nat, p: Param, rest: seq<Param>)
    requires NextItem(buf, offset) == Pair(p, next)
    requires ParseParams(buf, next) == Some(rest)
    ensures ParseParams(buf, offset) == Some([p] + rest)
  {
  }

  lemma NextIsPrinted(buf: bytes, offset: nat)
    requires NextItem(buf, offset).Pair? && NextItem(buf, offset).next <= |buf|
    ensures var item := NextItem(buf, offset);
      && Printable(item.param)
      && buf[offset..] == PrintParam(item.param) + buf[item.next..]
  {
    var keyEnd := IndexFrom(buf, NUL, offset);
    var valEnd := IndexFrom(buf, NUL, keyEnd + 1);
    assert buf[keyEnd..keyEnd + 1] == [NUL] && buf[valEnd..valEnd + 1] == [NUL];
  }

  /** Conversely the parser only returns what it has seen printed. */
  lemma {:induction false} ParsedIsPrinted(buf: bytes, offset: nat)
    requires ParseParams(buf, offset).Some?
    ensures offset <= |buf|
    ensures AllPrintable(ParseParams(buf, offset).value)
    ensures PrintParams(ParseParams(buf, offset).value) <= buf[offset..]
    decreases |buf| + 1 - offset
  {
    var item := NextItem(buf, offset);
    if item.Pair? {
      ParsedIsPrinted(buf, item.next);
      NextIsPrinted(buf, offset);
      AllPrintableCons(item.param, ParseParams(buf, item.next).value);
    }
  }

  lemma AllPrintableCons(p: Param, rest: seq<Param>)
    requires Printable(p) && AllPrintable(rest)
    ensures AllPrintable([p] + rest)
    ensures PrintParams([p] + rest) == PrintParam(p) + PrintParams(rest)
  {
    assert ([p] + rest)[1..] == rest;
  }

  lemma LookupCanonical(s: StartupParams)
    ensures Lookup(Canonical(s).params, USER) == Some(s.user)
    ensures Lookup(Canonical(s).params, DATABASE) == Some(s.database)
  {
    var ps := Canonical(s).params;
    assert ps[1..][0].key == DATABASE;
  }

  lemma {:induction false} OthersOfOthers(ps: seq<Param>)
    ensures Others(Others(ps)) == Others(ps)
  {
    if ps != [] {
      OthersOfOthers(ps[1..]);
      assert ps[0].key != USER && ps[0].key != DATABASE ==> Others(ps)[1..] == Others(ps[1..]);
    }
  }

  /** Writing the canonical startup again gives the same bytes. */
  lemma CanonicalPrintsTheSame(s: StartupParams)
    ensures Canonical(Canonical(s)) == Canonical(s)
    ensures StartupBytes(Canonical(s)) == StartupBytes(s)
  {
    var ps := Canonical(s).params;
    assert Others(ps[1..]) == Others(ps[2..]);
    assert ps[2..] == Others(s.params);
    OthersOfOthers(s.params);
  }

  lemma BodyShape(ps: seq<Param>)
    ensures Body(ps)[0..4] == Be32(PROTOCOL_VERSION_3)
    ensures FromBe32(Body(ps)[0..4]) == PROTOCOL_VERSION_3
    ensures Body(ps)[4..] == PrintParams(ps) + [NUL]
  {
    Be32RoundTrip(PROTOCOL_VERSION_3);
  }

  /**
   * The startup round trip holds exactly for NUL-free strings, non-empty keys and a
   * total length below 2^31: then the reader returns the canonical form and the rest.
   */
  lemma StartupRoundTripExactly(s: StartupParams, rest: bytes)
    ensures ReadInitial(StartupBytes(s) + rest) == (Startup(Canonical(s)), rest)
      <==> AllPrintable(Canonical(s).params) && |StartupBytes(s)| < TWO_31
  {
    var ps := Canonical(s).params;
    var n := |StartupBytes(s)|;
    var data := StartupBytes(s) + rest;
    assert data[0..4] == Be32(n);
    Be32RoundTrip(n);
    CanonicalBody(s);
    BodyShape(ps);
    var len := ToI32(n);
    if AllPrintable(ps) && n < TWO_31 {
      assert data[4..n] == Body(ps) && data[n..] == rest;
      TerminatedIsPrinted(ps);
      ParsePrinted(Body(ps), 4, ps);
      LookupCanonical(s);
    } else if 4 <= len <= |data| && ParseParams(data[4..len], 4).Some? {
      // The parsed strings are printable, and too long for a buffer shortened by the cast.
      ParsedIsPrinted(data[4..len], 4);
    }
  }

  // ---- When the reader panics ----

  /** A non-empty key with its NUL, and a value without one. */
  ghost predicate Unterminated(rest: bytes) {
    exists key, value :: key != [] && Free(key, NUL) && Free(value, NUL) && rest == key + [NUL] + value
  }

  /** What follows `offset` is printed parameters and then an unterminated one. */
  ghost predicate EndsUnterminated(buf: bytes, offset: nat, ps: seq<Param>, rest: bytes) {
    offset <= |buf| && AllPrintable(ps) && Unterminated(rest) && buf[offset..] == PrintParams(ps) + rest
  }

  lemma UnterminatedItem(buf: bytes, offset: nat)
    requires offset <= |buf|
    ensures Unterminated(buf[offset..]) <==> NextItem(buf, offset).Pair? && NextItem(buf, offset).next == |buf| + 1
  {
    if Unterminated(buf[offset..]) {
      var key, value :| key != [] && Free(key, NUL) && Free(value, NUL) && buf[offset..] == key + [NUL] + value;
      var k := offset + |key|;
      assert buf[offset..k] == key && buf[k] == buf[offset..][|key|] == NUL;
      IndexFromAt(buf, NUL, offset, k);
      assert forall i :: k + 1 <= i < |buf| ==> buf[i] == value[i - k - 1];
    }
    var item := NextItem(buf, offset);
    if item.Pair? && item.next == |buf| + 1 {
      var k := IndexFrom(buf, NUL, offset);
      var key, value := buf[offset..k], buf[k + 1..];
      assert buf[offset..] == key + [NUL] + value;
      assert Free(key, NUL) && Free(value, NUL);
    }
  }

  lemma PanicsAtOnce(buf: bytes, offset: nat, rest: bytes)
    requires EndsUnterminated(buf, offset, [], rest)
    ensures ParseParams(buf, offset).None?
  {
    hide Unterminated;
    assert buf[offset..] == rest;
    UnterminatedItem(buf, offset);
  }

  lemma OnePrintedLess(buf: bytes, offset: nat, ps: seq<Param>, rest: bytes)
    requires ps != [] && EndsUnterminated(buf, offset, ps, rest)
    ensures var next := offset + |PrintParam(ps[0])|;
      NextItem(buf, offset) == Pair(ps[0], next) && EndsUnterminated(buf, next, ps[1..], rest)
  {
    hide Unterminated, NextItem, PrintParam;
    assert PrintParams(ps) + rest == PrintParam(ps[0]) + (PrintParams(ps[1..]) + rest);
    SplitOff(buf, offset, PrintParam(ps[0]), PrintParams(ps[1..]) + rest);
    NextPrinted(buf, offset, ps[0]);
  }

  lemma {:induction false} PanicsIfUnterminated(buf: bytes, offset: nat, ps: seq<Param>, rest: bytes)
    requires EndsUnterminated(buf, offset, ps, rest)
    ensures ParseParams(buf, offset).None?
    decreases |ps|
  {
    hide EndsUnterminated, NextItem, PrintParam;
    if ps == [] {
      PanicsAtOnce(buf, offset, rest);
    } else {
      OnePrintedLess(buf, offset, ps, rest);
      PanicsIfUnterminated(buf, offset + |PrintParam(ps[0])|, ps[1..], rest);
    }
  }

  lemma OnePrintedMore(buf: bytes, offset: nat, ps: seq<Param>, rest: bytes)
    requires NextItem(buf, offset).Pair? && EndsUnterminated(buf, NextItem(buf, offset).next, ps, rest)
    ensures EndsUnterminated(buf, offset, [NextItem(buf, offset).param] + ps, rest)
  {
    hide Unterminated, NextItem, Printable;
    var p := NextItem(buf, offset).param;
    NextIsPrinted(buf, offset);
    AllPrintableCons(p, ps);
    assert PrintParam(p) + (PrintParams(ps) + rest) == (PrintParam(p) + PrintParams(ps)) + rest;
  }

  lemma UnterminatedAtOnce(buf: bytes, offset: nat)
    requires offset <= |buf| && Unterminated(buf[offset..])
    ensures EndsUnterminated(buf, offset, [], buf[offset..])
  {
    hide Unterminated;
    assert PrintParams([]) + buf[offset..] == buf[offset..];
  }

  lemma {:induction false} UnterminatedIfPanics(buf: bytes, offset: nat) returns (ps: seq<Param>, rest: bytes)
    requires offset <= |buf| && ParseParams(buf, offset).None?
    ensures EndsUnterminated(buf, offset, ps, rest)
    decreases |buf| + 1 - offset
  {
    hide Unterminated, EndsUnterminated, NextItem;
    var item := NextItem(buf, offset);
    UnterminatedItem(buf, offset);
    if item.next == |buf| + 1 {
      UnterminatedAtOnce(buf, offset);
      ps, rest := [], buf[offset..];
    } else {
      ps, rest := UnterminatedIfPanics(buf, item.next);
      OnePrintedMore(buf, offset, ps, rest);
      ps := [item.param] + ps;
    }
  }

  /** The payload of a startup message, behind the protocol version. */
  ghost predicate PayloadUnterminated(body: bytes) {
    exists ps, rest :: AllPrintable(ps) && Unterminated(rest) && body == PrintParams(ps) + rest
  }

  lemma ParamsPanicExactly(buf: bytes, offset: nat)
    requires offset <= |buf|
    ensures ParseParams(buf, offset).None? <==> PayloadUnterminated(buf[offset..])
  {
    hide Unterminated, ParseParams;
    if PayloadUnterminated(buf[offset..]) {
      var ps, rest :| AllPrintable(ps) && Unterminated(rest) && buf[offset..] == PrintParams(ps) + rest;
      PanicsIfUnterminated(buf, offset, ps, rest);
    }
    if ParseParams(buf, offset).None? {
      var ps, rest := UnterminatedIfPanics(buf, offset);
    }
  }

  /**
   * The reader panics if and only if the length field is below 4, or the message arrives in
   * full and is too short for a protocol version, or has the right one and ends with a key that
   * has its NUL and a value that has not.
   */
  lemma StartupPanicsExactly(data: bytes)
    ensures ReadInitial(data).0 == Panicked <==>
      && |data| >= 4
      && var len := FromBe32(data[0..4]);
         && len != 8
         && (|| len < 4
             || (len <= |data|
                 && (len < 8 || (FromBe32(data[4..8]) == PROTOCOL_VERSION_3 && PayloadUnterminated(data[8..len])))))
  {
    hide PayloadUnterminated, ParseParams;
    if |data| >= 4 {
      var len := FromBe32(data[0..4]);
      if 8 <= len <= |data| {
        assert data[4..len][0..4] == data[4..8] && data[4..len][4..] == data[8..len];
        ParamsPanicExactly(data[4..len], 4);
      }
    }
  }
}
