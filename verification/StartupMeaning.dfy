// src/pgproto/mod.rs: what the reader of opening messages makes of which bytes.

module StartupMeaning {
  import opened Prelude
  import opened BigEndian
  import opened Picking
  import opened Text
  import opened Startup

  // ---- Requests without parameters ----

  lemma BytesOf(b: bytes, n: int)
    requires |b| == 4 && -TWO_31 <= n < TWO_31
    ensures FromBe32(b) == n <==> b == Be32(n)
  {
    Be32RoundTrip(n);
    FromBe32RoundTrip(b);
  }

  lemma NumbersOnTheWire()
    ensures Be32(8) == [0, 0, 0, 8] && Be32(PROTOCOL_VERSION_3) == [0, 3, 0, 0]
    ensures Be32(SSL_REQUEST_CODE) == [4, 210, 22, 47] && Be32(CANCEL_REQUEST_CODE) == [4, 210, 22, 46]
  {
  }

  /** Four bytes as a signed number, the most significant first. */
  lemma BigEndianIs(b: bytes)
    requires |b| == 4
    ensures FromBe32(b) ==
      b[0] as int * 16777216 + b[1] as int * 65536 + b[2] as int * 256 + b[3] - if b[0] < 128 then 0 else 4294967296
  {
  }

  /** The eight bytes that ask for TLS, and only they. */
  lemma SslRequestExactly(data: bytes)
    ensures ReadInitial(data).0 == SslRequest <==> [0, 0, 0, 8, 4, 210, 22, 47] <= data
    ensures ReadInitial(data).0 == SslRequest ==> ReadInitial(data).1 == data[8..]
  {
    NumbersOnTheWire();
    if |data| >= 8 {
      BytesOf(data[0..4], 8);
      BytesOf(data[4..8], SSL_REQUEST_CODE);
      BytesOf(data[4..8], CANCEL_REQUEST_CODE);
      assert data[0..8] == data[0..4] + data[4..8];
      assert [0, 0, 0, 8, 4, 210, 22, 47] == [0, 0, 0, 8] + [4, 210, 22, 47];
      assert [0, 0, 0, 8, 4, 210, 22, 47] <= data <==> data[0..8] == [0, 0, 0, 8, 4, 210, 22, 47];
    }
    OnlyEight(data);
  }

  /** The messages of eight bytes are told apart from the others by their length. */
  lemma OnlyEight(data: bytes)
    ensures var r := ReadInitial(data).0;
      r == SslRequest || r.Cancel? || r == UnknownCode ==> |data| >= 8 && FromBe32(data[0..4]) == 8
  {
    hide ParseParams, Lookup;
  }

  /** A process id and a key behind the eight bytes of a cancel request, and only then. */
  lemma CancelRequestExactly(data: bytes, pid: int, key: int)
    ensures ReadInitial(data).0 == Cancel(pid, key) <==>
      && -TWO_31 <= pid < TWO_31 && -TWO_31 <= key < TWO_31
      && [0, 0, 0, 8, 4, 210, 22, 46] + Be32(pid) + Be32(key) <= data
    ensures ReadInitial(data).0 == Cancel(pid, key) ==> ReadInitial(data).1 == data[16..]
  {
    NumbersOnTheWire();
    OnlyEight(data);
    var text := [0, 0, 0, 8, 4, 210, 22, 46] + Be32(pid) + Be32(key);
    if |data| >= 16 && -TWO_31 <= pid < TWO_31 && -TWO_31 <= key < TWO_31 {
      BytesOf(data[0..4], 8);
      BytesOf(data[4..8], CANCEL_REQUEST_CODE);
      BytesOf(data[8..12], pid);
      BytesOf(data[12..16], key);
      assert data[0..16] == data[0..4] + data[4..8] + data[8..12] + data[12..16];
      assert text == [0, 0, 0, 8] + [4, 210, 22, 46] + Be32(pid) + Be32(key);
      assert text <= data <==> data[0..16] == text;
      FourParts(data[0..4], data[4..8], data[8..12], data[12..16],
        [0, 0, 0, 8], [4, 210, 22, 46], Be32(pid), Be32(key));
    }
  }

  lemma FourParts(a: bytes, b: bytes, c: bytes, d: bytes, e: bytes, f: bytes, g: bytes, h: bytes)
    requires |a| == |e| && |b| == |f| && |c| == |g| && |d| == |h|
    ensures a + b + c + d == e + f + g + h <==> a == e && b == f && c == g && d == h
  {
    var x, y := a + b + c + d, e + f + g + h;
    assert x[..|a|] == a && x[|a|..|a| + |b|] == b && x[|a| + |b|..|a| + |b| + |c|] == c && x[|a| + |b| + |c|..] == d;
    assert y[..|a|] == e && y[|a|..|a| + |b|] == f && y[|a| + |b|..|a| + |b| + |c|] == g && y[|a| + |b| + |c|..] == h;
  }

  /** The announced length, if four bytes are there. */
  predicate Announces(data: bytes, len: int) {
    |data| >= 4 && FromBe32(data[0..4]) == len
  }

  /** Other requests of eight bytes, other versions, and messages that are not all there. */
  lemma FailuresExactly(data: bytes)
    ensures ReadInitial(data).0 == UnknownCode <==>
      && |data| >= 8 && data[..4] == [0, 0, 0, 8]
      && data[4..8] != [4, 210, 22, 47] && data[4..8] != [4, 210, 22, 46]
    ensures ReadInitial(data).0 == BadVersion <==>
      exists len: int :: Announces(data, len) && len > 8 && len <= |data| && data[4..8] != [0, 3, 0, 0]
    ensures ReadInitial(data).0 == ShortRead <==>
      || |data| < 4
      || (exists len: int :: Announces(data, len) && 4 <= len && |data| < len)
      || ([0, 0, 0, 8, 4, 210, 22, 46] <= data && |data| < 16)
  {
    hide ParseParams, WithParams;
    NumbersOnTheWire();
    if |data| >= 4 {
      var len := FromBe32(data[0..4]);
      assert Announces(data, len);
      assert forall n: int :: Announces(data, n) ==> n == len;
      BytesOf(data[0..4], 8);
      assert data[0..4] == data[..4];
      WithParamsIsNoFailure(data);
      if |data| >= 8 {
        BytesOf(data[4..8], SSL_REQUEST_CODE);
        BytesOf(data[4..8], CANCEL_REQUEST_CODE);
        BytesOf(data[4..8], PROTOCOL_VERSION_3);
        assert data[..8] == data[0..4] + data[4..8];
        assert [0, 0, 0, 8, 4, 210, 22, 46] == [0, 0, 0, 8] + [4, 210, 22, 46];
        assert [0, 0, 0, 8, 4, 210, 22, 46] <= data <==> data[..8] == [0, 0, 0, 8, 4, 210, 22, 46];
        if 8 <= len <= |data| {
          assert data[4..len][0..4] == data[4..8];
        }
      }
    }
  }

  lemma WithParamsIsNoFailure(data: bytes)
    ensures forall ps :: WithParams(ps) == NoUser || WithParams(ps).Startup?
  {
  }

  // ---- Parameters ----

  /** Where parameters end: at an empty key, or where no NUL comes any more. */
  predicate Stops(tail: bytes) {
    Free(tail, NUL) || tail[0] == NUL
  }

  lemma StopsAt(buf: bytes, offset: nat)
    requires offset <= |buf|
    ensures Stops(buf[offset..]) <==> NextItem(buf, offset) == End
  {
    var tail, p := buf[offset..], IndexFrom(buf, NUL, offset);
    assert forall i :: offset <= i < |buf| ==> buf[i] == tail[i - offset];
    assert p < |buf| ==> tail[p - offset] == NUL;
  }

  lemma PrintedThenItem(buf: bytes, offset: nat, ps: seq<Param>, tail: bytes)
    requires AllPrintable(ps) && ps != [] && offset <= |buf| && buf[offset..] == PrintParams(ps) + tail
    ensures var next := offset + |PrintParam(ps[0])|;
      && next <= |buf| && NextItem(buf, offset) == Pair(ps[0], next) && buf[next..] == PrintParams(ps[1..]) + tail
  {
    hide NextItem, PrintParam;
    assert PrintParams(ps) + tail == PrintParam(ps[0]) + (PrintParams(ps[1..]) + tail);
    SplitOff(buf, offset, PrintParam(ps[0]), PrintParams(ps[1..]) + tail);
    NextPrinted(buf, offset, ps[0]);
  }

  lemma {:induction false} ParsesPrinted(buf: bytes, offset: nat, ps: seq<Param>, tail: bytes)
    requires AllPrintable(ps) && Stops(tail) && offset <= |buf| && buf[offset..] == PrintParams(ps) + tail
    ensures ParseParams(buf, offset) == Some(ps)
    decreases |ps|
  {
    hide NextItem, PrintParam, Stops;
    if ps == [] {
      assert PrintParams(ps) + tail == tail;
      StopsAt(buf, offset);
    } else {
      PrintedThenItem(buf, offset, ps, tail);
      ParsesPrinted(buf, offset + |PrintParam(ps[0])|, ps[1..], tail);
      assert [ps[0]] + ps[1..] == ps;
    }
  }

  lemma {:induction false} PrintsParsed(buf: bytes, offset: nat) returns (tail: bytes)
    requires offset <= |buf| && ParseParams(buf, offset).Some?
    ensures Stops(tail) && AllPrintable(ParseParams(buf, offset).value)
    ensures buf[offset..] == PrintParams(ParseParams(buf, offset).value) + tail
    decreases |buf| + 1 - offset
  {
    hide NextItem, PrintParam, Stops, Printable;
    var item, ps := NextItem(buf, offset), ParseParams(buf, offset).value;
    if item.Pair? {
      ParsedInside(buf, item.next);
      tail := PrintsParsed(buf, item.next);
      NextIsPrinted(buf, offset);
      var rest := ParseParams(buf, item.next).value;
      AllPrintableCons(item.param, rest);
      assert PrintParam(item.param) + (PrintParams(rest) + tail) == PrintParams(ps) + tail;
    } else {
      StopsAt(buf, offset);
      tail := buf[offset..];
      assert PrintParams([]) + tail == tail;
    }
  }

  lemma ParsedInside(buf: bytes, offset: nat)
    requires ParseParams(buf, offset).Some?
    ensures offset <= |buf|
  {
  }

  /** These bytes are printed parameters, and what makes the loop stop. */
  ghost predicate PrintedAs(body: bytes, ps: seq<Param>) {
    AllPrintable(ps) && exists tail :: Stops(tail) && body == PrintParams(ps) + tail
  }

  /** The loop finds these parameters if and only if they are printed there and it has to stop behind them. */
  lemma ParamsExactly(buf: bytes, offset: nat, ps: seq<Param>)
    requires offset <= |buf|
    ensures ParseParams(buf, offset) == Some(ps) <==> PrintedAs(buf[offset..], ps)
  {
    hide ParseParams, Stops, AllPrintable;
    if PrintedAs(buf[offset..], ps) {
      var tail :| Stops(tail) && buf[offset..] == PrintParams(ps) + tail;
      ParsesPrinted(buf, offset, ps, tail);
    }
    if ParseParams(buf, offset) == Some(ps) {
      var tail := PrintsParsed(buf, offset);
    }
  }

  /** The first parameter with this key. */
  predicate FirstAt(ps: seq<Param>, key: string, i: nat)
    requires forall j :: 0 <= j < |key| ==> key[j] as int < 128
  {
    i < |ps| && ps[i].key == Ascii(key) && forall j :: 0 <= j < i ==> ps[j].key != Ascii(key)
  }

  predicate HasKey(ps: seq<Param>, key: string)
    requires forall j :: 0 <= j < |key| ==> key[j] as int < 128
  {
    exists i :: 0 <= i < |ps| && ps[i].key == Ascii(key)
  }

  lemma {:induction false} LooksUpFirst(ps: seq<Param>, key: string) returns (i: nat)
    requires forall j :: 0 <= j < |key| ==> key[j] as int < 128
    ensures Lookup(ps, Ascii(key)).Some? <==> HasKey(ps, key)
    ensures Lookup(ps, Ascii(key)).Some? ==> FirstAt(ps, key, i) && Lookup(ps, Ascii(key)).value == ps[i].value
  {
    hide Ascii;
    i := 0;
    if ps != [] && ps[0].key != Ascii(key) {
      var k := LooksUpFirst(ps[1..], key);
      i := k + 1;
      assert HasKey(ps, key) <==> HasKey(ps[1..], key) by {
        if HasKey(ps[1..], key) {
          var j :| 0 <= j < |ps[1..]| && ps[1..][j].key == Ascii(key);
          assert ps[j + 1].key == Ascii(key);
        }
        if HasKey(ps, key) {
          var j :| 0 <= j < |ps| && ps[j].key == Ascii(key);
          assert ps[1..][j - 1].key == Ascii(key);
        }
      }
      if Lookup(ps, Ascii(key)).Some? {
        assert forall j :: 1 <= j < i ==> ps[j] == ps[1..][j - 1];
      }
    } else if ps != [] {
      assert HasKey(ps, key);
    }
  }

  lemma KeysSpelled()
    ensures USER == Ascii("user") && DATABASE == Ascii("database")
  {
  }

  /** A startup means the first of its users, and the first of its databases or else that user. */
  predicate Means(ps: seq<Param>, r: InitialResult) {
    && (r == NoUser <==> !HasKey(ps, "user"))
    && (r != NoUser ==>
          && r.Startup? && r.startup.params == ps
          && (exists i :: 0 <= i < |ps| && FirstAt(ps, "user", i) && r.startup.user == ps[i].value)
          && if HasKey(ps, "database")
             then exists i :: 0 <= i < |ps| && FirstAt(ps, "database", i) && r.startup.database == ps[i].value
             else r.startup.database == r.startup.user)
  }

  lemma WithParamsMeans(ps: seq<Param>)
    ensures Means(ps, WithParams(ps))
  {
    hide Ascii, Lookup, HasKey;
    KeysSpelled();
    var i := LooksUpFirst(ps, "user");
    var j := LooksUpFirst(ps, "database");
  }

  /**
   * Whatever list of parameters is printed behind the length and the version, and whatever
   * follows: the reader finds that list, with its first user, and its first database or, without
   * one, the user's name for it; and it fails for want of a user exactly if no key is "user".
   */
  lemma StartupMeansExactly(body: bytes, ps: seq<Param>, rest: bytes)
    requires PrintedAs(body, ps) && 0 < |body| && |body| + 8 < TWO_31
    ensures var (r, left) := ReadInitial(Be32(|body| + 8) + [0, 3, 0, 0] + body + rest);
      left == rest && Means(ps, r)
  {
    hide PrintedAs, Means, WithParams, ParseParams;
    var n := |body| + 8;
    var data := Be32(n) + [0, 3, 0, 0] + body + rest;
    assert data[0..4] == Be32(n) && data[n..] == rest;
    Be32RoundTrip(n);
    var buf := data[4..n];
    assert buf[0..4] == [0, 3, 0, 0] && buf[4..] == body;
    NumbersOnTheWire();
    BytesOf(buf[0..4], PROTOCOL_VERSION_3);
    ParamsExactly(buf, 4, ps);
    WithParamsMeans(ps);
  }

  /** With a NUL behind them, as clients write them, parameters are printed so. */
  lemma TerminatedIsPrintedAs(ps: seq<Param>)
    requires AllPrintable(ps)
    ensures PrintedAs(PrintParams(ps) + [NUL], ps)
  {
    assert Stops([NUL]);
  }

  /** And whatever startup the reader returns has been so printed. */
  lemma StartupsArePrinted(data: bytes)
    requires ReadInitial(data).0.Startup? || ReadInitial(data).0 == NoUser
    ensures |data| >= 8
    ensures var len := FromBe32(data[0..4]);
      && 8 <= len <= |data| && data[4..8] == [0, 3, 0, 0] && ReadInitial(data).1 == data[len..]
      && exists ps :: PrintedAs(data[8..len], ps) && Means(ps, ReadInitial(data).0)
  {
    hide PrintedAs, Means, WithParams, ParseParams;
    var len := FromBe32(data[0..4]);
    var buf := data[4..len];
    NumbersOnTheWire();
    BytesOf(buf[0..4], PROTOCOL_VERSION_3);
    assert buf[0..4] == data[4..8] && buf[4..] == data[8..len];
    var ps := ParseParams(buf, 4).value;
    ParamsExactly(buf, 4, ps);
    WithParamsMeans(ps);
  }

  // ---- Writing ----

  /** What is written begins with the version, the user and the database. */
  lemma WrittenStartupBegins(s: StartupParams)
    ensures StartupBytes(s) == Be32(|StartupBytes(s)|) + [0, 3, 0, 0]
      + (Ascii("user") + [NUL] + s.user + [NUL]) + (Ascii("database") + [NUL] + s.database + [NUL])
      + PrintParams(Others(s.params)) + [NUL]
  {
    NumbersOnTheWire();
    KeysSpelled();
    CanonicalBody(s);
    hide Others, PrintParams;
    var user, database, others := PrintParam(Param(USER, s.user)), PrintParam(Param(DATABASE, s.database)),
      PrintParams(Others(s.params));
    assert Body(Canonical(s).params) == [0, 3, 0, 0] + user + database + others + [NUL];
    var len := Be32(|StartupBytes(s)|);
    hide PrintParam, Body, Canonical;
    assert StartupBytes(s) == len + ([0, 3, 0, 0] + user + database + others + [NUL]);
    assert len + ([0, 3, 0, 0] + user + database + others + [NUL])
      == len + [0, 3, 0, 0] + user + database + others + [NUL];
  }

  predicate IsOther(p: Param) {
    p.key != Ascii("user") && p.key != Ascii("database")
  }

  /** The parameters written behind the first two are those with other keys, all of them, in their order. */
  lemma {:induction false} OthersAreTheRest(ps: seq<Param>) returns (at: seq<nat>)
    ensures Picks(ps, IsOther, at, Others(ps))
    decreases |ps|
  {
    hide Ascii, Picks;
    KeysSpelled();
    if ps == [] {
      at := [];
      PicksNothing(IsOther);
    } else {
      var n := |ps| - 1;
      at := OthersAreTheRest(ps[..n]);
      OthersTake(ps, n);
      PicksOneMore(ps[..n], IsOther, ps[n], at, Others(ps[..n]));
      assert ps[..n + 1] == ps && ps[..n] + [ps[n]] == ps;
      at := if IsOther(ps[n]) then at + [n] else at;
    }
  }
}
