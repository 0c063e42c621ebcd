// src/pgproto/mod.rs: message framing over byte streams.

/** The two ends of an asynchronous byte stream, reduced to the bytes that pass through them. */
module Streams {
  import opened Prelude

  /** A readable stream: the bytes not read yet.  End of stream is the end of the sequence. */
  class ByteSource {
    var unread: bytes

    constructor (data: bytes)
      ensures unread == data
    {
      unread := data;
    }

    /** `read_exact`: all `n` bytes, or an end-of-file error that leaves nothing to read. */
    method ReadExact(n: nat) returns (ok: bool, buf: bytes)
      modifies this
      ensures ok == (n <= |old(unread)|)
      ensures ok ==> buf == old(unread)[..n] && unread == old(unread)[n..]
      ensures !ok ==> buf == [] && unread == []
    {
      if n <= |unread| {
        ok, buf, unread := true, unread[..n], unread[n..];
      } else {
        ok, buf, unread := false, [], [];
      }
    }
  }

  /** A writable stream that accepts everything: what has been written so far. */
  class ByteSink {
    var written: bytes

    constructor ()
      ensures written == []
    {
      written := [];
    }

    method WriteAll(b: bytes)
      modifies this
      ensures written == old(written) + b
    {
      written := written + b;
    }
  }
}

/** One message of the protocol: a type byte, an i32 length that counts itself, a payload. */
module Frames {
  import opened Prelude
  import opened BigEndian
  import opened Streams

  datatype Msg = Msg(t: byte, payload: bytes)

  /** `Closed` is `Ok(None)`, `IoError` is `Err`, and `Panicked` a length field below 4. */
  datatype ReadResult = Got(m: Msg) | Closed | IoError | Panicked

  /** What `write_raw_message` puts on the wire; the length is cast with `as i32`. */
  function Frame(m: Msg): (b: bytes)
    ensures |b| == 5 + |m.payload|
  {
    [m.t] + Be32(|m.payload| + 4) + m.payload
  }

  /**
   * What `read_pg_message` makes of the unread bytes, and what it leaves unread.
   * A negative i32 becomes an enormous usize, and a value below 4 underflows in `- 4`:
   * both ask for a buffer that cannot exist, and the reader panics.
   */
  function ReadFrame(data: bytes): (r: (ReadResult, bytes)) {
    if |data| < 1 then (Closed, [])
    else if |data| < 5 then (IoError, [])
    else
      var len := FromBe32(data[1..5]);
      if len < 4 then (Panicked, data[5..])
      else if |data| < 1 + len then (IoError, [])
      else (Got(Msg(data[0], data[5..1 + len])), data[1 + len..])
  }

  method ReadPgMessage(stream: ByteSource) returns (r: ReadResult)
    modifies stream
    ensures (r, stream.unread) == ReadFrame(old(stream.unread))
  {
    ghost var data := stream.unread;
    var ok, typeByte := stream.ReadExact(1);
    if !ok {
      return Closed;
    }
    assert typeByte[0] == data[0];
    var okLen, lenBuf := stream.ReadExact(4);
    if !okLen {
      return IoError;
    }
    assert lenBuf == data[1..5] && stream.unread == data[5..];
    var len := FromBe32(lenBuf);
    if len < 4 {
      return Panicked;
    }
    var payload := [];
    if len - 4 > 0 {
      var okPayload;
      okPayload, payload := stream.ReadExact(len - 4);
      if !okPayload {
        return IoError;
      }
    }
    assert payload == data[5..1 + len] && stream.unread == data[1 + len..];
    r := Got(Msg(typeByte[0], payload));
  }

  method WriteRawMessage(stream: ByteSink, t: byte, payload: bytes)
    modifies stream
    ensures stream.written == old(stream.written) + Frame(Msg(t, payload))
  {
    var buf := [t];
    buf := buf + Be32(|payload| + 4);
    buf := buf + payload;
    stream.WriteAll(buf);
  }

  /** The cast of the length is harmless exactly for payloads below 2^31 - 4 bytes. */
  predicate Fits(m: Msg) {
    |m.payload| + 4 < TWO_31
  }

  /** Reading back what was written gives the message and leaves the rest, exactly when it fits. */
  lemma FrameRoundTripExactly(m: Msg, rest: bytes)
    ensures ReadFrame(Frame(m) + rest) == (Got(m), rest) <==> Fits(m)
  {
    var data := Frame(m) + rest;
    var n := |m.payload| + 4;
    assert data[1..5] == Be32(n);
    Be32RoundTrip(n);
    if Fits(m) {
      assert data[5..1 + n] == m.payload;
      assert data[1 + n..] == rest;
    } else {
      // The length on the wire is no longer n, so no payload of the right length is read.
      assert ToI32(n) != n;
    }
  }

  /** Whatever is read as a message is, byte for byte, the encoding of that message. */
  lemma ReadFrameIsExact(data: bytes)
    requires ReadFrame(data).0.Got?
    ensures data == Frame(ReadFrame(data).0.m) + ReadFrame(data).1
    ensures Fits(ReadFrame(data).0.m)
  {
    var len := FromBe32(data[1..5]);
    FromBe32RoundTrip(data[1..5]);
    assert Be32(len) == data[1..5];
    assert data == [data[0]] + data[1..5] + data[5..1 + len] + data[1 + len..];
  }

  function FrameAll(ms: seq<Msg>): bytes {
    if ms == [] then [] else Frame(ms[0]) + FrameAll(ms[1..])
  }

  /** Reading message after message until something other than a message comes back. */
  function ReadAll(data: bytes): (r: (seq<Msg>, ReadResult))
    decreases |data|
  {
    var (r, rest) := ReadFrame(data);
    if r.Got? then
      var (ms, last) := ReadAll(rest);
      ([r.m] + ms, last)
    else
      ([], r)
  }

  predicate AllFit(ms: seq<Msg>) {
    forall i :: 0 <= i < |ms| ==> Fits(ms[i])
  }

  lemma {:induction false} ReadAllOfFrames(ms: seq<Msg>)
    requires AllFit(ms)
    ensures ReadAll(FrameAll(ms)) == (ms, Closed)
  {
    if ms != [] {
      FrameRoundTripExactly(ms[0], FrameAll(ms[1..]));
      ReadAllOfFrames(ms[1..]);
      assert ms == [ms[0]] + ms[1..];
    }
  }

  lemma {:induction false} FramesOfReadAll(data: bytes)
    requires ReadAll(data).1.Closed?
    ensures data == FrameAll(ReadAll(data).0)
    ensures AllFit(ReadAll(data).0)
    decreases |data|
  {
    var (r, rest) := ReadFrame(data);
    if r.Got? {
      ReadFrameIsExact(data);
      FramesOfReadAll(rest);
      assert ReadAll(data).0[1..] == ReadAll(rest).0;
    }
  }

  /**
   * The relay is byte-exact: a stream reads as `ms` up to a clean close exactly when it is
   * the concatenation of the encodings of `ms`, which is what forwarding them writes.
   */
  lemma FramingIsExact(ms: seq<Msg>, data: bytes)
    ensures ReadAll(data) == (ms, Closed) <==> AllFit(ms) && data == FrameAll(ms)
  {
    if AllFit(ms) && data == FrameAll(ms) {
      ReadAllOfFrames(ms);
    }
    if ReadAll(data) == (ms, Closed) {
      FramesOfReadAll(data);
    }
  }
}
