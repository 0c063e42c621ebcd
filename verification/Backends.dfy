// src/proxy/mod.rs: a backend connection as the proxy sees it, and the queries it runs on it.

module Backends {
  import opened Prelude
  import opened Frames

  /**
   * A backend connection with the time of its birth.  `unread` holds the messages that answer
   * what has been written so far and have not been read yet.  Writing appends the answer at
   * once: a reader would wait for it anyway.  An answer that never completes is the prefix
   * before the connection breaks, or before a malformed frame.
   */
  datatype Backend = Backend(id: nat, bornAt: nat, unread: seq<Msg>)

  const READY: byte := 90          // 'Z', ReadyForQuery

  predicate IsReady(m: Msg) {
    m.t == READY
  }

  function CountReady(ms: seq<Msg>): nat {
    if ms == [] then 0 else (if IsReady(ms[0]) then 1 else 0) + CountReady(ms[1..])
  }

  lemma {:induction false} CountReadyAppend(a: seq<Msg>, b: seq<Msg>)
    ensures CountReady(a + b) == CountReady(a) + CountReady(b)
    decreases |a|
  {
    if a == [] {
      assert a + b == b;
    } else {
      assert (a + b)[1..] == a[1..] + b;
      CountReadyAppend(a[1..], b);
    }
  }

  /** The index of the first ReadyForQuery, or the length when there is none. */
  function FirstReady(ms: seq<Msg>): (i: nat)
    ensures i <= |ms|
    ensures i < |ms| ==> IsReady(ms[i])
  {
    if ms == [] || IsReady(ms[0]) then 0 else 1 + FirstReady(ms[1..])
  }

  lemma {:induction false} FirstReadySplits(ms: seq<Msg>)
    ensures CountReady(ms) == 0 <==> FirstReady(ms) == |ms|
    ensures FirstReady(ms) < |ms| ==> CountReady(ms[FirstReady(ms) + 1..]) == CountReady(ms) - 1
  {
    if ms != [] && !IsReady(ms[0]) {
      FirstReadySplits(ms[1..]);
      var i := FirstReady(ms[1..]);
      if i < |ms[1..]| {
        assert ms[1..][i + 1..] == ms[i + 2..];
      }
    }
  }

  /** The answer to one request: a finite run that ends in its only ReadyForQuery. */
  predicate Complete(reply: seq<Msg>) {
    reply != [] && FirstReady(reply) == |reply| - 1
  }

  lemma CompleteHasOne(reply: seq<Msg>)
    requires Complete(reply)
    ensures CountReady(reply) == 1
  {
    FirstReadySplits(reply);
    assert reply[|reply|..] == [];
  }

  /**
   * How an attempt to get a connection ends: with one, with an error, or in a panic, when the
   * backend sends a frame with a length field below 4 during the handshake.
   */
  datatype Connection = Connected(b: Backend) | NotConnected | ConnectPanics

  // ---- The reset query ----

  /**
   * Whether the reset query could be written, what came back for it, and what a reader meets
   * that gets to the end of what is unread: a malformed frame, or a broken connection.
   */
  datatype ResetIo = ResetIo(sent: bool, reply: seq<Msg>, garbled: bool)

  /** `run_reset_query` returns true, returns false, or panics in the frame reader. */
  datatype ResetResult = ResetDone | ResetFailed | ResetPanics

  /** `run_reset_query`: write the query, then read up to and including a ReadyForQuery. */
  function Reset(b: Backend, io: ResetIo): (r: (ResetResult, Backend))
    ensures r.1.id == b.id && r.1.bornAt == b.bornAt
  {
    if !io.sent then (ResetFailed, b)
    else
      var queue := b.unread + io.reply;
      var i := FirstReady(queue);
      if i < |queue| then (ResetDone, b.(unread := queue[i + 1..]))
      else (if io.garbled then ResetPanics else ResetFailed, b.(unread := []))
  }

  method RunResetQuery(b: Backend, io: ResetIo) returns (r: ResetResult, after: Backend)
    ensures (r, after) == Reset(b, io)
  {
    if !io.sent {
      return ResetFailed, b;
    }
    var queue := b.unread + io.reply;
    ghost var all := queue;
    while queue != []
      invariant |queue| <= |all| && queue == all[|all| - |queue|..]
      invariant FirstReady(all) == |all| - |queue| + FirstReady(queue)
      decreases |queue|
    {
      var m := queue[0];
      queue := queue[1..];
      if m.t == READY {
        return ResetDone, b.(unread := queue);
      }
    }
    return if io.garbled then ResetPanics else ResetFailed, b.(unread := []);
  }

  /**
   * A reset that succeeds adds one request and takes exactly one ReadyForQuery off the queue,
   * so with a complete answer the number of unread ones is what it was, and a reset that was
   * sent always succeeds.
   */
  lemma ResetKeepsOutstanding(b: Backend, io: ResetIo)
    ensures Reset(b, io).0.ResetDone? ==>
      CountReady(Reset(b, io).1.unread) + 1 == CountReady(b.unread) + CountReady(io.reply)
    ensures io.sent && Complete(io.reply) ==>
      Reset(b, io).0.ResetDone? && CountReady(Reset(b, io).1.unread) == CountReady(b.unread)
  {
    CountReadyAppend(b.unread, io.reply);
    FirstReadySplits(b.unread + io.reply);
    if Complete(io.reply) {
      CompleteHasOne(io.reply);
    }
  }

  /** The query can be sent, and a ReadyForQuery is to be read. */
  predicate MeetsReady(b: Backend, io: ResetIo) {
    io.sent && CountReady(b.unread) + CountReady(io.reply) > 0
  }

  /** The query can be sent, and a malformed frame comes where a ReadyForQuery should. */
  predicate MeetsGarble(b: Backend, io: ResetIo) {
    io.sent && io.garbled && CountReady(b.unread) + CountReady(io.reply) == 0
  }

  /**
   * A reset succeeds if and only if it could be sent and a ReadyForQuery is to be read; of the
   * others, it panics exactly if it could be sent and a malformed frame is all that follows.
   */
  lemma ResetSucceedsExactly(b: Backend, io: ResetIo)
    ensures Reset(b, io).0.ResetDone? <==> MeetsReady(b, io)
    ensures Reset(b, io).0.ResetPanics? <==> MeetsGarble(b, io)
    ensures !Reset(b, io).0.ResetDone? && io.sent ==> Reset(b, io).1.unread == []
  {
    CountReadyAppend(b.unread, io.reply);
    FirstReadySplits(b.unread + io.reply);
  }

  /** The messages up to and including the first ReadyForQuery. */
  predicate UpToReady(read: seq<Msg>) {
    read != [] && read[|read| - 1].t as int == 'Z' as int
    && forall i :: 0 <= i < |read| - 1 ==> read[i].t as int != 'Z' as int
  }

  lemma {:induction false} NoneBeforeFirstReady(ms: seq<Msg>)
    ensures forall i :: 0 <= i < FirstReady(ms) ==> !IsReady(ms[i])
  {
    if ms != [] && !IsReady(ms[0]) {
      NoneBeforeFirstReady(ms[1..]);
      forall i | 0 <= i < FirstReady(ms)
        ensures !IsReady(ms[i])
      {
        assert i > 0 ==> ms[i] == ms[1..][i - 1];
      }
    }
  }

  /**
   * A reset reads what was unread and its own answer, in this order, up to and including the
   * first ReadyForQuery and leaves the rest; without one it leaves nothing, and if it could not
   * be sent, everything.
   */
  lemma ResetReadsUpToReady(b: Backend, io: ResetIo) returns (read: seq<Msg>)
    ensures var (r, after) := Reset(b, io);
      && after == b.(unread := after.unread)
      && (!io.sent ==> r == ResetFailed && after.unread == b.unread)
      && (r.ResetDone? ==> UpToReady(read) && b.unread + io.reply == read + after.unread)
      && (io.sent && !r.ResetDone? ==> after.unread == [])
  {
    var queue := b.unread + io.reply;
    var i := FirstReady(queue);
    NoneBeforeFirstReady(queue);
    read := if i < |queue| then queue[..i + 1] else [];
  }

  lemma {:induction false} FirstReadyOfAppend(a: seq<Msg>, b: seq<Msg>)
    requires CountReady(a) == 0
    ensures FirstReady(a + b) == |a| + FirstReady(b)
    decreases |a|
  {
    if a == [] {
      assert a + b == b;
    } else {
      assert (a + b)[1..] == a[1..] + b;
      FirstReadyOfAppend(a[1..], b);
    }
  }

  /** After a reset with a complete answer, nothing is unread exactly if nothing was outstanding. */
  lemma ResetCleansExactly(b: Backend, io: ResetIo)
    requires io.sent && Complete(io.reply)
    ensures Reset(b, io).1.unread == [] <==> CountReady(b.unread) == 0
  {
    ResetKeepsOutstanding(b, io);
    if CountReady(b.unread) == 0 {
      FirstReadyOfAppend(b.unread, io.reply);
    }
  }

  // ---- DEALLOCATE ----

  function ReplyAt(replies: seq<seq<Msg>>, i: nat): seq<Msg> {
    if i < |replies| then replies[i] else []
  }

  /** One DEALLOCATE: its answer arrives, and one single message is read. */
  function DeallocateOne(unread: seq<Msg>, reply: seq<Msg>): seq<Msg> {
    var queue := unread + reply;
    if queue == [] then [] else queue[1..]
  }

  /** The loop over the first `n` tracked names. */
  function Deallocate(unread: seq<Msg>, n: nat, replies: seq<seq<Msg>>): seq<Msg>
    decreases n
  {
    if n == 0 then unread
    else DeallocateOne(Deallocate(unread, n - 1, replies), ReplyAt(replies, n - 1))
  }

  /** Some DEALLOCATE of the first `n` finds no message to read. */
  predicate RunsDry(unread: seq<Msg>, n: nat, replies: seq<seq<Msg>>)
    decreases n
  {
    n > 0 && (RunsDry(unread, n - 1, replies) || Deallocate(unread, n - 1, replies) + ReplyAt(replies, n - 1) == [])
  }

  /** The loop over the tracked names; `garbled` is what it meets when nothing else is there. */
  method DeallocateAll(b: Backend, names: seq<bytes>, replies: seq<seq<Msg>>, garbled: bool)
      returns (after: Backend, panicked: bool)
    ensures panicked == (garbled && RunsDry(b.unread, |names|, replies))
    ensures !panicked ==> after == b.(unread := Deallocate(b.unread, |names|, replies))
  {
    var queue := b.unread;
    for i := 0 to |names|
      invariant queue == Deallocate(b.unread, i, replies)
      invariant !(garbled && RunsDry(b.unread, i, replies))
    {
      queue := queue + ReplyAt(replies, i);
      if queue != [] {
        queue := queue[1..];
      } else if garbled {
        DryStaysDry(b.unread, i + 1, |names|, replies);
        return b, true;
      }
    }
    after, panicked := b.(unread := queue), false;
  }

  lemma {:induction false} DryStaysDry(unread: seq<Msg>, i: nat, n: nat, replies: seq<seq<Msg>>)
    requires i <= n && RunsDry(unread, i, replies)
    ensures RunsDry(unread, n, replies)
    decreases n
  {
    if i < n {
      DryStaysDry(unread, i, n - 1, replies);
    }
  }

  /** The answers to the first `n` queries, one after the other. */
  function RepliesUpTo(n: nat, replies: seq<seq<Msg>>): seq<Msg> {
    if n == 0 then [] else RepliesUpTo(n - 1, replies) + ReplyAt(replies, n - 1)
  }

  lemma DropOneMore(before: seq<Msg>, reply: seq<Msg>, k: nat)
    requires k <= |before| && reply != []
    ensures DeallocateOne(before[k..], reply) == (before + reply)[k + 1..]
  {
    assert before[k..] + reply == (before + reply)[k..];
    assert (before + reply)[k..][1..] == (before + reply)[k + 1..];
  }

  /** When each DEALLOCATE is answered at all, the first message of what there is goes for each. */
  lemma {:induction false} DeallocateReadsOneEach(unread: seq<Msg>, n: nat, replies: seq<seq<Msg>>)
    requires forall i :: 0 <= i < n ==> ReplyAt(replies, i) != []
    ensures |RepliesUpTo(n, replies)| >= n
    ensures Deallocate(unread, n, replies) == (unread + RepliesUpTo(n, replies))[n..]
  {
    hide DeallocateOne, ReplyAt;
    if n == 0 {
      assert unread + [] == unread;
    } else {
      DeallocateReadsOneEach(unread, n - 1, replies);
      var before, reply := unread + RepliesUpTo(n - 1, replies), ReplyAt(replies, n - 1);
      assert unread + RepliesUpTo(n, replies) == before + reply;
      DropOneMore(before, reply, n - 1);
    }
  }

  /** Answers as PostgreSQL gives them: a completion or an error before ReadyForQuery. */
  predicate Ordinary(n: nat, replies: seq<seq<Msg>>) {
    forall i :: 0 <= i < n ==> |ReplyAt(replies, i)| >= 2
  }

  /** Reading one message of each answer leaves at least one message behind per name. */
  lemma {:induction false} DeallocateLeaves(unread: seq<Msg>, n: nat, replies: seq<seq<Msg>>)
    requires Ordinary(n, replies)
    ensures |Deallocate(unread, n, replies)| >= |unread| + n
  {
    if n > 0 {
      DeallocateLeaves(unread, n - 1, replies);
    }
  }

  lemma {:induction false} OrdinaryNeverDry(unread: seq<Msg>, n: nat, replies: seq<seq<Msg>>)
    requires Ordinary(n, replies)
    ensures !RunsDry(unread, n, replies)
  {
    if n > 0 {
      OrdinaryNeverDry(unread, n - 1, replies);
      assert |ReplyAt(replies, n - 1)| >= 2;
    }
  }
}
