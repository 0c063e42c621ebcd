// Runs of transaction_loop that leave messages unread in the pool, or lose a permit.

module TransactionCounterexamples {
  import opened Prelude
  import opened Frames
  import opened Backends
  import opened Messages
  import opened Text
  import opened TransactionLoop
  import opened TransactionTheorems

  const SETTINGS := Settings(0, 0, 0, (s: bytes) => s)

  const COMPLETE := Msg(67, [])           // CommandComplete
  const READY_IDLE := Msg(READY, [IDLE])
  const FAILED := Msg(ERROR, [])
  const PARSED := Msg(49, [])             // ParseComplete
  const SYNC_MSG := Msg(SYNC, [])
  const PARSE_S := Msg(PARSE, [115, 0, 0, 0, 0])   // Parse of a statement named s

  /** Everything can be sent, and the pool's own queries are answered in the ordinary way. */
  function Ordinarily(reply: seq<Msg>): Io {
    Io(true, reply, true, ResetIo(true, [COMPLETE, READY_IDLE], false), [[COMPLETE, READY_IDLE]], false)
  }

  function Client(m: Msg, reply: seq<Msg>): Turn {
    Turn(Input(0, FromClient(m), Ordinarily(reply)), Connected(BACKEND))
  }

  function Server(): Turn {
    Turn(Input(0, FromServer, Ordinarily([])), NotConnected)
  }

  const BACKEND := Backend(0, 0, [])

  /** One more turn of a run. */
  lemma Continues(turns: seq<Turn>, n: nat, l: Loop, log: seq<Entry>)
    requires n < |turns| && After(SETTINGS, Fresh(None, 0), turns, n) == Progress(l, Running, log)
    ensures var q := Iterate(SETTINGS, l, turns[n]);
      After(SETTINGS, Fresh(None, 0), turns, n + 1) == Progress(q.loop, q.ending, log + q.log)
  {
    hide Iterate;
  }

  // ---- A query that fails ----

  const QUERY_MSG := Msg(QUERY, [0])

  /** The error is followed by the ReadyForQuery of the query itself. */
  function FailingQuery(): seq<Turn> {
    [Client(QUERY_MSG, [FAILED, READY_IDLE]), Server()]
  }

  lemma QueryIsSent(held: Backend)
    requires held == Backend(0, 0, [FAILED, READY_IDLE])
    ensures Iterate(SETTINGS, Fresh(None, 0), FailingQuery()[0])
      == Progress(Fresh(Some(held), 0), Running,
        [Acquired(BACKEND), Tracked(QUERY_MSG), Sent(0, QUERY_MSG, [FAILED, READY_IDLE])])
  {
    assert !StartsTransaction(SETTINGS, [0]);
    assert [] + [FAILED, READY_IDLE] == [FAILED, READY_IDLE];
  }

  lemma ErrorIsDelivered(held: Backend)
    requires held == Backend(0, 0, [FAILED, READY_IDLE])
    ensures Iterate(SETTINGS, Fresh(Some(held), 0), Server())
      == Progress(Fresh(None, 0), Running, [Delivered(FAILED), Released(Backend(0, 0, [COMPLETE, READY_IDLE]))])
  {
    assert held.unread[1..] == [READY_IDLE];
    assert [READY_IDLE] + [COMPLETE, READY_IDLE] == [READY_IDLE, COMPLETE, READY_IDLE];
    assert [READY_IDLE, COMPLETE, READY_IDLE][1..] == [COMPLETE, READY_IDLE];
  }

  lemma Starts(turns: seq<Turn>)
    ensures After(SETTINGS, Fresh(None, 0), turns, 0) == Progress(Fresh(None, 0), Running, [])
  {
  }

  lemma OneAnswer(m: Msg)
    requires m.t != READY
    ensures Complete([m, READY_IDLE])
  {
    assert [m, READY_IDLE][1..] == [READY_IDLE];
    assert FirstReady([READY_IDLE]) == 0;
  }

  /** The connection is released with the answer to the reset still to be read. */
  lemma ErrorLeavesAnswerUnread()
    ensures forall i :: 0 <= i < |FailingQuery()| ==> WellAnswered(FailingQuery()[i])
    ensures After(SETTINGS, Fresh(None, 0), FailingQuery(), 2) ==
      Progress(Fresh(None, 0), Running,
        [Acquired(BACKEND), Tracked(QUERY_MSG), Sent(0, QUERY_MSG, [FAILED, READY_IDLE])]
        + [Delivered(FAILED), Released(Backend(0, 0, [COMPLETE, READY_IDLE]))])
  {
    hide Iterate, After, Complete;
    var held := Backend(0, 0, [FAILED, READY_IDLE]);
    var sent := [Acquired(BACKEND), Tracked(QUERY_MSG), Sent(0, QUERY_MSG, [FAILED, READY_IDLE])];
    OneAnswer(FAILED);
    Starts(FailingQuery());
    QueryIsSent(held);
    Continues(FailingQuery(), 0, Fresh(None, 0), []);
    assert [] + sent == sent;
    ErrorIsDelivered(held);
    Continues(FailingQuery(), 1, Fresh(Some(held), 0), sent);
  }

  // ---- A named statement ----

  /** A client that prepares a statement and has both answers delivered. */
  function Preparing(): seq<Turn> {
    [Client(PARSE_S, []), Client(SYNC_MSG, [PARSED, READY_IDLE]), Server(), Server()]
  }

  const NAMED := [[115]]

  lemma ParseIsSent()
    ensures Iterate(SETTINGS, Fresh(None, 0), Preparing()[0])
      == Progress(Loop(Some(BACKEND), NAMED, false, 0), Running,
        [Acquired(BACKEND), Tracked(PARSE_S), Sent(0, PARSE_S, [])])
  {
    assert ParseStatementName(PARSE_S.payload) == [115] by {
      assert [115] + [NUL] + [0, 0, 0] == PARSE_S.payload;
      assert ValidUtf8([115]) && Free([115], NUL);
      NamesComeBackExactly(0, [115], [0, 0, 0]);
    }
    hide ParseStatementName;
    var none: seq<Msg> := [];
    assert [] + [[115]] == NAMED && none + [] == none;
  }

  lemma SyncIsSent()
    ensures Iterate(SETTINGS, Loop(Some(BACKEND), NAMED, false, 0), Preparing()[1])
      == Progress(Loop(Some(Backend(0, 0, [PARSED, READY_IDLE])), NAMED, false, 0), Running,
        [Tracked(SYNC_MSG), Sent(0, SYNC_MSG, [PARSED, READY_IDLE])])
  {
    assert [] + [PARSED, READY_IDLE] == [PARSED, READY_IDLE];
  }

  lemma ParsedIsDelivered()
    ensures Iterate(SETTINGS, Loop(Some(Backend(0, 0, [PARSED, READY_IDLE])), NAMED, false, 0), Server())
      == Progress(Loop(Some(Backend(0, 0, [READY_IDLE])), NAMED, false, 0), Running, [Delivered(PARSED)])
  {
    assert [PARSED, READY_IDLE][1..] == [READY_IDLE];
  }

  lemma ReadyIsDelivered()
    ensures Iterate(SETTINGS, Loop(Some(Backend(0, 0, [READY_IDLE])), NAMED, false, 0), Server())
      == Progress(Fresh(None, 0), Running, [Delivered(READY_IDLE), WasReset, Released(Backend(0, 0, [READY_IDLE]))])
  {
    OneAnswer(COMPLETE);
    assert [READY_IDLE][1..] == [];
    assert [] + [COMPLETE, READY_IDLE] == [COMPLETE, READY_IDLE];
    assert [COMPLETE, READY_IDLE][2..] == [];
    assert [COMPLETE, READY_IDLE][1..] == [READY_IDLE];
  }

  /** The connection is released with the end of the answer to DEALLOCATE still to be read. */
  lemma DeallocateLeavesReadyUnread()
    ensures forall i :: 0 <= i < |Preparing()| ==> WellAnswered(Preparing()[i])
    ensures var p := After(SETTINGS, Fresh(None, 0), Preparing(), 4);
      && p.ending.Running? && p.loop == Fresh(None, 0)
      && p.log != [] && p.log[|p.log| - 1] == Released(Backend(0, 0, [READY_IDLE]))
  {
    hide Iterate, After, Complete;
    OneAnswer(PARSED);
    var log1 := [Acquired(BACKEND), Tracked(PARSE_S), Sent(0, PARSE_S, [])];
    Starts(Preparing());
    ParseIsSent();
    Continues(Preparing(), 0, Fresh(None, 0), []);
    assert [] + log1 == log1;
    SyncIsSent();
    Continues(Preparing(), 1, Loop(Some(BACKEND), NAMED, false, 0), log1);
    ParsedIsDelivered();
    var log2 := log1 + [Tracked(SYNC_MSG), Sent(0, SYNC_MSG, [PARSED, READY_IDLE])];
    Continues(Preparing(), 2, Loop(Some(Backend(0, 0, [PARSED, READY_IDLE])), NAMED, false, 0), log2);
    ReadyIsDelivered();
    var log3 := log2 + [Delivered(PARSED)];
    Continues(Preparing(), 3, Loop(Some(Backend(0, 0, [READY_IDLE])), NAMED, false, 0), log3);
  }

  // ---- A backend with a ReadyForQuery from before ----

  const ROW := Msg(68, [])      // DataRow
  const STALE := Backend(0, 0, [READY_IDLE])
  const OWN_ANSWER := [ROW, COMPLETE, READY_IDLE]

  /** What DEALLOCATE has left behind is granted to a client that sends a query. */
  function QueryOnStale(): seq<Turn> {
    [Turn(Input(0, FromClient(QUERY_MSG), Ordinarily(OWN_ANSWER)), Connected(STALE)), Server()]
  }

  lemma QueryIsSentToStale()
    ensures Iterate(SETTINGS, Fresh(None, 0), QueryOnStale()[0])
      == Progress(Fresh(Some(Backend(0, 0, [READY_IDLE] + OWN_ANSWER)), 0), Running,
        [Acquired(STALE), Tracked(QUERY_MSG), Sent(0, QUERY_MSG, OWN_ANSWER)])
  {
    assert !StartsTransaction(SETTINGS, [0]);
  }

  lemma StaleReadyIsDelivered()
    ensures Iterate(SETTINGS, Fresh(Some(Backend(0, 0, [READY_IDLE] + OWN_ANSWER)), 0), Server())
      == Progress(Fresh(None, 0), Running,
        [Delivered(READY_IDLE), WasReset, Released(Backend(0, 0, [COMPLETE, READY_IDLE]))])
  {
    assert ([READY_IDLE] + OWN_ANSWER)[1..] == OWN_ANSWER;
    var queue := OWN_ANSWER + [COMPLETE, READY_IDLE];
    assert queue == [ROW, COMPLETE, READY_IDLE, COMPLETE, READY_IDLE];
    assert queue[1..] == [COMPLETE, READY_IDLE, COMPLETE, READY_IDLE];
    assert queue[1..][1..] == [READY_IDLE, COMPLETE, READY_IDLE];
    assert FirstReady(queue[1..]) == 1;
    assert FirstReady(queue) == 2;
    assert queue[3..] == [COMPLETE, READY_IDLE];
  }

  /**
   * The client is delivered the ReadyForQuery of someone before, the reset reads its own answer
   * away, and the backend is released with the answer to the reset unread.
   */
  lemma StaleReadyHidesAnswer()
    ensures forall i :: 0 <= i < |QueryOnStale()| ==> WellAnswered(QueryOnStale()[i])
    ensures After(SETTINGS, Fresh(None, 0), QueryOnStale(), 2) ==
      Progress(Fresh(None, 0), Running,
        [Acquired(STALE), Tracked(QUERY_MSG), Sent(0, QUERY_MSG, OWN_ANSWER)]
        + [Delivered(READY_IDLE), WasReset, Released(Backend(0, 0, [COMPLETE, READY_IDLE]))])
  {
    hide Iterate, After, Complete;
    var sent := [Acquired(STALE), Tracked(QUERY_MSG), Sent(0, QUERY_MSG, OWN_ANSWER)];
    assert Complete(OWN_ANSWER) by { OwnAnswerIsComplete(); }
    Starts(QueryOnStale());
    QueryIsSentToStale();
    Continues(QueryOnStale(), 0, Fresh(None, 0), []);
    assert [] + sent == sent;
    StaleReadyIsDelivered();
    Continues(QueryOnStale(), 1, Fresh(Some(Backend(0, 0, [READY_IDLE] + OWN_ANSWER)), 0), sent);
  }

  lemma OwnAnswerIsComplete()
    ensures Complete(OWN_ANSWER)
  {
    assert OWN_ANSWER[1..] == [COMPLETE, READY_IDLE];
    assert OWN_ANSWER[1..][1..] == [READY_IDLE];
    assert FirstReady(OWN_ANSWER[1..]) == 1;
  }

  // ---- A client that sends a malformed frame ----

  const BEGIN_MSG := Msg(QUERY, [66, 69, 71, 73, 78, 0])
  const BEGUN := [COMPLETE, Msg(READY, [IN_BLOCK])]

  /** A client begins a transaction and then sends the five bytes 'Q' 0 0 0 0. */
  function GarblingClient(): seq<Turn> {
    [Client(BEGIN_MSG, BEGUN), Turn(Input(0, ClientGarbled, Ordinarily([])), NotConnected)]
  }

  lemma GarbledFramePanics()
    ensures ReadFrame([81, 0, 0, 0, 0]).0 == ReadResult.Panicked
  {
    var data: bytes := [81, 0, 0, 0, 0];
    assert data[1..5] == [0, 0, 0, 0];
  }

  lemma BeginIsSent()
    ensures Iterate(SETTINGS, Fresh(None, 0), GarblingClient()[0])
      == Progress(Loop(Some(Backend(0, 0, BEGUN)), [], true, 0), Running,
        [Acquired(BACKEND), Tracked(BEGIN_MSG), Sent(0, BEGIN_MSG, BEGUN)])
  {
    assert BEGIN_MSG.payload[0..][..5] == BEGIN;
    assert BEGIN <= BEGIN_MSG.payload[0..];
    assert StartsTransaction(SETTINGS, BEGIN_MSG.payload);
    assert [] + BEGUN == BEGUN;
  }

  /** The loop ends in a panic with a backend held, and nothing gives back the permit. */
  lemma GarblingLosesPermit(reset: ResetIo)
    ensures var p := After(SETTINGS, Fresh(None, 0), GarblingClient(), 2);
      && p.ending.Crashed? && RunGarbles(SETTINGS, Fresh(None, 0), GarblingClient(), 2)
      && Fold(Hold, Nothing, WholeLog(p, reset)) == TransactionTheorems.One(0)
  {
    hide Iterate, After, Fold, Hold, RunGarbles;
    var l := Loop(Some(Backend(0, 0, BEGUN)), [], true, 0);
    Starts(GarblingClient());
    BeginIsSent();
    Continues(GarblingClient(), 0, Fresh(None, 0), []);
    CrashesAtOnce(l);
    Continues(GarblingClient(), 1, l, [] + [Acquired(BACKEND), Tracked(BEGIN_MSG), Sent(0, BEGIN_MSG, BEGUN)]);
    RunDiesExactly(SETTINGS, Fresh(None, 0), GarblingClient(), 2);
    EveryExitHoldsNothingExactly(SETTINGS, Fresh(None, 0), GarblingClient(), 2, reset);
  }

  lemma CrashesAtOnce(l: Loop)
    ensures Iterate(SETTINGS, l, GarblingClient()[1]) == Progress(l, Crashed, [])
  {
  }
}
