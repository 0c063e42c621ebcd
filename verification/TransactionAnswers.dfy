// Whose answers a client of transaction_loop is delivered.

module TransactionAnswers {
  import opened Prelude
  import opened Frames
  import opened Backends
  import opened TransactionLoop
  import opened TransactionTheorems

  /** What the log says since the last acquire. */
  datatype Tenure = Tenure(backend: Option<Backend>, answers: seq<Msg>, delivered: seq<Msg>)

  /**
   * The backend as it was granted, the answers to what has been sent to it, and the messages
   * that have been passed on from it.
   */
  function Tell(x: Tenure, e: Entry): Tenure {
    match e
    case Acquired(b) => Tenure(Some(b), [], [])
    case Sent(_, _, reply) => x.(answers := x.answers + reply)
    case Delivered(m) => x.(delivered := x.delivered + [m])
    case Undelivered(m) => x.(delivered := x.delivered + [m])
    case _ => x
  }

  function TenureOf(log: seq<Entry>): Tenure {
    Fold(Tell, Tenure(None, [], []), log)
  }

  /** What was unread when the backend was granted: it answers other clients, or the pool. */
  function Stale(x: Tenure): seq<Msg> {
    match x.backend case None => [] case Some(b) => b.unread
  }

  /** Messages are passed on in order: first those that were there, then the answers. */
  predicate PassedInOrder(x: Tenure, l: Loop, ending: Ending) {
    && x.delivered <= Stale(x) + x.answers
    && (l.server.Some? && !ending.Crashed? ==> Stale(x) + x.answers == x.delivered + l.server.value.unread)
  }

  lemma ForwardTells(cfg: Settings, l: Loop, m: Msg, now: nat, io: Io, x: Tenure)
    requires l.server.Some? && PassedInOrder(x, l, Running)
    ensures var plan := Forward(cfg, l, m, now, io);
      PassedInOrder(Fold(Tell, x, plan.log), plan.loop, Running)
  {
    hide Fold, Track;
    FoldThree(Tell, x, Forward(cfg, l, m, now, io).log);
    if io.sent {
      assert Stale(x) + (x.answers + io.reply) == (Stale(x) + x.answers) + io.reply;
      assert x.delivered + (l.server.value.unread + io.reply) == (x.delivered + l.server.value.unread) + io.reply;
    }
  }

  /** What passes a message on is the first entry, and takes it off what is unread. */
  lemma ServerLog(l: Loop, now: nat, io: Io)
    requires l.server.Some? && l.server.value.unread != []
    ensures var plan, b := OnServer(l, now, io), l.server.value;
      var first := if io.delivered then Delivered(b.unread[0]) else Undelivered(b.unread[0]);
      && (plan.log == [first] || plan.log == [first, WasReset])
      && (plan.loop.server.Some? && !plan.Crash? ==> plan.loop.server == Some(b.(unread := b.unread[1..])))
  {
    hide Reset, Deallocate, RunsDry;
  }

  lemma ServerTells(l: Loop, now: nat, io: Io, x: Tenure)
    requires l.server.Some? && l.server.value.unread != [] && PassedInOrder(x, l, Running)
    ensures var plan := OnServer(l, now, io);
      PassedInOrder(Fold(Tell, x, plan.log + CallOf(plan)), plan.loop, if plan.Crash? then Crashed else Running)
  {
    hide Fold, OnServer;
    var plan := OnServer(l, now, io);
    ServerLog(l, now, io);
    FoldThree(Tell, x, plan.log + CallOf(plan));
    var m, rest := l.server.value.unread[0], l.server.value.unread[1..];
    assert x.delivered + l.server.value.unread == (x.delivered + [m]) + rest;
  }

  lemma IterationTells(cfg: Settings, l: Loop, turn: Turn, x: Tenure)
    requires PassedInOrder(x, l, Running)
    ensures var q := Iterate(cfg, l, turn); PassedInOrder(Fold(Tell, x, q.log), q.loop, q.ending)
  {
    hide Fold, Forward, OnServer, PassedInOrder, CanTimeOut, Overdue;
    var q, plan := Iterate(cfg, l, turn), OnEvent(cfg, l, turn.input);
    FoldThree(Tell, x, []);
    if plan.Ask? {
      AskTells(cfg, l, turn, x);
    } else if plan.log == [] {
      EndingMatters(x, l, Running, q.ending);
      assert q.log == [] && q.loop == l by { EmptyPlan(cfg, l, turn.input); }
    } else if turn.input.event.FromServer? {
      ServerTells(l, turn.input.now, turn.input.io, x);
      assert plan.log + [] == plan.log;
      EndingMatters(Fold(Tell, x, q.log), q.loop, Running, q.ending);
    } else {
      ForwardTells(cfg, l, turn.input.event.m, turn.input.now, turn.input.io, x);
      EndingMatters(Fold(Tell, x, q.log), q.loop, Running, q.ending);
    }
  }

  /** A plan without entries leaves the loop as it is. */
  lemma EmptyPlan(cfg: Settings, l: Loop, input: Input)
    requires var plan := OnEvent(cfg, l, input); !plan.Ask? && plan.log == []
    ensures var plan := OnEvent(cfg, l, input); plan.loop == l && !plan.GiveBack? && !plan.Abandon?
  {
    hide Reset, Deallocate, RunsDry, CanTimeOut, Track;
  }

  lemma AskTells(cfg: Settings, l: Loop, turn: Turn, x: Tenure)
    requires OnEvent(cfg, l, turn.input).Ask? && PassedInOrder(x, l, Running)
    ensures var q := Iterate(cfg, l, turn); PassedInOrder(Fold(Tell, x, q.log), q.loop, q.ending)
  {
    hide Fold, Forward, OnServer, PassedInOrder, CanTimeOut, Overdue;
    var q, l1, m := Iterate(cfg, l, turn), OnEvent(cfg, l, turn.input).loop, OnEvent(cfg, l, turn.input).m;
    if turn.granted.Connected? {
      var b := turn.granted.b;
      var l2, x1 := l1.(server := Some(b)), Tenure(Some(b), [], []);
      FreshTenure(b, l2);
      ForwardTells(cfg, l2, m, turn.input.now, turn.input.io, x1);
      var log := Forward(cfg, l2, m, turn.input.now, turn.input.io).log;
      FoldAppend(Tell, x, [Acquired(b)], log);
      FoldThree(Tell, x, [Acquired(b)]);
      EndingMatters(Fold(Tell, x1, log), q.loop, Running, Broke);
    } else {
      ServerlessInOrder(x, l, q.loop, q.ending);
    }
  }

  lemma FreshTenure(b: Backend, l: Loop)
    requires l.server == Some(b)
    ensures PassedInOrder(Tenure(Some(b), [], []), l, Running)
  {
  }

  lemma EndingMatters(x: Tenure, l: Loop, e: Ending, f: Ending)
    ensures PassedInOrder(x, l, e) && !e.Crashed? ==> PassedInOrder(x, l, f)
  {
  }

  lemma ServerlessInOrder(x: Tenure, l: Loop, l1: Loop, ending: Ending)
    requires PassedInOrder(x, l, Running) && l1.server.None?
    ensures PassedInOrder(x, l1, ending)
    ensures PassedInOrder(Fold(Tell, x, [CreateFailed]), l1, ending)
    ensures PassedInOrder(Fold(Tell, x, [CreatePanicked]), l1, ending)
  {
    FoldThree(Tell, x, [CreateFailed]);
    FoldThree(Tell, x, [CreatePanicked]);
  }

  /**
   * In every run, what has been passed on since the last acquire is the beginning of what was
   * unread in the backend when it was granted, followed by the answers to what was sent to it.
   */
  lemma {:induction false} DeliveriesAreInOrder(cfg: Settings, now: nat, turns: seq<Turn>, n: nat)
    requires n <= |turns|
    ensures var p := After(cfg, Fresh(None, now), turns, n); PassedInOrder(TenureOf(p.log), p.loop, p.ending)
    decreases n
  {
    hide Iterate, PassedInOrder, Tell;
    if n == 0 {
      NothingTold(Fresh(None, now));
    } else {
      DeliveriesAreInOrder(cfg, now, turns, n - 1);
      var p := After(cfg, Fresh(None, now), turns, n - 1);
      if p.ending.Running? {
        IterationTells(cfg, p.loop, turns[n - 1], TenureOf(p.log));
        FoldAppend(Tell, Tenure(None, [], []), p.log, Iterate(cfg, p.loop, turns[n - 1]).log);
      }
    }
  }

  lemma NothingTold(l: Loop)
    requires l.server.None?
    ensures PassedInOrder(TenureOf([]), l, Running)
  {
  }

  /** Whatever clients and backends do, one that is granted `b` gets answers of its own only. */
  ghost predicate OwnAnswersOnly(cfg: Settings, b: Backend) {
    forall now, turns: seq<Turn> :: AnswersOwn(cfg, now, turns, b)
  }

  predicate AnswersOwn(cfg: Settings, now: nat, turns: seq<Turn>, b: Backend) {
    var x := TenureOf(After(cfg, Fresh(None, now), turns, |turns|).log);
    (forall i :: 0 <= i < |turns| ==> WellAnswered(turns[i])) && x.backend == Some(b) ==> x.delivered <= x.answers
  }

  /** An answer to a Sync that does not begin with `m`. */
  function OtherAnswer(m: Msg): seq<Msg> {
    [if m == Msg(49, []) then Msg(50, []) else Msg(49, []), Msg(READY, [IDLE])]
  }

  /** The client sends a Sync, and the first unread message of its backend is passed on. */
  function FirstDelivery(b: Backend): seq<Turn>
    requires b.unread != []
  {
    var io := Io(true, OtherAnswer(b.unread[0]), true, ResetIo(false, [], false), [], false);
    [Turn(Input(0, FromClient(Msg(SYNC, [])), io), Connected(b)),
     Turn(Input(0, FromServer, io), NotConnected)]
  }

  lemma SyncIsSent(cfg: Settings, b: Backend)
    requires b.unread != []
    ensures var l, answer := Fresh(None, 0), OtherAnswer(b.unread[0]);
      Iterate(cfg, l, FirstDelivery(b)[0]) ==
        Progress(l.(server := Some(b.(unread := b.unread + answer))), Running,
          [Acquired(b), Tracked(Msg(SYNC, [])), Sent(b.id, Msg(SYNC, []), answer)])
  {
    hide OtherAnswer;
  }

  /** An iteration that passes a message on adds just this one to what has been delivered. */
  lemma PassesOn(cfg: Settings, l: Loop, turn: Turn, x: Tenure)
    requires l.server.Some? && l.server.value.unread != [] && !l.inTx
    requires turn.input.event.FromServer? && turn.input.io.delivered
    ensures Fold(Tell, x, Iterate(cfg, l, turn).log) == x.(delivered := x.delivered + [l.server.value.unread[0]])
  {
    hide Fold, OnServer, CanTimeOut;
    ServerLog(l, turn.input.now, turn.input.io);
    FoldThree(Tell, x, Iterate(cfg, l, turn).log);
  }

  /** What the client is delivered first is what was there first. */
  lemma StaleComesFirst(cfg: Settings, b: Backend)
    requires b.unread != []
    ensures TenureOf(After(cfg, Fresh(None, 0), FirstDelivery(b), 2).log)
      == Tenure(Some(b), OtherAnswer(b.unread[0]), [b.unread[0]])
  {
    hide Fold, Iterate, OtherAnswer, After;
    var l, turns, none := Fresh(None, 0), FirstDelivery(b), Tenure(None, [], []);
    SyncIsSent(cfg, b);
    var q1 := Iterate(cfg, l, turns[0]);
    TwoTurns(cfg, l, turns);
    FoldThree(Tell, none, q1.log);
    var x := TenureOf(q1.log);
    assert [] + OtherAnswer(b.unread[0]) == OtherAnswer(b.unread[0]);
    assert x == Tenure(Some(b), OtherAnswer(b.unread[0]), []);
    PassesOn(cfg, q1.loop, turns[1], x);
    FoldAppend(Tell, none, q1.log, Iterate(cfg, q1.loop, turns[1]).log);
  }

  lemma TwoTurns(cfg: Settings, l: Loop, turns: seq<Turn>)
    requires |turns| == 2 && Iterate(cfg, l, turns[0]).ending.Running?
    ensures var q := Iterate(cfg, l, turns[0]);
      After(cfg, l, turns, 2).log == q.log + Iterate(cfg, q.loop, turns[1]).log
  {
    hide Iterate;
    var q := Iterate(cfg, l, turns[0]);
    assert [] + q.log == q.log;
    assert After(cfg, l, turns, 1) == q;
  }

  lemma OthersDiffer(m: Msg)
    ensures OtherAnswer(m)[0] != m && Complete(OtherAnswer(m))
  {
    var answer := OtherAnswer(m);
    assert answer[1..] == [Msg(READY, [IDLE])];
    assert FirstReady(answer[1..]) == 0;
  }

  /**
   * A client that is granted a backend is delivered the answers to its own messages, from the
   * first one on and in order, in every run, if and only if the backend had nothing unread.
   */
  lemma AnswersAreOwnExactly(cfg: Settings, b: Backend)
    ensures OwnAnswersOnly(cfg, b) <==> b.unread == []
  {
    hide After, WellAnswered;
    if b.unread == [] {
      forall now, turns: seq<Turn>
        ensures AnswersOwn(cfg, now, turns, b)
      {
        DeliveriesAreInOrder(cfg, now, turns, |turns|);
        var x := TenureOf(After(cfg, Fresh(None, now), turns, |turns|).log);
        assert [] + x.answers == x.answers;
      }
    } else {
      var turns := FirstDelivery(b);
      StaleComesFirst(cfg, b);
      OthersDiffer(b.unread[0]);
      FirstDeliveryIsAnswered(b);
      assert !AnswersOwn(cfg, 0, turns, b);
    }
  }

  lemma FirstDeliveryIsAnswered(b: Backend)
    requires b.unread != []
    ensures forall i :: 0 <= i < |FirstDelivery(b)| ==> WellAnswered(FirstDelivery(b)[i])
  {
    OthersDiffer(b.unread[0]);
  }
}
