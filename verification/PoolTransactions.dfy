// src/proxy/mod.rs: in_transaction and tx_start of the tasks of the interleaved system.

module PoolTransactions {
  import opened Prelude
  import opened Frames
  import opened Backends
  import opened TransactionLoop
  import opened TransactionTheorems
  import opened TransactionDriver
  import opened TransactionState
  import opened PoolSystem
  import opened PoolLoops

  /** When a task was last seen to begin a transaction, or else when it entered transaction_loop. */
  function BeganSeen(env: Env, acts: seq<Act>, n: nat, t: nat): nat
    requires n <= |acts|
  {
    if n == 0 then 0
    else
      var g, h := HistoryOf(env, acts, n - 1, t), HistoryOf(env, acts, n, t);
      if (g.Outside? && h.Inside?) || HasBegin(env.settings, Since(g, h)) then StateAfter(env, acts, n - 1).now
      else BeganSeen(env, acts, n - 1, t)
  }

  /** The same, read off the turns of the run that the history is. */
  function BeganOf(cfg: Settings, h: History): nat
    requires h.Inside?
  {
    BeganAt(cfg, TransactionLoop.Fresh(None, h.start), h.turns, |h.turns|)
  }

  lemma {:induction false} BeganPrefix(cfg: Settings, l: Loop, turns: seq<Turn>, more: seq<Turn>, n: nat)
    requires n <= |turns| && turns <= more
    ensures BeganAt(cfg, l, turns, n) == BeganAt(cfg, l, more, n)
  {
    hide After, Iterate, HasBegin, LogSince;
    if n > 0 {
      BeganPrefix(cfg, l, turns, more, n - 1);
      AfterPrefix(cfg, l, turns, more, n - 1);
      TurnAdds(cfg, l, turns, n - 1);
      TurnAdds(cfg, l, more, n - 1);
    }
  }

  lemma BeganGrows(cfg: Settings, h: History, turn: Turn, log: seq<Entry>, last: Option<ResetIo>)
    requires h.Inside? && RunOf(cfg, h).ending.Running?
    ensures BeganOf(cfg, Inside(h.start, h.turns + [turn], log, last)) ==
      if HasBegin(cfg, Iterate(cfg, RunOf(cfg, h).loop, turn).log) then turn.input.now else BeganOf(cfg, h)
  {
    hide After, Iterate, HasBegin, LogSince;
    var l, more := TransactionLoop.Fresh(None, h.start), h.turns + [turn];
    BeganPrefix(cfg, l, h.turns, more, |h.turns|);
    AfterPrefix(cfg, l, h.turns, more, |h.turns|);
    TurnAdds(cfg, l, more, |h.turns|);
  }

  lemma CallBeginsNothing(cfg: Settings, pc: Pc, next: Pc)
    ensures !HasBegin(cfg, CallSeen(pc, next))
  {
    HasBeginShort(cfg, CallSeen(pc, next));
  }

  lemma EntryBeginsNothing(cfg: Settings, e: Entry)
    requires IsPoolCall(e)
    ensures !HasBegin(cfg, [e])
  {
    HasBeginShort(cfg, [e]);
  }

  /** A step of a task counts as a beginning exactly if the turn that it completes does. */
  predicate GoesWithTurns(cfg: Settings, now: nat, g: History, h: History) {
    g.Inside? && h.Inside? &&
    BeganOf(cfg, h) == if HasBegin(cfg, Since(g, h)) then now else BeganOf(cfg, g)
  }

  lemma SinceRecorded(cfg: Settings, now: nat, h: History, pc: Pc, next: Pc, c: Choice)
    requires h.Inside? && !pc.Ready?
    ensures var r := Recorded(cfg, now, h, pc, next, c);
      && r.Inside? && r.start == h.start && r.turns == h.turns + TurnSeen(now, pc, next, c)
      && Since(h, r) == MessagesSeen(cfg, now, pc, c) + CallSeen(pc, next)
  {
    hide MessagesSeen, CallSeen, TurnSeen;
  }

  lemma TopGoes(cfg: Settings, now: nat, h: History, l: Loop, c: Choice)
    requires h.Inside? && Follows(cfg, h, LoopTop(l))
    ensures var next := AfterPlan(OnEvent(cfg, l, Input(now, c.event, c.io)));
      GoesWithTurns(cfg, now, h, Recorded(cfg, now, h, LoopTop(l), next, c))
  {
    hide OnEvent, Iterate, After, HasBegin, Since, BeganOf, CallSeen;
    var pc, input := LoopTop(l), Input(now, c.event, c.io);
    var plan := OnEvent(cfg, l, input);
    var next := AfterPlan(plan);
    PlanIsSeen(cfg, l, input);
    SinceRecorded(cfg, now, h, pc, next, c);
    CallBeginsNothing(cfg, pc, next);
    HasBeginAppend(cfg, MessagesSeen(cfg, now, pc, c), CallSeen(pc, next));
    if plan.Ask? {
      HasBeginShort(cfg, []);
      SameTurns(cfg, h, Recorded(cfg, now, h, pc, next, c));
    } else {
      BeganGrows(cfg, h, Turn(input, NotConnected), h.log + plan.log + CallSeen(pc, next), h.last);
    }
  }

  lemma SameTurns(cfg: Settings, g: History, h: History)
    requires g.Inside? && h.Inside? && h.start == g.start && h.turns == g.turns + []
    ensures BeganOf(cfg, h) == BeganOf(cfg, g)
  {
    hide After;
    assert g.turns + [] == g.turns;
  }

  lemma HoldingGoes(cfg: Settings, now: nat, h: History, l: Loop, m: Msg, c: Choice)
    requires h.Inside? && Follows(cfg, h, LoopForward(l, m))
    ensures l.server.Some?
    ensures var next := AfterPlan(Forward(cfg, l, m, now, c.io));
      GoesWithTurns(cfg, now, h, Recorded(cfg, now, h, LoopForward(l, m), next, c))
  {
    hide OnEvent, Iterate, After, Forward, HasBegin, Since, BeganOf;
    var pc, b, plan := LoopForward(l, m), l.server.value, Forward(cfg, l, m, now, c.io);
    var next, p := AfterPlan(plan), RunOf(cfg, h);
    assert p.loop.(server := Some(b)) == l;
    AskComesTo(cfg, p.loop, m, now, c.io, Connected(b));
    SinceRecorded(cfg, now, h, pc, next, c);
    CallBeginsNothing(cfg, pc, next);
    EntryBeginsNothing(cfg, Acquired(b));
    HasBeginAppend(cfg, plan.log, CallSeen(pc, next));
    HasBeginAppend(cfg, [Acquired(b)], plan.log);
    var turn := Turn(Input(now, FromClient(m), c.io), Connected(b));
    BeganGrows(cfg, h, turn, h.log + plan.log + CallSeen(pc, next), h.last);
  }

  lemma EndGoes(cfg: Settings, now: nat, h: History, pc: Pc, next: Pc, c: Choice)
    requires h.Inside? && Follows(cfg, h, pc) && pc.Creating? && pc.who.Txn?
    ensures GoesWithTurns(cfg, now, h, Recorded(cfg, now, h, pc, next, c))
  {
    hide OnEvent, Iterate, After, Forward, HasBegin, Since, BeganOf, CallSeen;
    SinceRecorded(cfg, now, h, pc, next, c);
    CallBeginsNothing(cfg, pc, next);
    HasBeginShort(cfg, []);
    HasBeginAppend(cfg, [], CallSeen(pc, next));
    if next.LoopForward? {
      SameTurns(cfg, h, Recorded(cfg, now, h, pc, next, c));
    } else {
      var g := if next.Crashed? then ConnectPanics else NotConnected;
      var l, m := pc.who.loop, pc.who.m;
      AskComesTo(cfg, l, m, now, c.io, g);
      EntryBeginsNothing(cfg, if next.Crashed? then CreatePanicked else CreateFailed);
      BeganGrows(cfg, h, Turn(Input(now, FromClient(m), c.io), g), h.log + [] + CallSeen(pc, next), h.last);
    }
  }

  lemma OtherGoes(cfg: Settings, now: nat, h: History, pc: Pc, next: Pc, c: Choice)
    requires h.Inside? && !pc.Ready? && !pc.LoopTop? && !pc.LoopForward? && !(pc.Creating? && pc.who.Txn?)
    ensures GoesWithTurns(cfg, now, h, Recorded(cfg, now, h, pc, next, c))
  {
    hide OnEvent, After, HasBegin, Since, BeganOf, CallSeen;
    SinceRecorded(cfg, now, h, pc, next, c);
    CallBeginsNothing(cfg, pc, next);
    HasBeginShort(cfg, []);
    HasBeginAppend(cfg, [], CallSeen(pc, next));
    SameTurns(cfg, h, Recorded(cfg, now, h, pc, next, c));
  }

  lemma StepGoes(env: Env, s: State, t: nat, c: Choice, h: History)
    requires t < |s.tasks| && h.Inside? && Follows(env.settings, h, s.tasks[t].pc) && !s.tasks[t].pc.Ready?
    ensures GoesWithTurns(env.settings, s.now, h,
      Recorded(env.settings, s.now, h, s.tasks[t].pc, Decide(env, s, t, c).pc, c))
  {
    hide Follows, Recorded, GoesWithTurns, Decide;
    var cfg, now, pc := env.settings, s.now, s.tasks[t].pc;
    NextOf(env, s, t, c);
    if pc.LoopTop? {
      TopGoes(cfg, now, h, pc.loop, c);
    } else if pc.LoopForward? {
      HoldingGoes(cfg, now, h, pc.loop, pc.m, c);
    } else if pc.Creating? && pc.who.Txn? {
      EndGoes(cfg, now, h, pc, Decide(env, s, t, c).pc, c);
    } else {
      OtherGoes(cfg, now, h, pc, Decide(env, s, t, c).pc, c);
    }
  }

  lemma NothingNew(cfg: Settings, h: History)
    requires h.Inside?
    ensures !HasBegin(cfg, Since(h, h))
  {
  }

  lemma {:induction false} BeganAgrees(env: Env, acts: seq<Act>, n: nat, t: nat)
    requires n <= |acts| && HistoryOf(env, acts, n, t).Inside?
    ensures BeganSeen(env, acts, n, t) == BeganOf(env.settings, HistoryOf(env, acts, n, t))
    decreases n
  {
    hide Step, Follows, Decide, Recorded, HasBegin, BeganOf, Since;
    var cfg, h, before := env.settings, HistoryOf(env, acts, n, t), HistoryOf(env, acts, n - 1, t);
    var s := StateAfter(env, acts, n - 1);
    if before.Inside? {
      BeganAgrees(env, acts, n - 1, t);
      NothingNew(cfg, before);
      if h != before {
        EveryLoopIsARun(env, acts, n - 1, t);
        NotReadyInside(env, acts, n - 1, t);
        StepGoes(env, s, t, acts[n - 1].c, before);
      }
    } else {
      EntersNow(env, acts, n, t);
    }
  }

  /** A task that has just entered its loop has its history begin there. */
  lemma EntersNow(env: Env, acts: seq<Act>, n: nat, t: nat)
    requires 0 < n <= |acts| && HistoryOf(env, acts, n, t).Inside? && HistoryOf(env, acts, n - 1, t).Outside?
    ensures BeganOf(env.settings, HistoryOf(env, acts, n, t)) == StateAfter(env, acts, n - 1).now
  {
    hide Decide, After;
  }

  /**
   * In every state of every interleaving, a task at the top of its loop takes itself to be in a
   * transaction if and only if its own log says so: since the last reset that succeeded on an
   * idle ReadyForQuery, one with status 'T' has been passed on or a query to begin one has come.
   * It counts the time from the step in which it was last seen to do either.
   */
  lemma TaskTransactionIsLogged(env: Env, acts: seq<Act>, n: nat, t: nat)
    requires n <= |acts| && t < |StateAfter(env, acts, n).tasks|
    requires InLoop(StateAfter(env, acts, n).tasks[t].pc)
    ensures HistoryOf(env, acts, n, t).Inside?
    ensures var l := StateAfter(env, acts, n).tasks[t].pc.loop;
      && l.inTx == InTransaction(env.settings, HistoryOf(env, acts, n, t).log)
      && l.txStart == BeganSeen(env, acts, n, t)
  {
    hide StateAfter, HistoryOf, After, InTransaction, BeganSeen;
    var h := HistoryOf(env, acts, n, t);
    EveryLoopIsARun(env, acts, n, t);
    TransactionIsLogged(env.settings, None, h.start, h.turns, |h.turns|);
    BeganAgrees(env, acts, n, t);
  }

  /**
   * So a message that its client sends is cut off exactly if the transaction timeout has passed
   * since that step and the task holds a backend in a transaction by its own log.
   */
  lemma TaskIsCutOffExactly(env: Env, acts: seq<Act>, n: nat, t: nat, c: Choice)
    requires n <= |acts| && t < |StateAfter(env, acts, n).tasks|
    requires var pc := StateAfter(env, acts, n).tasks[t].pc;
      pc.LoopTop? && pc.loop.server.Some? && c.event.FromClient? && !IsType(c.event.m, 'X')
    ensures HistoryOf(env, acts, n, t).Inside?
    ensures var s := StateAfter(env, acts, n);
      var cfg, log := env.settings, HistoryOf(env, acts, n, t).log;
      var seen := MessagesSeen(cfg, s.now, s.tasks[t].pc, c);
      var late :=
        cfg.transaction > 0 && InTransaction(cfg, log) && s.now >= BeganSeen(env, acts, n, t) + cfg.transaction;
      if late then seen == [] && Decide(env, s, t, c).pc == LoopExit(s.tasks[t].pc.loop)
      else seen != [] && seen[0] == Tracked(c.event.m)
  {
    hide StateAfter, HistoryOf, InTransaction, BeganSeen, Track, Follows;
    TaskTransactionIsLogged(env, acts, n, t);
    var s := StateAfter(env, acts, n);
    NextOf(env, s, t, c);
    hide Decide;
  }
}
