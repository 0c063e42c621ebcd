// Whether what clients are delivered answers their own messages, over the whole pool.

module PoolCleanliness {
  import opened Prelude
  import opened Frames
  import opened Backends
  import opened Pool
  import opened TransactionLoop
  import opened TransactionTheorems
  import opened TransactionAnswers
  import opened PoolSystem
  import opened PoolInvariant
  import opened PoolSafety
  import opened PoolLoops
  import PoolSpec

  // ---- Where unread messages get into the pool ----

  /** A user of a backend gives it back with messages unread. */
  predicate ReleasesUnread(pc: Pc, next: Pc) {
    (pc.LoopTop? || pc.LoopExit? || pc.Relaying?) && next.RelAge? && next.b.unread != []
  }

  predicate IsUnreadRelease(env: Env, s: State, a: Act) {
    a.Run? && a.t < |s.tasks| && ReleasesUnread(s.tasks[a.t].pc, Decide(env, s, a.t, a.c).pc)
  }

  predicate NoUnreadRelease(env: Env, acts: seq<Act>, n: nat)
    requires n <= |acts|
  {
    forall i :: 0 <= i < n ==> !IsUnreadRelease(env, StateAfter(env, acts, i), acts[i])
  }

  /** A connection on its way into the pool, out of it, or just acquired, has nothing unread. */
  predicate CleanPc(pc: Pc) {
    match pc
    case AcqIdleCheck(_, _, ic) => ic.stream.unread == []
    case AcqAgeCheck(_, _, ic) => ic.stream.unread == []
    case Announce(b, _) => b.unread == []
    case LoopForward(l, _) => l.server.Some? ==> l.server.value.unread == []
    case RelAge(b, _) => b.unread == []
    case RelLock(b, _) => b.unread == []
    case _ => true
  }

  predicate CleanIdle(idle: seq<IdleConn>) {
    forall i :: 0 <= i < |idle| ==> idle[i].stream.unread == []
  }

  predicate CleanTasks(s: State) {
    forall t :: 0 <= t < |s.tasks| ==> CleanPc(s.tasks[t].pc)
  }

  predicate CleanPools(s: State) {
    forall k :: k in s.pools ==> CleanIdle(s.pools[k].idle)
  }

  lemma OnTheWayClean(next: Then, who: Who, b: Backend, reused: bool)
    ensures CleanPc(Resume(next)) && CleanPc(AfterFailedCreate(who))
    ensures b.unread == [] ==> CleanPc(AfterGrant(who, b, reused))
  {
  }

  /** A plan and what follows the loop are clean unless they release with messages unread. */
  lemma PlanIsClean(l: Loop, plan: Plan)
    ensures !ReleasesUnread(LoopTop(l), AfterPlan(plan)) ==> CleanPc(AfterPlan(plan))
  {
  }

  lemma ExitIsClean(l: Loop, reset: ResetIo)
    ensures !ReleasesUnread(LoopExit(l), AfterExit(l, reset)) ==> CleanPc(AfterExit(l, reset))
  {
    hide Reset;
  }

  lemma UseIsClean(b: Backend, held: Backend, reset: ResetIo)
    ensures !ReleasesUnread(Relaying(b), AfterUse(held, reset)) ==> CleanPc(AfterUse(held, reset))
  {
    hide Reset;
  }

  lemma ForwardIsClean(cfg: Settings, l: Loop, m: Msg, now: nat, io: Io)
    requires l.server.Some?
    ensures CleanPc(AfterPlan(Forward(cfg, l, m, now, io)))
  {
    hide Forward;
  }

  lemma PopIsClean(strategy: Strategy, idle: seq<IdleConn>)
    requires idle != [] && CleanIdle(idle)
    ensures var (ic, rest) := Popped(strategy, idle); ic.stream.unread == [] && CleanIdle(rest)
  {
  }

  /** The next program counter is clean. */
  lemma MoveIsClean(env: Env, s: State, t: nat, c: Choice)
    requires t < |s.tasks| && CleanPc(s.tasks[t].pc) && !s.tasks[t].pc.AcqPop? && !s.tasks[t].pc.RelLock?
    requires s.tasks[t].pc.LoopForward? ==> s.tasks[t].pc.loop.server.Some?
    requires !ReleasesUnread(s.tasks[t].pc, Decide(env, s, t, c).pc)
    ensures CleanPc(Decide(env, s, t, c).pc) && Decide(env, s, t, c).inner.None?
  {
    hide AfterPlan, AfterExit, OnEvent, Forward, Resume, AfterGrant, AfterFailedCreate, AfterUse, ScanOne, ReadLocked,
      Popped, IdleTooLong, TooOld, Elapsed, SemIndex, IdleLen, ResolveLimits, PoolSpec.Enumerates, Capacity;
    var pc, some := s.tasks[t].pc, Backend(0, 0, []);
    match pc
    case LoopTop(l) => PlanIsClean(l, OnEvent(env.settings, l, Input(s.now, c.event, c.io)));
    case LoopForward(l, m) => ForwardIsClean(env.settings, l, m, s.now, c.io);
    case LoopExit(l) => ExitIsClean(l, c.io.reset);
    case Relaying(b) => UseIsClean(b, b.(unread := c.io.reply), c.io.reset);
    case AcqAgeCheck(who, _, ic) => OnTheWayClean(ThenDone, who, ic.stream, true);
    case Creating(who, since) => OnTheWayClean(ThenDone, who, Backend(|s.born|, since, []), false);
    case RetAdd(_, next, _) => OnTheWayClean(next, WarmUp, some, false);
    case Closing(_, next) => OnTheWayClean(next, WarmUp, some, false);
    case _ =>
  }

  /** So it is when the step pops or parks, and so is what is idle then. */
  lemma PoolMoveIsClean(env: Env, s: State, t: nat, c: Choice)
    requires t < |s.tasks| && CleanPc(s.tasks[t].pc) && (s.tasks[t].pc.AcqPop? || s.tasks[t].pc.RelLock?)
    requires s.tasks[t].key in s.pools ==> CleanIdle(s.pools[s.tasks[t].key].idle)
    ensures var mv := Decide(env, s, t, c);
      CleanPc(mv.pc) && (mv.inner.Some? ==> CleanIdle(mv.inner.value.idle))
  {
    hide Resume, Popped, ResolveLimits;
    var key, pc := s.tasks[t].key, s.tasks[t].pc;
    match pc
    case AcqPop(_, _) =>
      if key in s.pools && s.pools[key].idle != [] {
        PopIsClean(s.pools[key].limits.strategy, s.pools[key].idle);
      }
    case RelLock(b, next) => OnTheWayClean(next, WarmUp, b, false);
  }

  lemma StepIsClean(env: Env, s: State, a: Act)
    requires Inv(env, s) && CleanTasks(s) && CleanPools(s) && !IsUnreadRelease(env, s, a)
    ensures CleanTasks(Step(env, s, a)) && CleanPools(Step(env, s, a))
  {
    hide Inv, Decide, CleanPc, CleanIdle, SemsAfter, LockAfter, ReleasesUnread;
    match a
    case Run(t, c) =>
      if t < |s.tasks| {
        HasServer(env, s, t);
        if s.tasks[t].pc.AcqPop? || s.tasks[t].pc.RelLock? {
          PoolMoveIsClean(env, s, t, c);
        } else {
          MoveIsClean(env, s, t, c);
        }
        NewTaskIsClean(WarmUp);
      }
    case Tick(_) =>
    case Connect(_, session) => NewTaskIsClean(if session then Session else Initial);
    case Monitor(_) => NewTaskIsClean(Session);
  }

  lemma HasServer(env: Env, s: State, t: nat)
    requires Inv(env, s) && t < |s.tasks|
    ensures s.tasks[t].pc.LoopForward? ==> s.tasks[t].pc.loop.server.Some?
  {
    assert TaskOk(s, t);
  }

  lemma NewTaskIsClean(who: Who)
    ensures CleanPc(AcqLookup(who)) && CleanPc(StatsLookup(who)) && CleanPc(TotalStart)
  {
  }

  /**
   * In a run in which no user gives a backend back with messages unread, every idle connection
   * has nothing unread in every state, and neither has one that a task is about to be given.
   */
  lemma {:induction false} PoolStaysClean(env: Env, acts: seq<Act>, n: nat)
    requires n <= |acts| && NoUnreadRelease(env, acts, n)
    ensures CleanTasks(StateAfter(env, acts, n)) && CleanPools(StateAfter(env, acts, n))
  {
    hide Step, Inv, CleanPools, CleanTasks, IsUnreadRelease;
    if n == 0 {
      NothingUnread();
    } else {
      PoolStaysClean(env, acts, n - 1);
      RunKeepsInv(env, acts, n - 1);
      StepIsClean(env, StateAfter(env, acts, n - 1), acts[n - 1]);
    }
  }

  lemma NothingUnread()
    ensures CleanTasks(Init()) && CleanPools(Init())
  {
  }

  // ---- What clients are delivered ----

  /** Every backend that a log says was acquired had nothing unread. */
  predicate GrantsClean(log: seq<Entry>) {
    forall i :: 0 <= i < |log| ==> (log[i].Acquired? ==> log[i].b.unread == [])
  }

  lemma {:induction false} CleanGrantsNothingStale(log: seq<Entry>)
    requires GrantsClean(log)
    ensures Stale(TenureOf(log)) == []
    decreases |log|
  {
    var none := Tenure(None, [], []);
    if log == [] {
      FoldThree(Tell, none, log);
    } else {
      var before, e := log[..|log| - 1], log[|log| - 1];
      assert log == before + [e];
      CleanGrantsNothingStale(before);
      FoldAppend(Tell, none, before, [e]);
      FoldThree(Tell, TenureOf(before), [e]);
    }
  }

  /** What a step does with messages is no acquire. */
  lemma MessagesAreNoGrants(cfg: Settings, now: nat, pc: Pc, c: Choice)
    ensures GrantsClean(MessagesSeen(cfg, now, pc, c))
  {
    hide Track, Reset, Deallocate, RunsDry, CanTimeOut;
  }

  lemma CallsAreCleanGrants(pc: Pc, next: Pc)
    requires CleanPc(next)
    ensures GrantsClean(CallSeen(pc, next))
  {
  }

  lemma RecordedIsClean(cfg: Settings, now: nat, h: History, pc: Pc, next: Pc, c: Choice)
    requires h.Inside? ==> GrantsClean(h.log)
    requires CleanPc(next)
    ensures var h1 := Recorded(cfg, now, h, pc, next, c); h1.Inside? ==> GrantsClean(h1.log)
  {
    hide MessagesSeen, CallSeen, TurnSeen, CleanPc;
    MessagesAreNoGrants(cfg, now, pc, c);
    CallsAreCleanGrants(pc, next);
  }

  lemma {:induction false} HistoryIsClean(env: Env, acts: seq<Act>, n: nat, t: nat)
    requires n <= |acts| && NoUnreadRelease(env, acts, n)
    ensures var h := HistoryOf(env, acts, n, t); h.Inside? ==> GrantsClean(h.log)
    decreases n
  {
    hide Step, StateAfter, Decide, Recorded, GrantsClean, CleanPc, IsUnreadRelease, CleanPools, CleanTasks;
    if n > 0 {
      HistoryIsClean(env, acts, n - 1, t);
      var s, h := StateAfter(env, acts, n - 1), HistoryOf(env, acts, n - 1, t);
      if acts[n - 1].Run? && acts[n - 1].t == t && t < |s.tasks| {
        var c := acts[n - 1].c;
        PoolStaysClean(env, acts, n);
        NextIsClean(env, acts, n, t);
        RecordedIsClean(env.settings, s.now, h, s.tasks[t].pc, Decide(env, s, t, c).pc, c);
      }
    }
  }

  lemma NextIsClean(env: Env, acts: seq<Act>, n: nat, t: nat)
    requires 0 < n <= |acts| && CleanTasks(StateAfter(env, acts, n))
    requires acts[n - 1].Run? && acts[n - 1].t == t && t < |StateAfter(env, acts, n - 1).tasks|
    ensures CleanPc(Decide(env, StateAfter(env, acts, n - 1), t, acts[n - 1].c).pc)
  {
    hide Decide, CleanPc, SemsAfter;
    var next := Decide(env, StateAfter(env, acts, n - 1), t, acts[n - 1].c).pc;
    assert StateAfter(env, acts, n).tasks[t].pc == next;
  }

  /**
   * In a run in which no user gives a backend back with messages unread, every client in its
   * loop has been delivered, since its last acquire, answers to its own messages and nothing
   * else, from the first on and in order.
   */
  lemma ClientsGetOwnAnswers(env: Env, acts: seq<Act>, n: nat, t: nat)
    requires n <= |acts| && NoUnreadRelease(env, acts, n)
    requires t < |StateAfter(env, acts, n).tasks| && InLoop(StateAfter(env, acts, n).tasks[t].pc)
    ensures HistoryOf(env, acts, n, t).Inside?
    ensures var x := TenureOf(HistoryOf(env, acts, n, t).log); Stale(x) == [] && x.delivered <= x.answers
  {
    hide StateAfter, HistoryOf, TenureOf, NoUnreadRelease, GrantsClean;
    TaskDeliversInOrder(env, acts, n, t);
    HistoryIsClean(env, acts, n, t);
    CleanGrantsNothingStale(HistoryOf(env, acts, n, t).log);
  }

  // ---- The same in terms of what was asked and answered ----

  predicate AllAnswered(turns: seq<Turn>) {
    forall i :: 0 <= i < |turns| ==> WellAnswered(turns[i])
  }

  /** The requests of a step are answered in full, and so are the pool's own on a release. */
  predicate AnsweredMove(now: nat, pc: Pc, next: Pc, c: Choice) {
    && AllAnswered(TurnSeen(now, pc, next, c))
    && (next.RelAge? ==>
          match pc
          case LoopTop(l) => Orderly(l, c.io)
          case LoopExit(_) => c.io.reset.sent && Complete(c.io.reset.reply)
          case Relaying(_) => c.io.reset.sent && Complete(c.io.reset.reply)
          case _ => true)
  }

  /** Whoever gives a backend back has no answer outstanding and no statement to deallocate. */
  predicate SettledMove(h: History, pc: Pc, next: Pc, c: Choice) {
    next.RelAge? ==>
      match pc
      case LoopTop(l) =>
        h.Inside? && l.server.Some? && l.server.value.unread != [] &&
        if IsIdle(l.server.value.unread[0]) then Fold(Owe, 0, h.log) == 1 && OpenSinceReset(h.log) == []
        else Fold(Owe, 0, h.log) == 0
      case LoopExit(_) => h.Inside? && Fold(Owe, 0, h.log) == 0
      case Relaying(_) => CountReady(c.io.reply) == 0
      case _ => true
  }

  predicate Answered(env: Env, acts: seq<Act>, i: nat)
    requires i < |acts|
  {
    var s := StateAfter(env, acts, i);
    match acts[i]
    case Run(t, c) => t < |s.tasks| ==> AnsweredMove(s.now, s.tasks[t].pc, Decide(env, s, t, c).pc, c)
    case _ => true
  }

  predicate Settled(env: Env, acts: seq<Act>, i: nat)
    requires i < |acts|
  {
    var s := StateAfter(env, acts, i);
    match acts[i]
    case Run(t, c) =>
      t < |s.tasks| ==> SettledMove(HistoryOf(env, acts, i, t), s.tasks[t].pc, Decide(env, s, t, c).pc, c)
    case _ => true
  }

  lemma AnsweredTurns(cfg: Settings, now: nat, h: History, pc: Pc, next: Pc, c: Choice)
    requires h.Inside? ==> AllAnswered(h.turns)
    requires AllAnswered(TurnSeen(now, pc, next, c))
    ensures var h1 := Recorded(cfg, now, h, pc, next, c); h1.Inside? ==> AllAnswered(h1.turns)
  {
    hide MessagesSeen, CallSeen, TurnSeen, WellAnswered;
  }

  lemma {:induction false} HistoryIsAnswered(env: Env, acts: seq<Act>, n: nat, t: nat)
    requires n <= |acts| && forall i :: 0 <= i < n ==> Answered(env, acts, i)
    ensures var h := HistoryOf(env, acts, n, t); h.Inside? ==> AllAnswered(h.turns)
    decreases n
  {
    hide StateAfter, Decide, Recorded, AllAnswered, TurnSeen;
    if n > 0 {
      HistoryIsAnswered(env, acts, n - 1, t);
      assert Answered(env, acts, n - 1);
      var s, h := StateAfter(env, acts, n - 1), HistoryOf(env, acts, n - 1, t);
      if acts[n - 1].Run? && acts[n - 1].t == t && t < |s.tasks| {
        var c := acts[n - 1].c;
        AnsweredTurns(env.settings, s.now, h, s.tasks[t].pc, Decide(env, s, t, c).pc, c);
      }
    }
  }

  /** An iteration that releases, with a reset that is answered, does so after one of two messages. */
  lemma ReleasePattern(cfg: Settings, l: Loop, input: Input)
    requires OnEvent(cfg, l, input).GiveBack? && Orderly(l, input.io)
    ensures l.server.Some? && l.server.value.unread != []
    ensures var plan := OnEvent(cfg, l, input);
      var log := plan.log + [Released(plan.b)];
      if IsIdle(l.server.value.unread[0]) then IsIdleTurn(log, plan.b) else IsErrorTurn(log, plan.b)
  {
    hide Deallocate, RunsDry, CanTimeOut, Track, Complete, Ordinary, Reset;
    var rest := l.server.value.(unread := l.server.value.unread[1..]);
    ResetKeepsOutstanding(rest, input.io.reset);
  }

  lemma RelayReleaseExactly(b: Backend, c: Choice)
    requires AfterUse(b.(unread := c.io.reply), c.io.reset).RelAge?
    requires c.io.reset.sent && Complete(c.io.reset.reply)
    ensures AfterUse(b.(unread := c.io.reply), c.io.reset).b.unread == [] <==> CountReady(c.io.reply) == 0
  {
    hide Reset, Complete;
    ResetCleansExactly(b.(unread := c.io.reply), c.io.reset);
  }

  /** What a task in its loop gives back. */
  lemma LoopReleaseExactly(env: Env, acts: seq<Act>, n: nat, t: nat, c: Choice)
    requires n <= |acts| && t < |StateAfter(env, acts, n).tasks|
    requires var s := StateAfter(env, acts, n);
      && s.tasks[t].pc.LoopTop? && Decide(env, s, t, c).pc.RelAge? && Orderly(s.tasks[t].pc.loop, c.io)
    requires var h := HistoryOf(env, acts, n, t); h.Inside? ==> AllAnswered(h.turns)
    ensures var s, h := StateAfter(env, acts, n), HistoryOf(env, acts, n, t);
      var pc, next := s.tasks[t].pc, Decide(env, s, t, c).pc;
      next.b.unread == [] <==> SettledMove(h, pc, next, c)
  {
    hide StateAfter, HistoryOf, Fold, OpenSinceReset, OnEvent, WellAnswered, Orderly, Owe, After;
    var s, h := StateAfter(env, acts, n), HistoryOf(env, acts, n, t);
    var l, input := s.tasks[t].pc.loop, Input(s.now, c.event, c.io);
    EveryLoopIsARun(env, acts, n, t);
    NextOf(env, s, t, c);
    hide Decide, Follows;
    var plan, b := OnEvent(env.settings, l, input), Decide(env, s, t, c).pc.b;
    assert h.Inside? by { InLoopInside(env.settings, h, s.tasks[t].pc); }
    ReleasePattern(env.settings, l, input);
    if IsIdle(l.server.value.unread[0]) {
      TaskReleasesCleanExactly(env, acts, n, t, c, b);
    } else {
      TaskErrorReleasesCleanExactly(env, acts, n, t, c, b);
    }
  }

  lemma InLoopInside(cfg: Settings, h: History, pc: Pc)
    requires Follows(cfg, h, pc) && InLoop(pc)
    ensures h.Inside?
  {
  }

  lemma ExitReleaseExactly(env: Env, acts: seq<Act>, n: nat, t: nat, c: Choice)
    requires n <= |acts| && t < |StateAfter(env, acts, n).tasks|
    requires var s := StateAfter(env, acts, n);
      && s.tasks[t].pc.LoopExit? && Decide(env, s, t, c).pc.RelAge?
      && c.io.reset.sent && Complete(c.io.reset.reply)
    requires var h := HistoryOf(env, acts, n, t); h.Inside? ==> AllAnswered(h.turns)
    ensures var s, h := StateAfter(env, acts, n), HistoryOf(env, acts, n, t);
      var pc, next := s.tasks[t].pc, Decide(env, s, t, c).pc;
      next.b.unread == [] <==> SettledMove(h, pc, next, c)
  {
    hide StateAfter, HistoryOf, Fold, WellAnswered, Owe, After, Complete, Reset;
    var s, h := StateAfter(env, acts, n), HistoryOf(env, acts, n, t);
    EveryLoopIsARun(env, acts, n, t);
    NextOf(env, s, t, c);
    hide Decide, Follows;
    assert h.Inside? by { InLoopInside(env.settings, h, s.tasks[t].pc); }
    TaskExitReleasesCleanExactly(env, acts, n, t, c);
  }

  /** In a run that is answered in full, a step releases with messages unread iff it is not settled. */
  lemma UnreadReleaseExactly(env: Env, acts: seq<Act>, n: nat)
    requires n < |acts| && forall i :: 0 <= i <= n ==> Answered(env, acts, i)
    ensures IsUnreadRelease(env, StateAfter(env, acts, n), acts[n]) <==> !Settled(env, acts, n)
  {
    hide StateAfter, HistoryOf, TurnSeen, AllAnswered;
    var s := StateAfter(env, acts, n);
    assert Answered(env, acts, n);
    if acts[n].Run? && acts[n].t < |s.tasks| {
      var t, c := acts[n].t, acts[n].c;
      var pc, next := s.tasks[t].pc, Decide(env, s, t, c).pc;
      HistoryIsAnswered(env, acts, n, t);
      RelayStep(env, s, t, c);
      hide Decide;
      if next.RelAge? && pc.LoopTop? {
        LoopReleaseExactly(env, acts, n, t, c);
      } else if next.RelAge? && pc.LoopExit? {
        ExitReleaseExactly(env, acts, n, t, c);
      } else if next.RelAge? && pc.Relaying? {
        RelayReleaseExactly(pc.b, c);
      }
    }
  }

  lemma RelayStep(env: Env, s: State, t: nat, c: Choice)
    requires t < |s.tasks|
    ensures s.tasks[t].pc.Relaying? ==>
      Decide(env, s, t, c).pc == AfterUse(s.tasks[t].pc.b.(unread := c.io.reply), c.io.reset)
  {
    hide AfterUse;
  }

  /**
   * In a run in which every request is answered in full: if whoever gives a backend back owes it
   * nothing but the answer that is just read, and has no statement tracked, no client is ever
   * delivered what answers another; and only then is nothing ever given back with messages unread.
   */
  lemma SettledRunsAreOwn(env: Env, acts: seq<Act>, n: nat)
    requires n <= |acts| && forall i :: 0 <= i < n ==> Answered(env, acts, i)
    ensures NoUnreadRelease(env, acts, n) <==> forall i :: 0 <= i < n ==> Settled(env, acts, i)
    ensures (forall i :: 0 <= i < n ==> Settled(env, acts, i)) ==>
      forall t :: 0 <= t < |StateAfter(env, acts, n).tasks| && InLoop(StateAfter(env, acts, n).tasks[t].pc) ==>
        var h := HistoryOf(env, acts, n, t);
        h.Inside? && TenureOf(h.log).delivered <= TenureOf(h.log).answers
  {
    hide StateAfter, HistoryOf, Answered, Settled, IsUnreadRelease, TenureOf, InLoop;
    forall i | 0 <= i < n
      ensures IsUnreadRelease(env, StateAfter(env, acts, i), acts[i]) <==> !Settled(env, acts, i)
    {
      UnreadReleaseExactly(env, acts, i);
    }
    if NoUnreadRelease(env, acts, n) {
      forall t | 0 <= t < |StateAfter(env, acts, n).tasks| && InLoop(StateAfter(env, acts, n).tasks[t].pc)
        ensures var h := HistoryOf(env, acts, n, t);
          h.Inside? && TenureOf(h.log).delivered <= TenureOf(h.log).answers
      {
        ClientsGetOwnAnswers(env, acts, n, t);
      }
    }
  }
}
