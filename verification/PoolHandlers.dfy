// src/proxy/mod.rs: the way of a client handler from its start to its end.

module PoolHandlers {
  import opened Prelude
  import opened Frames
  import opened Backends
  import opened Pool
  import opened TransactionLoop
  import opened TransactionState
  import opened PoolSystem
  import opened PoolInvariant
  import opened PoolTheorems
  import opened PoolLoops
  import PoolSpec

  /** In release or cancel, to go on as `next` says. */
  function Going(pc: Pc): Option<Then> {
    match pc
    case RelAge(_, next) => Some(next)
    case RelLock(_, next) => Some(next)
    case RelDrop(_, next) => Some(next)
    case RetLookup(_, next) => Some(next)
    case RetInsert(_, next) => Some(next)
    case RetAdd(_, next, _) => Some(next)
    case Closing(_, next) => Some(next)
    case _ => None
  }

  /** In `stats_for`, `acquire` or create_backend, on behalf of this. */
  function Behalf(pc: Pc): Option<Who> {
    match pc
    case StatsLookup(who) => Some(who)
    case StatsInsert(who) => Some(who)
    case StatsRead(who, _) => Some(who)
    case StatsLock(who, _) => Some(who)
    case AcqLookup(who) => Some(who)
    case AcqInsert(who) => Some(who)
    case AcqLock(who, _) => Some(who)
    case AcqPop(who, _) => Some(who)
    case AcqIdleCheck(who, _, _) => Some(who)
    case AcqAgeCheck(who, _, _) => Some(who)
    case AcqRefund(who, _) => Some(who)
    case AcqBlocked(who, _) => Some(who)
    case Creating(who, _) => Some(who)
    case _ => None
  }

  /** A task that has neither relayed for a client nor entered transaction_loop. */
  predicate BeforeUse(pc: Pc) {
    || (Behalf(pc).Some? && !Behalf(pc).value.Txn?)
    || (Going(pc).Some? && (Going(pc).value.ThenDone? || Going(pc).value.ThenReady?))
    || pc.Announce? || pc.Ready? || pc.Done? || pc.Leaked? || pc.Crashed?
    || pc.TotalStart? || pc.TotalLock? || pc.TotalScan? || pc.Reported?
  }

  /** A task of spawn_warmup. */
  predicate WarmsUp(pc: Pc) {
    Behalf(pc) == Some(WarmUp) || Going(pc) == Some(ThenDone) || pc.Done? || pc.Crashed?
  }

  /** A task behind transaction_loop or the relay, on its way to the warm-up. */
  predicate OnTheWayOut(pc: Pc) {
    pc.LoopExit? || pc.Relaying? || Going(pc) == Some(ThenWarmUp) || pc.Crashed?
  }

  lemma BehalfSteps(env: Env, s: State, t: nat, c: Choice)
    requires t < |s.tasks| && Behalf(s.tasks[t].pc).Some?
    ensures var pc, next := s.tasks[t].pc, Decide(env, s, t, c).pc;
      && (BeforeUse(pc) ==> BeforeUse(next))
      && (WarmsUp(pc) ==> WarmsUp(next))
  {
    hide ReadLocked, Popped, IdleTooLong, TooOld, SemIndex, IdleLen, Capacity;
  }

  lemma GoingSteps(env: Env, s: State, t: nat, c: Choice)
    requires t < |s.tasks| && Going(s.tasks[t].pc).Some?
    ensures var pc, next := s.tasks[t].pc, Decide(env, s, t, c).pc;
      && (BeforeUse(pc) ==> BeforeUse(next))
      && (WarmsUp(pc) ==> WarmsUp(next))
      && (OnTheWayOut(pc) ==> OnTheWayOut(next) || next.WarmLock?)
  {
    hide ReadLocked, Elapsed, SemIndex, NewInner;
  }

  lemma OtherSteps(env: Env, s: State, t: nat, c: Choice)
    requires t < |s.tasks| && Behalf(s.tasks[t].pc).None? && Going(s.tasks[t].pc).None?
    ensures var pc, next := s.tasks[t].pc, Decide(env, s, t, c).pc;
      && (BeforeUse(pc) ==> BeforeUse(next) || next.LoopTop? || next.Relaying?)
      && (WarmsUp(pc) ==> WarmsUp(next))
      && (OnTheWayOut(pc) ==> OnTheWayOut(next) || next.WarmLock?)
  {
    hide ScanOne, Reset, PoolSpec.Enumerates, OnEvent, Forward, AfterPlan, IdleLen, ResolveLimits;
  }

  lemma StepsOnTheWay(env: Env, s: State, t: nat, c: Choice)
    requires t < |s.tasks|
    ensures var pc, next := s.tasks[t].pc, Decide(env, s, t, c).pc;
      && (BeforeUse(pc) ==> BeforeUse(next) || next.LoopTop? || next.Relaying?)
      && (WarmsUp(pc) ==> WarmsUp(next))
      && (OnTheWayOut(pc) ==> OnTheWayOut(next) || next.WarmLock?)
  {
    hide Decide, BeforeUse, WarmsUp, OnTheWayOut;
    if Behalf(s.tasks[t].pc).Some? {
      BehalfSteps(env, s, t, c);
      NotOut(s.tasks[t].pc);
    } else if Going(s.tasks[t].pc).Some? {
      GoingSteps(env, s, t, c);
    } else {
      OtherSteps(env, s, t, c);
    }
  }

  lemma NotOut(pc: Pc)
    requires Behalf(pc).Some?
    ensures !OnTheWayOut(pc)
  {
  }

  lemma NextPc(env: Env, s: State, a: Act, t: nat)
    requires t < |s.tasks|
    ensures t < |Step(env, s, a).tasks|
    ensures Step(env, s, a).tasks[t].pc ==
      if a.Run? && a.t == t then Decide(env, s, t, a.c).pc else s.tasks[t].pc
  {
    hide Decide;
    if a.Run? && a.t == t {
      StepGives(env, s, t, a.c);
    } else {
      OthersStay(env, s, a, t);
    }
  }

  /** A task of spawn_warmup only acquires, creates and gives back: none ever starts another warm-up. */
  lemma {:induction false} WarmupsOnlyWarmUp(env: Env, acts: seq<Act>, a: nat, n: nat, t: nat)
    requires a <= n <= |acts| && t < |StateAfter(env, acts, a).tasks|
    requires StateAfter(env, acts, a).tasks[t].pc == AcqLookup(WarmUp)
    ensures t < |StateAfter(env, acts, n).tasks| && WarmsUp(StateAfter(env, acts, n).tasks[t].pc)
    ensures var pc := StateAfter(env, acts, n).tasks[t].pc;
      !pc.WarmLock? && !pc.Spawning? && !pc.LoopTop? && !pc.Relaying?
    decreases n
  {
    hide Step, Decide;
    if a < n {
      WarmupsOnlyWarmUp(env, acts, a, n - 1, t);
      var s := StateAfter(env, acts, n - 1);
      NextPc(env, s, acts[n - 1], t);
      if acts[n - 1].Run? {
        StepsOnTheWay(env, s, t, acts[n - 1].c);
      }
    }
  }

  /** The task has been at a step `k` after the `a`th where `f` holds of its program counter. */
  predicate HasBeenWarming(env: Env, acts: seq<Act>, a: nat, n: nat, t: nat)
    requires n <= |acts|
  {
    exists k :: a <= k <= n && WarmingAt(env, acts, k, t)
  }

  predicate WarmingAt(env: Env, acts: seq<Act>, k: nat, t: nat)
    requires k <= |acts|
  {
    t < |StateAfter(env, acts, k).tasks| && StateAfter(env, acts, k).tasks[t].pc.WarmLock?
  }

  /**
   * A handler that has come to the end of transaction_loop or of the relay goes to the warm-up,
   * whatever becomes of its backend, unless a malformed frame ends it in the reset before: it
   * does not end otherwise.
   */
  lemma {:induction false} UseEndsInWarmup(env: Env, acts: seq<Act>, a: nat, n: nat, t: nat)
    requires a <= n <= |acts| && t < |StateAfter(env, acts, a).tasks|
    requires StateAfter(env, acts, a).tasks[t].pc.LoopExit? || StateAfter(env, acts, a).tasks[t].pc.Relaying?
    ensures t < |StateAfter(env, acts, n).tasks|
    ensures OnTheWayOut(StateAfter(env, acts, n).tasks[t].pc) || HasBeenWarming(env, acts, a, n, t)
    ensures StateAfter(env, acts, n).tasks[t].pc.Done? ==> HasBeenWarming(env, acts, a, n, t)
    decreases n
  {
    hide Step, Decide, WarmingAt;
    if a < n {
      UseEndsInWarmup(env, acts, a, n - 1, t);
      var s := StateAfter(env, acts, n - 1);
      NextPc(env, s, acts[n - 1], t);
      if HasBeenWarming(env, acts, a, n - 1, t) {
        var k :| a <= k <= n - 1 && WarmingAt(env, acts, k, t);
        assert HasBeenWarming(env, acts, a, n, t);
      } else if acts[n - 1].Run? {
        StepsOnTheWay(env, s, t, acts[n - 1].c);
        if StateAfter(env, acts, n).tasks[t].pc.WarmLock? {
          assert WarmingAt(env, acts, n, t) by { IsWarming(env, acts, n, t); }
        }
      }
    }
  }

  lemma IsWarming(env: Env, acts: seq<Act>, n: nat, t: nat)
    requires n <= |acts| && t < |StateAfter(env, acts, n).tasks| && StateAfter(env, acts, n).tasks[t].pc.WarmLock?
    ensures WarmingAt(env, acts, n, t)
  {
  }

  /** The task was in its loop, or relaying, at some moment. */
  predicate HasServed(env: Env, acts: seq<Act>, n: nat, t: nat)
    requires n <= |acts|
  {
    exists k :: 0 <= k <= n && ServesAt(env, acts, k, t)
  }

  predicate ServesAt(env: Env, acts: seq<Act>, k: nat, t: nat)
    requires k <= |acts|
  {
    && t < |StateAfter(env, acts, k).tasks|
    && var pc := StateAfter(env, acts, k).tasks[t].pc; pc.LoopTop? || pc.Relaying?
  }

  /**
   * And only such a handler does: one whose client could not be told of a backend, or that got
   * none, ends without a warm-up.
   */
  lemma {:induction false} WarmupNeedsUse(env: Env, acts: seq<Act>, n: nat, t: nat)
    requires n <= |acts| && t < |StateAfter(env, acts, n).tasks|
    ensures BeforeUse(StateAfter(env, acts, n).tasks[t].pc) || HasServed(env, acts, n, t)
    ensures var pc := StateAfter(env, acts, n).tasks[t].pc;
      pc.WarmLock? || pc.Spawning? || pc.LoopExit? ==> HasServed(env, acts, n, t)
    decreases n
  {
    hide Step, Decide, ServesAt;
    if n > 0 {
      var s, r := StateAfter(env, acts, n - 1), StateAfter(env, acts, n);
      if t >= |s.tasks| {
        NewTaskIsEarly(env, s, acts[n - 1], t);
      } else {
        WarmupNeedsUse(env, acts, n - 1, t);
        NextPc(env, s, acts[n - 1], t);
        if HasServed(env, acts, n - 1, t) {
          var k :| 0 <= k <= n - 1 && ServesAt(env, acts, k, t);
          assert HasServed(env, acts, n, t);
        } else if acts[n - 1].Run? {
          StepsOnTheWay(env, s, t, acts[n - 1].c);
          if r.tasks[t].pc.LoopTop? || r.tasks[t].pc.Relaying? {
            assert ServesAt(env, acts, n, t) by { IsServing(env, acts, n, t); }
          }
        }
      }
    }
  }

  lemma IsServing(env: Env, acts: seq<Act>, n: nat, t: nat)
    requires n <= |acts| && t < |StateAfter(env, acts, n).tasks|
    requires StateAfter(env, acts, n).tasks[t].pc.LoopTop? || StateAfter(env, acts, n).tasks[t].pc.Relaying?
    ensures ServesAt(env, acts, n, t)
  {
  }

  lemma NewTaskIsEarly(env: Env, s: State, a: Act, t: nat)
    requires |s.tasks| <= t < |Step(env, s, a).tasks|
    ensures BeforeUse(Step(env, s, a).tasks[t].pc)
  {
    hide Decide, SemsAfter, LockAfter;
  }

  // ---- What becomes of a backend behind its use ----

  /**
   * In session mode a client that is told of its backend is relayed to it; one that cannot be
   * has the backend released if it was idle before, and the permit cancelled if it is new.
   */
  lemma AnnouncesExactly(env: Env, s: State, t: nat, c: Choice)
    requires t < |s.tasks| && s.tasks[t].pc.Announce?
    ensures var pc, next := s.tasks[t].pc, Decide(env, s, t, c).pc;
      && (next == Relaying(pc.b) <==> c.ok)
      && CallSeen(pc, next) == (if c.ok then [] else if pc.reused then [Released(pc.b)] else [Cancelled])
      && (!c.ok ==> Going(next) == Some(ThenDone) && BackendOf(next) == Some(pc.b))
  {
  }

  /**
   * Behind the relay the backend is released with what follows the first ReadyForQuery unread if
   * the reset finds one; the permit is cancelled, with the connection still open, if it does not;
   * and a malformed frame takes it down.
   */
  lemma RelayEndsExactly(env: Env, s: State, t: nat, c: Choice) returns (read: seq<Msg>)
    requires t < |s.tasks| && s.tasks[t].pc.Relaying?
    ensures var pc, next := s.tasks[t].pc, Decide(env, s, t, c).pc;
      var held, reset := pc.b.(unread := c.io.reply), c.io.reset;
      if AnsweredByGarble(held, reset) then next == Pc.Crashed
      else if Answered(held, reset) then
        && next.RelAge? && next.next == ThenWarmUp && next.b == held.(unread := next.b.unread)
        && UpToReady(read) && held.unread + reset.reply == read + next.b.unread
      else
        && next.RetLookup? && next.next == ThenWarmUp
        && next.open.Some? && next.open.value.id == pc.b.id && next.open.value.bornAt == pc.b.bornAt
  {
    hide Reset, Answered;
    read := ResetGoes(s.tasks[t].pc.b.(unread := c.io.reply), c.io.reset);
  }

  /** Behind transaction_loop the task does what the log of the loop by itself ends with. */
  lemma LoopEndsExactly(env: Env, s: State, t: nat, c: Choice)
    requires t < |s.tasks| && s.tasks[t].pc.LoopExit?
    ensures var pc, next := s.tasks[t].pc, Decide(env, s, t, c).pc;
      && CallSeen(pc, next) == FarewellLog(pc.loop, c.io.reset)
      && (pc.loop.server.None? ==> next == WarmLock)
      && (FarewellLog(pc.loop, c.io.reset) == [Cancelled] ==> next.open.Some?)
  {
    hide Reset;
  }

  // ---- The lock on the map of semaphores ----

  lemma NoInsertWhileRead(env: Env, s: State, t: nat, c: Choice)
    requires t < |s.tasks| && ReadLocked(s)
    ensures !Decide(env, s, t, c).insert
  {
    hide AfterPlan, OnEvent, Forward, Resume, AfterGrant, AfterFailedCreate, AfterUse, ScanOne, ReadLocked,
      Popped, IdleTooLong, TooOld, Elapsed, SemIndex, IdleLen, ResolveLimits, NewInner, PoolSpec.Enumerates, Capacity,
      AfterExit;
  }

  /** While any call of global_stats holds the map of semaphores for reading, no semaphore is added. */
  lemma SemaphoresStayWhileRead(env: Env, s: State, a: Act, t: nat)
    requires t < |s.tasks| && (s.tasks[t].pc.TotalLock? || s.tasks[t].pc.TotalScan?)
    ensures Step(env, s, a).semOf == s.semOf && |Step(env, s, a).sems| == |s.sems|
  {
    hide Decide, LockAfter, TasksAfter;
    assert ReadLocked(s);
    if a.Run? && a.t < |s.tasks| {
      NoInsertWhileRead(env, s, a.t, a.c);
    }
  }
}
