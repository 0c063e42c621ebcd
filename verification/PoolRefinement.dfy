// A call of the pool manager is a run of one task of the interleaved system.

/**
 * The sequential pool manager refines the interleaved one: whatever a call does to the pool
 * manager, a task that runs alone does step by step.
 */
module PoolRefinement {
  import opened Prelude
  import opened Backends
  import opened Pool
  import opened PoolSystem
  import opened PoolInvariant
  import PoolSpec

  // ---- Runs of one task ----

  function Exec(env: Env, s: State, acts: seq<Act>): State
    decreases |acts|
  {
    if acts == [] then s else Exec(env, Step(env, s, acts[0]), acts[1..])
  }

  lemma {:induction false} ExecAppend(env: Env, s: State, a: seq<Act>, b: seq<Act>)
    ensures Exec(env, s, a + b) == Exec(env, Exec(env, s, a), b)
    decreases |a|
  {
    if a == [] {
      assert a + b == b;
    } else {
      assert (a + b)[1..] == a[1..] + b;
      ExecAppend(env, Step(env, s, a[0]), a[1..], b);
    }
  }

  predicate Alone(acts: seq<Act>, t: nat) {
    forall i :: 0 <= i < |acts| ==> acts[i].Tick? || (acts[i].Run? && acts[i].t == t)
  }

  /** From `s` the system can get to `r` with no other task moving than `t`. */
  ghost predicate Solo(env: Env, s: State, t: nat, r: State) {
    exists acts :: Alone(acts, t) && Exec(env, s, acts) == r
  }

  lemma SoloAct(env: Env, s: State, t: nat, a: Act)
    requires Alone([a], t)
    ensures Solo(env, s, t, Step(env, s, a))
  {
    hide Step;
    assert [a][1..] == [];
    assert Exec(env, Step(env, s, a), []) == Step(env, s, a);
    assert Exec(env, s, [a]) == Step(env, s, a);
  }

  lemma SoloThen(env: Env, s: State, t: nat, r: State, u: State)
    requires Solo(env, s, t, r) && Solo(env, r, t, u)
    ensures Solo(env, s, t, u)
  {
    hide Step;
    var a :| Alone(a, t) && Exec(env, s, a) == r;
    var b :| Alone(b, t) && Exec(env, r, b) == u;
    ExecAppend(env, s, a, b);
    assert Alone(a + b, t);
  }

  // ---- One step ----

  /** The state in which task `t` is at `pc` and all else is as in `s`. */
  function At(s: State, t: nat, pc: Pc): State
    requires t < |s.tasks|
  {
    s.(tasks := s.tasks[t := Task(s.tasks[t].key, pc)])
  }

  /** Nothing keeps the task from going on: it waits for no lock of another one. */
  predicate Unhindered(s: State, t: nat) {
    && SemsOk(s) && t < |s.tasks|
    && (s.lock == None || s.lock == Some(t))
    && (forall u :: 0 <= u < |s.tasks| && u != t ==> !s.tasks[u].pc.TotalLock? && !s.tasks[u].pc.TotalScan?)
  }

  /** All but the tasks after a move. */
  function Around(env: Env, s: State, t: nat, mv: Move): State
    requires t < |s.tasks|
  {
    var key := s.tasks[t].key;
    s.(sems := SemsAfter(env, s, key, mv),
       semOf := if mv.insert then s.semOf[key := |s.sems|] else s.semOf,
       pools := if mv.inner.Some? then s.pools[key := mv.inner.value] else s.pools,
       lock := LockAfter(s, t, mv))
  }

  lemma Moves(env: Env, s: State, t: nat, pc: Pc, c: Choice, mv: Move)
    requires t < |s.tasks| && mv == Decide(env, At(s, t, pc), t, c) && !mv.create && !mv.spawn
    ensures Solo(env, At(s, t, pc), t, At(Around(env, s, t, mv), t, mv.pc))
  {
    hide Decide, Solo, Capacity;
    SoloAct(env, At(s, t, pc), t, Run(t, c));
    var r := Step(env, At(s, t, pc), Run(t, c));
    assert r.tasks == At(s, t, mv.pc).tasks;
  }

  lemma Goes(env: Env, s: State, t: nat, pc: Pc, c: Choice, next: Pc)
    requires t < |s.tasks| && SemsOk(s) && Decide(env, At(s, t, pc), t, c) == Go(next)
    ensures Solo(env, At(s, t, pc), t, At(s, t, next))
  {
    hide Decide, Solo, Capacity;
    Moves(env, s, t, pc, c, Go(next));
    assert Around(env, s, t, Go(next)).sems == s.sems;
  }

  /** The clock goes on while the task does nothing. */
  lemma Waits(env: Env, s: State, t: nat, pc: Pc, now: nat)
    requires t < |s.tasks| && s.now <= now
    ensures Solo(env, At(s, t, pc), t, At(s.(now := now), t, pc))
  {
    hide Solo;
    SoloAct(env, At(s, t, pc), t, Tick(now - s.now));
  }

  // ---- The state that a call sees ----

  function Permits(s: State): map<PoolKey, nat> {
    map k | k in s.semOf && s.semOf[k] < |s.sems| :: s.sems[s.semOf[k]].permits
  }

  /** With the number of times that the clock has been looked at. */
  function Seen(s: State, tick: nat): PoolSpec.PoolState {
    PoolSpec.PoolState(s.pools, Permits(s), tick)
  }

  function WithPermits(s: State, key: PoolKey, n: nat): (r: State)
    requires key in s.semOf && s.semOf[key] < |s.sems|
    ensures r == s.(sems := r.sems)
  {
    s.(sems := s.sems[s.semOf[key] := s.sems[s.semOf[key]].(permits := n)])
  }

  function PermitsIn(s: State, key: PoolKey): nat
    requires key in s.semOf && s.semOf[key] < |s.sems|
  {
    s.sems[s.semOf[key]].permits
  }

  function WithIdle(s: State, key: PoolKey, idle: seq<IdleConn>): State
    requires key in s.pools
  {
    s.(pools := s.pools[key := s.pools[key].(idle := idle)])
  }

  // ---- The pop loop of acquire ----

  /** The connection popped is too old: it is dropped and its permit is returned. */
  lemma Refunds(env: Env, s: State, t: nat, c: Choice, who: Who, sem: nat)
    requires Unhindered(s, t) && s.tasks[t].key in s.semOf
    ensures var key := s.tasks[t].key;
      Solo(env, At(s, t, AcqRefund(who, sem)), t, At(WithPermits(s, key, PermitsIn(s, key) + 1), t, AcqPop(who, sem)))
  {
    hide Solo, Capacity;
    Moves(env, s, t, AcqRefund(who, sem), c, Go(AcqPop(who, sem)).(add := 1));
  }

  lemma Takes(env: Env, s: State, t: nat, c: Choice, who: Who, sem: nat)
    requires Unhindered(s, t) && s.lock == Some(t)
    requires s.tasks[t].key in s.pools && s.pools[s.tasks[t].key].idle != []
    ensures var key := s.tasks[t].key;
      var (ic, rest) := Popped(s.pools[key].limits.strategy, s.pools[key].idle);
      Solo(env, At(s, t, AcqPop(who, sem)), t, At(WithIdle(s, key, rest), t, AcqIdleCheck(who, sem, ic)))
  {
    hide Solo, Capacity, Popped;
    var mv := Decide(env, At(s, t, AcqPop(who, sem)), t, c);
    Moves(env, s, t, AcqPop(who, sem), c, mv);
    assert SemsAfter(env, s, s.tasks[t].key, mv) == s.sems;
  }

  lemma Grants(env: Env, s: State, t: nat, c: Choice, who: Who, sem: nat, ic: IdleConn)
    requires Unhindered(s, t) && s.tasks[t].key in s.pools
    requires !TooOld(s.pools[s.tasks[t].key], ic, s.now)
    ensures Solo(env, At(s, t, AcqAgeCheck(who, sem, ic)), t,
      At(s.(lock := None), t, AfterGrant(who, ic.stream, true)))
  {
    hide Solo, Capacity, AfterGrant;
    var mv := Go(AfterGrant(who, ic.stream, true)).(lock := Free);
    Moves(env, s, t, AcqAgeCheck(who, sem, ic), c, mv);
    assert SemsAfter(env, s, s.tasks[t].key, mv) == s.sems;
  }

  /** Of the connection popped, the idle time is looked at first. */
  lemma ChecksIdle(env: Env, s: State, t: nat, c: Choice, who: Who, sem: nat, ic: IdleConn)
    requires Unhindered(s, t) && s.tasks[t].key in s.pools
    ensures Solo(env, At(s, t, AcqIdleCheck(who, sem, ic)), t,
      At(s, t, if IdleTooLong(s.pools[s.tasks[t].key], ic, s.now) then AcqRefund(who, sem)
               else AcqAgeCheck(who, sem, ic)))
  {
    hide Solo;
    Goes(env, s, t, AcqIdleCheck(who, sem, ic), c,
      if IdleTooLong(s.pools[s.tasks[t].key], ic, s.now) then AcqRefund(who, sem) else AcqAgeCheck(who, sem, ic));
  }

  lemma FindsTooOld(env: Env, s: State, t: nat, c: Choice, who: Who, sem: nat, ic: IdleConn)
    requires Unhindered(s, t) && s.tasks[t].key in s.pools
    requires TooOld(s.pools[s.tasks[t].key], ic, s.now)
    ensures Solo(env, At(s, t, AcqAgeCheck(who, sem, ic)), t, At(s, t, AcqRefund(who, sem)))
  {
    hide Solo;
    Goes(env, s, t, AcqAgeCheck(who, sem, ic), c, AcqRefund(who, sem));
  }

  /** `s` after a connection has been popped and found too old at time `now`. */
  function Dropped(s: State, key: PoolKey, rest: seq<IdleConn>, now: nat): (r: State)
    requires key in s.pools && key in s.semOf && s.semOf[key] < |s.sems|
    ensures r.tasks == s.tasks
  {
    WithPermits(WithIdle(s, key, rest), key, PermitsIn(s, key) + 1).(now := now)
  }

  /** One round of the loop, up to the next pop or to the connection granted. */
  lemma PopsOne(env: Env, s: State, t: nat, c: Choice, who: Who, sem: nat, clock: nat -> nat, tick: nat)
    requires Unhindered(s, t) && s.lock == Some(t)
    requires s.tasks[t].key in s.pools && s.pools[s.tasks[t].key].idle != [] && s.tasks[t].key in s.semOf
    requires s.now <= clock(tick) <= clock(tick + 1)
    ensures var key := s.tasks[t].key;
      var inner := s.pools[key];
      var (ic, rest) := Popped(inner.limits.strategy, inner.idle);
      var from := At(s, t, AcqPop(who, sem));
      if IdleTooLong(inner, ic, clock(tick)) then
        Solo(env, from, t, At(Dropped(s, key, rest, clock(tick)), t, AcqPop(who, sem)))
      else if TooOld(inner, ic, clock(tick + 1)) then
        Solo(env, from, t, At(Dropped(s, key, rest, clock(tick + 1)), t, AcqPop(who, sem)))
      else
        Solo(env, from, t,
          At(WithIdle(s, key, rest).(now := clock(tick + 1), lock := None), t, AfterGrant(who, ic.stream, true)))
  {
    hide Solo, Popped, AfterGrant, Decide;
    var key := s.tasks[t].key;
    var inner := s.pools[key];
    var (ic, rest) := Popped(inner.limits.strategy, inner.idle);
    var from := At(s, t, AcqPop(who, sem));
    var s1 := WithIdle(s, key, rest);
    var s2 := s1.(now := clock(tick));
    Takes(env, s, t, c, who, sem);
    Waits(env, s1, t, AcqIdleCheck(who, sem, ic), clock(tick));
    ChecksIdle(env, s2, t, c, who, sem, ic);
    SoloThen(env, from, t, At(s1, t, AcqIdleCheck(who, sem, ic)), At(s2, t, AcqIdleCheck(who, sem, ic)));
    if IdleTooLong(inner, ic, clock(tick)) {
      SoloThen(env, from, t, At(s2, t, AcqIdleCheck(who, sem, ic)), At(s2, t, AcqRefund(who, sem)));
      Refunds(env, s2, t, c, who, sem);
      SoloThen(env, from, t, At(s2, t, AcqRefund(who, sem)),
        At(Dropped(s, key, rest, clock(tick)), t, AcqPop(who, sem)));
    } else {
      var s3 := s1.(now := clock(tick + 1));
      SoloThen(env, from, t, At(s2, t, AcqIdleCheck(who, sem, ic)), At(s2, t, AcqAgeCheck(who, sem, ic)));
      Waits(env, s2, t, AcqAgeCheck(who, sem, ic), clock(tick + 1));
      SoloThen(env, from, t, At(s2, t, AcqAgeCheck(who, sem, ic)), At(s3, t, AcqAgeCheck(who, sem, ic)));
      if TooOld(inner, ic, clock(tick + 1)) {
        FindsTooOld(env, s3, t, c, who, sem, ic);
        SoloThen(env, from, t, At(s3, t, AcqAgeCheck(who, sem, ic)), At(s3, t, AcqRefund(who, sem)));
        Refunds(env, s3, t, c, who, sem);
        SoloThen(env, from, t, At(s3, t, AcqRefund(who, sem)),
          At(Dropped(s, key, rest, clock(tick + 1)), t, AcqPop(who, sem)));
      } else {
        Grants(env, s3, t, c, who, sem, ic);
        SoloThen(env, from, t, At(s3, t, AcqAgeCheck(who, sem, ic)),
          At(s3.(lock := None), t, AfterGrant(who, ic.stream, true)));
      }
    }
  }

  /** `s` after the whole loop. */
  function Drained(s: State, key: PoolKey, r: PopResult, now: nat): (r': State)
    requires key in s.pools && key in s.semOf && s.semOf[key] < |s.sems|
    ensures r'.tasks == s.tasks
  {
    WithPermits(WithIdle(s, key, r.rest), key, PermitsIn(s, key) + r.dropped).(now := now, lock := None)
  }

  function AfterLoop(who: Who, sem: nat, r: PopResult): Pc {
    match r.found
    case Some(b) => AfterGrant(who, b, true)
    case None => AcqBlocked(who, sem)
  }

  lemma GivesUp(env: Env, s: State, t: nat, c: Choice, who: Who, sem: nat)
    requires Unhindered(s, t)
    requires s.tasks[t].key in s.pools && s.pools[s.tasks[t].key].idle == []
    ensures Solo(env, At(s, t, AcqPop(who, sem)), t, At(s.(lock := None), t, AcqBlocked(who, sem)))
  {
    hide Solo, Capacity;
    var mv := Go(AcqBlocked(who, sem)).(lock := Free);
    Moves(env, s, t, AcqPop(who, sem), c, mv);
    assert SemsAfter(env, s, s.tasks[t].key, mv) == s.sems;
  }

  lemma DrainedTwice(s: State, key: PoolKey, rest: seq<IdleConn>, now: nat, r: PopResult, end: nat)
    requires key in s.pools && key in s.semOf && s.semOf[key] < |s.sems|
    ensures Drained(Dropped(s, key, rest, now), key, r, end) == Drained(s, key, OneMore(r), end)
  {
    var a, b := Drained(Dropped(s, key, rest, now), key, r, end), Drained(s, key, OneMore(r), end);
    assert a.pools == b.pools;
    assert a.sems == b.sems;
  }

  lemma DroppedUnhindered(s: State, t: nat, key: PoolKey, rest: seq<IdleConn>, now: nat)
    requires Unhindered(s, t) && key in s.pools && key in s.semOf
    ensures Unhindered(Dropped(s, key, rest, now), t)
  {
  }

  lemma DrainedWithoutRefund(s: State, key: PoolKey, r: PopResult, now: nat)
    requires key in s.pools && key in s.semOf && s.semOf[key] < |s.sems| && r.dropped == 0
    ensures Drained(s, key, r, now) == WithIdle(s, key, r.rest).(now := now, lock := None)
    ensures r.rest == s.pools[key].idle ==> Drained(s, key, r, now) == s.(now := now, lock := None)
  {
    assert Drained(s, key, r, now).sems == s.sems;
  }

  /** The loop looks at what it is given to pop from and at nothing else that is idle. */
  lemma {:induction false} PopLoopOf(inner: PoolInner, other: seq<IdleConn>, idle: seq<IdleConn>,
      clock: nat -> nat, tick: nat)
    ensures PopLoop(inner.(idle := other), idle, clock, tick) == PopLoop(inner, idle, clock, tick)
    decreases |idle|
  {
    if idle != [] {
      var rest := Popped(inner.limits.strategy, idle).1;
      PopLoopOf(inner, other, rest, clock, tick + 1);
      PopLoopOf(inner, other, rest, clock, tick + 2);
    }
  }

  /** The loop, all of it. */
  lemma {:induction false} PopsAll(env: Env, s: State, t: nat, c: Choice, who: Who, sem: nat,
      clock: nat -> nat, tick: nat)
      returns (now: nat)
    requires Unhindered(s, t) && s.lock == Some(t)
    requires s.tasks[t].key in s.pools && s.tasks[t].key in s.semOf
    requires s.now <= clock(tick) && Monotone(clock)
    ensures var key := s.tasks[t].key;
      var r := PopLoop(s.pools[key], s.pools[key].idle, clock, tick);
      && s.now <= now <= clock(r.tick)
      && Solo(env, At(s, t, AcqPop(who, sem)), t, At(Drained(s, key, r, now), t, AfterLoop(who, sem, r)))
    decreases |s.pools[s.tasks[t].key].idle|, 1
  {
    hide Solo, AfterGrant, Decide, Drained, At, WithPermits, Dropped;
    var key := s.tasks[t].key;
    var inner := s.pools[key];
    var from := At(s, t, AcqPop(who, sem));
    var r := PopLoop(inner, inner.idle, clock, tick);
    if inner.idle == [] {
      now := s.now;
      GivesUp(env, s, t, c, who, sem);
      DrainedWithoutRefund(s, key, r, now);
    } else {
      var (ic, rest) := Popped(inner.limits.strategy, inner.idle);
      PopsOne(env, s, t, c, who, sem, clock, tick);
      if IdleTooLong(inner, ic, clock(tick)) || TooOld(inner, ic, clock(tick + 1)) {
        var next := if IdleTooLong(inner, ic, clock(tick)) then tick + 1 else tick + 2;
        now := PopsOnwards(env, from, s, t, c, who, sem, clock, next, rest);
      } else {
        now := clock(tick + 1);
        DrainedWithoutRefund(s, key, r, now);
      }
    }
  }

  /** What the loop does after a connection has been dropped. */
  lemma {:induction false} PopsOnwards(env: Env, from: State, s: State, t: nat, c: Choice, who: Who, sem: nat,
      clock: nat -> nat, next: nat, rest: seq<IdleConn>)
      returns (now: nat)
    requires Unhindered(s, t) && s.lock == Some(t)
    requires s.tasks[t].key in s.pools && s.tasks[t].key in s.semOf
    requires next > 0 && s.now <= clock(next - 1) && Monotone(clock)
    requires |rest| < |s.pools[s.tasks[t].key].idle|
    requires Solo(env, from, t, At(Dropped(s, s.tasks[t].key, rest, clock(next - 1)), t, AcqPop(who, sem)))
    ensures var key := s.tasks[t].key;
      var r := PopLoop(s.pools[key], rest, clock, next);
      && s.now <= now <= clock(r.tick)
      && Solo(env, from, t, At(Drained(s, key, OneMore(r), now), t, AfterLoop(who, sem, r)))
    decreases |s.pools[s.tasks[t].key].idle|, 0
  {
    hide Solo, AfterGrant, Decide, Drained, At, PopLoop;
    var key := s.tasks[t].key;
    var s1 := Dropped(s, key, rest, clock(next - 1));
    DroppedUnhindered(s, t, key, rest, clock(next - 1));
    assert clock(next - 1) <= clock(next);
    now := PopsAll(env, s1, t, c, who, sem, clock, next);
    PopLoopOf(s.pools[key], rest, rest, clock, next);
    var r := PopLoop(s.pools[key], rest, clock, next);
    DrainedTwice(s, key, rest, clock(next - 1), r, now);
    SoloThen(env, from, t, At(s1, t, AcqPop(who, sem)), At(Drained(s1, key, r, now), t, AfterLoop(who, sem, r)));
  }

  // ---- The semaphore of a key ----

  /** `s` with a semaphore for the key. */
  function WithSem(env: Env, s: State, key: PoolKey): (r: State)
    ensures r == s.(sems := r.sems, semOf := r.semOf)
  {
    if key in s.semOf then s
    else s.(sems := s.sems + [Sem(key, Capacity(env.cfg, key))], semOf := s.semOf[key := |s.sems|])
  }

  lemma WithSemSeen(env: Env, s: State, key: PoolKey, tick: nat)
    requires SemsOk(s)
    ensures var r := WithSem(env, s, key);
      SemsOk(r) && key in r.semOf && r.semOf[key] == SemIndex(s, key) && r.semOf[key] < |r.sems|
      && Seen(r, tick) == PoolSpec.WithSemaphore(env.cfg, Seen(s, tick), key)
  {
    hide Capacity;
    var r := WithSem(env, s, key);
    if key !in s.semOf {
      assert Permits(r) == Permits(s)[key := Capacity(env.cfg, key)];
    }
  }

  lemma WithPermitsSeen(s: State, key: PoolKey, n: nat)
    requires SemsOk(s) && key in s.semOf
    ensures SemsOk(WithPermits(s, key, n)) && key in Permits(s) && Permits(s)[key] == PermitsIn(s, key)
    ensures Permits(WithPermits(s, key, n)) == Permits(s)[key := n]
  {
  }

  lemma NotReadLocked(s: State, t: nat, pc: Pc)
    requires Unhindered(s, t) && !pc.TotalLock? && !pc.TotalScan?
    ensures !ReadLocked(At(s, t, pc))
  {
  }

  lemma AcquireFinds(env: Env, s: State, t: nat, c: Choice, who: Who)
    requires Unhindered(s, t)
    ensures var key := s.tasks[t].key;
      Solo(env, At(s, t, AcqLookup(who)), t, At(WithSem(env, s, key), t, AcqLock(who, SemIndex(s, key))))
  {
    hide Solo, Capacity, ReadLocked;
    var key := s.tasks[t].key;
    if key in s.semOf {
      Goes(env, s, t, AcqLookup(who), c, AcqLock(who, s.semOf[key]));
    } else {
      NotReadLocked(s, t, AcqInsert(who));
      Goes(env, s, t, AcqLookup(who), c, AcqInsert(who));
      Moves(env, s, t, AcqInsert(who), c, GoInserting(s, key, AcqLock(who, SemIndex(s, key))));
      SoloThen(env, At(s, t, AcqLookup(who)), t, At(s, t, AcqInsert(who)),
        At(WithSem(env, s, key), t, AcqLock(who, SemIndex(s, key))));
    }
  }

  lemma ReturnFinds(env: Env, s: State, t: nat, c: Choice, open: Option<Backend>, next: Then)
    requires Unhindered(s, t)
    ensures var key := s.tasks[t].key;
      Solo(env, At(s, t, RetLookup(open, next)), t, At(WithSem(env, s, key), t, RetAdd(open, next, SemIndex(s, key))))
  {
    hide Solo, Capacity, ReadLocked;
    var key := s.tasks[t].key;
    if key in s.semOf {
      Goes(env, s, t, RetLookup(open, next), c, RetAdd(open, next, s.semOf[key]));
    } else {
      NotReadLocked(s, t, RetInsert(open, next));
      Goes(env, s, t, RetLookup(open, next), c, RetInsert(open, next));
      Moves(env, s, t, RetInsert(open, next), c, GoInserting(s, key, RetAdd(open, next, SemIndex(s, key))));
      SoloThen(env, At(s, t, RetLookup(open, next)), t, At(s, t, RetInsert(open, next)),
        At(WithSem(env, s, key), t, RetAdd(open, next, SemIndex(s, key))));
    }
  }

  // ---- The calls ----

  function AfterReturn(open: Option<Backend>, next: Then): Pc {
    match open
    case None => Resume(next)
    case Some(b) => Closing(b, next)
  }

  lemma Returns(env: Env, s: State, t: nat, c: Choice, open: Option<Backend>, next: Then)
    requires Unhindered(s, t) && s.tasks[t].key in s.semOf
    ensures var key := s.tasks[t].key;
      Solo(env, At(s, t, RetAdd(open, next, s.semOf[key])), t,
        At(WithPermits(s, key, PermitsIn(s, key) + 1), t, AfterReturn(open, next)))
  {
    hide Solo, Capacity, Resume;
    var key := s.tasks[t].key;
    Moves(env, s, t, RetAdd(open, next, s.semOf[key]), c, Go(AfterReturn(open, next)).(add := 1));
  }

  /** Where a task that has run a call by itself leaves the system. */
  ghost predicate Leaves(env: Env, s: State, t: nat, r: State, pc: Pc) {
    && t < |s.tasks| && Solo(env, s, t, r)
    && SemsOk(r) && r.lock == None && s.now <= r.now
    && r.born == s.born && r.tasks == s.tasks[t := Task(s.tasks[t].key, pc)]
  }

  /** `s` with one permit more for the key. */
  function Cancelled(env: Env, s: State, key: PoolKey): (r: State)
    requires SemsOk(s)
    ensures r.tasks == s.tasks
  {
    WithSemSeen(env, s, key, 0);
    WithPermits(WithSem(env, s, key), key, PermitsIn(WithSem(env, s, key), key) + 1)
  }

  lemma CancelledSeen(env: Env, s: State, key: PoolKey, tick: nat)
    requires SemsOk(s)
    ensures var r := Cancelled(env, s, key);
      && SemsOk(r) && r.lock == s.lock && r.now == s.now && r.born == s.born
      && Seen(r, tick) == PoolSpec.Cancel(env.cfg, Seen(s, tick), key)
  {
    hide Capacity, WithSem, WithPermits, SemsOk, Permits;
    WithSemSeen(env, s, key, tick);
    WithPermitsSeen(WithSem(env, s, key), key, PermitsIn(WithSem(env, s, key), key) + 1);
  }

  /** By itself, a task that returns a permit does what `PoolSpec.Cancel` says. */
  lemma CancelIsARun(env: Env, s: State, t: nat, c: Choice, open: Option<Backend>, next: Then, tick: nat)
      returns (r: State)
    requires Unhindered(s, t) && s.lock == None && s.tasks[t].pc == RetLookup(open, next)
    ensures Leaves(env, s, t, r, AfterReturn(open, next)) && r.now == s.now
    ensures Seen(r, tick) == PoolSpec.Cancel(env.cfg, Seen(s, tick), s.tasks[t].key)
  {
    hide Solo, Capacity, Decide, WithPermits, Seen, AfterReturn;
    var key := s.tasks[t].key;
    var s1 := WithSem(env, s, key);
    WithSemSeen(env, s, key, tick);
    ReturnFinds(env, s, t, c, open, next);
    Returns(env, s1, t, c, open, next);
    CancelledSeen(env, s, key, tick);
    var s2 := Cancelled(env, s, key);
    r := At(s2, t, AfterReturn(open, next));
    assert s == At(s, t, RetLookup(open, next));
    SoloThen(env, s, t, At(s1, t, RetAdd(open, next, SemIndex(s, key))), r);
    SeenAt(s2, t, AfterReturn(open, next), tick);
  }

  lemma SeenAt(s: State, t: nat, pc: Pc, tick: nat)
    requires t < |s.tasks|
    ensures Seen(At(s, t, pc), tick) == Seen(s, tick)
    ensures SemsOk(At(s, t, pc)) <==> SemsOk(s)
  {
  }

  function EntryOf(env: Env, s: State, key: PoolKey): PoolInner {
    if key in s.pools then s.pools[key] else NewInner(env.cfg, key)
  }

  function WithPool(s: State, key: PoolKey, inner: PoolInner): (r: State)
    ensures r.tasks == s.tasks
  {
    s.(pools := s.pools[key := inner])
  }

  lemma LooksAtAge(env: Env, s: State, t: nat, c: Choice, b: Backend, next: Then)
    requires Unhindered(s, t)
    ensures Solo(env, At(s, t, RelAge(b, next)), t,
      At(s, t, if Elapsed(s.now, b.bornAt) >= env.cfg.serverLifetime then RelDrop(b, next) else RelLock(b, next)))
  {
    hide Solo;
    Goes(env, s, t, RelAge(b, next), c,
      if Elapsed(s.now, b.bornAt) >= env.cfg.serverLifetime then RelDrop(b, next) else RelLock(b, next));
  }

  lemma Parks(env: Env, s: State, t: nat, c: Choice, b: Backend, next: Then)
    requires Unhindered(s, t) && s.lock == None
    ensures var key := s.tasks[t].key;
      var inner := EntryOf(env, s, key);
      if |inner.idle| < inner.limits.maxSize then
        Solo(env, At(s, t, RelLock(b, next)), t,
          At(WithPool(s, key, inner.(idle := inner.idle + [IdleConn(b, s.now)])), t, Resume(next)))
      else
        Solo(env, At(s, t, RelLock(b, next)), t, At(WithPool(s, key, inner), t, RelDrop(b, next)))
  {
    hide Solo, Capacity, Resume, NewInner;
    var key := s.tasks[t].key;
    var inner := EntryOf(env, s, key);
    var room := |inner.idle| < inner.limits.maxSize;
    var mv := if room then Go(Resume(next)).(inner := Some(inner.(idle := inner.idle + [IdleConn(b, s.now)])))
      else Go(RelDrop(b, next)).(inner := Some(inner));
    Moves(env, s, t, RelLock(b, next), c, mv);
    assert SemsAfter(env, s, key, mv) == s.sems;
  }

  /** From the drop on, `release` is a `cancel`. */
  lemma DropsAndCancels(env: Env, s: State, t: nat, c: Choice, b: Backend, next: Then, tick: nat)
      returns (r: State)
    requires Unhindered(s, t) && s.lock == None
    ensures Leaves(env, At(s, t, RelDrop(b, next)), t, r, Resume(next)) && r.now == s.now
    ensures Seen(r, tick) == PoolSpec.Cancel(env.cfg, Seen(s, tick), s.tasks[t].key)
  {
    hide Solo, Capacity, Resume, Seen, SemsOk;
    var from := At(s, t, RelDrop(b, next));
    var s1 := At(s, t, RetLookup(None, next));
    assert Solo(env, from, t, s1) by {
      SemsOfUnhindered(s, t);
      Goes(env, s, t, RelDrop(b, next), c, RetLookup(None, next));
    }
    SeenAt(s, t, RetLookup(None, next), tick);
    hide Decide;
    r := CancelIsARun(env, s1, t, c, None, next, tick);
    SoloThen(env, from, t, s1, r);
  }

  lemma SemsOfUnhindered(s: State, t: nat)
    requires Unhindered(s, t)
    ensures SemsOk(s)
  {
  }

  /** By itself, a task that gives back a backend does what `PoolSpec.Release` says. */
  lemma ReleaseIsARun(env: Env, s: State, t: nat, c: Choice, b: Backend, next: Then, clock: nat -> nat, tick: nat)
      returns (r: State)
    requires Unhindered(s, t) && s.lock == None && s.tasks[t].pc == RelAge(b, next)
    requires s.now <= clock(tick) && Monotone(clock)
    ensures var p := PoolSpec.Release(env.cfg, clock, Seen(s, tick), s.tasks[t].key, b);
      && Leaves(env, s, t, r, Resume(next)) && r.now <= clock(p.tick)
      && Seen(r, p.tick) == p
  {
    hide Solo, Capacity, Resume, Decide, SemsOk, NewInner, Permits;
    var s1 := s.(now := clock(tick));
    assert s == At(s, t, RelAge(b, next));
    Waits(env, s, t, RelAge(b, next), clock(tick));
    SemsLater(s, clock(tick), tick + 1);
    LooksAtAge(env, s1, t, c, b, next);
    if Elapsed(clock(tick), b.bornAt) >= env.cfg.serverLifetime {
      SoloThen(env, s, t, At(s1, t, RelAge(b, next)), At(s1, t, RelDrop(b, next)));
      r := DropsAndCancels(env, s1, t, c, b, next, tick + 1);
      SoloThen(env, s, t, At(s1, t, RelDrop(b, next)), r);
    } else {
      SoloThen(env, s, t, At(s1, t, RelAge(b, next)), At(s1, t, RelLock(b, next)));
      r := ParksOrCancels(env, s1, t, c, b, next, clock, tick + 1);
      SoloThen(env, s, t, At(s1, t, RelLock(b, next)), r);
    }
  }

  lemma SemsLater(s: State, now: nat, tick: nat)
    ensures SemsOk(s.(now := now)) <==> SemsOk(s)
    ensures Seen(s.(now := now), tick) == Seen(s, tick)
  {
  }

  lemma SemsWithPool(s: State, key: PoolKey, inner: PoolInner)
    ensures SemsOk(WithPool(s, key, inner)) <==> SemsOk(s)
    ensures Permits(WithPool(s, key, inner)) == Permits(s)
  {
  }

  lemma ParksOrCancels(env: Env, s: State, t: nat, c: Choice, b: Backend, next: Then, clock: nat -> nat, tick: nat)
      returns (r: State)
    requires Unhindered(s, t) && s.lock == None && s.now <= clock(tick) <= clock(tick + 1)
    ensures var key := s.tasks[t].key;
      var p := Seen(s, tick);
      var inner := PoolSpec.Entry(env.cfg, p, key);
      var q := if |inner.idle| < inner.limits.maxSize
        then PoolSpec.PoolState(
          p.pools[key := inner.(idle := inner.idle + [IdleConn(b, clock(tick))])], p.permits, tick + 1)
        else PoolSpec.Cancel(env.cfg, p.(pools := p.pools[key := inner]), key);
      && Leaves(env, At(s, t, RelLock(b, next)), t, r, Resume(next)) && r.now == clock(tick)
      && Seen(r, q.tick) == q
  {
    hide Solo, Capacity, Resume, Decide, SemsOk, NewInner, Permits;
    var key := s.tasks[t].key;
    var from := At(s, t, RelLock(b, next));
    var s1 := s.(now := clock(tick));
    Waits(env, s, t, RelLock(b, next), clock(tick));
    SemsLater(s, clock(tick), tick);
    Parks(env, s1, t, c, b, next);
    var inner := EntryOf(env, s1, key);
    var parked := inner.(idle := inner.idle + [IdleConn(b, clock(tick))]);
    if |inner.idle| < inner.limits.maxSize {
      r := At(WithPool(s1, key, parked), t, Resume(next));
      SoloThen(env, from, t, At(s1, t, RelLock(b, next)), r);
      SemsWithPool(s1, key, parked);
      SeenAt(WithPool(s1, key, parked), t, Resume(next), tick + 1);
    } else {
      var s2 := WithPool(s1, key, inner);
      SoloThen(env, from, t, At(s1, t, RelLock(b, next)), At(s2, t, RelDrop(b, next)));
      SemsWithPool(s1, key, inner);
      r := DropsAndCancels(env, s2, t, c, b, next, tick);
      SoloThen(env, from, t, At(s2, t, RelDrop(b, next)), r);
    }
  }

  function WithLock(s: State, t: nat): (r: State)
    ensures r.tasks == s.tasks
  {
    s.(lock := Some(t))
  }

  lemma Locks(env: Env, s: State, t: nat, c: Choice, who: Who, sem: nat)
    requires Unhindered(s, t) && s.lock == None
    ensures if s.tasks[t].key in s.pools
      then Solo(env, At(s, t, AcqLock(who, sem)), t, At(WithLock(s, t), t, AcqPop(who, sem)))
      else Solo(env, At(s, t, AcqLock(who, sem)), t, At(s, t, AcqBlocked(who, sem)))
  {
    hide Solo, Capacity;
    if s.tasks[t].key in s.pools {
      var mv := Go(AcqPop(who, sem)).(lock := Take);
      Moves(env, s, t, AcqLock(who, sem), c, mv);
      assert SemsAfter(env, s, s.tasks[t].key, mv) == s.sems;
    } else {
      Goes(env, s, t, AcqLock(who, sem), c, AcqBlocked(who, sem));
    }
  }

  lemma DrainedSeen(s: State, key: PoolKey, r: PopResult, now: nat)
    requires SemsOk(s) && key in s.pools && key in s.semOf
    ensures var d := Drained(s, key, r, now);
      && SemsOk(d) && d.lock == None && d.now == now && d.born == s.born && d.semOf == s.semOf
      && d.pools == s.pools[key := s.pools[key].(idle := r.rest)]
      && key in Permits(s) && Permits(d) == Permits(s)[key := Permits(s)[key] + r.dropped]
  {
    hide PopLoop, SemsOk, Permits, WithPermits;
    var s1 := WithIdle(s, key, r.rest);
    LockedSems(s, 0, key);
    SameSems(s, s1);
    var s2 := WithPermits(s1, key, PermitsIn(s, key) + r.dropped);
    WithPermitsSeen(s1, key, PermitsIn(s, key) + r.dropped);
    SameSems(s2, Drained(s, key, r, now));
  }

  lemma SameSems(s: State, r: State)
    requires r.sems == s.sems && r.semOf == s.semOf
    ensures Permits(r) == Permits(s) && (SemsOk(r) <==> SemsOk(s))
  {
  }

  /** Whether or not there is a pool to look into, and up to the connection granted or the wait. */
  lemma LooksForIdle(env: Env, s: State, t: nat, c: Choice, who: Who, clock: nat -> nat, tick: nat)
      returns (r: State)
    requires Unhindered(s, t) && s.lock == None && s.tasks[t].key in s.semOf
    requires s.now <= clock(tick) && Monotone(clock)
    ensures var key := s.tasks[t].key;
      var (p, found) := PoolSpec.PopIdle(env.cfg, clock, Seen(s, tick), key);
      var pc := match found case Some(b) => AfterGrant(who, b, true) case None => AcqBlocked(who, s.semOf[key]);
      && Leaves(env, At(s, t, AcqLock(who, s.semOf[key])), t, r, pc) && r.now <= clock(p.tick)
      && r.semOf == s.semOf && Seen(r, p.tick) == p
  {
    hide Solo, Capacity, AfterGrant, Decide, Drained, PopLoop, SemsOk, Permits;
    var key := s.tasks[t].key;
    var sem := s.semOf[key];
    var from := At(s, t, AcqLock(who, sem));
    SemsOfUnhindered(s, t);
    WithSemSeen(env, s, key, tick);
    Locks(env, s, t, c, who, sem);
    if key !in s.pools {
      r := At(s, t, AcqBlocked(who, sem));
      SeenAt(s, t, AcqBlocked(who, sem), tick);
    } else {
      var inner := s.pools[key];
      var found := PopLoop(inner, inner.idle, clock, tick);
      assert SemsOk(WithLock(s, t)) && sem < |s.sems| by { LockedSems(s, t, key); }
      var now := PopsAll(env, WithLock(s, t), t, c, who, sem, clock, tick);
      DrainedSeen(WithLock(s, t), key, found, now);
      var d := Drained(WithLock(s, t), key, found, now);
      r := At(d, t, AfterLoop(who, sem, found));
      SoloThen(env, from, t, At(WithLock(s, t), t, AcqPop(who, sem)), r);
      SeenAt(d, t, AfterLoop(who, sem, found), found.tick);
      SameSems(s, WithLock(s, t));
    }
  }

  lemma LockedSems(s: State, t: nat, key: PoolKey)
    requires SemsOk(s) && key in s.semOf
    ensures SemsOk(WithLock(s, t)) && s.semOf[key] < |s.sems|
  {
  }

  /** The blocking part: a permit is taken if there is one. */
  lemma TakesPermit(env: Env, s: State, t: nat, c: Choice, who: Who)
    requires Unhindered(s, t) && s.lock == None && s.tasks[t].key in s.semOf
    ensures var key := s.tasks[t].key;
      PermitsIn(s, key) > 0 ==>
        Solo(env, At(s, t, AcqBlocked(who, s.semOf[key])), t,
          At(WithPermits(s, key, PermitsIn(s, key) - 1), t, Creating(who, s.now)))
  {
    hide Solo, Capacity;
    var key := s.tasks[t].key;
    if PermitsIn(s, key) > 0 {
      Moves(env, s, t, AcqBlocked(who, s.semOf[key]), c, Go(Creating(who, s.now)).(add := -1));
    }
  }

  /** The task goes on with the backend, or to create one with its permit, or waits. */
  function AfterAcquire(who: Who, sem: nat, now: nat, outcome: PoolSpec.Outcome): Pc {
    match outcome
    case Reused(b) => AfterGrant(who, b, true)
    case NewPermit => Creating(who, now)
    case MustWait => AcqBlocked(who, sem)
  }

  /** By itself, a task that wants a backend does what `PoolSpec.Acquire` says. */
  lemma AcquireIsARun(env: Env, s: State, t: nat, c: Choice, who: Who, clock: nat -> nat, tick: nat)
      returns (r: State)
    requires Unhindered(s, t) && s.lock == None && s.tasks[t].pc == AcqLookup(who)
    requires s.now <= clock(tick) && Monotone(clock)
    ensures var key := s.tasks[t].key;
      var (p, outcome) := PoolSpec.Acquire(env.cfg, clock, Seen(s, tick), key);
      && Leaves(env, s, t, r, AfterAcquire(who, SemIndex(s, key), r.now, outcome)) && r.now <= clock(p.tick)
      && Seen(r, p.tick) == p
  {
    hide Solo, Capacity, AfterGrant, Decide, Drained, PoolSpec.PopIdle, SemsOk, Seen;
    var key := s.tasks[t].key;
    var sem := SemIndex(s, key);
    var s1 := WithSem(env, s, key);
    SemsOfUnhindered(s, t);
    WithSemSeen(env, s, key, tick);
    AcquireFinds(env, s, t, c, who);
    assert s == At(s, t, AcqLookup(who));
    var r1 := LooksForIdle(env, s1, t, c, who, clock, tick);
    SoloThen(env, s, t, At(s1, t, AcqLock(who, sem)), r1);
    var (p, found) := PoolSpec.PopIdle(env.cfg, clock, Seen(s, tick), key);
    PopIdleAfterSemaphore(env.cfg, clock, Seen(s, tick), key);
    if found.None? {
      r := TakesOrWaits(env, s, t, c, who, r1, sem, p.tick);
    } else {
      r := r1;
    }
  }

  /** The look-up of the semaphore that a call starts with may be repeated. */
  lemma PopIdleAfterSemaphore(cfg: PoolConfig, clock: nat -> nat, s: PoolSpec.PoolState, key: PoolKey)
    ensures PoolSpec.PopIdle(cfg, clock, PoolSpec.WithSemaphore(cfg, s, key), key)
      == PoolSpec.PopIdle(cfg, clock, s, key)
    ensures key in PoolSpec.PopIdle(cfg, clock, s, key).0.permits
  {
    hide PopLoop;
  }

  /** The end of `acquire`, for a task that has found no idle connection. */
  lemma TakesOrWaits(env: Env, s: State, t: nat, c: Choice, who: Who, r1: State, sem: nat, tick: nat)
      returns (r: State)
    requires Unhindered(s, t) && Unhindered(r1, t) && Leaves(env, s, t, r1, AcqBlocked(who, sem))
    requires s.tasks[t].key in r1.semOf && r1.semOf[s.tasks[t].key] == sem
    ensures var key := s.tasks[t].key;
      var p := Seen(r1, tick);
      && key in p.permits && r.now == r1.now
      && if p.permits[key] > 0
         then Leaves(env, s, t, r, Creating(who, r.now))
           && Seen(r, tick) == p.(permits := p.permits[key := p.permits[key] - 1])
         else Leaves(env, s, t, r, AcqBlocked(who, sem)) && Seen(r, tick) == p
  {
    hide Solo, Capacity, Decide, SemsOk, Permits;
    var key := s.tasks[t].key;
    SemsOfUnhindered(r1, t);
    LockedSems(r1, t, key);
    var n := PermitsIn(r1, key);
    WithPermitsSeen(r1, key, n);
    r := r1;
    if n > 0 {
      var r2 := WithPermits(r1, key, n - 1);
      assert r1 == At(r1, t, AcqBlocked(who, sem));
      TakesPermit(env, r1, t, c, who);
      WithPermitsSeen(r1, key, n - 1);
      r := At(r2, t, Creating(who, r1.now));
      SoloThen(env, s, t, r1, r);
      SeenAt(r2, t, Creating(who, r1.now), tick);
    }
  }
}
