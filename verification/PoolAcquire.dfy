// src/pool/mod.rs: the pop loop of acquire among any other tasks.

module PoolAcquire {
  import opened Prelude
  import opened Backends
  import opened Pool
  import opened PoolSystem
  import opened PoolInvariant
  import opened PoolSafety
  import opened PoolTheorems

  /** The task is in the pop loop, with the lock. */
  predicate Popping(pc: Pc) {
    pc.AcqPop? || pc.AcqIdleCheck? || pc.AcqAgeCheck? || pc.AcqRefund?
  }

  /** It has a connection in hand that it has popped. */
  predicate InHand(pc: Pc) {
    pc.AcqIdleCheck? || pc.AcqAgeCheck? || pc.AcqRefund?
  }

  /** The connection had not idled too long at some moment from `from` to `now`. */
  ghost predicate Passed(inner: PoolInner, ic: IdleConn, from: nat, now: nat) {
    exists u: nat :: from <= u <= now && Within(inner.idleTimeout, ic.parkedSince, u)
  }

  predicate Expired(inner: PoolInner, ic: IdleConn, now: nat) {
    !StillFresh(inner, ic, now, now)
  }

  predicate AllExpired(inner: PoolInner, order: seq<IdleConn>, n: nat, now: nat)
    requires n <= |order|
  {
    forall i :: 0 <= i < n ==> Expired(inner, order[i], now)
  }

  /**
   * Of the connections in strategy order that were idle when the loop began at time `from`, the
   * first `d` have been dropped, expired; the rest are as they were, but for the one in hand.
   */
  ghost predicate PoppedSoFar(inner: PoolInner, from: nat, now: nat, idle: seq<IdleConn>, pc: Pc, d: nat) {
    var order := InOrder(inner.limits.strategy, inner.idle);
    var rest := InOrder(inner.limits.strategy, idle);
    && from <= now
    && d + |rest| + (if InHand(pc) then 1 else 0) == |order|
    && AllExpired(inner, order, d, now)
    && rest == order[|order| - |rest|..]
    && match pc
       case AcqIdleCheck(_, _, ic) => ic == order[d]
       case AcqAgeCheck(_, _, ic) => ic == order[d] && Passed(inner, ic, from, now)
       case AcqRefund(_, _) => Expired(inner, order[d], now)
       case _ => true
  }

  lemma ExpiredLater(inner: PoolInner, ic: IdleConn, now: nat, later: nat)
    requires Expired(inner, ic, now) && now <= later
    ensures Expired(inner, ic, later)
  {
  }

  lemma PoppedLater(inner: PoolInner, from: nat, now: nat, later: nat, idle: seq<IdleConn>, pc: Pc, d: nat)
    requires PoppedSoFar(inner, from, now, idle, pc, d) && now <= later
    ensures PoppedSoFar(inner, from, later, idle, pc, d)
  {
    hide Expired, InOrder;
    var order := InOrder(inner.limits.strategy, inner.idle);
    forall i | 0 <= i < |order|
      ensures Expired(inner, order[i], now) ==> Expired(inner, order[i], later)
    {
      if Expired(inner, order[i], now) {
        ExpiredLater(inner, order[i], now, later);
      }
    }
    if pc.AcqAgeCheck? {
      var u: nat :| from <= u <= now && Within(inner.idleTimeout, pc.ic.parkedSince, u);
      assert from <= u <= later && Within(inner.idleTimeout, pc.ic.parkedSince, u);
    }
  }

  lemma Pops(inner: PoolInner, from: nat, now: nat, idle: seq<IdleConn>, who: Who, sem: nat, d: nat)
    requires PoppedSoFar(inner, from, now, idle, AcqPop(who, sem), d) && idle != []
    ensures var (ic, rest) := Popped(inner.limits.strategy, idle);
      PoppedSoFar(inner, from, now, rest, AcqIdleCheck(who, sem, ic), d)
  {
    hide Expired, InOrder, Popped;
    var (ic, rest) := Popped(inner.limits.strategy, idle);
    var order := InOrder(inner.limits.strategy, inner.idle);
    InOrderPopped(inner.limits.strategy, idle);
    assert order[d..] == [ic] + InOrder(inner.limits.strategy, rest);
    assert order[d..][0] == order[d];
    assert order[d + 1..] == order[d..][1..];
  }

  lemma Checks(inner: PoolInner, from: nat, now: nat, idle: seq<IdleConn>, who: Who, sem: nat, ic: IdleConn, d: nat)
    ensures PoppedSoFar(inner, from, now, idle, AcqIdleCheck(who, sem, ic), d) ==>
      if IdleTooLong(inner, ic, now) then PoppedSoFar(inner, from, now, idle, AcqRefund(who, sem), d)
      else PoppedSoFar(inner, from, now, idle, AcqAgeCheck(who, sem, ic), d)
    ensures PoppedSoFar(inner, from, now, idle, AcqAgeCheck(who, sem, ic), d) && TooOld(inner, ic, now) ==>
      PoppedSoFar(inner, from, now, idle, AcqRefund(who, sem), d)
  {
    hide InOrder;
    ChecksAreWithin(inner, ic, now);
    if PoppedSoFar(inner, from, now, idle, AcqIdleCheck(who, sem, ic), d) && !IdleTooLong(inner, ic, now) {
      assert from <= now <= now;
    }
  }

  lemma Refunds(inner: PoolInner, from: nat, now: nat, idle: seq<IdleConn>, who: Who, sem: nat, d: nat)
    requires PoppedSoFar(inner, from, now, idle, AcqRefund(who, sem), d)
    ensures PoppedSoFar(inner, from, now, idle, AcqPop(who, sem), d + 1)
  {
    hide InOrder, Expired;
  }

  // ---- In the interleaved system ----

  /** The connections that were idle when the task began its loop, in the order of the strategy. */
  function OrderAt(start: State, t: nat): seq<IdleConn>
    requires t < |start.tasks| && start.tasks[t].key in start.pools
  {
    var inner := start.pools[start.tasks[t].key];
    InOrder(inner.limits.strategy, inner.idle)
  }

  /** The task has been in its loop since `start`, where it was about to pop, and has dropped `d`. */
  ghost predicate InPopLoop(start: State, s: State, t: nat, d: nat) {
    && t < |start.tasks| && t < |s.tasks| && s.tasks[t].key == start.tasks[t].key
    && start.tasks[t].pc.AcqPop? && Popping(s.tasks[t].pc)
    && s.tasks[t].pc.who == start.tasks[t].pc.who && s.tasks[t].pc.sem == start.tasks[t].pc.sem
    && var key := s.tasks[t].key;
       && key in start.pools && key in s.pools
       && s.pools == start.pools[key := start.pools[key].(idle := s.pools[key].idle)]
       && PoppedSoFar(start.pools[key], start.now, s.now, s.pools[key].idle, s.tasks[t].pc, d)
  }

  /** How the loop ends, with the step from `s` to `r`: a connection is granted, or there is none. */
  ghost predicate EndsPopLoop(start: State, s: State, r: State, t: nat, d: nat) {
    && t < |start.tasks| && t < |r.tasks| && start.tasks[t].key in start.pools && start.tasks[t].key in r.pools
    && start.tasks[t].pc.AcqPop?
    && var who, sem := start.tasks[t].pc.who, start.tasks[t].pc.sem;
       var inner, order, next := start.pools[start.tasks[t].key], OrderAt(start, t), r.tasks[t].pc;
       var idle := r.pools[start.tasks[t].key].idle;
       && d <= |order| && AllExpired(inner, order, d, s.now)
       && if d == |order| then next == AcqBlocked(who, sem) && idle == []
          else
            && next == AfterGrant(who, order[d].stream, true)
            && Passed(inner, order[d], start.now, s.now)
            && Within(inner.serverLifetime, order[d].stream.bornAt, s.now)
            && InOrder(inner.limits.strategy, idle) == order[d + 1..]
  }

  /** A step of the task itself. */
  lemma OwnStep(env: Env, start: State, s: State, t: nat, c: Choice, d: nat)
    requires InPopLoop(start, s, t, d)
    ensures var r := Step(env, s, Run(t, c));
      && t < |r.tasks|
      && if Popping(r.tasks[t].pc) then InPopLoop(start, r, t, d + One(s.tasks[t].pc.AcqRefund?))
         else EndsPopLoop(start, s, r, t, d)
  {
    hide SemsAfter, LockAfter, PoppedSoFar, InOrder, IdleTooLong, TooOld, AfterGrant, Popped, AllExpired, Passed;
    var key, pc := s.tasks[t].key, s.tasks[t].pc;
    var inner, idle, who, sem := start.pools[key], s.pools[key].idle, pc.who, pc.sem;
    var r := Step(env, s, Run(t, c));
    SameTimes(inner, idle);
    match pc
    case AcqPop(_, _) =>
      if idle == [] {
        EmptyEnds(inner, start.now, s.now, pc, d);
      } else {
        Pops(inner, start.now, s.now, idle, who, sem, d);
        assert r.pools == start.pools[key := inner.(idle := r.pools[key].idle)];
      }
    case AcqIdleCheck(_, _, ic) => Checks(inner, start.now, s.now, idle, who, sem, ic, d);
    case AcqAgeCheck(_, _, ic) =>
      Checks(inner, start.now, s.now, idle, who, sem, ic, d);
      ChecksAreWithin(inner, ic, s.now);
      if !TooOld(inner, ic, s.now) {
        GrantEnds(inner, start.now, s.now, idle, pc, d);
        GrantsArePastPopping(who, ic.stream);
      }
    case AcqRefund(_, _) => Refunds(inner, start.now, s.now, idle, who, sem, d);
  }

  /** The checks look at the timeouts of the pool and not at what is idle. */
  lemma SameTimes(inner: PoolInner, idle: seq<IdleConn>)
    ensures forall ic, now: nat :: IdleTooLong(inner.(idle := idle), ic, now) == IdleTooLong(inner, ic, now)
    ensures forall ic, now: nat :: TooOld(inner.(idle := idle), ic, now) == TooOld(inner, ic, now)
  {
  }

  lemma GrantsArePastPopping(who: Who, b: Backend)
    ensures !Popping(AfterGrant(who, b, true))
  {
  }

  lemma EmptyEnds(inner: PoolInner, from: nat, now: nat, pc: Pc, d: nat)
    requires PoppedSoFar(inner, from, now, [], pc, d) && pc.AcqPop?
    ensures var order := InOrder(inner.limits.strategy, inner.idle);
      d == |order| && AllExpired(inner, order, d, now)
  {
  }

  lemma GrantEnds(inner: PoolInner, from: nat, now: nat, idle: seq<IdleConn>, pc: Pc, d: nat)
    requires PoppedSoFar(inner, from, now, idle, pc, d) && pc.AcqAgeCheck?
    ensures var order := InOrder(inner.limits.strategy, inner.idle);
      && d < |order| && AllExpired(inner, order, d, now) && pc.ic == order[d] && Passed(inner, order[d], from, now)
      && InOrder(inner.limits.strategy, idle) == order[d + 1..]
  {
  }

  /** A step of any other task, or of the clock. */
  lemma OtherStep(env: Env, start: State, s: State, t: nat, a: Act, d: nat)
    requires Inv(env, s) && InPopLoop(start, s, t, d) && !(a.Run? && a.t == t)
    ensures InPopLoop(start, Step(env, s, a), t, d)
  {
    hide Decide, SemsAfter, LockAfter, PoppedSoFar, AllConserved, AllPoolsOk, AllUnique, SemsOk;
    assert TaskOk(s, t);
    match a
    case Run(u, c) =>
      if u < |s.tasks| {
        PoolsChangeOnlyUnderLock(env, s, u, c);
      }
    case Tick(dt) =>
      var key := s.tasks[t].key;
      PoppedLater(start.pools[key], start.now, s.now, s.now + dt, s.pools[key].idle, s.tasks[t].pc, d);
    case _ =>
  }

  /** How many permits of dropped connections a task has returned in its loop. */
  function RefundsOf(env: Env, acts: seq<Act>, a: nat, n: nat, t: nat): nat
    requires n <= |acts|
    decreases n
  {
    if n <= a then 0
    else
      var s := StateAfter(env, acts, n - 1);
      RefundsOf(env, acts, a, n - 1, t)
        + One(acts[n - 1].Run? && acts[n - 1].t == t && t < |s.tasks| && s.tasks[t].pc.AcqRefund?)
  }

  /** From the `a`th state to the `n`th the task has stayed in its loop. */
  predicate StaysPopping(env: Env, acts: seq<Act>, a: nat, n: nat, t: nat)
    requires n <= |acts|
  {
    forall i :: a <= i <= n ==> t < |StateAfter(env, acts, i).tasks| && Popping(StateAfter(env, acts, i).tasks[t].pc)
  }

  lemma Begins(env: Env, s: State, t: nat)
    requires Inv(env, s) && t < |s.tasks| && s.tasks[t].pc.AcqPop?
    ensures InPopLoop(s, s, t, 0)
  {
    hide AllConserved, AllPoolsOk, AllUnique, SemsOk, InOrder, Expired;
    assert TaskOk(s, t);
    var inner := s.pools[s.tasks[t].key];
    assert s.pools == s.pools[s.tasks[t].key := inner.(idle := inner.idle)];
  }

  /** Whatever others do, the task has dropped the first expired ones, each with its permit returned. */
  lemma {:induction false} LoopGoesOn(env: Env, acts: seq<Act>, a: nat, n: nat, t: nat)
    requires a <= n <= |acts| && t < |StateAfter(env, acts, a).tasks|
    requires StateAfter(env, acts, a).tasks[t].pc.AcqPop? && StaysPopping(env, acts, a, n, t)
    ensures InPopLoop(StateAfter(env, acts, a), StateAfter(env, acts, n), t, RefundsOf(env, acts, a, n, t))
    decreases n
  {
    hide Step, Inv, InPopLoop, EndsPopLoop, Popping;
    if n == a {
      RunKeepsInv(env, acts, n);
      Begins(env, StateAfter(env, acts, n), t);
    } else {
      LoopGoesOn(env, acts, a, n - 1, t);
      RunKeepsInv(env, acts, n - 1);
      var start, s, d := StateAfter(env, acts, a), StateAfter(env, acts, n - 1), RefundsOf(env, acts, a, n - 1, t);
      if acts[n - 1].Run? && acts[n - 1].t == t {
        OwnStep(env, start, s, t, acts[n - 1].c, d);
      } else {
        OtherStep(env, start, s, t, acts[n - 1], d);
      }
    }
  }

  /**
   * From the moment a task begins the pop loop of acquire to the step with which it leaves it,
   * whatever steps any tasks take in between: it drops exactly the connections ahead of the
   * first one in strategy order that passes both age checks, returning a permit for each, is
   * granted that one, and leaves the others as they were; or it drops them all.
   */
  lemma AcquireTakesFirstFresh(env: Env, acts: seq<Act>, a: nat, n: nat, t: nat)
    requires a <= n < |acts| && t < |StateAfter(env, acts, a).tasks|
    requires StateAfter(env, acts, a).tasks[t].pc.AcqPop? && StaysPopping(env, acts, a, n, t)
    requires t < |StateAfter(env, acts, n + 1).tasks| && !Popping(StateAfter(env, acts, n + 1).tasks[t].pc)
    ensures EndsPopLoop(StateAfter(env, acts, a), StateAfter(env, acts, n), StateAfter(env, acts, n + 1), t,
      RefundsOf(env, acts, a, n, t))
  {
    hide Step, Inv, EndsPopLoop, Popping;
    LoopGoesOn(env, acts, a, n, t);
    RunKeepsInv(env, acts, n);
    var start, s, d := StateAfter(env, acts, a), StateAfter(env, acts, n), RefundsOf(env, acts, a, n, t);
    assert StateAfter(env, acts, n + 1) == Step(env, s, acts[n]);
    if acts[n].Run? && acts[n].t == t {
      OwnStep(env, start, s, t, acts[n].c, d);
    } else {
      OtherStep(env, start, s, t, acts[n], d);
    }
  }
}
