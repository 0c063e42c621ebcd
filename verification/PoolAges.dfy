// src/pool/mod.rs: how old and how long idle a connection is, by the steps that made it so.

module PoolAges {
  import opened Prelude
  import opened Backends
  import opened Pool
  import opened TransactionLoop
  import opened PoolSystem
  import opened PoolInvariant
  import opened PoolSafety
  import opened PoolTheorems
  import PoolSpec

  // ---- When things happened ----

  /** When task `t` last took a permit for a connection that it was to create. */
  function PermitTakenAt(env: Env, acts: seq<Act>, n: nat, t: nat): nat
    requires n <= |acts|
  {
    if n == 0 then 0
    else
      var s, a := StateAfter(env, acts, n - 1), acts[n - 1];
      if a.Run? && a.t == t && t < |s.tasks| && s.tasks[t].pc.AcqBlocked? && Decide(env, s, t, a.c).pc.Creating?
      then s.now
      else PermitTakenAt(env, acts, n - 1, t)
  }

  /** For each backend ever created, when the task that created it had taken the permit for it. */
  function Births(env: Env, acts: seq<Act>, n: nat): seq<nat>
    requires n <= |acts|
  {
    if n == 0 then []
    else
      var s, a, before := StateAfter(env, acts, n - 1), acts[n - 1], Births(env, acts, n - 1);
      if a.Run? && |StateAfter(env, acts, n).born| > |s.born|
      then before + [PermitTakenAt(env, acts, n - 1, a.t)]
      else before
  }

  /** The step parks backend `id`. */
  predicate Parks(env: Env, s: State, a: Act, id: nat) {
    && a.Run? && a.t < |s.tasks| && s.tasks[a.t].pc.RelLock? && s.tasks[a.t].pc.b.id == id
    && !Decide(env, s, a.t, a.c).pc.RelLock? && !Decide(env, s, a.t, a.c).pc.RelDrop?
  }

  /** When backend `id` was last parked. */
  function ParkedAt(env: Env, acts: seq<Act>, n: nat, id: nat): nat
    requires n <= |acts|
  {
    if n == 0 then 0
    else
      var s := StateAfter(env, acts, n - 1);
      if Parks(env, s, acts[n - 1], id) then s.now else ParkedAt(env, acts, n - 1, id)
  }

  // ---- Where a connection comes from ----

  predicate SameConnection(a: Backend, b: Backend) {
    a.id == b.id && a.bornAt == b.bornAt
  }

  /** What a move does to the connection in hand, to the time it is begun, and to what is idle. */
  predicate Carries(env: Env, s: State, t: nat, c: Choice, mv: Move)
    requires t < |s.tasks|
  {
    var key, pc, idle := s.tasks[t].key, s.tasks[t].pc, IdleOf(s, s.tasks[t].key);
    && (mv.create ==> pc.Creating? && BackendOf(mv.pc) == Some(Backend(|s.born|, pc.since, [])))
    && (!mv.create && BackendOf(mv.pc).Some? && !mv.pc.AcqIdleCheck? ==>
          BackendOf(pc).Some? && SameConnection(BackendOf(mv.pc).value, BackendOf(pc).value))
    && (mv.pc.AcqIdleCheck? ==> (pc.AcqPop? && mv.pc.ic in idle) || mv.pc == pc)
    && (mv.pc.AcqAgeCheck? ==> (pc.AcqIdleCheck? || mv.pc == pc) && mv.pc.ic == pc.ic)
    && (mv.pc.Creating? ==> (pc.AcqBlocked? && mv.pc.since == s.now) || (pc.Creating? && mv.pc.since == pc.since))
    && (mv.inner.Some? ==> forall i :: 0 <= i < |mv.inner.value.idle| ==>
          var ic := mv.inner.value.idle[i];
          ic in idle || (pc.RelLock? && Parks(env, s, Run(t, c), pc.b.id) && ic == IdleConn(pc.b, s.now)))
  }

  lemma QuietCarries(env: Env, s: State, t: nat, c: Choice, mv: Move)
    requires t < |s.tasks| && Quiet(s, t, mv)
    ensures Carries(env, s, t, c, mv)
  {
    hide PermitsOf, SemOf, SemIndex;
  }

  lemma PoppedIsOneOf(strategy: Strategy, idle: seq<IdleConn>)
    requires idle != []
    ensures var (ic, rest) := Popped(strategy, idle);
      ic in idle && forall i :: 0 <= i < |rest| ==> rest[i] in idle
  {
  }

  lemma PopCarries(env: Env, s: State, t: nat, c: Choice)
    requires t < |s.tasks| && s.tasks[t].pc.AcqPop?
    ensures Carries(env, s, t, c, Decide(env, s, t, c))
  {
    hide Popped;
    var key := s.tasks[t].key;
    if key in s.pools && s.pools[key].idle != [] {
      PoppedIsOneOf(s.pools[key].limits.strategy, s.pools[key].idle);
    }
  }

  lemma CheckCarries(env: Env, s: State, t: nat, c: Choice)
    requires t < |s.tasks|
    requires s.tasks[t].pc.AcqIdleCheck? || s.tasks[t].pc.AcqAgeCheck? || s.tasks[t].pc.AcqRefund?
    ensures Carries(env, s, t, c, Decide(env, s, t, c))
  {
    hide IdleTooLong, TooOld;
  }

  lemma CreateCarries(env: Env, s: State, t: nat, c: Choice)
    requires t < |s.tasks| && (s.tasks[t].pc.AcqLock? || s.tasks[t].pc.AcqBlocked? || s.tasks[t].pc.Creating?)
    ensures Carries(env, s, t, c, Decide(env, s, t, c))
  {
  }

  lemma ParkCarries(env: Env, s: State, t: nat, c: Choice)
    requires t < |s.tasks| && s.tasks[t].pc.RelLock?
    ensures Carries(env, s, t, c, Decide(env, s, t, c))
  {
    hide ResolveLimits, Resume;
    ResumeHoldsNothing(s.tasks[t].pc.next);
  }

  lemma ReturnCarries(env: Env, s: State, t: nat, c: Choice)
    requires t < |s.tasks| && (s.tasks[t].pc.RetAdd? || s.tasks[t].pc.TotalLock? || s.tasks[t].pc.TotalScan?)
    ensures Carries(env, s, t, c, Decide(env, s, t, c))
  {
    hide Resume, ScanOne, PoolSpec.Enumerates;
    if s.tasks[t].pc.RetAdd? {
      ResumeHoldsNothing(s.tasks[t].pc.next);
    }
  }

  lemma EveryMoveCarries(env: Env, s: State, t: nat, c: Choice)
    requires t < |s.tasks| && Inv(env, s)
    ensures Carries(env, s, t, c, Decide(env, s, t, c))
  {
    hide Inv, Decide, Carries, Quiet;
    var pc := s.tasks[t].pc;
    if MovesOn(pc) { QuietSteps(env, s, t, c); QuietCarries(env, s, t, c, Decide(env, s, t, c)); }
    else if pc.AcqPop? { PopCarries(env, s, t, c); }
    else if pc.AcqLock? || pc.AcqBlocked? || pc.Creating? { CreateCarries(env, s, t, c); }
    else if pc.RelLock? { ParkCarries(env, s, t, c); }
    else if pc.RetAdd? || pc.TotalLock? || pc.TotalScan? { ReturnCarries(env, s, t, c); }
    else { CheckCarries(env, s, t, c); }
  }

  // ---- Every age is what the run says ----

  predicate Born(births: seq<nat>, b: Backend) {
    b.id < |births| && b.bornAt == births[b.id]
  }

  /** The connection was born and parked when the run says. */
  predicate Dated(env: Env, acts: seq<Act>, n: nat, ic: IdleConn)
    requires n <= |acts|
  {
    Born(Births(env, acts, n), ic.stream) && ic.parkedSince == ParkedAt(env, acts, n, ic.stream.id)
  }

  predicate TaskDated(env: Env, acts: seq<Act>, n: nat, t: nat)
    requires n <= |acts| && t < |StateAfter(env, acts, n).tasks|
  {
    var pc := StateAfter(env, acts, n).tasks[t].pc;
    && (BackendOf(pc).Some? ==> Born(Births(env, acts, n), BackendOf(pc).value))
    && (pc.AcqIdleCheck? || pc.AcqAgeCheck? ==> Dated(env, acts, n, pc.ic))
    && (pc.Creating? ==> pc.since == PermitTakenAt(env, acts, n, t))
  }

  predicate AllDated(env: Env, acts: seq<Act>, n: nat)
    requires n <= |acts|
  {
    var s := StateAfter(env, acts, n);
    && |Births(env, acts, n)| == |s.born|
    && (forall t :: 0 <= t < |s.tasks| ==> TaskDated(env, acts, n, t))
    && (forall k, i :: k in s.pools && 0 <= i < |s.pools[k].idle| ==> Dated(env, acts, n, s.pools[k].idle[i]))
  }

  /** What has a date keeps it over a step that does not park it. */
  lemma DateStays(env: Env, acts: seq<Act>, n: nat, ic: IdleConn)
    requires 0 < n <= |acts| && Dated(env, acts, n - 1, ic)
    requires !Parks(env, StateAfter(env, acts, n - 1), acts[n - 1], ic.stream.id)
    ensures Dated(env, acts, n, ic)
  {
    hide StateAfter, Parks;
  }

  lemma BirthStays(env: Env, acts: seq<Act>, n: nat, b: Backend)
    requires 0 < n <= |acts| && Born(Births(env, acts, n - 1), b)
    ensures Born(Births(env, acts, n), b)
  {
    hide StateAfter;
  }

  /** A connection that is idle, or in the hands of a task that is not parking, is not being parked. */
  lemma IdleIsNotParked(env: Env, acts: seq<Act>, n: nat, key: PoolKey, i: nat)
    requires n < |acts| && key in StateAfter(env, acts, n).pools && i < |StateAfter(env, acts, n).pools[key].idle|
    ensures !Parks(env, StateAfter(env, acts, n), acts[n], StateAfter(env, acts, n).pools[key].idle[i].stream.id)
  {
    hide StateAfter, Decide;
    var s := StateAfter(env, acts, n);
    if acts[n].Run? && acts[n].t < |s.tasks| && s.tasks[acts[n].t].pc.RelLock? {
      NoTaskHoldsIdle(env, acts, n, acts[n].t, key, i);
    }
  }

  lemma PoppedIsNotParked(env: Env, acts: seq<Act>, n: nat, t: nat)
    requires n < |acts| && t < |StateAfter(env, acts, n).tasks|
    requires var pc := StateAfter(env, acts, n).tasks[t].pc; pc.AcqIdleCheck? || pc.AcqAgeCheck?
    ensures !Parks(env, StateAfter(env, acts, n), acts[n], StateAfter(env, acts, n).tasks[t].pc.ic.stream.id)
  {
    hide StateAfter, Decide;
    var s := StateAfter(env, acts, n);
    if acts[n].Run? && acts[n].t < |s.tasks| && s.tasks[acts[n].t].pc.RelLock?
      && s.tasks[acts[n].t].pc.b.id == s.tasks[t].pc.ic.stream.id
    {
      NoTwoTasksShare(env, acts, n, acts[n].t, t);
    }
  }

  lemma IdleStaysDated(env: Env, acts: seq<Act>, n: nat, key: PoolKey, ic: IdleConn)
    requires n < |acts| && AllDated(env, acts, n) && ic in IdleOf(StateAfter(env, acts, n), key)
    ensures Dated(env, acts, n + 1, ic)
  {
    hide StateAfter, Parks, Dated, TaskDated;
    var idle := StateAfter(env, acts, n).pools[key].idle;
    var i :| 0 <= i < |idle| && idle[i] == ic;
    IdleIsNotParked(env, acts, n, key, i);
    DateStays(env, acts, n + 1, ic);
  }

  /** A task that takes no step. */
  lemma WaitingStaysDated(env: Env, acts: seq<Act>, n: nat, t: nat)
    requires n < |acts| && t < |StateAfter(env, acts, n).tasks| && TaskDated(env, acts, n, t)
    requires acts[n].Run? ==> acts[n].t != t
    requires t < |StateAfter(env, acts, n + 1).tasks|
    requires StateAfter(env, acts, n + 1).tasks[t] == StateAfter(env, acts, n).tasks[t]
    ensures TaskDated(env, acts, n + 1, t)
  {
    hide StateAfter, Births, ParkedAt, Parks, Dated, Born;
    var pc := StateAfter(env, acts, n).tasks[t].pc;
    if BackendOf(pc).Some? {
      BirthStays(env, acts, n + 1, BackendOf(pc).value);
    }
    if pc.AcqIdleCheck? || pc.AcqAgeCheck? {
      PoppedIsNotParked(env, acts, n, t);
      DateStays(env, acts, n + 1, pc.ic);
    }
  }

  lemma BirthsGrow(env: Env, acts: seq<Act>, n: nat)
    requires n < |acts|
    ensures var s, a := StateAfter(env, acts, n), acts[n];
      Births(env, acts, n + 1) ==
        if a.Run? && a.t < |s.tasks| && Decide(env, s, a.t, a.c).create
        then Births(env, acts, n) + [PermitTakenAt(env, acts, n, a.t)]
        else Births(env, acts, n)
    ensures |Births(env, acts, n)| == |StateAfter(env, acts, n).born| ==>
      |Births(env, acts, n + 1)| == |StateAfter(env, acts, n + 1).born|
  {
    hide Decide, PermitTakenAt;
    var s, a := StateAfter(env, acts, n), acts[n];
    if a.Run? && a.t < |s.tasks| {
      StepGives(env, s, a.t, a.c);
    }
  }

  /** The connection in the hands of a task that has just taken a step. */
  lemma MoverHoldsBorn(env: Env, acts: seq<Act>, n: nat, t: nat, c: Choice)
    requires n < |acts| && acts[n] == Run(t, c) && t < |StateAfter(env, acts, n).tasks| && AllDated(env, acts, n)
    requires var s := StateAfter(env, acts, n); Carries(env, s, t, c, Decide(env, s, t, c))
    ensures var next := Decide(env, StateAfter(env, acts, n), t, c).pc;
      BackendOf(next).Some? ==> Born(Births(env, acts, n + 1), BackendOf(next).value)
  {
    hide StateAfter, Decide, ParkedAt, Parks, Births, PermitTakenAt;
    var s := StateAfter(env, acts, n);
    var pc, mv := s.tasks[t].pc, Decide(env, s, t, c);
    BirthsGrow(env, acts, n);
    assert TaskDated(env, acts, n, t);
    if mv.pc.AcqIdleCheck? && pc.AcqPop? {
      IdleStaysDated(env, acts, n, s.tasks[t].key, mv.pc.ic);
    } else if BackendOf(mv.pc).Some? && !mv.create {
      BirthStays(env, acts, n + 1, BackendOf(pc).value);
    }
  }

  lemma MoverIsDated(env: Env, acts: seq<Act>, n: nat, t: nat, c: Choice)
    requires n < |acts| && acts[n] == Run(t, c) && t < |StateAfter(env, acts, n).tasks| && AllDated(env, acts, n)
    requires var s := StateAfter(env, acts, n); Carries(env, s, t, c, Decide(env, s, t, c))
    requires t < |StateAfter(env, acts, n + 1).tasks|
    requires StateAfter(env, acts, n + 1).tasks[t].pc == Decide(env, StateAfter(env, acts, n), t, c).pc
    ensures TaskDated(env, acts, n + 1, t)
  {
    MoverHoldsBorn(env, acts, n, t, c);
    hide StateAfter, Decide, ParkedAt, Parks, Births, Dated, Born;
    var s := StateAfter(env, acts, n);
    var pc, next := s.tasks[t].pc, Decide(env, s, t, c).pc;
    assert TaskDated(env, acts, n, t);
    if next.AcqIdleCheck? && pc.AcqPop? {
      IdleStaysDated(env, acts, n, s.tasks[t].key, next.ic);
    } else if next.AcqIdleCheck? || next.AcqAgeCheck? {
      PoppedIsNotParked(env, acts, n, t);
      DateStays(env, acts, n + 1, next.ic);
    }
  }

  /** What is idle after the step of a task. */
  lemma PoolIsDated(env: Env, acts: seq<Act>, n: nat, t: nat, c: Choice, ic: IdleConn)
    requires n < |acts| && acts[n] == Run(t, c) && t < |StateAfter(env, acts, n).tasks| && AllDated(env, acts, n)
    requires var s := StateAfter(env, acts, n);
      var mv := Decide(env, s, t, c);
      Carries(env, s, t, c, mv) && mv.inner.Some? && ic in mv.inner.value.idle
    ensures Dated(env, acts, n + 1, ic)
  {
    hide StateAfter, Decide, Births, PermitTakenAt, Born;
    var s := StateAfter(env, acts, n);
    var idle := Decide(env, s, t, c).inner.value.idle;
    var i :| 0 <= i < |idle| && idle[i] == ic;
    assert TaskDated(env, acts, n, t);
    if ic in IdleOf(s, s.tasks[t].key) {
      IdleStaysDated(env, acts, n, s.tasks[t].key, ic);
    } else {
      BirthStays(env, acts, n + 1, ic.stream);
    }
  }

  lemma StepKeepsDates(env: Env, acts: seq<Act>, n: nat)
    requires n < |acts| && AllDated(env, acts, n)
    ensures AllDated(env, acts, n + 1)
  {
    hide Decide, Dated, TaskDated, Births, Carries, Inv, PermitTakenAt;
    var s, s', a := StateAfter(env, acts, n), StateAfter(env, acts, n + 1), acts[n];
    RunKeepsInv(env, acts, n);
    BirthsGrow(env, acts, n);
    if a.Run? && a.t < |s.tasks| {
      EveryMoveCarries(env, s, a.t, a.c);
      StepGives(env, s, a.t, a.c);
    }
    hide Step;
    var m := n + 1;
    forall t | 0 <= t < |s'.tasks|
      ensures TaskDated(env, acts, m, t)
    {
      if t >= |s.tasks| {
        NewTaskIsDated(env, acts, n, t);
      } else if a.Run? && a.t == t {
        MoverIsDated(env, acts, n, t, a.c);
      } else {
        OthersStay(env, s, a, t);
        WaitingStaysDated(env, acts, n, t);
      }
    }
    forall k, i | k in s'.pools && 0 <= i < |s'.pools[k].idle|
      ensures Dated(env, acts, m, s'.pools[k].idle[i])
    {
      PoolsOnlyByMoves(env, s, a, k);
      if k in s.pools && s'.pools[k] == s.pools[k] {
        assert s.pools[k].idle[i] in IdleOf(s, k);
        IdleStaysDated(env, acts, n, k, s.pools[k].idle[i]);
      } else {
        PoolIsDated(env, acts, n, a.t, a.c, s'.pools[k].idle[i]);
      }
    }
  }

  lemma NewTaskIsDated(env: Env, acts: seq<Act>, n: nat, t: nat)
    requires n < |acts| && |StateAfter(env, acts, n).tasks| <= t < |StateAfter(env, acts, n + 1).tasks|
    ensures TaskDated(env, acts, n + 1, t)
  {
    hide Decide, Births, ParkedAt, PermitTakenAt, SemsAfter, LockAfter;
  }

  lemma PoolsOnlyByMoves(env: Env, s: State, a: Act, key: PoolKey)
    requires key in Step(env, s, a).pools
    ensures || (key in s.pools && Step(env, s, a).pools[key] == s.pools[key])
      || (a.Run? && a.t < |s.tasks| && s.tasks[a.t].key == key
          && Decide(env, s, a.t, a.c).inner == Some(Step(env, s, a).pools[key]))
  {
    hide Decide, SemsAfter, LockAfter, TasksAfter;
  }

  /**
   * In every reachable state, every backend that a task holds or that is idle was born when the
   * task that created it had taken the permit for it, and every idle connection is dated from
   * the step that parked it last.
   */
  lemma {:induction false} AgesAreOfTheRun(env: Env, acts: seq<Act>, n: nat)
    requires n <= |acts|
    ensures AllDated(env, acts, n)
  {
    hide AllDated;
    if n == 0 {
      NothingToDate(env, acts);
    } else {
      AgesAreOfTheRun(env, acts, n - 1);
      StepKeepsDates(env, acts, n - 1);
    }
  }

  lemma NothingToDate(env: Env, acts: seq<Act>)
    ensures AllDated(env, acts, 0)
  {
  }

  // ---- What acquire and release make of it ----

  lemma PoolOfPopper(env: Env, acts: seq<Act>, n: nat, t: nat)
    requires n <= |acts| && t < |StateAfter(env, acts, n).tasks|
    requires HoldsLock(StateAfter(env, acts, n).tasks[t].pc) && !StateAfter(env, acts, n).tasks[t].pc.TotalScan?
    ensures var s := StateAfter(env, acts, n);
      var key := s.tasks[t].key;
      && key in s.pools
      && s.pools[key].idleTimeout == env.cfg.idleTimeout && s.pools[key].serverLifetime == env.cfg.serverLifetime
  {
    hide StateAfter, AllConserved, AllUnique, SemsOk, LockOk;
    var s := StateAfter(env, acts, n);
    RunKeepsInv(env, acts, n);
    assert TaskOk(s, t);
    assert PoolOk(env, s, s.tasks[t].key);
  }

  /**
   * In every reachable state: a popped connection is dropped if it was last parked the idle
   * timeout ago or longer; one that was not is dropped if it was created the lifetime ago or
   * longer, and granted otherwise.
   */
  lemma PopsChecksExactly(env: Env, acts: seq<Act>, n: nat, t: nat, c: Choice)
    requires n <= |acts| && t < |StateAfter(env, acts, n).tasks|
    ensures var s := StateAfter(env, acts, n);
      var pc, mv := s.tasks[t].pc, Decide(env, s, t, c);
      && (pc.AcqIdleCheck? ==>
            mv == Go(if s.now >= ParkedAt(env, acts, n, pc.ic.stream.id) + env.cfg.idleTimeout
                     then AcqRefund(pc.who, pc.sem) else AcqAgeCheck(pc.who, pc.sem, pc.ic)))
      && (pc.AcqAgeCheck? ==>
            && pc.ic.stream.id < |Births(env, acts, n)|
            && if s.now >= Births(env, acts, n)[pc.ic.stream.id] + env.cfg.serverLifetime
               then mv == Go(AcqRefund(pc.who, pc.sem))
               else mv.lock == Free && mv.inner.None? && !HoldsLock(mv.pc) && BackendOf(mv.pc) == Some(pc.ic.stream))
  {
    hide StateAfter, Births, ParkedAt, AfterGrant;
    var s := StateAfter(env, acts, n);
    var pc := s.tasks[t].pc;
    AgesAreOfTheRun(env, acts, n);
    assert TaskDated(env, acts, n, t);
    if pc.AcqIdleCheck? || pc.AcqAgeCheck? {
      PoolOfPopper(env, acts, n, t);
      ChecksAreWithin(s.pools[s.tasks[t].key], pc.ic, s.now);
      DatesArePast(env, acts, n, t);
      GrantCarriesOn(pc.who, pc.ic.stream, true);
    }
  }

  lemma DatesArePast(env: Env, acts: seq<Act>, n: nat, t: nat)
    requires n <= |acts| && t < |StateAfter(env, acts, n).tasks|
    requires StateAfter(env, acts, n).tasks[t].pc.AcqIdleCheck? || StateAfter(env, acts, n).tasks[t].pc.AcqAgeCheck?
    ensures var s := StateAfter(env, acts, n);
      s.tasks[t].pc.ic.stream.bornAt <= s.now && ParkedAt(env, acts, n, s.tasks[t].pc.ic.stream.id) <= s.now
  {
    hide AllConserved, AllUnique, SemsOk, LockOk, AllPoolsOk;
    RunKeepsInv(env, acts, n);
    assert TaskOk(StateAfter(env, acts, n), t);
    ParkedInThePast(env, acts, n, StateAfter(env, acts, n).tasks[t].pc.ic.stream.id);
  }

  lemma {:induction false} ParkedInThePast(env: Env, acts: seq<Act>, n: nat, id: nat)
    requires n <= |acts|
    ensures ParkedAt(env, acts, n, id) <= StateAfter(env, acts, n).now
  {
    hide Decide, Parks, SemsAfter, LockAfter, TasksAfter;
    if n > 0 {
      ParkedInThePast(env, acts, n - 1, id);
    }
  }

  /** The task has come to its second check by passing the first in an earlier step. */
  lemma {:induction false} PassedIdleCheck(env: Env, acts: seq<Act>, n: nat, t: nat) returns (j: nat)
    requires n <= |acts| && t < |StateAfter(env, acts, n).tasks| && StateAfter(env, acts, n).tasks[t].pc.AcqAgeCheck?
    ensures j < n && t < |StateAfter(env, acts, j).tasks|
    ensures var pc, now := StateAfter(env, acts, j).tasks[t].pc, StateAfter(env, acts, n).tasks[t].pc;
      && pc.AcqIdleCheck? && pc.ic == now.ic
      && StateAfter(env, acts, j).now < now.ic.parkedSince + env.cfg.idleTimeout
    decreases n
  {
    hide Decide, Inv, Carries;
    var s, a := StateAfter(env, acts, n - 1), acts[n - 1];
    RunKeepsInv(env, acts, n - 1);
    if a.Run? && a.t == t && t < |s.tasks| {
      EveryMoveCarries(env, s, t, a.c);
      StepGives(env, s, t, a.c);
      AgeCheckFollows(env, acts, n - 1, t, a.c);
      if s.tasks[t].pc.AcqIdleCheck? {
        j := n - 1;
      } else {
        j := PassedIdleCheck(env, acts, n - 1, t);
      }
    } else {
      StepIsOf(env, s, a, t);
      j := PassedIdleCheck(env, acts, n - 1, t);
    }
  }

  lemma StepIsOf(env: Env, s: State, a: Act, t: nat)
    requires t < |Step(env, s, a).tasks| && Step(env, s, a).tasks[t].pc.AcqAgeCheck?
    requires a.Run? ==> a.t != t || t >= |s.tasks|
    ensures t < |s.tasks| && Step(env, s, a).tasks[t] == s.tasks[t]
  {
    hide Decide, SemsAfter, LockAfter;
  }

  lemma AgeCheckFollows(env: Env, acts: seq<Act>, n: nat, t: nat, c: Choice)
    requires n <= |acts| && t < |StateAfter(env, acts, n).tasks|
    requires var s := StateAfter(env, acts, n);
      Carries(env, s, t, c, Decide(env, s, t, c)) && Decide(env, s, t, c).pc.AcqAgeCheck?
    ensures var s := StateAfter(env, acts, n);
      var pc, next := s.tasks[t].pc, Decide(env, s, t, c).pc;
      && (pc.AcqIdleCheck? || pc.AcqAgeCheck?) && pc.ic == next.ic
      && (pc.AcqIdleCheck? ==> s.now < next.ic.parkedSince + env.cfg.idleTimeout)
  {
    hide StateAfter, TooOld, AfterGrant;
    var s := StateAfter(env, acts, n);
    if s.tasks[t].pc.AcqIdleCheck? {
      PoolOfPopper(env, acts, n, t);
      ChecksAreWithin(s.pools[s.tasks[t].key], s.tasks[t].pc.ic, s.now);
    }
  }

  /**
   * Whenever an idle connection is granted, the permit it was created with was taken less than
   * the lifetime ago, and at an earlier step of the task it had been parked for less than the
   * idle timeout.
   */
  lemma GrantsAreFresh(env: Env, acts: seq<Act>, n: nat, t: nat, c: Choice) returns (j: nat)
    requires n <= |acts| && t < |StateAfter(env, acts, n).tasks| && StateAfter(env, acts, n).tasks[t].pc.AcqAgeCheck?
    requires !HoldsLock(Decide(env, StateAfter(env, acts, n), t, c).pc)
    ensures j < n && BackendOf(Decide(env, StateAfter(env, acts, n), t, c).pc).Some?
    ensures var b := BackendOf(Decide(env, StateAfter(env, acts, n), t, c).pc).value;
      && b.id < |Births(env, acts, n)|
      && StateAfter(env, acts, n).now < Births(env, acts, n)[b.id] + env.cfg.serverLifetime
      && StateAfter(env, acts, j).now < ParkedAt(env, acts, n, b.id) + env.cfg.idleTimeout
  {
    hide StateAfter, Births, ParkedAt, Decide;
    PopsChecksExactly(env, acts, n, t, c);
    AgesAreOfTheRun(env, acts, n);
    assert TaskDated(env, acts, n, t);
    j := PassedIdleCheck(env, acts, n, t);
  }

  /**
   * A connection that is released is dropped if it was created the lifetime ago or longer; else,
   * once the lock is free, it is parked behind the others if there are fewer than max_size, with
   * the time of the step, and dropped if not.
   */
  lemma ReleasesExactly(env: Env, acts: seq<Act>, n: nat, t: nat, c: Choice)
    requires n <= |acts| && t < |StateAfter(env, acts, n).tasks|
    ensures var s := StateAfter(env, acts, n);
      var key, pc, mv := s.tasks[t].key, s.tasks[t].pc, Decide(env, s, t, c);
      var idle := IdleOf(s, key);
      && (pc.RelAge? ==>
            && pc.b.id < |Births(env, acts, n)|
            && mv == Go(if s.now >= Births(env, acts, n)[pc.b.id] + env.cfg.serverLifetime
                        then RelDrop(pc.b, pc.next) else RelLock(pc.b, pc.next)))
      && (pc.RelLock? && s.lock.Some? ==> mv == Go(pc))
      && (pc.RelLock? && s.lock.None? && |idle| < ResolveLimits(env.cfg, key).maxSize ==>
            mv.pc == Resume(pc.next) && mv.inner.Some? && mv.inner.value.idle == idle + [IdleConn(pc.b, s.now)])
      && (pc.RelLock? && s.lock.None? && |idle| >= ResolveLimits(env.cfg, key).maxSize ==>
            mv.pc == RelDrop(pc.b, pc.next) && mv.inner.Some? && mv.inner.value.idle == idle)
      && (pc.RelDrop? ==> mv == Go(RetLookup(None, pc.next)))
  {
    hide StateAfter, Births, Resume, ResolveLimits, AllConserved, AllUnique, SemsOk, LockOk;
    var s := StateAfter(env, acts, n);
    var key, pc := s.tasks[t].key, s.tasks[t].pc;
    AgesAreOfTheRun(env, acts, n);
    assert TaskDated(env, acts, n, t);
    RunKeepsInv(env, acts, n);
    assert TaskOk(s, t);
    if key in s.pools {
      assert PoolOk(env, s, key);
    }
  }

  /**
   * Nobody begins to wait for a permit while a connection of its pool is idle: the pop loop is
   * entered, with the lock, whenever there is a pool, and left for the semaphore only when it is
   * empty.  Who waits gets a permit as soon as it looks and there is one.
   */
  lemma WaitsOnlyWithNothingIdle(env: Env, acts: seq<Act>, n: nat, t: nat, c: Choice)
    requires n <= |acts| && t < |StateAfter(env, acts, n).tasks|
    ensures var s := StateAfter(env, acts, n);
      var pc, mv := s.tasks[t].pc, Decide(env, s, t, c);
      && (mv.pc.AcqBlocked? && !pc.AcqBlocked? ==> IdleLen(s, s.tasks[t].key) == 0 && s.lock in {None, Some(t)})
      && (pc.AcqLock? && s.lock.None? && IdleLen(s, s.tasks[t].key) > 0 ==> mv.pc.AcqPop? && mv.lock == Take)
      && (pc.AcqBlocked? ==>
            if Avail(env, s, s.tasks[t].key) > 0 then mv == Go(Creating(pc.who, s.now)).(add := -1) else mv == Go(pc))
  {
    hide StateAfter, AllConserved, AllUnique, AllPoolsOk, LockOk, Decide;
    var s := StateAfter(env, acts, n);
    RunKeepsInv(env, acts, n);
    assert TaskOk(s, t);
    if s.tasks[t].pc.AcqLock? || s.tasks[t].pc.AcqPop? || s.tasks[t].pc.AcqBlocked? {
      WaitingSteps(env, s, t, c);
    } else {
      OthersDoNotWait(env, s, t, c);
    }
  }

  lemma WaitingSteps(env: Env, s: State, t: nat, c: Choice)
    requires t < |s.tasks| && TaskOk(s, t) && SemsOk(s)
    ensures var pc, mv := s.tasks[t].pc, Decide(env, s, t, c);
      && (pc.AcqLock? && mv.pc.AcqBlocked? ==> IdleLen(s, s.tasks[t].key) == 0 && s.lock == None)
      && (pc.AcqPop? && mv.pc.AcqBlocked? ==> IdleLen(s, s.tasks[t].key) == 0 && s.lock == Some(t))
      && (pc.AcqLock? && s.lock.None? && IdleLen(s, s.tasks[t].key) > 0 ==> mv.pc.AcqPop? && mv.lock == Take)
      && (pc.AcqBlocked? ==>
            if Avail(env, s, s.tasks[t].key) > 0 then mv == Go(Creating(pc.who, s.now)).(add := -1) else mv == Go(pc))
  {
  }

  lemma OthersDoNotWait(env: Env, s: State, t: nat, c: Choice)
    requires t < |s.tasks| && TaskOk(s, t)
    requires !s.tasks[t].pc.AcqLock? && !s.tasks[t].pc.AcqPop? && !s.tasks[t].pc.AcqBlocked?
    ensures !Decide(env, s, t, c).pc.AcqBlocked?
  {
    hide AfterPlan, OnEvent, Forward, Resume, AfterGrant, AfterFailedCreate, AfterUse, ScanOne, ReadLocked,
      Popped, IdleTooLong, TooOld, Elapsed, SemIndex, IdleLen, ResolveLimits, NewInner, PoolSpec.Enumerates, Capacity,
      OnExit, CarriesOn, AtHome, TotalsOk;
    CarryFacts(env, s, t, c);
    forall pc, b | CarriesOn(pc, b)
      ensures !pc.AcqBlocked?
    {
      CarriedDoesNotWait(pc, b);
    }
    if s.tasks[t].pc.Creating? {
      PlainDoesNotWait(AfterFailedCreate(s.tasks[t].pc.who));
    }
  }

  lemma CarriedDoesNotWait(pc: Pc, b: Option<Backend>)
    requires CarriesOn(pc, b)
    ensures !pc.AcqBlocked?
  {
  }

  lemma PlainDoesNotWait(pc: Pc)
    requires Plain(pc)
    ensures !pc.AcqBlocked?
  {
  }
}
