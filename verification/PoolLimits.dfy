// src/pool/mod.rs: whose limits a pool has.

module PoolLimits {
  import opened Prelude
  import opened Backends
  import opened Pool
  import opened TransactionLoop
  import opened PoolSystem
  import opened PoolInvariant
  import opened PoolSafety
  import opened PoolTheorems
  import PoolSpec

  /**
   * For this key the two configurations come to the same: they have the same timeouts and the
   * same entry for its user; or none for its user and the same one for its database; or none for
   * either and the same global limits.  What else they say does not matter.
   */
  predicate Agree(a: PoolConfig, b: PoolConfig, key: PoolKey) {
    && a.idleTimeout == b.idleTimeout && a.serverLifetime == b.serverLifetime
    && (key.dbUser in a.userLimits <==> key.dbUser in b.userLimits)
    && if key.dbUser in a.userLimits then a.userLimits[key.dbUser] == b.userLimits[key.dbUser]
       else
         && (key.dbname in a.databaseLimits <==> key.dbname in b.databaseLimits)
         && if key.dbname in a.databaseLimits then a.databaseLimits[key.dbname] == b.databaseLimits[key.dbname]
            else a.globalLimits == b.globalLimits
  }

  lemma AgreeOnLimits(a: PoolConfig, b: PoolConfig, key: PoolKey)
    requires Agree(a, b, key)
    ensures ResolveLimits(a, key) == ResolveLimits(b, key)
  {
  }

  lemma AddsAgree(a: PoolConfig, b: PoolConfig, s: PoolSpec.PoolState, key: PoolKey, n: nat)
    requires Agree(a, b, key)
    ensures PoolSpec.WithSemaphore(a, s, key) == PoolSpec.WithSemaphore(b, s, key)
    ensures PoolSpec.AddPermits(a, s, key, n) == PoolSpec.AddPermits(b, s, key, n)
    ensures PoolSpec.InUse(a, s, key) == PoolSpec.InUse(b, s, key)
    ensures PoolSpec.Entry(a, s, key) == PoolSpec.Entry(b, s, key)
  {
    hide ResolveLimits, Agree;
    AgreeOnLimits(a, b, key);
    AgreeOnTimes(a, b, key);
  }

  lemma PopsAgree(a: PoolConfig, b: PoolConfig, clock: nat -> nat, s: PoolSpec.PoolState, key: PoolKey)
    requires Agree(a, b, key)
    ensures PoolSpec.PopIdle(a, clock, s, key) == PoolSpec.PopIdle(b, clock, s, key)
  {
    hide ResolveLimits, Agree, PopLoop, PoolSpec.AddPermits, PoolSpec.WithSemaphore;
    AddsAgree(a, b, s, key, 0);
    var s1 := PoolSpec.WithSemaphore(a, s, key);
    if key in s1.pools {
      var inner := s1.pools[key];
      var r := PopLoop(inner, inner.idle, clock, s1.tick);
      AddsAgree(a, b, s1.(pools := s1.pools[key := inner.(idle := r.rest)], tick := r.tick), key, r.dropped);
    }
  }

  /** Every call of the manager does the same under two configurations that agree on its key. */
  lemma CallsAgree(a: PoolConfig, b: PoolConfig, clock: nat -> nat, s: PoolSpec.PoolState, key: PoolKey, x: Backend)
    requires Agree(a, b, key)
    ensures PoolSpec.WithSemaphore(a, s, key) == PoolSpec.WithSemaphore(b, s, key)
    ensures PoolSpec.Acquire(a, clock, s, key) == PoolSpec.Acquire(b, clock, s, key)
    ensures PoolSpec.Release(a, clock, s, key, x) == PoolSpec.Release(b, clock, s, key, x)
    ensures PoolSpec.Cancel(a, s, key) == PoolSpec.Cancel(b, s, key)
    ensures PoolSpec.InUse(a, s, key) == PoolSpec.InUse(b, s, key)
    ensures ResolveLimits(a, key) == ResolveLimits(b, key)
  {
    hide ResolveLimits, Agree, PoolSpec.PopIdle, PoolSpec.AddPermits, PoolSpec.WithSemaphore, PoolSpec.Entry,
      PoolSpec.InUse;
    AgreeOnLimits(a, b, key);
    AgreeOnTimes(a, b, key);
    PopsAgree(a, b, clock, s, key);
    AddsAgree(a, b, s, key, 1);
    AddsAgree(a, b, PoolSpec.PopIdle(a, clock, s, key).0, key, 1);
    var s1 := s.(tick := s.tick + 1);
    AddsAgree(a, b, s1, key, 1);
    AddsAgree(a, b, s1.(pools := s1.pools[key := PoolSpec.Entry(a, s1, key)]), key, 1);
  }

  lemma AgreeOnTimes(a: PoolConfig, b: PoolConfig, key: PoolKey)
    requires Agree(a, b, key)
    ensures a.idleTimeout == b.idleTimeout && a.serverLifetime == b.serverLifetime
  {
  }

  /** All tasks work on keys on which the configurations agree. */
  predicate TasksAgree(a: PoolConfig, b: PoolConfig, s: State) {
    forall t :: 0 <= t < |s.tasks| ==> Agree(a, b, s.tasks[t].key)
  }

  lemma DecisionsAgree(env: Env, cfg: PoolConfig, s: State, t: nat, c: Choice)
    requires t < |s.tasks| && Agree(env.cfg, cfg, s.tasks[t].key)
    ensures Decide(env.(cfg := cfg), s, t, c) == Decide(env, s, t, c)
    ensures Capacity(cfg, s.tasks[t].key) == Capacity(env.cfg, s.tasks[t].key)
  {
    hide ResolveLimits, Agree, AfterPlan, OnEvent, Forward, Resume, AfterGrant, AfterFailedCreate, AfterUse, ScanOne,
      ReadLocked, Popped, IdleTooLong, TooOld, Elapsed, SemIndex, IdleLen, PoolSpec.Enumerates, AfterExit;
    AgreeOnLimits(env.cfg, cfg, s.tasks[t].key);
    AgreeOnTimes(env.cfg, cfg, s.tasks[t].key);
  }

  lemma StepsAgree(env: Env, cfg: PoolConfig, s: State, a: Act)
    requires TasksAgree(env.cfg, cfg, s)
    requires a.Connect? || a.Monitor? ==> Agree(env.cfg, cfg, a.key)
    ensures Step(env.(cfg := cfg), s, a) == Step(env, s, a)
    ensures TasksAgree(env.cfg, cfg, Step(env, s, a))
  {
    hide Decide, Agree, Capacity, LockAfter;
    if a.Run? && a.t < |s.tasks| {
      DecisionsAgree(env, cfg, s, a.t, a.c);
    }
  }

  /**
   * A run in which clients and monitors come for such keys only goes through the same states
   * under both configurations.
   */
  lemma {:induction false} RunsAgree(env: Env, cfg: PoolConfig, acts: seq<Act>, n: nat)
    requires n <= |acts|
    requires forall i :: 0 <= i < n && (acts[i].Connect? || acts[i].Monitor?) ==> Agree(env.cfg, cfg, acts[i].key)
    ensures StateAfter(env.(cfg := cfg), acts, n) == StateAfter(env, acts, n)
    ensures TasksAgree(env.cfg, cfg, StateAfter(env, acts, n))
  {
    hide Step, Agree;
    if n > 0 {
      RunsAgree(env, cfg, acts, n - 1);
      StepsAgree(env, cfg, StateAfter(env, acts, n - 1), acts[n - 1]);
    }
  }

  /** In this state a key has these limits: what there is of permits and connections adds up to them. */
  predicate Limited(s: State, key: PoolKey, limits: Limits) {
    && (key in s.semOf ==>
          && s.semOf[key] < |s.sems|
          && s.sems[s.semOf[key]].permits + IdleLen(s, key) + Sum(s.tasks, PermitsFor(key))
            == limits.maxSize + limits.reserveSize)
    && (key !in s.semOf ==> IdleLen(s, key) == 0 && Sum(s.tasks, PermitsFor(key)) == 0)
    && IdleLen(s, key) <= limits.maxSize
    && (key in s.pools ==> s.pools[key].limits == limits)
  }

  /**
   * In every reachable state, permits and idle connections of a key are bounded by the limits
   * given for its user; without any, by those for its database; and only without either by the
   * global ones.
   */
  lemma LimitedByPrecedence(env: Env, acts: seq<Act>, n: nat, key: PoolKey)
    requires n <= |acts|
    ensures var cfg, s := env.cfg, StateAfter(env, acts, n);
      if key.dbUser in cfg.userLimits then Limited(s, key, cfg.userLimits[key.dbUser])
      else if key.dbname in cfg.databaseLimits then Limited(s, key, cfg.databaseLimits[key.dbname])
      else Limited(s, key, cfg.globalLimits)
  {
    hide StateAfter, LockOk, AllTasksOk, AllUnique;
    var s := StateAfter(env, acts, n);
    RunKeepsInv(env, acts, n);
    PermitsAreConserved(env, acts, n, key);
    if key in s.pools {
      assert PoolOk(env, s, key);
    }
  }

  /** A new semaphore has as many permits as they say, and a warm-up fills up to the minimum they say. */
  lemma NewcomersByPrecedence(env: Env, s: State, t: nat, c: Choice)
    requires t < |s.tasks|
    ensures var cfg, key, mv := env.cfg, s.tasks[t].key, Decide(env, s, t, c);
      var limits := if key.dbUser in cfg.userLimits then cfg.userLimits[key.dbUser]
                    else if key.dbname in cfg.databaseLimits then cfg.databaseLimits[key.dbname]
                    else cfg.globalLimits;
      && (mv.insert ==>
            Step(env, s, Run(t, c)).sems == s.sems + [Sem(key, limits.maxSize + limits.reserveSize)])
      && (s.tasks[t].pc.WarmLock? && s.lock.None? ==>
            && mv.pc.Spawning?
            && mv.pc.n == if limits.minSize > IdleLen(s, key) then limits.minSize - IdleLen(s, key) else 0)
  {
    hide AfterPlan, OnEvent, Forward, Resume, AfterGrant, AfterFailedCreate, AfterUse, ScanOne,
      ReadLocked, Popped, IdleTooLong, TooOld, Elapsed, SemIndex, IdleLen, PoolSpec.Enumerates, AfterExit;
  }

  // ---- Warm-up ----

  /** How many tasks task `t` has spawned between these steps. */
  function SpawnsOf(env: Env, acts: seq<Act>, a: nat, n: nat, t: nat): nat
    requires n <= |acts|
    decreases n
  {
    if n <= a then 0
    else
      var s, r := StateAfter(env, acts, n - 1), StateAfter(env, acts, n);
      SpawnsOf(env, acts, a, n - 1, t)
        + One(acts[n - 1].Run? && acts[n - 1].t == t && t < |s.tasks|
              && r.tasks == r.tasks[..|s.tasks|] + [Task(s.tasks[t].key, AcqLookup(WarmUp))])
  }

  lemma SpawningSteps(env: Env, s: State, t: nat, c: Choice)
    requires t < |s.tasks| && (s.tasks[t].pc.Spawning? || s.tasks[t].pc.Done?)
    ensures var pc, r := s.tasks[t].pc, Step(env, s, Run(t, c));
      if pc.Spawning? && pc.n > 0 then
        && r.tasks == r.tasks[..|s.tasks|] + [Task(s.tasks[t].key, AcqLookup(WarmUp))]
        && r.tasks[t].pc == Spawning(pc.n - 1)
      else |r.tasks| == |s.tasks| && r.tasks[t].pc == Done
  {
    hide SemsAfter, LockAfter;
  }

  /** A warm-up that finds so many connections idle spawns as many tasks as are missing to min_size. */
  lemma {:induction false} WarmupSpawnsExactly(env: Env, acts: seq<Act>, a: nat, n: nat, t: nat)
    requires a < n <= |acts| && acts[a].Run? && acts[a].t == t && t < |StateAfter(env, acts, a).tasks|
    requires StateAfter(env, acts, a).tasks[t].pc.WarmLock? && StateAfter(env, acts, a).lock.None?
    ensures t < |StateAfter(env, acts, n).tasks|
    ensures var pc, s := StateAfter(env, acts, n).tasks[t].pc, StateAfter(env, acts, a);
      var min, idle := ResolveLimits(env.cfg, s.tasks[t].key).minSize, IdleLen(s, s.tasks[t].key);
      var spawned, missing := SpawnsOf(env, acts, a + 1, n, t), if min > idle then min - idle else 0;
      (pc.Spawning? && pc.n + spawned == missing) || (pc.Done? && spawned == missing)
    decreases n
  {
    hide Decide, ResolveLimits, IdleLen;
    var s := StateAfter(env, acts, n - 1);
    if n == a + 1 {
      MovesOnFrom(env, s, t, acts[a].c);
    } else {
      WarmupSpawnsExactly(env, acts, a, n - 1, t);
      if acts[n - 1].Run? && acts[n - 1].t == t {
        SpawningSteps(env, s, t, acts[n - 1].c);
      } else {
        OthersStay(env, s, acts[n - 1], t);
      }
    }
  }

  lemma MovesOnFrom(env: Env, s: State, t: nat, c: Choice)
    requires t < |s.tasks| && s.tasks[t].pc.WarmLock? && s.lock.None?
    ensures var r := Step(env, s, Run(t, c));
      var min, idle := ResolveLimits(env.cfg, s.tasks[t].key).minSize, IdleLen(s, s.tasks[t].key);
      t < |r.tasks| && r.tasks[t].pc == Spawning(if min > idle then min - idle else 0)
  {
    hide ResolveLimits, IdleLen, SemsAfter, LockAfter;
  }
}
