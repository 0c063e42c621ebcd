// src/pool/mod.rs: what the statistics mean while other tasks go on.

module PoolStatistics {
  import opened Prelude
  import opened Backends
  import opened Pool
  import opened PoolSystem
  import opened PoolInvariant
  import opened PoolSafety
  import opened PoolTheorems
  import opened PoolCalls
  import opened TransactionLoop
  import PoolSpec

  // ---- global_stats ----

  /**
   * global_stats at one key of its scan, in any reachable state: what it adds to `active` is
   * the number of permits that are neither available nor idle, and nothing saturates.
   */
  lemma ScanStepIsExact(env: Env, acts: seq<Act>, n: nat, t: nat, c: Choice)
    requires n <= |acts| && t < |StateAfter(env, acts, n).tasks|
    requires var pc := StateAfter(env, acts, n).tasks[t].pc; pc.TotalScan? && pc.todo != []
    ensures var s := StateAfter(env, acts, n);
      var pc := s.tasks[t].pc;
      var key := pc.todo[0];
      var next := Decide(env, s, t, c).pc;
      && next.TotalScan? && next.todo == pc.todo[1..]
      && next.total.active == pc.total.active + Sum(s.tasks, PermitsFor(key))
      && next.total.active == pc.total.active + Capacity(env.cfg, key) - Avail(env, s, key) - IdleLen(s, key)
      && next.total.idle == pc.total.idle + IdleLen(s, key)
      && next.total.max + next.total.reserve == pc.total.max + pc.total.reserve + Capacity(env.cfg, key)
  {
    hide StateAfter, ScanOne, Sum, SemsOk, LockOk, AllPoolsOk, AllConserved, AllUnique, TotalsOk, AtHome;
    var s := StateAfter(env, acts, n);
    RunKeepsInv(env, acts, n);
    assert TaskOk(s, t);
    ScanIsExact(env, s, s.tasks[t].pc.total, s.tasks[t].pc.todo[0]);
    PermitsAreConserved(env, acts, n, s.tasks[t].pc.todo[0]);
  }

  /** What global_stats reports never exceeds the permits there are. */
  lemma ReportedTotalsAddUp(env: Env, acts: seq<Act>, n: nat, t: nat)
    requires n <= |acts| && t < |StateAfter(env, acts, n).tasks|
    requires StateAfter(env, acts, n).tasks[t].pc.Reported?
    ensures var total := StateAfter(env, acts, n).tasks[t].pc.total;
      total.active >= 0 && total.active + total.idle <= total.max + total.reserve
  {
    hide StateAfter, SemsOk, LockOk, AllPoolsOk, AllConserved, AllUnique;
    RunKeepsInv(env, acts, n);
    assert TaskOk(StateAfter(env, acts, n), t);
  }

  function SumIdle(s: State, keys: seq<PoolKey>): nat {
    if keys == [] then 0 else IdleLen(s, keys[0]) + SumIdle(s, keys[1..])
  }

  lemma {:induction false} SumIdleSame(s: State, s': State, keys: seq<PoolKey>)
    requires s'.pools == s.pools
    ensures SumIdle(s', keys) == SumIdle(s, keys)
  {
    if keys != [] {
      SumIdleSame(s, s', keys[1..]);
    }
  }

  /** The idle connections counted so far and those still to be counted. */
  function IdleOfScan(s: State, t: nat): nat
    requires t < |s.tasks|
  {
    match s.tasks[t].pc
    case TotalScan(todo, total) => total.idle + SumIdle(s, todo)
    case Reported(total) => total.idle
    case _ => 0
  }

  /** The scan goes on by one key, or ends, with the pools as they were. */
  lemma ScanGoesOn(env: Env, s: State, t: nat, c: Choice)
    requires Inv(env, s) && t < |s.tasks| && s.tasks[t].pc.TotalScan?
    ensures var s', pc := Step(env, s, Run(t, c)), s.tasks[t].pc;
      && t < |s'.tasks| && s'.pools == s.pools
      && if pc.todo == [] then s'.tasks[t].pc == Reported(pc.total)
         else
           var next := s'.tasks[t].pc;
           next.TotalScan? && next.todo == pc.todo[1..] && next.total.idle == pc.total.idle + IdleLen(s, pc.todo[0])
  {
    hide AllConserved, AllPoolsOk, AllUnique, SemsOk, SemsAfter, ScanOne, Sum;
    assert TaskOk(s, t);
    if s.tasks[t].pc.todo != [] {
      ScanIsExact(env, s, s.tasks[t].pc.total, s.tasks[t].pc.todo[0]);
    }
  }

  /** Others change neither the pools nor the scan. */
  lemma ScanIsLeftAlone(env: Env, s: State, t: nat, u: nat, c: Choice)
    requires Inv(env, s) && t < |s.tasks| && s.tasks[t].pc.TotalScan? && u < |s.tasks| && u != t
    ensures var s' := Step(env, s, Run(u, c)); t < |s'.tasks| && s'.tasks[t] == s.tasks[t] && s'.pools == s.pools
  {
    hide AllConserved, AllPoolsOk, AllUnique, SemsOk, SemsAfter, Decide;
    assert TaskOk(s, t);
    PoolsChangeOnlyUnderLock(env, s, u, c);
  }

  /**
   * From the moment a scan starts, whatever steps any tasks take, the idle connections it has
   * counted and those it will count add up to the same number, which is what it reports: the
   * idle total is that of the state in which it took the lock.
   */
  lemma ScanCountsIdleOfOneState(env: Env, s: State, t: nat, a: Act)
    requires Inv(env, s) && t < |s.tasks| && s.tasks[t].pc.TotalScan?
    ensures var s' := Step(env, s, a);
      && t < |s'.tasks| && (s'.tasks[t].pc.TotalScan? || s'.tasks[t].pc.Reported?)
      && IdleOfScan(s', t) == IdleOfScan(s, t)
  {
    hide Inv, Decide, Apply, IdleLen;
    var s', todo := Step(env, s, a), s.tasks[t].pc.todo;
    match a
    case Run(u, c) =>
      if u == t {
        ScanGoesOn(env, s, t, c);
        SumIdleSame(s, s', if todo == [] then [] else todo[1..]);
      } else if u < |s.tasks| {
        ScanIsLeftAlone(env, s, t, u, c);
        SumIdleSame(s, s', todo);
      }
    case _ =>
      assert s'.tasks[t] == s.tasks[t];
      SumIdleSame(s, s', todo);
  }

  // ---- What global_stats reports ----

  /** The permits that tasks accounted for, added up over the keys that task `t` has read since step `r`. */
  function HeldWhenRead(env: Env, acts: seq<Act>, r: nat, n: nat, t: nat): nat
    requires n <= |acts|
    decreases n
  {
    if n <= r then 0
    else
      var s, a := StateAfter(env, acts, n - 1), acts[n - 1];
      HeldWhenRead(env, acts, r, n - 1, t) +
        if a.Run? && a.t == t && t < |s.tasks| && s.tasks[t].pc.TotalScan? && s.tasks[t].pc.todo != []
        then Sum(s.tasks, PermitsFor(s.tasks[t].pc.todo[0])) else 0
  }

  /** These totals are the sums over the keys. */
  predicate IsTotal(pools: map<PoolKey, PoolInner>, keys: seq<PoolKey>, active: nat, total: PoolSpec.Stats) {
    && total.idle == SumOver(keys, CountOf(pools)) && total.max == SumOver(keys, MaxOf(pools))
    && total.reserve == SumOver(keys, ReserveOf(pools)) && total.min == SumOver(keys, MinOf(pools))
    && total.active == active
  }

  /** At step `r` the task took the lock to scan these keys, and it has come so far with them. */
  predicate ScansSince(env: Env, acts: seq<Act>, r: nat, n: nat, t: nat, todo: seq<PoolKey>, total: PoolSpec.Stats)
    requires r < n <= |acts|
  {
    var s := StateAfter(env, acts, r);
    && acts[r].Run? && acts[r].t == t && t < |s.tasks| && s.tasks[t].pc.TotalLock? && s.lock.None?
    && var keys := acts[r].c.keys;
       && PoolSpec.Enumerates(keys, s.pools) && |todo| <= |keys| && todo == keys[|keys| - |todo|..]
       && IsTotal(s.pools, keys[..|keys| - |todo|], HeldWhenRead(env, acts, r, n, t), total)
  }

  /** One key more. */
  lemma OneKeyMore(env: Env, s: State, pools: map<PoolKey, PoolInner>, keys: seq<PoolKey>, todo: seq<PoolKey>,
      active: nat, total: PoolSpec.Stats)
    requires Inv(env, s) && s.pools == pools && todo != [] && todo[0] in pools
    requires |todo| <= |keys| && todo == keys[|keys| - |todo|..]
    requires IsTotal(pools, keys[..|keys| - |todo|], active, total)
    ensures |todo| - 1 <= |keys| && todo[1..] == keys[|keys| - (|todo| - 1)..]
    ensures IsTotal(pools, keys[..|keys| - (|todo| - 1)], active + Sum(s.tasks, PermitsFor(todo[0])),
      ScanOne(s, total, todo[0]))
  {
    hide Inv, Sum, PoolSpec.SatSub;
    ScanIsExact(env, s, total, todo[0]);
    var i := |keys| - |todo|;
    assert keys[i] == todo[0];
    assert keys[..i + 1][..i] == keys[..i] && keys[..i + 1][i] == keys[i];
  }

  lemma NoKeysYet(pools: map<PoolKey, PoolInner>, keys: seq<PoolKey>)
    ensures keys[|keys| - |keys|..] == keys
    ensures IsTotal(pools, keys[..|keys| - |keys|], 0, PoolSpec.Stats(0, 0, 0, 0, 0))
  {
  }

  /** What a scanning task has done with its last step. */
  lemma ScanStep(env: Env, s: State, t: nat, c: Choice)
    requires Inv(env, s) && t < |s.tasks| && Decide(env, s, t, c).pc.TotalScan?
    ensures var pc, next, r := s.tasks[t].pc, Decide(env, s, t, c).pc, Step(env, s, Run(t, c));
      && r.pools == s.pools && t < |r.tasks| && r.tasks[t].pc == next
      && if pc.TotalScan? then
           pc.todo != [] && pc.todo[0] in s.pools && next == TotalScan(pc.todo[1..], ScanOne(s, pc.total, pc.todo[0]))
         else
           && pc.TotalLock? && s.lock.None? && PoolSpec.Enumerates(c.keys, s.pools)
           && next == TotalScan(c.keys, PoolSpec.Stats(0, 0, 0, 0, 0))
  {
    hide Inv, Decide, SemsAfter, LockAfter, ScanOne, PoolSpec.Enumerates;
    if OnTheScan(s.tasks[t].pc) {
      ScanDecides(env, s, t, c);
    } else {
      OnlyScansScan(env, s, t, c);
    }
  }

  lemma ScanDecides(env: Env, s: State, t: nat, c: Choice)
    requires Inv(env, s) && t < |s.tasks| && OnTheScan(s.tasks[t].pc) && Decide(env, s, t, c).pc.TotalScan?
    ensures Decide(env, s, t, c).inner.None?
    ensures var pc, next := s.tasks[t].pc, Decide(env, s, t, c).pc;
      if pc.TotalScan? then
        pc.todo != [] && pc.todo[0] in s.pools && next == TotalScan(pc.todo[1..], ScanOne(s, pc.total, pc.todo[0]))
      else
        && pc.TotalLock? && s.lock.None? && PoolSpec.Enumerates(c.keys, s.pools)
        && next == TotalScan(c.keys, PoolSpec.Stats(0, 0, 0, 0, 0))
  {
    hide AllConserved, AllPoolsOk, AllUnique, SemsOk, ScanOne, PoolSpec.Enumerates, TotalsOk, AtHome;
    assert TaskOk(s, t);
  }

  /** Only these lead to a scan or a report. */
  predicate OnTheScan(pc: Pc) {
    pc.TotalLock? || pc.TotalScan?
  }

  lemma OnlyScansScan(env: Env, s: State, t: nat, c: Choice)
    requires Inv(env, s) && t < |s.tasks| && !OnTheScan(s.tasks[t].pc)
    ensures !Decide(env, s, t, c).pc.TotalScan?
    ensures Decide(env, s, t, c).pc.Reported? ==> Decide(env, s, t, c).pc == s.tasks[t].pc
  {
    hide Inv, Lawful, Decide, Quiet, MovesOn;
    var pc := s.tasks[t].pc;
    if MovesOn(pc) {
      QuietSteps(env, s, t, c);
      QuietIsNoScan(s, t, Decide(env, s, t, c));
    } else {
      OthersDoNotScan(env, s, t, c);
    }
  }

  lemma QuietIsNoScan(s: State, t: nat, mv: Move)
    requires t < |s.tasks| && Quiet(s, t, mv)
    ensures !mv.pc.TotalScan? && (mv.pc.Reported? ==> mv.pc == s.tasks[t].pc)
  {
  }

  lemma OthersDoNotScan(env: Env, s: State, t: nat, c: Choice)
    requires t < |s.tasks| && !OnTheScan(s.tasks[t].pc) && !MovesOn(s.tasks[t].pc)
    ensures !Decide(env, s, t, c).pc.TotalScan? && !Decide(env, s, t, c).pc.Reported?
  {
    hide Resume, AfterGrant, AfterFailedCreate, Popped, IdleTooLong, TooOld, SemIndex, NewInner, CarriesOn, PermitsOf,
      AtHome, TotalsOk, OnEvent, Forward, AfterPlan, AfterUse, OnExit;
    CarryFacts(env, s, t, c);
    forall pc, b | CarriesOn(pc, b)
      ensures !pc.TotalScan? && !pc.Reported?
    {
      CarriedIsNoScan(pc, b);
    }
    if s.tasks[t].pc.Creating? {
      PlainIsNoScan(AfterFailedCreate(s.tasks[t].pc.who));
    }
  }

  lemma CarriedIsNoScan(pc: Pc, b: Option<Backend>)
    requires CarriesOn(pc, b)
    ensures !pc.TotalScan? && !pc.Reported?
  {
  }

  lemma PlainIsNoScan(pc: Pc)
    requires Plain(pc)
    ensures !pc.TotalScan? && !pc.Reported?
  {
  }

  lemma {:induction false} ScanSoFar(env: Env, acts: seq<Act>, n: nat, t: nat) returns (r: nat)
    requires n <= |acts| && t < |StateAfter(env, acts, n).tasks| && StateAfter(env, acts, n).tasks[t].pc.TotalScan?
    ensures r < n && StateAfter(env, acts, n).pools == StateAfter(env, acts, r).pools
    ensures var pc := StateAfter(env, acts, n).tasks[t].pc; ScansSince(env, acts, r, n, t, pc.todo, pc.total)
    decreases n
  {
    hide Inv, Decide, Step, Sum, IsTotal, ScanOne, PoolSpec.Enumerates;
    if n > 0 {
      var s, a := StateAfter(env, acts, n - 1), acts[n - 1];
      RunKeepsInv(env, acts, n - 1);
      if a.Run? && a.t == t && t < |s.tasks| {
        StepGives(env, s, t, a.c);
        ScanStep(env, s, t, a.c);
        if s.tasks[t].pc.TotalScan? {
          r := ScanSoFar(env, acts, n - 1, t);
          OneKeyMore(env, s, StateAfter(env, acts, r).pools, acts[r].c.keys, s.tasks[t].pc.todo,
            HeldWhenRead(env, acts, r, n - 1, t), s.tasks[t].pc.total);
          var pc := StateAfter(env, acts, n).tasks[t].pc;
          assert ScansSince(env, acts, r, n, t, pc.todo, pc.total);
        } else {
          r := n - 1;
          NoKeysYet(s.pools, a.c.keys);
          var pc := StateAfter(env, acts, n).tasks[t].pc;
          assert HeldWhenRead(env, acts, r, r, t) == 0;
          assert HeldWhenRead(env, acts, r, n, t) == 0;
          assert ScansSince(env, acts, r, n, t, pc.todo, pc.total);
        }
      } else {
        ScanWaits(env, s, a, t);
        r := ScanSoFar(env, acts, n - 1, t);
        var pc := StateAfter(env, acts, n).tasks[t].pc;
        assert ScansSince(env, acts, r, n, t, pc.todo, pc.total);
      }
    }
  }

  /** A scan that is not at its own step stays as it is, and so do the pools. */
  lemma ScanWaits(env: Env, s: State, a: Act, t: nat)
    requires Inv(env, s) && t < |Step(env, s, a).tasks| && Step(env, s, a).tasks[t].pc.TotalScan?
    requires a.Run? ==> a.t != t || t >= |s.tasks|
    ensures t < |s.tasks| && s.tasks[t] == Step(env, s, a).tasks[t] && Step(env, s, a).pools == s.pools
  {
    hide Decide, SemsAfter, LockAfter, AllConserved, AllPoolsOk, AllUnique, SemsOk;
    if a.Run? && a.t < |s.tasks| && t < |s.tasks| {
      assert TaskOk(s, t);
      PoolsChangeOnlyUnderLock(env, s, a.t, a.c);
    }
  }

  /**
   * Whenever `global_stats` has reported, there is the step at which it took the lock: idle, max,
   * reserve and min are the sums of each over all pools there were then, each pool once; and
   * active is the sum, over these pools, of the permits that tasks accounted for when it came to
   * each.
   */
  lemma {:induction false} ReportIsExact(env: Env, acts: seq<Act>, n: nat, t: nat) returns (r: nat, m: nat)
    requires n <= |acts| && t < |StateAfter(env, acts, n).tasks| && StateAfter(env, acts, n).tasks[t].pc.Reported?
    ensures r < m <= n && acts[r].Run? && acts[r].t == t
    ensures var s, keys, total := StateAfter(env, acts, r), acts[r].c.keys, StateAfter(env, acts, n).tasks[t].pc.total;
      && t < |s.tasks| && s.tasks[t].pc.TotalLock? && s.lock.None? && PoolSpec.Enumerates(keys, s.pools)
      && IsTotal(s.pools, keys, HeldWhenRead(env, acts, r, m, t), total)
    decreases n
  {
    hide Inv, Decide, Step, Sum, IsTotal, ScanOne, PoolSpec.Enumerates;
    if n > 0 {
      var s, a := StateAfter(env, acts, n - 1), acts[n - 1];
      RunKeepsInv(env, acts, n - 1);
      if a.Run? && a.t == t && t < |s.tasks| && s.tasks[t].pc.TotalScan? {
        StepGives(env, s, t, a.c);
        ReportsAtEnd(env, s, t, a.c);
        r := ScanSoFar(env, acts, n - 1, t);
        m := n - 1;
        assert acts[r].c.keys[..|acts[r].c.keys| - 0] == acts[r].c.keys;
      } else {
        ReportStays(env, s, a, t);
        r, m := ReportIsExact(env, acts, n - 1, t);
      }
    }
  }

  lemma ReportsAtEnd(env: Env, s: State, t: nat, c: Choice)
    requires t < |s.tasks| && s.tasks[t].pc.TotalScan? && Decide(env, s, t, c).pc.Reported?
    ensures s.tasks[t].pc.todo == [] && Decide(env, s, t, c).pc.total == s.tasks[t].pc.total
  {
    hide ScanOne;
  }

  lemma ReportStays(env: Env, s: State, a: Act, t: nat)
    requires Inv(env, s) && t < |Step(env, s, a).tasks| && Step(env, s, a).tasks[t].pc.Reported?
    requires t < |s.tasks| && a.Run? && a.t == t ==> !s.tasks[t].pc.TotalScan?
    ensures t < |s.tasks| && s.tasks[t].pc == Step(env, s, a).tasks[t].pc
  {
    hide Inv, Decide, SemsAfter, LockAfter;
    if a.Run? && a.t == t && t < |s.tasks| {
      if s.tasks[t].pc.TotalLock? {
        LockIsNoReport(env, s, t, a.c);
      } else {
        OnlyScansScan(env, s, t, a.c);
      }
    }
  }

  lemma LockIsNoReport(env: Env, s: State, t: nat, c: Choice)
    requires t < |s.tasks| && s.tasks[t].pc.TotalLock?
    ensures !Decide(env, s, t, c).pc.Reported?
  {
    hide PoolSpec.Enumerates;
  }

  // ---- stats_for ----

  /** What stats_for subtracts when it gets the lock, with the permits it had read before. */
  function StatsActive(env: Env, s: State, t: nat): int
    requires t < |s.tasks| && s.tasks[t].pc.StatsLock?
  {
    Capacity(env.cfg, s.tasks[t].key) - s.tasks[t].pc.available - IdleLen(s, s.tasks[t].key)
  }

  /** A step that takes an available permit of a key. */
  predicate TakesPermit(s: State, a: Act, key: PoolKey) {
    && a.Run? && a.t < |s.tasks| && s.tasks[a.t].key == key && s.tasks[a.t].pc.AcqBlocked?
    && var sem := s.tasks[a.t].pc.sem;
       sem < |s.sems| && s.sems[sem].permits > 0
  }

  /** A step that makes a permit of a key available. */
  predicate ReturnsPermit(s: State, a: Act, key: PoolKey) {
    a.Run? && a.t < |s.tasks| && s.tasks[a.t].key == key && (s.tasks[a.t].pc.AcqRefund? || s.tasks[a.t].pc.RetAdd?)
  }

  lemma AddsExactly(env: Env, s: State, t: nat, c: Choice)
    requires t < |s.tasks|
    ensures var a, key := Run(t, c), s.tasks[t].key;
      Decide(env, s, t, c).add == One(ReturnsPermit(s, a, key)) - One(TakesPermit(s, a, key))
  {
    hide AfterPlan, AfterExit, Resume, AfterGrant, AfterFailedCreate, AfterUse, ScanOne, ReadLocked,
      Popped, IdleTooLong, TooOld, Elapsed, SemIndex, IdleLen, ResolveLimits, NewInner, PoolSpec.Enumerates, Capacity;
  }

  lemma AvailAfterStep(env: Env, s: State, a: Act, key: PoolKey)
    requires Inv(env, s)
    ensures Avail(env, Step(env, s, a), key) ==
      Avail(env, s, key) + One(ReturnsPermit(s, a, key)) - One(TakesPermit(s, a, key))
  {
    hide Decide, Avail, SemsAfter, LockAfter, TasksAfter, AllConserved, AllTasksOk, AllPoolsOk, AllUnique;
    match a
    case Run(t, c) =>
      if t < |s.tasks| {
        DecideLawful(env, s, t, c);
        ApplyKeepsSems(env, s, t, Decide(env, s, t, c));
        AddsExactly(env, s, t, c);
      }
    case _ => AvailUnchanged(env, s, Step(env, s, a), key);
  }

  lemma AvailUnchanged(env: Env, s: State, s': State, key: PoolKey)
    requires s'.sems == s.sems && s'.semOf == s.semOf
    ensures Avail(env, s', key) == Avail(env, s, key)
  {
  }

  /** How many permits of a key the steps from the `a`th to before the `n`th have taken. */
  function Taken(env: Env, acts: seq<Act>, a: nat, n: nat, key: PoolKey): nat
    requires n <= |acts|
    decreases n
  {
    if n <= a then 0
    else Taken(env, acts, a, n - 1, key) + One(TakesPermit(StateAfter(env, acts, n - 1), acts[n - 1], key))
  }

  /** And how many they have returned. */
  function Returned(env: Env, acts: seq<Act>, a: nat, n: nat, key: PoolKey): nat
    requires n <= |acts|
    decreases n
  {
    if n <= a then 0
    else Returned(env, acts, a, n - 1, key) + One(ReturnsPermit(StateAfter(env, acts, n - 1), acts[n - 1], key))
  }

  lemma {:induction false} AvailBetween(env: Env, acts: seq<Act>, a: nat, n: nat, key: PoolKey)
    requires a <= n <= |acts|
    ensures Avail(env, StateAfter(env, acts, n), key) ==
      Avail(env, StateAfter(env, acts, a), key) + Returned(env, acts, a, n, key) - Taken(env, acts, a, n, key)
    decreases n
  {
    hide Step, Avail, Inv, TakesPermit, ReturnsPermit;
    if a < n {
      AvailBetween(env, acts, a, n - 1, key);
      RunKeepsInv(env, acts, n - 1);
      AvailAfterStep(env, StateAfter(env, acts, n - 1), acts[n - 1], key);
    }
  }

  /** Step `r` of the run is where task `t` has read the permits that it now holds the number of. */
  predicate ReadsAt(env: Env, acts: seq<Act>, r: nat, n: nat, t: nat)
    requires r < n <= |acts| && t < |StateAfter(env, acts, n).tasks|
  {
    var s, x := StateAfter(env, acts, r), StateAfter(env, acts, n).tasks[t];
    && acts[r].Run? && acts[r].t == t
    && t < |s.tasks| && s.tasks[t].key == x.key && s.tasks[t].pc.StatsRead?
    && x.pc.StatsLock? && x.pc.available == Avail(env, s, x.key)
  }

  /** The only way to wait with a number of permits is to have read it. */
  lemma WaitsAfterRead(env: Env, s: State, a: Act, t: nat)
    requires Inv(env, s) && t < |Step(env, s, a).tasks| && Step(env, s, a).tasks[t].pc.StatsLock?
    ensures t < |s.tasks| && s.tasks[t].key == Step(env, s, a).tasks[t].key
    ensures || s.tasks[t] == Step(env, s, a).tasks[t]
      || (a.Run? && a.t == t && s.tasks[t].pc.StatsRead?
          && Step(env, s, a).tasks[t].pc.available == Avail(env, s, s.tasks[t].key))
  {
    hide SemsAfter, LockAfter, LockOk, AllPoolsOk, AllConserved, AllUnique, Decide;
    match a
    case Run(u, c) =>
      if u < |s.tasks| && u == t {
        assert TaskOk(s, t);
        WaitsOnlyAfterRead(env, s, t, c);
      }
    case _ =>
  }

  lemma WaitsOnlyAfterRead(env: Env, s: State, t: nat, c: Choice)
    requires t < |s.tasks| && TaskOk(s, t) && SemsOk(s) && Decide(env, s, t, c).pc.StatsLock?
    ensures var pc, next := s.tasks[t].pc, Decide(env, s, t, c).pc;
      next == pc || (pc.StatsRead? && next.available == Avail(env, s, s.tasks[t].key))
  {
    hide ScanOne, ReadLocked, Popped, IdleTooLong, TooOld, Elapsed, IdleLen, ResolveLimits, NewInner,
      PoolSpec.Enumerates, Capacity, Reset, TotalsOk, AtHome;
  }

  lemma {:induction false} HasRead(env: Env, acts: seq<Act>, n: nat, t: nat) returns (r: nat)
    requires n <= |acts| && t < |StateAfter(env, acts, n).tasks|
    requires StateAfter(env, acts, n).tasks[t].pc.StatsLock?
    ensures r < n && ReadsAt(env, acts, r, n, t)
    decreases n
  {
    hide Step, Inv, Avail;
    if n > 0 {
      RunKeepsInv(env, acts, n - 1);
      var before := StateAfter(env, acts, n - 1);
      WaitsAfterRead(env, before, acts[n - 1], t);
      if before.tasks[t] == StateAfter(env, acts, n).tasks[t] {
        r := HasRead(env, acts, n - 1, t);
      } else {
        r := n - 1;
      }
    }
  }

  /**
   * What stats_for calls active is the permits that tasks account for, less those that have
   * been taken and plus those that have been returned since the step that read the permits.
   * Its subtraction underflows if and only if more have been taken since than have been
   * returned and are now accounted for, that is if they have gone to idle connections.
   */
  lemma StatsForExactly(env: Env, acts: seq<Act>, n: nat, t: nat) returns (r: nat)
    requires n <= |acts| && t < |StateAfter(env, acts, n).tasks|
    requires StateAfter(env, acts, n).tasks[t].pc.StatsLock?
    ensures r < n && ReadsAt(env, acts, r, n, t)
    ensures var s := StateAfter(env, acts, n);
      var key := s.tasks[t].key;
      var held := Sum(s.tasks, PermitsFor(key));
      var taken, returned := Taken(env, acts, r, n, key), Returned(env, acts, r, n, key);
      && StatsActive(env, s, t) == held - taken + returned
      && (StatsActive(env, s, t) < 0 <==> taken > held + returned)
  {
    hide StateAfter, Avail, Taken, Returned;
    r := HasRead(env, acts, n, t);
    var key := StateAfter(env, acts, n).tasks[t].key;
    PermitsAreConserved(env, acts, n, key);
    AvailBetween(env, acts, r, n, key);
  }

  /** With overflow checks the handler ends, holding nothing, exactly if the subtraction underflows. */
  lemma UnderflowEndsHandler(env: Env, s: State, t: nat, c: Choice)
    requires t < |s.tasks| && s.tasks[t].pc.StatsLock? && s.lock.None?
    ensures var next := Decide(env, s, t, c).pc;
      && (next == Done <==> env.checked && StatsActive(env, s, t) < 0)
      && (next != Done ==> next == AcqLookup(s.tasks[t].pc.who))
  {
    hide IdleLen, ResolveLimits;
  }
}
