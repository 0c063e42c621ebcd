// src/pool/mod.rs: the pool manager, one call at a time.

/** What each call does to the state of the pool manager. */
module PoolSpec {
  import opened Prelude
  import opened Backends
  import opened Pool

  /** Idle connections, available permits of each semaphore, and readings of the clock so far. */
  datatype PoolState = PoolState(
    pools: map<PoolKey, PoolInner>, permits: map<PoolKey, nat>, tick: nat)

  function Empty(): PoolState {
    PoolState(map[], map[], 0)
  }

  /** `get_or_create_semaphore` */
  function WithSemaphore(cfg: PoolConfig, s: PoolState, key: PoolKey): (r: PoolState)
    ensures key in r.permits
  {
    if key in s.permits then s else s.(permits := s.permits[key := Capacity(cfg, key)])
  }

  function AddPermits(cfg: PoolConfig, s: PoolState, key: PoolKey, n: nat): (r: PoolState)
    ensures key in r.permits
  {
    var s1 := WithSemaphore(cfg, s, key);
    s1.(permits := s1.permits[key := s1.permits[key] + n])
  }

  datatype Outcome =
    | Reused(b: Backend)     // an idle connection, with the permit it carries
    | NewPermit              // a permit for a connection still to be created
    | MustWait               // no permit left: the task waits at the semaphore

  /** The state after the pop loop, and what it found. */
  function PopIdle(cfg: PoolConfig, clock: nat -> nat, s: PoolState, key: PoolKey): (PoolState, Option<Backend>) {
    var s1 := WithSemaphore(cfg, s, key);
    if key !in s1.pools then (s1, None)
    else
      var inner := s1.pools[key];
      var r := PopLoop(inner, inner.idle, clock, s1.tick);
      (AddPermits(cfg, s1.(pools := s1.pools[key := inner.(idle := r.rest)], tick := r.tick), key, r.dropped),
       r.found)
  }

  function Acquire(cfg: PoolConfig, clock: nat -> nat, s: PoolState, key: PoolKey): (PoolState, Outcome) {
    var (s1, found) := PopIdle(cfg, clock, s, key);
    match found
    case Some(b) => (s1, Reused(b))
    case None =>
      var s2 := WithSemaphore(cfg, s1, key);
      if s2.permits[key] > 0
      then (s2.(permits := s2.permits[key := s2.permits[key] - 1]), NewPermit)
      else (s2, MustWait)
  }

  function Entry(cfg: PoolConfig, s: PoolState, key: PoolKey): PoolInner {
    if key in s.pools then s.pools[key] else NewInner(cfg, key)
  }

  function Cancel(cfg: PoolConfig, s: PoolState, key: PoolKey): PoolState {
    AddPermits(cfg, s, key, 1)
  }

  /** Too old: drop it.  Otherwise park it with its permit, or drop it if the pool is full. */
  function Release(cfg: PoolConfig, clock: nat -> nat, s: PoolState, key: PoolKey, b: Backend): PoolState {
    var s1 := s.(tick := s.tick + 1);
    if Elapsed(clock(s.tick), b.bornAt) >= cfg.serverLifetime then Cancel(cfg, s1, key)
    else
      var inner := Entry(cfg, s1, key);
      if |inner.idle| < inner.limits.maxSize then
        s1.(pools := s1.pools[key := inner.(idle := inner.idle + [IdleConn(b, clock(s1.tick))])], tick := s1.tick + 1)
      else
        Cancel(cfg, s1.(pools := s1.pools[key := inner]), key)
  }

  // ---- Statistics ----

  datatype Stats = Stats(idle: nat, active: int, max: nat, reserve: nat, min: nat)

  function SatSub(a: nat, b: nat): nat {
    if a < b then 0 else a - b
  }

  function IdleLen(s: PoolState, key: PoolKey): nat {
    if key in s.pools then |s.pools[key].idle| else 0
  }

  function Available(cfg: PoolConfig, s: PoolState, key: PoolKey): nat {
    if key in s.permits then s.permits[key] else Capacity(cfg, key)
  }

  /** These are the keys of the pools, each of them once, in the order of an iteration. */
  predicate Enumerates(keys: seq<PoolKey>, pools: map<PoolKey, PoolInner>) {
    && (forall i :: 0 <= i < |keys| ==> keys[i] in pools)
    && (forall k :: k in pools ==> k in keys)
    && Distinct(keys)
  }

  predicate Distinct(keys: seq<PoolKey>) {
    forall i, j :: 0 <= i < j < |keys| ==> keys[i] != keys[j]
  }

  /** What the loop of `global_stats` adds for one key. */
  function AddKey(s: PoolState, total: Stats, key: PoolKey): Stats
    requires key in s.pools
  {
    var inner := s.pools[key];
    var cap := inner.limits.maxSize + inner.limits.reserveSize;
    var available := if key in s.permits then s.permits[key] else cap;
    Stats(total.idle + |inner.idle|,
          total.active + SatSub(SatSub(cap, available), |inner.idle|),
          total.max + inner.limits.maxSize,
          total.reserve + inner.limits.reserveSize,
          total.min + inner.limits.minSize)
  }

  function Totals(s: PoolState, keys: seq<PoolKey>): Stats
    requires forall i :: 0 <= i < |keys| ==> keys[i] in s.pools
  {
    if keys == [] then Stats(0, 0, 0, 0, 0)
    else AddKey(s, Totals(s, keys[..|keys| - 1]), keys[|keys| - 1])
  }

  // ---- What the calls keep ----

  /** Permits neither available nor with an idle connection: they are in the hands of tasks. */
  function InUse(cfg: PoolConfig, s: PoolState, key: PoolKey): int {
    Capacity(cfg, key) - Available(cfg, s, key) - IdleLen(s, key)
  }

  predicate InnerOk(cfg: PoolConfig, key: PoolKey, inner: PoolInner, now: nat) {
    && inner.limits == ResolveLimits(cfg, key)
    && inner.idleTimeout == cfg.idleTimeout && inner.serverLifetime == cfg.serverLifetime
    && |inner.idle| <= inner.limits.maxSize
    && Sorted(inner.idle)
    && (forall i :: 0 <= i < |inner.idle| ==> inner.idle[i].parkedSince <= now)
  }

  ghost predicate Inv(cfg: PoolConfig, clock: nat -> nat, s: PoolState) {
    && (forall k :: k in s.pools ==> k in s.permits && InnerOk(cfg, k, s.pools[k], clock(s.tick)))
    && (forall k :: k in s.permits ==> InUse(cfg, s, k) >= 0)
  }

  /** Nothing that belongs to another key has changed. */
  ghost predicate SameElsewhere(s: PoolState, t: PoolState, key: PoolKey) {
    forall k: PoolKey :: k != key ==>
      && (k in s.pools <==> k in t.pools) && (k in s.permits <==> k in t.permits)
      && (k in s.pools ==> s.pools[k] == t.pools[k])
      && (k in s.permits ==> s.permits[k] == t.permits[k])
  }

  lemma SameElsewhereRefl(s: PoolState, key: PoolKey)
    ensures SameElsewhere(s, s, key)
  {
  }

  lemma SameElsewhereTrans(s: PoolState, t: PoolState, u: PoolState, key: PoolKey)
    requires SameElsewhere(s, t, key) && SameElsewhere(t, u, key)
    ensures SameElsewhere(s, u, key)
  {
  }

  lemma InnerOkLater(cfg: PoolConfig, key: PoolKey, inner: PoolInner, now: nat, later: nat)
    requires InnerOk(cfg, key, inner, now) && now <= later
    ensures InnerOk(cfg, key, inner, later)
  {
  }

  /** What keeping the invariant comes down to when only one key has changed. */
  lemma InvOfKey(cfg: PoolConfig, clock: nat -> nat, s: PoolState, t: PoolState, key: PoolKey)
    requires Inv(cfg, clock, s) && Monotone(clock) && s.tick <= t.tick && SameElsewhere(s, t, key)
    requires key in t.pools ==> key in t.permits && InnerOk(cfg, key, t.pools[key], clock(t.tick))
    requires key in t.permits ==> InUse(cfg, t, key) >= 0
    ensures Inv(cfg, clock, t)
  {
    hide InnerOk;
    forall k | k in t.pools
      ensures k in t.permits && InnerOk(cfg, k, t.pools[k], clock(t.tick))
    {
      if k != key {
        InnerOkLater(cfg, k, s.pools[k], clock(s.tick), clock(t.tick));
      }
    }
    forall k | k in t.permits
      ensures InUse(cfg, t, k) >= 0
    {
      if k != key {
        assert IdleLen(t, k) == IdleLen(s, k);
        assert InUse(cfg, t, k) == InUse(cfg, s, k);
      }
    }
  }

  lemma PopIdleKeeps(cfg: PoolConfig, clock: nat -> nat, s: PoolState, key: PoolKey)
    requires Inv(cfg, clock, s) && Monotone(clock)
    ensures var (t, found) := PopIdle(cfg, clock, s, key);
      && Inv(cfg, clock, t) && SameElsewhere(s, t, key) && key in t.permits
      && InUse(cfg, t, key) == InUse(cfg, s, key) + (if found.Some? then 1 else 0)
  {
    hide PopLoop, InnerOk;
    var (t, found) := PopIdle(cfg, clock, s, key);
    if key in s.pools {
      PopLoopKeepsOk(cfg, clock, key, s.pools[key], s.tick);
    }
    InvOfKey(cfg, clock, s, t, key);
  }

  lemma PopLoopKeepsOk(cfg: PoolConfig, clock: nat -> nat, key: PoolKey, inner: PoolInner, tick: nat)
    requires InnerOk(cfg, key, inner, clock(tick)) && Monotone(clock)
    ensures var r := PopLoop(inner, inner.idle, clock, tick);
      && InnerOk(cfg, key, inner.(idle := r.rest), clock(r.tick))
      && |r.rest| + r.dropped + (if r.found.Some? then 1 else 0) == |inner.idle| && tick <= r.tick
  {
    hide PopLoop;
    var r := PopLoop(inner, inner.idle, clock, tick);
    PopLoopCounts(inner, inner.idle, clock, tick);
    PopLoopKeepsSorted(inner, inner.idle, clock, tick);
    assert clock(tick) <= clock(r.tick);
  }

  /** Every connection that was idle is found, dropped or left. */
  lemma {:induction false} PopLoopCounts(inner: PoolInner, idle: seq<IdleConn>, clock: nat -> nat, tick: nat)
    ensures var r := PopLoop(inner, idle, clock, tick);
      |r.rest| + r.dropped + (if r.found.Some? then 1 else 0) == |idle| && tick <= r.tick
    decreases |idle|
  {
    if idle != [] {
      var rest := Popped(inner.limits.strategy, idle).1;
      PopLoopCounts(inner, rest, clock, tick + 1);
      PopLoopCounts(inner, rest, clock, tick + 2);
    }
  }

  /** `acquire` keeps the invariant, leaves other keys alone and hands out at most one permit. */
  lemma AcquireKeeps(cfg: PoolConfig, clock: nat -> nat, s: PoolState, key: PoolKey)
    requires Inv(cfg, clock, s) && Monotone(clock)
    ensures var (t, out) := Acquire(cfg, clock, s, key);
      && Inv(cfg, clock, t) && SameElsewhere(s, t, key)
      && InUse(cfg, t, key) == InUse(cfg, s, key) + (if out.MustWait? then 0 else 1)
      && (out.MustWait? ==> Available(cfg, t, key) == 0 && IdleLen(t, key) == 0)
  {
    hide PopLoop, Inv, InnerOk, SameElsewhere, PopIdle;
    PopIdleKeeps(cfg, clock, s, key);
    var (s1, found) := PopIdle(cfg, clock, s, key);
    if found.None? {
      NothingLeftIdle(cfg, clock, s, key);
      TakePermitKeeps(cfg, clock, s1, key);
      SameElsewhereTrans(s, s1, Acquire(cfg, clock, s, key).0, key);
    }
  }

  lemma NothingLeftIdle(cfg: PoolConfig, clock: nat -> nat, s: PoolState, key: PoolKey)
    requires PopIdle(cfg, clock, s, key).1.None?
    ensures IdleLen(PopIdle(cfg, clock, s, key).0, key) == 0
    ensures PopIdle(cfg, clock, s, key).0.tick >= s.tick
  {
    if key in s.pools {
      RestOfNone(s.pools[key], s.pools[key].idle, clock, s.tick);
    }
  }

  lemma {:induction false} RestOfNone(inner: PoolInner, idle: seq<IdleConn>, clock: nat -> nat, tick: nat)
    ensures var r := PopLoop(inner, idle, clock, tick);
      (r.found.None? ==> r.rest == []) && tick <= r.tick
    decreases |idle|
  {
    if idle != [] {
      var rest := Popped(inner.limits.strategy, idle).1;
      RestOfNone(inner, rest, clock, tick + 1);
      RestOfNone(inner, rest, clock, tick + 2);
    }
  }

  lemma TakePermitKeeps(cfg: PoolConfig, clock: nat -> nat, s: PoolState, key: PoolKey)
    requires Inv(cfg, clock, s) && Monotone(clock) && key in s.permits
    ensures SameElsewhere(s, s, key)
    ensures s.permits[key] > 0 ==>
      var t := s.(permits := s.permits[key := s.permits[key] - 1]);
      && Inv(cfg, clock, t) && SameElsewhere(s, t, key)
      && InUse(cfg, t, key) == InUse(cfg, s, key) + 1
  {
    if s.permits[key] > 0 {
      InvOfKey(cfg, clock, s, s.(permits := s.permits[key := s.permits[key] - 1]), key);
    }
  }

  /** `cancel` by the holder of a permit gives back exactly that one. */
  lemma CancelKeeps(cfg: PoolConfig, clock: nat -> nat, s: PoolState, key: PoolKey)
    requires Inv(cfg, clock, s) && Monotone(clock) && InUse(cfg, s, key) > 0
    ensures var t := Cancel(cfg, s, key);
      && Inv(cfg, clock, t) && SameElsewhere(s, t, key)
      && InUse(cfg, t, key) == InUse(cfg, s, key) - 1
      && Available(cfg, t, key) == Available(cfg, s, key) + 1
  {
    InvOfKey(cfg, clock, s, Cancel(cfg, s, key), key);
  }

  /**
   * `release` by the holder of a permit gives back exactly that one: either the connection is
   * now the last idle one, or there is one more permit.
   */
  lemma ReleaseKeeps(cfg: PoolConfig, clock: nat -> nat, s: PoolState, key: PoolKey, b: Backend)
    requires Inv(cfg, clock, s) && Monotone(clock) && InUse(cfg, s, key) > 0
    ensures var t := Release(cfg, clock, s, key, b);
      && Inv(cfg, clock, t) && SameElsewhere(s, t, key)
      && InUse(cfg, t, key) == InUse(cfg, s, key) - 1
      && (|| (IdleLen(t, key) == IdleLen(s, key) + 1 && t.pools[key].idle[IdleLen(s, key)].stream == b)
          || Available(cfg, t, key) == Available(cfg, s, key) + 1)
  {
    hide Inv, InnerOk, SameElsewhere, Cancel;
    var s1 := s.(tick := s.tick + 1);
    var inner := Entry(cfg, s1, key);
    InvOfKeyTick(cfg, clock, s, key);
    EntryKeeps(cfg, clock, s1, key);
    var s2 := s1.(pools := s1.pools[key := inner]);
    if Elapsed(clock(s.tick), b.bornAt) >= cfg.serverLifetime {
      CancelKeeps(cfg, clock, s1, key);
      SameElsewhereTrans(s, s1, Cancel(cfg, s1, key), key);
    } else if |inner.idle| < inner.limits.maxSize {
      ParkKeeps(cfg, clock, s1, key, b);
      SameElsewhereTrans(s, s1, Release(cfg, clock, s, key, b), key);
    } else {
      CancelKeeps(cfg, clock, s2, key);
      SameElsewhereTrans(s, s1, s2, key);
      SameElsewhereTrans(s, s2, Cancel(cfg, s2, key), key);
    }
  }

  lemma InvOfKeyTick(cfg: PoolConfig, clock: nat -> nat, s: PoolState, key: PoolKey)
    requires Inv(cfg, clock, s) && Monotone(clock)
    ensures var t := s.(tick := s.tick + 1);
      Inv(cfg, clock, t) && SameElsewhere(s, t, key) && InUse(cfg, t, key) == InUse(cfg, s, key)
  {
    var t := s.(tick := s.tick + 1);
    assert clock(s.tick) <= clock(t.tick);
    InvOfKey(cfg, clock, s, t, key);
  }

  lemma EntryOk(cfg: PoolConfig, clock: nat -> nat, s: PoolState, key: PoolKey)
    requires Inv(cfg, clock, s)
    ensures InnerOk(cfg, key, Entry(cfg, s, key), clock(s.tick))
    ensures |Entry(cfg, s, key).idle| == IdleLen(s, key)
    ensures InUse(cfg, s, key) > 0 ==> key in s.permits
  {
  }

  lemma EntryKeeps(cfg: PoolConfig, clock: nat -> nat, s: PoolState, key: PoolKey)
    requires Inv(cfg, clock, s) && Monotone(clock) && InUse(cfg, s, key) > 0
    ensures var t := s.(pools := s.pools[key := Entry(cfg, s, key)]);
      Inv(cfg, clock, t) && SameElsewhere(s, t, key) && InUse(cfg, t, key) == InUse(cfg, s, key)
  {
    EntryOk(cfg, clock, s, key);
    InvOfKey(cfg, clock, s, s.(pools := s.pools[key := Entry(cfg, s, key)]), key);
  }

  lemma ParkKeeps(cfg: PoolConfig, clock: nat -> nat, s: PoolState, key: PoolKey, b: Backend)
    requires Inv(cfg, clock, s) && Monotone(clock) && InUse(cfg, s, key) > 0
    requires |Entry(cfg, s, key).idle| < Entry(cfg, s, key).limits.maxSize
    ensures var inner := Entry(cfg, s, key);
      var parked := inner.(idle := inner.idle + [IdleConn(b, clock(s.tick))]);
      var t := s.(pools := s.pools[key := parked], tick := s.tick + 1);
      && Inv(cfg, clock, t) && SameElsewhere(s, t, key)
      && InUse(cfg, t, key) == InUse(cfg, s, key) - 1
      && IdleLen(t, key) == IdleLen(s, key) + 1 && t.pools[key].idle[IdleLen(s, key)].stream == b
  {
    EntryOk(cfg, clock, s, key);
    var inner := Entry(cfg, s, key);
    var parked := inner.(idle := inner.idle + [IdleConn(b, clock(s.tick))]);
    SortedKept(inner.limits.strategy, inner.idle, b, clock(s.tick));
    assert clock(s.tick) <= clock(s.tick + 1);
    InnerOkLater(cfg, key, parked, clock(s.tick), clock(s.tick + 1));
    InvOfKey(cfg, clock, s, s.(pools := s.pools[key := parked], tick := s.tick + 1), key);
  }

  // ---- Statistics are exact on a snapshot ----

  function SumInUse(cfg: PoolConfig, s: PoolState, keys: seq<PoolKey>): int {
    if keys == [] then 0
    else SumInUse(cfg, s, keys[..|keys| - 1]) + InUse(cfg, s, keys[|keys| - 1])
  }

  /**
   * On a snapshot no subtraction saturates: the totals count exactly the permits in use and
   * the idle connections, and together they are at most the permits there are.
   */
  lemma {:induction false} TotalsAreExact(cfg: PoolConfig, clock: nat -> nat, s: PoolState, keys: seq<PoolKey>)
    requires Inv(cfg, clock, s)
    requires forall i :: 0 <= i < |keys| ==> keys[i] in s.pools
    ensures Totals(s, keys).active == SumInUse(cfg, s, keys)
    ensures Totals(s, keys).active + Totals(s, keys).idle <= Totals(s, keys).max + Totals(s, keys).reserve
  {
    if keys != [] {
      TotalsAreExact(cfg, clock, s, keys[..|keys| - 1]);
      assert InUse(cfg, s, keys[|keys| - 1]) >= 0;
    }
  }

  // ---- Statistics do not depend on the order of the iteration ----

  lemma AddKeysCommute(s: PoolState, total: Stats, a: PoolKey, b: PoolKey)
    requires a in s.pools && b in s.pools
    ensures AddKey(s, AddKey(s, total, a), b) == AddKey(s, AddKey(s, total, b), a)
  {
    hide SatSub;
  }

  function WithoutAt(keys: seq<PoolKey>, i: nat): seq<PoolKey>
    requires i < |keys|
  {
    keys[..i] + keys[i + 1..]
  }

  /** A key may as well be visited last. */
  lemma {:induction false} VisitedLast(s: PoolState, keys: seq<PoolKey>, i: nat)
    requires i < |keys| && forall j :: 0 <= j < |keys| ==> keys[j] in s.pools
    ensures Totals(s, keys) == AddKey(s, Totals(s, WithoutAt(keys, i)), keys[i])
    decreases |keys|
  {
    hide AddKey;
    var n := |keys| - 1;
    if i == n {
      assert WithoutAt(keys, i) == keys[..n];
    } else {
      var before := WithoutAt(keys[..n], i);
      VisitedLast(s, keys[..n], i);
      assert WithoutAt(keys, i)[..n - 1] == before && WithoutAt(keys, i)[n - 1] == keys[n];
      AddKeysCommute(s, Totals(s, before), keys[i], keys[n]);
    }
  }

  lemma SomeIn(keys: seq<PoolKey>)
    ensures keys == [] || exists k :: k in keys
  {
    if keys != [] {
      assert keys[0] in keys;
    }
  }

  /** Two orders of the same keys give the same totals. */
  lemma {:induction false} TotalsOfSameKeys(s: PoolState, a: seq<PoolKey>, b: seq<PoolKey>)
    requires forall i :: 0 <= i < |a| ==> a[i] in s.pools
    requires forall i :: 0 <= i < |b| ==> b[i] in s.pools
    requires Distinct(a) && Distinct(b) && forall k :: k in a <==> k in b
    ensures Totals(s, a) == Totals(s, b)
    decreases |a|
  {
    hide AddKey;
    if a == [] {
      SomeIn(b);
    } else {
      var n, x := |a| - 1, a[|a| - 1];
      assert x in b;
      var i :| 0 <= i < |b| && b[i] == x;
      var c := WithoutAt(b, i);
      forall k
        ensures k in a[..n] <==> k in c
      {
        SameKeysLeft(a, b, i, k);
      }
      TotalsOfSameKeys(s, a[..n], c);
      VisitedLast(s, b, i);
    }
  }

  lemma SameKeysLeft(a: seq<PoolKey>, b: seq<PoolKey>, i: nat, k: PoolKey)
    requires a != [] && i < |b| && b[i] == a[|a| - 1]
    requires Distinct(a) && Distinct(b) && (k in a <==> k in b)
    ensures k in a[..|a| - 1] <==> k in WithoutAt(b, i)
  {
    var n, c := |a| - 1, WithoutAt(b, i);
    assert k in a <==> k in a[..n] || k == a[n];
    assert b == b[..i] + [b[i]] + b[i + 1..];
    assert k in b <==> k in c || k == b[i];
    assert a[n] !in a[..n] && b[i] !in c;
  }

  /** What `global_stats` reports does not depend on how its map happens to be iterated. */
  lemma TotalsInAnyOrder(s: PoolState, a: seq<PoolKey>, b: seq<PoolKey>)
    requires Enumerates(a, s.pools) && Enumerates(b, s.pools)
    ensures Totals(s, a) == Totals(s, b)
  {
    TotalsOfSameKeys(s, a, b);
  }
}

module PoolManagers {
  import opened Prelude
  import opened Backends
  import opened Pool
  import PoolSpec

  /**
   * The manager.  `clock` gives the reading of the time at each look, `tick` counts the looks;
   * a semaphore is the number of its permits.
   */
  class PoolManager {
    const cfg: PoolConfig
    const clock: nat -> nat
    var pools: map<PoolKey, PoolInner>
    var semaphores: map<PoolKey, nat>
    var tick: nat

    function State(): PoolSpec.PoolState
      reads this
    {
      PoolSpec.PoolState(pools, semaphores, tick)
    }

    constructor (cfg: PoolConfig, clock: nat -> nat)
      ensures this.cfg == cfg && this.clock == clock && State() == PoolSpec.Empty()
    {
      this.cfg, this.clock := cfg, clock;
      pools, semaphores, tick := map[], map[], 0;
    }

    /** `Instant::now()` */
    method Now() returns (t: nat)
      modifies this`tick
      ensures t == clock(old(tick)) && tick == old(tick) + 1
    {
      t := clock(tick);
      tick := tick + 1;
    }

    method GetOrCreateSemaphore(key: PoolKey)
      modifies this`semaphores
      ensures State() == PoolSpec.WithSemaphore(cfg, old(State()), key)
    {
      if key in semaphores {
        return;
      }
      if key !in semaphores {
        semaphores := semaphores[key := Capacity(cfg, key)];
      }
    }

    method AddPermit(key: PoolKey)
      requires key in semaphores
      modifies this`semaphores
      ensures semaphores == old(semaphores)[key := old(semaphores)[key] + 1]
    {
      semaphores := semaphores[key := semaphores[key] + 1];
    }

    method Acquire(key: PoolKey) returns (r: PoolSpec.Outcome)
      modifies this
      ensures (State(), r) == PoolSpec.Acquire(cfg, clock, old(State()), key)
    {
      GetOrCreateSemaphore(key);
      if key in pools {
        var found := PopFresh(key);
        if found.Some? {
          return PoolSpec.Reused(found.value);
        }
      }
      if semaphores[key] > 0 {
        semaphores := semaphores[key := semaphores[key] - 1];
        r := PoolSpec.NewPermit;
      } else {
        r := PoolSpec.MustWait;
      }
    }

    /** `pop_back` or `pop_front` on the idle connections of a key. */
    method PopOne(key: PoolKey) returns (ic: IdleConn)
      requires key in pools && pools[key].idle != []
      modifies this`pools
      ensures var inner := old(pools)[key];
        ic == Popped(inner.limits.strategy, inner.idle).0
        && pools == old(pools)[key := inner.(idle := Popped(inner.limits.strategy, inner.idle).1)]
    {
      var inner := pools[key];
      match inner.limits.strategy
      case Lifo =>
        ic := inner.idle[|inner.idle| - 1];
        pools := pools[key := inner.(idle := inner.idle[..|inner.idle| - 1])];
      case Fifo =>
        ic := inner.idle[0];
        pools := pools[key := inner.(idle := inner.idle[1..])];
    }

    /** The two age checks, the second one only if the first one passes. */
    method LookAtAge(inner: PoolInner, ic: IdleConn) returns (expired: bool)
      modifies this`tick
      ensures expired == (IdleTooLong(inner, ic, clock(old(tick))) || TooOld(inner, ic, clock(old(tick) + 1)))
      ensures tick == old(tick) + (if IdleTooLong(inner, ic, clock(old(tick))) then 1 else 2)
    {
      var t := Now();
      expired := Elapsed(t, ic.parkedSince) >= inner.idleTimeout;
      if !expired {
        t := Now();
        expired := Elapsed(t, ic.stream.bornAt) >= inner.serverLifetime;
      }
    }

    /**
     * `acquire` while it holds the lock on the pools: pop until a connection passes the age
     * checks, and return one permit for each that does not.
     */
    method PopFresh(key: PoolKey) returns (found: Option<Backend>)
      requires key in semaphores && key in pools
      modifies this
      ensures (State(), found) == PoolSpec.PopIdle(cfg, clock, old(State()), key)
    {
      hide PopLoop, Popping, PoolSpec.PopIdle;
      ghost var s, inner, dropped := State(), pools[key], 0;
      PopIdleIs(key);
      while pools[key].idle != []
        invariant key in pools && key in semaphores && pools[key] == inner.(idle := pools[key].idle)
        invariant State() == Popping(s, key, pools[key].idle, tick, dropped)
        invariant PopLoop(inner, inner.idle, clock, s.tick)
          == DropMore(PopLoop(inner, pools[key].idle, clock, tick), dropped)
        decreases |pools[key].idle|
      {
        Round(inner, pools[key].idle, clock, tick);
        ghost var idle, before := pools[key].idle, tick;
        var ic := PopOne(key);
        var expired := LookAtAge(pools[key], ic);
        PoppedOn(s, key, idle, before, pools[key].idle, tick, dropped);
        if !expired {
          return Some(ic.stream);
        }
        AddPermit(key);
        dropped := dropped + 1;
      }
      Round(inner, [], clock, tick);
      found := None;
    }

    static lemma PoppedOn(s: PoolSpec.PoolState, key: PoolKey, idle: seq<IdleConn>, tick: nat,
        rest: seq<IdleConn>, next: nat, dropped: nat)
      requires key in s.pools && key in s.permits
      ensures var p := Popping(s, key, idle, tick, dropped);
        && key in p.pools && key in p.permits && p.pools[key] == s.pools[key].(idle := idle)
        && Popping(s, key, rest, next, dropped)
          == PoolSpec.PoolState(p.pools[key := p.pools[key].(idle := rest)], p.permits, next)
        && Popping(s, key, rest, next, dropped + 1)
          == PoolSpec.PoolState(p.pools[key := p.pools[key].(idle := rest)], p.permits[key := p.permits[key] + 1], next)
    {
    }

    /** `s` with these connections left and so many permits returned. */
    static function Popping(s: PoolSpec.PoolState, key: PoolKey, idle: seq<IdleConn>, tick: nat, dropped: nat)
      : PoolSpec.PoolState
      requires key in s.pools && key in s.permits
    {
      PoolSpec.PoolState(s.pools[key := s.pools[key].(idle := idle)], s.permits[key := s.permits[key] + dropped], tick)
    }

    lemma PopIdleIs(key: PoolKey)
      requires key in semaphores && key in pools
      ensures var r := PopLoop(pools[key], pools[key].idle, clock, tick);
        PoolSpec.PopIdle(cfg, clock, State(), key) == (Popping(State(), key, r.rest, r.tick, r.dropped), r.found)
      ensures State() == Popping(State(), key, pools[key].idle, tick, 0)
    {
      hide PopLoop;
    }

    static lemma Round(inner: PoolInner, idle: seq<IdleConn>, clock: nat -> nat, tick: nat)
      ensures idle == [] ==> PopLoop(inner, idle, clock, tick) == PopResult(None, [], 0, tick)
      ensures idle != [] ==> var (ic, rest) := Popped(inner.limits.strategy, idle);
        PopLoop(inner, idle, clock, tick) ==
          if IdleTooLong(inner, ic, clock(tick)) then DropMore(PopLoop(inner, rest, clock, tick + 1), 1)
          else if TooOld(inner, ic, clock(tick + 1)) then DropMore(PopLoop(inner, rest, clock, tick + 2), 1)
          else PopResult(Some(ic.stream), rest, 0, tick + 2)
    {
    }

    static function DropMore(r: PopResult, n: nat): PopResult {
      r.(dropped := r.dropped + n)
    }

    method Release(key: PoolKey, b: Backend)
      modifies this
      ensures State() == PoolSpec.Release(cfg, clock, old(State()), key, b)
    {
      var limits := ResolveLimits(cfg, key);
      var t := Now();
      if Elapsed(t, b.bornAt) < cfg.serverLifetime {
        if key !in pools {
          pools := pools[key := PoolInner([], limits, cfg.idleTimeout, cfg.serverLifetime)];
        }
        var inner := pools[key];
        if |inner.idle| < inner.limits.maxSize {
          t := Now();
          pools := pools[key := inner.(idle := inner.idle + [IdleConn(b, t)])];
          return;
        }
        assert pools == old(pools)[key := inner];
      }
      GetOrCreateSemaphore(key);
      AddPermit(key);
    }

    method Cancel(key: PoolKey)
      modifies this`semaphores
      ensures State() == PoolSpec.Cancel(cfg, old(State()), key)
    {
      GetOrCreateSemaphore(key);
      AddPermit(key);
    }

    /** How many connections a warm-up would add to reach the minimum. */
    method NeedsWarmup(key: PoolKey) returns (n: nat)
      ensures n == PoolSpec.SatSub(ResolveLimits(cfg, key).minSize, PoolSpec.IdleLen(State(), key))
    {
      var limits := ResolveLimits(cfg, key);
      if key in pools {
        var currently := |pools[key].idle|;
        n := if limits.minSize > currently then limits.minSize - currently else 0;
      } else {
        n := limits.minSize;
      }
    }

    method StatsFor(key: PoolKey) returns (r: PoolSpec.Stats)
      modifies this`semaphores
      ensures State() == PoolSpec.WithSemaphore(cfg, old(State()), key)
      ensures var limits := ResolveLimits(cfg, key);
        r == PoolSpec.Stats(PoolSpec.IdleLen(old(State()), key), PoolSpec.InUse(cfg, old(State()), key),
          limits.maxSize, limits.reserveSize, limits.minSize)
    {
      var limits := ResolveLimits(cfg, key);
      GetOrCreateSemaphore(key);
      var available := semaphores[key];
      var total := limits.maxSize + limits.reserveSize;
      var idle := if key in pools then |pools[key].idle| else 0;
      r := PoolSpec.Stats(idle, total - available - idle, limits.maxSize, limits.reserveSize, limits.minSize);
    }

    /** `keys` is the order in which the map of pools happens to be iterated. */
    method GlobalStats(keys: seq<PoolKey>) returns (total: PoolSpec.Stats)
      requires PoolSpec.Enumerates(keys, pools)
      ensures total == PoolSpec.Totals(State(), keys)
    {
      total := PoolSpec.Stats(0, 0, 0, 0, 0);
      for i := 0 to |keys|
        invariant total == PoolSpec.Totals(State(), keys[..i])
      {
        var inner := pools[keys[i]];
        var cap := inner.limits.maxSize + inner.limits.reserveSize;
        var available := if keys[i] in semaphores then semaphores[keys[i]] else cap;
        var consumed := PoolSpec.SatSub(cap, available);
        assert keys[..i + 1][..i] == keys[..i];
        total := PoolSpec.Stats(total.idle + |inner.idle|,
          total.active + PoolSpec.SatSub(consumed, |inner.idle|),
          total.max + inner.limits.maxSize,
          total.reserve + inner.limits.reserveSize,
          total.min + inner.limits.minSize);
      }
      assert keys[..|keys|] == keys;
    }
  }
}
