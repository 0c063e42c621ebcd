// src/pool/mod.rs: what each call of the pool manager comes to.

module PoolCalls {
  import opened Prelude
  import opened Backends
  import opened Pool
  import opened PoolSpec

  function IdleOf(s: PoolState, key: PoolKey): seq<IdleConn> {
    if key in s.pools then s.pools[key].idle else []
  }

  /** The pools with this one's idle connections replaced. */
  predicate OnlyIdle(s: PoolState, t: PoolState, key: PoolKey, idle: seq<IdleConn>) {
    if key in s.pools then t.pools == s.pools[key := s.pools[key].(idle := idle)]
    else t.pools == s.pools && idle == []
  }

  predicate OnlyPermits(cfg: PoolConfig, s: PoolState, t: PoolState, key: PoolKey, change: int) {
    && Available(cfg, s, key) + change >= 0
    && t.permits == s.permits[key := Available(cfg, s, key) + change]
  }

  lemma PopIdleExactly(cfg: PoolConfig, clock: nat -> nat, s: PoolState, key: PoolKey) returns (r: PopResult)
    ensures var t := PopIdle(cfg, clock, s, key).0;
      && PopIdle(cfg, clock, s, key).1 == r.found && t.tick == r.tick
      && OnlyIdle(s, t, key, r.rest)
      && OnlyPermits(cfg, s, t, key, r.dropped)
      && (key in s.pools ==>
            TakesFirstFresh(s.pools[key], InOrder(s.pools[key].limits.strategy, s.pools[key].idle), clock, s.tick, r))
      && (key !in s.pools ==> r == PopResult(None, [], 0, s.tick))
  {
    hide PopLoop, TakesFirstFresh, InOrder;
    r := PopResult(None, [], 0, s.tick);
    if key in s.pools {
      var inner := s.pools[key];
      PopLoopTakesFirstFresh(inner, inner.idle, clock, s.tick);
      r := PopLoop(inner, inner.idle, clock, s.tick);
    }
  }

  /**
   * `acquire` hands out the first connection that is fresh in the order of the strategy, after
   * dropping the expired ones ahead of it with a permit returned for each; without one it takes a
   * permit, be it one of these, and only with none left does it wait.
   */
  lemma AcquireExactly(cfg: PoolConfig, clock: nat -> nat, s: PoolState, key: PoolKey) returns (r: PopResult)
    ensures var (t, out) := Acquire(cfg, clock, s, key);
      && t.tick == r.tick && OnlyIdle(s, t, key, r.rest)
      && (key in s.pools ==>
            TakesFirstFresh(s.pools[key], InOrder(s.pools[key].limits.strategy, s.pools[key].idle), clock, s.tick, r))
      && (key !in s.pools ==> r == PopResult(None, [], 0, s.tick))
      && match r.found
         case Some(b) => out == Reused(b) && OnlyPermits(cfg, s, t, key, r.dropped)
         case None =>
           if Available(cfg, s, key) + r.dropped > 0
           then out == NewPermit && OnlyPermits(cfg, s, t, key, r.dropped - 1)
           else out == MustWait && OnlyPermits(cfg, s, t, key, 0)
  {
    r := PopIdleExactly(cfg, clock, s, key);
    hide PopIdle, TakesFirstFresh, InOrder;
  }

  /**
   * `release` drops a connection that was born the lifetime ago or longer, and one that comes to a
   * pool with max_size idle ones, and returns its permit; any other it parks behind the idle
   * ones, with the time by the clock, and its permit stays with it.
   */
  lemma ReleaseExactly(cfg: PoolConfig, clock: nat -> nat, s: PoolState, key: PoolKey, b: Backend)
    ensures var t := Release(cfg, clock, s, key, b);
      var idle := IdleOf(s, key);
      var max := if key in s.pools then s.pools[key].limits.maxSize else ResolveLimits(cfg, key).maxSize;
      if !Within(cfg.serverLifetime, b.bornAt, clock(s.tick)) then
        t.pools == s.pools && OnlyPermits(cfg, s, t, key, 1)
      else if |idle| < max then
        && t.permits == s.permits && key in t.pools && t.pools[key].idle == idle + [IdleConn(b, clock(s.tick + 1))]
        && OthersSame(s, t, key) && NewPool(cfg, s, t, key)
      else
        && OnlyPermits(cfg, s, t, key, 1) && key in t.pools && t.pools[key].idle == idle
        && OthersSame(s, t, key) && NewPool(cfg, s, t, key)
  {
  }

  ghost predicate OthersSame(s: PoolState, t: PoolState, key: PoolKey) {
    forall k :: k != key ==> (k in t.pools <==> k in s.pools) && (k in s.pools ==> t.pools[k] == s.pools[k])
  }

  /** What a pool has besides its idle connections it has from when it is entered. */
  predicate NewPool(cfg: PoolConfig, s: PoolState, t: PoolState, key: PoolKey)
    requires key in t.pools
  {
    if key in s.pools then t.pools[key] == s.pools[key].(idle := t.pools[key].idle)
    else t.pools[key] == PoolInner(t.pools[key].idle, ResolveLimits(cfg, key), cfg.idleTimeout, cfg.serverLifetime)
  }

  lemma CancelExactly(cfg: PoolConfig, s: PoolState, key: PoolKey)
    ensures var t := Cancel(cfg, s, key); t.pools == s.pools && t.tick == s.tick && OnlyPermits(cfg, s, t, key, 1)
  {
  }

  // ---- global_stats ----

  function SumOver(keys: seq<PoolKey>, f: PoolKey -> int): int {
    if keys == [] then 0 else SumOver(keys[..|keys| - 1], f) + f(keys[|keys| - 1])
  }

  function MaxOf(pools: map<PoolKey, PoolInner>): PoolKey -> int {
    (k: PoolKey) => if k in pools then pools[k].limits.maxSize else 0
  }

  function MinOf(pools: map<PoolKey, PoolInner>): PoolKey -> int {
    (k: PoolKey) => if k in pools then pools[k].limits.minSize else 0
  }

  function ReserveOf(pools: map<PoolKey, PoolInner>): PoolKey -> int {
    (k: PoolKey) => if k in pools then pools[k].limits.reserveSize else 0
  }

  function CountOf(pools: map<PoolKey, PoolInner>): PoolKey -> int {
    (k: PoolKey) => if k in pools then |pools[k].idle| else 0
  }

  /** Permits neither available nor with an idle connection, and none when there are too many. */
  function BusyOf(s: PoolState): PoolKey -> int {
    (k: PoolKey) =>
      if k !in s.pools || k !in s.permits then 0
      else
        var busy := s.pools[k].limits.maxSize + s.pools[k].limits.reserveSize - s.permits[k] - |s.pools[k].idle|;
        if busy > 0 then busy else 0
  }

  /** Each of the totals is the sum of the same thing over the pools. */
  lemma {:induction false} TotalsAreSums(s: PoolState, keys: seq<PoolKey>)
    requires forall i :: 0 <= i < |keys| ==> keys[i] in s.pools
    ensures var t := Totals(s, keys);
      && t.idle == SumOver(keys, CountOf(s.pools)) && t.active == SumOver(keys, BusyOf(s))
      && t.max == SumOver(keys, MaxOf(s.pools)) && t.reserve == SumOver(keys, ReserveOf(s.pools))
      && t.min == SumOver(keys, MinOf(s.pools))
    decreases |keys|
  {
    if keys != [] {
      TotalsAreSums(s, keys[..|keys| - 1]);
    }
  }

  /** `needs_warmup`: with so many more there are at least min_size, and none too many are added. */
  lemma WarmupExactly(cfg: PoolConfig, s: PoolState, key: PoolKey)
    ensures var n, min := SatSub(ResolveLimits(cfg, key).minSize, IdleLen(s, key)), ResolveLimits(cfg, key).minSize;
      && n + |IdleOf(s, key)| >= min && (n == 0 || n + |IdleOf(s, key)| == min)
  {
  }
}
