// src/pool/mod.rs: limits, idle connections and the loop that pops them.

module Pool {
  import opened Prelude
  import opened Backends

  datatype PoolKey = PoolKey(host: bytes, port: nat, dbUser: bytes, dbname: bytes)

  datatype Strategy = Lifo | Fifo

  datatype Limits = Limits(maxSize: nat, minSize: nat, reserveSize: nat, strategy: Strategy)

  datatype PoolConfig = PoolConfig(
    globalLimits: Limits,
    databaseLimits: map<bytes, Limits>,
    userLimits: map<bytes, Limits>,
    idleTimeout: nat,
    serverLifetime: nat)

  datatype IdleConn = IdleConn(stream: Backend, parkedSince: nat)

  datatype PoolInner = PoolInner(
    idle: seq<IdleConn>, limits: Limits, idleTimeout: nat, serverLifetime: nat)

  /** A limit for the user goes before one for the database, and both before the global one. */
  function ResolveLimits(cfg: PoolConfig, key: PoolKey): Limits {
    if key.dbUser in cfg.userLimits then cfg.userLimits[key.dbUser]
    else if key.dbname in cfg.databaseLimits then cfg.databaseLimits[key.dbname]
    else cfg.globalLimits
  }

  function Capacity(cfg: PoolConfig, key: PoolKey): nat {
    ResolveLimits(cfg, key).maxSize + ResolveLimits(cfg, key).reserveSize
  }

  function NewInner(cfg: PoolConfig, key: PoolKey): PoolInner {
    PoolInner([], ResolveLimits(cfg, key), cfg.idleTimeout, cfg.serverLifetime)
  }

  /** `since.elapsed()`, which saturates at zero. */
  function Elapsed(now: nat, since: nat): nat {
    if now < since then 0 else now - since
  }

  /** The clock is a sequence of readings, one for each time it is looked at. */
  ghost predicate Monotone(clock: nat -> nat) {
    forall i: nat, j: nat :: i <= j ==> clock(i) <= clock(j)
  }

  /** A timeout of 0 is always over. */
  predicate IdleTooLong(inner: PoolInner, ic: IdleConn, now: nat) {
    Elapsed(now, ic.parkedSince) >= inner.idleTimeout
  }

  predicate TooOld(inner: PoolInner, ic: IdleConn, now: nat) {
    Elapsed(now, ic.stream.bornAt) >= inner.serverLifetime
  }

  /** `pop_back` or `pop_front` */
  function Popped(strategy: Strategy, idle: seq<IdleConn>): (IdleConn, seq<IdleConn>)
    requires idle != []
  {
    match strategy
    case Lifo => (idle[|idle| - 1], idle[..|idle| - 1])
    case Fifo => (idle[0], idle[1..])
  }

  datatype PopResult = PopResult(found: Option<Backend>, rest: seq<IdleConn>, dropped: nat, tick: nat)

  /**
   * The pop loop of `acquire`.  `tick` counts the readings of the clock: one if the first age
   * check already fails, else two.
   */
  function PopLoop(inner: PoolInner, idle: seq<IdleConn>, clock: nat -> nat, tick: nat): PopResult
    decreases |idle|
  {
    if idle == [] then PopResult(None, [], 0, tick)
    else
      var (ic, rest) := Popped(inner.limits.strategy, idle);
      if IdleTooLong(inner, ic, clock(tick)) then OneMore(PopLoop(inner, rest, clock, tick + 1))
      else if TooOld(inner, ic, clock(tick + 1)) then OneMore(PopLoop(inner, rest, clock, tick + 2))
      else PopResult(Some(ic.stream), rest, 0, tick + 2)
  }

  function OneMore(r: PopResult): PopResult {
    r.(dropped := r.dropped + 1)
  }

  // ---- What the loop achieves ----

  /** The connections in the order in which the strategy takes them. */
  function InOrder(strategy: Strategy, idle: seq<IdleConn>): (r: seq<IdleConn>)
    ensures |r| == |idle|
  {
    match strategy
    case Lifo => seq(|idle|, i requires 0 <= i < |idle| => idle[|idle| - 1 - i])
    case Fifo => idle
  }

  lemma InOrderPopped(strategy: Strategy, idle: seq<IdleConn>)
    requires idle != []
    ensures var (ic, rest) := Popped(strategy, idle);
      InOrder(strategy, idle) == [ic] + InOrder(strategy, rest)
  {
    var (ic, rest) := Popped(strategy, idle);
    if strategy == Lifo {
      var order := InOrder(strategy, idle);
      assert order[0] == ic;
      assert order[1..] == InOrder(strategy, rest);
    }
  }

  // ---- When a connection is fresh, in plain arithmetic ----

  /** Less than `bound` seconds have passed; a bound of 0 is never kept. */
  predicate Within(bound: nat, since: nat, now: nat) {
    0 < bound && now < since + bound
  }

  /** By the reading `t` not idle for too long, and by the reading `u` not too old. */
  predicate StillFresh(inner: PoolInner, ic: IdleConn, t: nat, u: nat) {
    Within(inner.idleTimeout, ic.parkedSince, t) && Within(inner.serverLifetime, ic.stream.bornAt, u)
  }

  lemma ChecksAreWithin(inner: PoolInner, ic: IdleConn, now: nat)
    ensures IdleTooLong(inner, ic, now) <==> !Within(inner.idleTimeout, ic.parkedSince, now)
    ensures TooOld(inner, ic, now) <==> !Within(inner.serverLifetime, ic.stream.bornAt, now)
  {
  }

  /** Some reading from the `from`th to before the `to`th finds the connection too old or idle too long. */
  ghost predicate FoundExpired(inner: PoolInner, ic: IdleConn, clock: nat -> nat, from: nat, to: nat) {
    exists j: nat :: from <= j < to && !StillFresh(inner, ic, clock(j), clock(j))
  }

  /**
   * `r` takes the first connection of `order` that two readings of the clock, one after the
   * other, find fresh: it drops exactly the ones ahead of it, each found expired by a reading of
   * its own, and keeps the ones behind it in their order.
   */
  ghost predicate TakesFirstFresh(inner: PoolInner, order: seq<IdleConn>, clock: nat -> nat, tick: nat, r: PopResult) {
    && tick <= r.tick && r.dropped <= |order|
    && (forall i :: 0 <= i < r.dropped ==> FoundExpired(inner, order[i], clock, tick, r.tick))
    && (r.found.None? <==> r.dropped == |order|)
    && (r.found.None? ==> r.rest == [])
    && (r.found.Some? ==>
          && tick + 2 <= r.tick
          && r.found.value == order[r.dropped].stream
          && StillFresh(inner, order[r.dropped], clock(r.tick - 2), clock(r.tick - 1))
          && InOrder(inner.limits.strategy, r.rest) == order[r.dropped + 1..])
  }

  lemma OneMoreDropped(inner: PoolInner, ic: IdleConn, order: seq<IdleConn>, clock: nat -> nat,
      tick: nat, next: nat, r: PopResult)
    requires TakesFirstFresh(inner, order, clock, next, r) && tick < next
    requires !StillFresh(inner, ic, clock(next - 1), clock(next - 1))
    ensures TakesFirstFresh(inner, [ic] + order, clock, tick, OneMore(r))
  {
    hide StillFresh, InOrder;
    var longer := [ic] + order;
    assert tick <= next - 1 < r.tick;
    forall i | 0 <= i < r.dropped + 1
      ensures FoundExpired(inner, longer[i], clock, tick, r.tick)
    {
      if i > 0 {
        assert longer[i] == order[i - 1] && FoundExpired(inner, order[i - 1], clock, next, r.tick);
      }
    }
    if r.found.Some? {
      assert longer[r.dropped + 2..] == order[r.dropped + 1..];
      assert longer[r.dropped + 1] == order[r.dropped];
    }
  }

  lemma NothingToTake(inner: PoolInner, order: seq<IdleConn>, clock: nat -> nat, tick: nat)
    requires order == []
    ensures TakesFirstFresh(inner, order, clock, tick, PopResult(None, [], 0, tick))
  {
  }

  lemma FirstTaken(inner: PoolInner, ic: IdleConn, order: seq<IdleConn>, rest: seq<IdleConn>,
      clock: nat -> nat, tick: nat)
    requires InOrder(inner.limits.strategy, rest) == order
    requires StillFresh(inner, ic, clock(tick), clock(tick + 1))
    ensures TakesFirstFresh(inner, [ic] + order, clock, tick, PopResult(Some(ic.stream), rest, 0, tick + 2))
  {
    assert ([ic] + order)[1..] == order;
  }

  /** So does the loop, whatever the clock does between its looks. */
  lemma {:induction false} PopLoopTakesFirstFresh(inner: PoolInner, idle: seq<IdleConn>, clock: nat -> nat, tick: nat)
    ensures TakesFirstFresh(inner, InOrder(inner.limits.strategy, idle), clock, tick,
      PopLoop(inner, idle, clock, tick))
    decreases |idle|
  {
    hide TakesFirstFresh, InOrder, IdleTooLong, TooOld;
    var strategy := inner.limits.strategy;
    if idle == [] {
      NothingToTake(inner, InOrder(strategy, idle), clock, tick);
    } else {
      var (ic, rest) := Popped(strategy, idle);
      var order := InOrder(strategy, rest);
      InOrderPopped(strategy, idle);
      ChecksAreWithin(inner, ic, clock(tick));
      ChecksAreWithin(inner, ic, clock(tick + 1));
      if IdleTooLong(inner, ic, clock(tick)) || TooOld(inner, ic, clock(tick + 1)) {
        var next := if IdleTooLong(inner, ic, clock(tick)) then tick + 1 else tick + 2;
        var r := PopLoop(inner, rest, clock, next);
        PopLoopTakesFirstFresh(inner, rest, clock, next);
        OneMoreDropped(inner, ic, order, clock, tick, next, r);
      } else {
        FirstTaken(inner, ic, order, rest, clock, tick);
      }
    }
  }

  /** With a timeout or a lifetime of 0, whatever the clock says, the loop drops all there is. */
  lemma {:induction false} ZeroTimeoutDropsAll(inner: PoolInner, idle: seq<IdleConn>, clock: nat -> nat, tick: nat)
    requires inner.idleTimeout == 0 || inner.serverLifetime == 0
    ensures var r := PopLoop(inner, idle, clock, tick); r.found == None && r.rest == [] && r.dropped == |idle|
    decreases |idle|
  {
    if idle != [] {
      var rest := Popped(inner.limits.strategy, idle).1;
      ZeroTimeoutDropsAll(inner, rest, clock, tick + 1);
      ZeroTimeoutDropsAll(inner, rest, clock, tick + 2);
    }
  }

  predicate Sorted(idle: seq<IdleConn>) {
    forall i, j :: 0 <= i < j < |idle| ==> idle[i].parkedSince <= idle[j].parkedSince
  }

  /** Popping from either end and parking with a clock that does not run back keep the order. */
  lemma SortedKept(strategy: Strategy, idle: seq<IdleConn>, b: Backend, now: nat)
    requires Sorted(idle)
    ensures idle != [] ==> Sorted(Popped(strategy, idle).1)
    ensures (forall i :: 0 <= i < |idle| ==> idle[i].parkedSince <= now) ==> Sorted(idle + [IdleConn(b, now)])
  {
  }

  /** Under LIFO, once the newest connection has idled too long, the loop drains them all. */
  lemma {:induction false} LifoDrainsAll(inner: PoolInner, idle: seq<IdleConn>, clock: nat -> nat, tick: nat)
    requires Monotone(clock) && Sorted(idle) && inner.limits.strategy == Lifo
    requires idle != [] && !Within(inner.idleTimeout, idle[|idle| - 1].parkedSince, clock(tick))
    ensures PopLoop(inner, idle, clock, tick) == PopResult(None, [], |idle|, tick + |idle|)
    decreases |idle|
  {
    var rest := idle[..|idle| - 1];
    if rest != [] {
      assert clock(tick) <= clock(tick + 1);
      assert rest[|rest| - 1].parkedSince <= idle[|idle| - 1].parkedSince;
      LifoDrainsAll(inner, rest, clock, tick + 1);
    }
  }

  /** Under FIFO, when the connection taken has not idled too long, none of those left has. */
  lemma FifoLeavesNoneTooLong(inner: PoolInner, idle: seq<IdleConn>, clock: nat -> nat, tick: nat)
    requires Monotone(clock) && Sorted(idle) && inner.limits.strategy == Fifo
    ensures var r := PopLoop(inner, idle, clock, tick);
      r.found.Some? ==>
        tick + 2 <= r.tick
        && forall i :: 0 <= i < |r.rest| ==> Within(inner.idleTimeout, r.rest[i].parkedSince, clock(r.tick - 2))
  {
    PopLoopTakesFirstFresh(inner, idle, clock, tick);
    var r := PopLoop(inner, idle, clock, tick);
    if r.found.Some? {
      forall i | 0 <= i < |r.rest|
        ensures Within(inner.idleTimeout, r.rest[i].parkedSince, clock(r.tick - 2))
      {
        assert r.rest[i] == idle[r.dropped + 1..][i] == idle[r.dropped + 1 + i];
        assert idle[r.dropped].parkedSince <= r.rest[i].parkedSince;
      }
    }
  }

  /** The rest is a contiguous piece of what was there, so it stays sorted. */
  lemma {:induction false} PopLoopKeepsSorted(inner: PoolInner, idle: seq<IdleConn>, clock: nat -> nat, tick: nat)
    requires Sorted(idle)
    ensures var rest := PopLoop(inner, idle, clock, tick).rest;
      && Sorted(rest) && |rest| <= |idle|
      && forall i :: 0 <= i < |rest| ==> rest[i] in idle
    decreases |idle|
  {
    if idle != [] {
      var (ic, rest) := Popped(inner.limits.strategy, idle);
      assert forall i :: 0 <= i < |rest| ==> rest[i] in idle;
      PopLoopKeepsSorted(inner, rest, clock, tick + 1);
      PopLoopKeepsSorted(inner, rest, clock, tick + 2);
    }
  }
}
