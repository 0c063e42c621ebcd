// src/proxy/mod.rs: transaction_loop and its helpers running against the pool manager.

module TransactionDriver {
  import opened Prelude
  import opened Frames
  import opened Backends
  import opened Pool
  import opened TransactionLoop
  import opened TransactionTheorems
  import opened PoolManagers
  import PoolSpec

  /** What the environment decides in one iteration: the input, and how create_backend ends. */
  datatype Offer = Offer(input: Input, created: Connection)

  /** The pool holds together and `n` of its permits for this key are accounted for elsewhere. */
  ghost predicate PoolOk(pool: PoolManager, key: PoolKey, inUse: int)
    reads pool
  {
    && Monotone(pool.clock)
    && PoolSpec.Inv(pool.cfg, pool.clock, pool.State())
    && PoolSpec.InUse(pool.cfg, pool.State(), key) == inUse
  }

  function Held(server: Option<Backend>): int {
    if server.Some? then 1 else 0
  }

  /** How acquire_backend ends: as an attempt to connect ends, or suspended at the semaphore. */
  datatype Grant = Ended(c: Connection) | Waiting

  /** Permits that are held, or lost in a panic. */
  function HeldBy(l: Loop, ending: Ending): int {
    if ending.CrashedConnecting? then 1 else Held(l.server)
  }

  /** What `acquire_backend` does to the pool, and how it ends. */
  function GrantFrom(cfg: PoolConfig, clock: nat -> nat, key: PoolKey, s: PoolSpec.PoolState,
      created: Connection): (PoolSpec.PoolState, Grant)
  {
    var (s1, outcome) := PoolSpec.Acquire(cfg, clock, s, key);
    match outcome
    case Reused(b) => (s1, Ended(Connected(b)))
    case MustWait => (s1, Waiting)
    case NewPermit => (if created.NotConnected? then PoolSpec.Cancel(cfg, s1, key) else s1, Ended(created))
  }

  /** The permits in use more after acquire_backend has ended. */
  function Costs(g: Grant): int {
    if g.Waiting? || g.c.NotConnected? then 0 else 1
  }

  /** What an entry of the log of transaction_loop means for the pool. */
  function PoolCall(cfg: PoolConfig, clock: nat -> nat, key: PoolKey, s: PoolSpec.PoolState, e: Entry)
    : PoolSpec.PoolState
  {
    match e
    case Acquired(_) => PoolSpec.Acquire(cfg, clock, s, key).0
    case CreateFailed => PoolSpec.Cancel(cfg, PoolSpec.Acquire(cfg, clock, s, key).0, key)
    case CreatePanicked => PoolSpec.Acquire(cfg, clock, s, key).0
    case Released(b) => PoolSpec.Release(cfg, clock, s, key, b)
    case Cancelled => PoolSpec.Cancel(cfg, s, key)
    case _ => s
  }

  function PoolCalls(cfg: PoolConfig, clock: nat -> nat, key: PoolKey)
    : (PoolSpec.PoolState, Entry) -> PoolSpec.PoolState
  {
    (s, e) => PoolCall(cfg, clock, key, s, e)
  }

  method AcquireBackend(pool: PoolManager, key: PoolKey, created: Connection, ghost inUse: nat)
    returns (g: Grant)
    requires PoolOk(pool, key, inUse)
    modifies pool
    ensures PoolOk(pool, key, inUse + Costs(g))
    ensures PoolSpec.SameElsewhere(old(pool.State()), pool.State(), key)
    ensures (pool.State(), g) == GrantFrom(pool.cfg, pool.clock, key, old(pool.State()), created)
  {
    hide PoolSpec.Inv, PoolSpec.SameElsewhere, PoolSpec.Acquire, PoolSpec.Cancel, PoolSpec.InUse;
    ghost var s0 := pool.State();
    PoolSpec.AcquireKeeps(pool.cfg, pool.clock, s0, key);
    var r := pool.Acquire(key);
    match r
    case Reused(b) =>
      g := Ended(Connected(b));
    case MustWait =>
      g := Waiting;
    case NewPermit =>
      g := Ended(created);
      if created.NotConnected? {
        ghost var s1 := pool.State();
        PoolSpec.CancelKeeps(pool.cfg, pool.clock, s1, key);
        pool.Cancel(key);
        PoolSpec.SameElsewhereTrans(s0, s1, pool.State(), key);
      }
  }

  /** `pool.release` by the holder of a permit. */
  method ReleaseHeld(pool: PoolManager, key: PoolKey, b: Backend, ghost inUse: nat)
    requires PoolOk(pool, key, inUse) && inUse > 0
    modifies pool
    ensures PoolOk(pool, key, inUse - 1)
    ensures PoolSpec.SameElsewhere(old(pool.State()), pool.State(), key)
    ensures pool.State() == PoolSpec.Release(pool.cfg, pool.clock, old(pool.State()), key, b)
  {
    hide PoolSpec.Inv, PoolSpec.SameElsewhere, PoolSpec.Release, PoolSpec.InUse;
    PoolSpec.ReleaseKeeps(pool.cfg, pool.clock, pool.State(), key, b);
    pool.Release(key, b);
  }

  /** `pool.cancel` by the holder of a permit. */
  method CancelHeld(pool: PoolManager, key: PoolKey, ghost inUse: nat)
    requires PoolOk(pool, key, inUse) && inUse > 0
    modifies pool
    ensures PoolOk(pool, key, inUse - 1)
    ensures PoolSpec.SameElsewhere(old(pool.State()), pool.State(), key)
    ensures pool.State() == PoolSpec.Cancel(pool.cfg, old(pool.State()), key)
  {
    hide PoolSpec.Inv, PoolSpec.SameElsewhere, PoolSpec.Cancel, PoolSpec.InUse;
    PoolSpec.CancelKeeps(pool.cfg, pool.clock, pool.State(), key);
    pool.Cancel(key);
  }

  /** A message from the client, once a backend is at hand. */
  method ForwardToServer(cfg: Settings, l: Loop, m: Msg, now: nat, io: Io)
    returns (after: Loop, ending: Ending, log: seq<Entry>)
    requires l.server.Some?
    ensures var plan := Forward(cfg, l, m, now, io);
      after == plan.loop && ending == (if plan.Leave? then Broke else Running) && log == plan.log
  {
    var server := l.server.value;
    after := Track(cfg, l, m, now);
    log := [Tracked(m)];
    if !io.sent {
      return after, Broke, log;
    }
    server := server.(unread := server.unread + io.reply);
    after := after.(server := Some(server));
    log := log + [Sent(server.id, m, io.reply)];
    ending := Running;
  }

  /** What `acquire_backend` comes to for an offer; without a call it does not matter. */
  function GrantedBy(asks: bool, g: Grant): Connection {
    if asks && g.Ended? then g.c else NotConnected
  }

  /** One iteration of the loop body. */
  method RunIteration(pool: PoolManager, key: PoolKey, cfg: Settings, l: Loop, offer: Offer, ghost base: nat)
    returns (after: Loop, ending: Ending, log: seq<Entry>, waiting: bool, granted: Connection)
    requires PoolOk(pool, key, base + Held(l.server))
    modifies pool
    ensures PoolOk(pool, key, base + HeldBy(after, ending))
    ensures PoolSpec.SameElsewhere(old(pool.State()), pool.State(), key)
    ensures !waiting ==> Progress(after, ending, log) == Iterate(cfg, l, Turn(offer.input, granted))
    ensures waiting ==> after == l && ending == Running && log == []
    ensures var (s1, g) := GrantFrom(pool.cfg, pool.clock, key, old(pool.State()), offer.created);
      var asks := OnEvent(cfg, l, offer.input).Ask?;
      && waiting == (asks && g.Waiting?)
      && granted == GrantedBy(asks, g)
      && pool.State() == (if waiting then s1 else Fold(PoolCalls(pool.cfg, pool.clock, key), old(pool.State()), log))
  {
    hide PoolSpec.Inv, PoolSpec.InUse, Track, PoolSpec.Acquire, PoolSpec.Release, PoolSpec.Cancel, Fold,
      PoolSpec.SameElsewhere, Reset, Deallocate, RunsDry;
    ghost var s0, f := pool.State(), PoolCalls(pool.cfg, pool.clock, key);
    FoldThree(f, s0, []);
    PoolSpec.SameElsewhereRefl(s0, key);
    var now, io := offer.input.now, offer.input.io;
    after, ending, log, waiting, granted := l, Running, [], false, NotConnected;
    if Overdue(cfg, l, now) {
      ending := Broke;
      return;
    }
    if !CanHappen(cfg, l, offer.input.event) {
      return;
    }
    match offer.input.event
    case FromClient(m) =>
      if m.t == TERMINATE {
        ending := Broke;
        return;
      }
      if l.server.None? {
        var g := AcquireBackend(pool, key, offer.created, base);
        if g.Waiting? {
          waiting := true;
          return;
        }
        granted := g.c;
        if !granted.Connected? {
          ending := if granted.NotConnected? then Broke else CrashedConnecting;
          log := [if granted.NotConnected? then CreateFailed else CreatePanicked];
          FoldThree(f, s0, log);
          return;
        }
        log := [Acquired(granted.b)];
      }
      var forwarded;
      after, ending, forwarded := ForwardToServer(cfg,
        if l.server.None? then l.(server := Some(granted.b)) else l, m, now, io);
      log := log + forwarded;
      FoldThree(f, s0, log);
    case FromServer =>
      after, ending, log := HandleServer(pool, key, l, now, io, base);
    case ClientGarbled =>
      ending := Crashed;
    case ServerGarbled =>
      ending := Crashed;
    case _ =>
      ending := Broke;
  }

  /** A message from the server: pass it on, and release the backend when it is idle or failed. */
  method HandleServer(pool: PoolManager, key: PoolKey, l: Loop, now: nat, io: Io, ghost base: nat)
    returns (after: Loop, ending: Ending, log: seq<Entry>)
    requires PoolOk(pool, key, base + Held(l.server))
    requires l.server.Some? && l.server.value.unread != []
    modifies pool
    ensures PoolOk(pool, key, base + Held(after.server))
    ensures PoolSpec.SameElsewhere(old(pool.State()), pool.State(), key)
    ensures match OnServer(l, now, io)
      case Stay(l1, es) => after == l1 && ending == Running && log == es
      case Leave(l1, es) => after == l1 && ending == Broke && log == es
      case Crash(l1, es) => after == l1 && ending == Crashed && log == es
      case GiveBack(l1, b, es) => after == l1 && ending == Running && log == es + [Released(b)]
      case Abandon(l1, es) => after == l1 && ending == Running && log == es + [Cancelled]
      case Ask(_, _) => false
    ensures pool.State() == Fold(PoolCalls(pool.cfg, pool.clock, key), old(pool.State()), log)
  {
    hide PoolSpec.Inv, PoolSpec.InUse, Reset, Deallocate, RunsDry, PoolSpec.Acquire, PoolSpec.Release, PoolSpec.Cancel,
      Fold, PoolSpec.SameElsewhere;
    ghost var s0, f := pool.State(), PoolCalls(pool.cfg, pool.clock, key);
    PoolSpec.SameElsewhereRefl(s0, key);
    var server := l.server.value;
    var m := server.unread[0];
    server := server.(unread := server.unread[1..]);
    after, ending := l.(server := Some(server)), Running;
    if !io.delivered {
      log := [Undelivered(m)];
      FoldThree(f, s0, log);
      return after, Broke, log;
    }
    log := [Delivered(m)];
    if IsIdle(m) {
      var r;
      r, server := RunResetQuery(server, io.reset);
      var panicked := r.ResetPanics?;
      if r.ResetDone? {
        var drained;
        drained, panicked := DeallocateAll(server, after.prepared, io.dealloc, io.deallocGarbled);
        if !panicked {
          server := drained;
          after := after.(prepared := [], inTx := false);
          log := log + [WasReset];
        }
      }
      if panicked {
        after, ending := after.(server := Some(server)), Crashed;
      } else {
        after := after.(server := None);
        ReleaseHeld(pool, key, server, base + 1);
        log := log + [Released(server)];
      }
    } else if IsInBlock(m) {
      after := after.(inTx := true, txStart := now);
    } else if m.t == ERROR && !after.inTx {
      var r;
      r, server := RunResetQuery(server, io.reset);
      if r.ResetPanics? {
        after, ending := after.(server := Some(server)), Crashed;
      } else {
        after := after.(server := None);
        if r.ResetDone? {
          ReleaseHeld(pool, key, server, base + 1);
          log := log + [Released(server)];
        } else {
          CancelHeld(pool, key, base + 1);
          log := log + [Cancelled];
        }
      }
    }
    FoldThree(f, s0, log);
  }

  /** The turn that an offer makes, on the pool and the loop as the turns before it leave them. */
  function TurnAt(poolCfg: PoolConfig, clock: nat -> nat, key: PoolKey, s0: PoolSpec.PoolState, cfg: Settings,
      loop: Loop, turns: seq<Turn>, i: nat, offer: Offer): Turn
    requires i <= |turns|
  {
    var before := After(cfg, loop, turns, i);
    var s := Fold(PoolCalls(poolCfg, clock, key), s0, before.log);
    Turn(offer.input,
      GrantedBy(OnEvent(cfg, before.loop, offer.input).Ask?, GrantFrom(poolCfg, clock, key, s, offer.created).1))
  }

  /** Every turn is the one that its offer makes. */
  predicate TurnsFit(poolCfg: PoolConfig, clock: nat -> nat, key: PoolKey, s0: PoolSpec.PoolState, cfg: Settings,
      loop: Loop, turns: seq<Turn>, offers: seq<Offer>)
  {
    && |turns| <= |offers|
    && (forall i :: 0 <= i < |turns| ==>
          turns[i] == TurnAt(poolCfg, clock, key, s0, cfg, loop, turns, i, offers[i]))
  }

  lemma NoTurnsFit(poolCfg: PoolConfig, clock: nat -> nat, key: PoolKey, s0: PoolSpec.PoolState, cfg: Settings,
      loop: Loop, offers: seq<Offer>)
    ensures TurnsFit(poolCfg, clock, key, s0, cfg, loop, [], offers)
  {
  }

  lemma TurnsSoFar(poolCfg: PoolConfig, clock: nat -> nat, key: PoolKey, s0: PoolSpec.PoolState, cfg: Settings,
      loop: Loop, turns: seq<Turn>, turn: Turn, offers: seq<Offer>)
    requires |turns| < |offers|
    ensures var offer, before := offers[|turns|], After(cfg, loop, turns, |turns|);
      var s := Fold(PoolCalls(poolCfg, clock, key), s0, before.log);
      var g := GrantFrom(poolCfg, clock, key, s, offer.created).1;
      TurnsFit(poolCfg, clock, key, s0, cfg, loop, turns, offers)
      && turn == Turn(offer.input, GrantedBy(OnEvent(cfg, before.loop, offer.input).Ask?, g))
      ==> TurnsFit(poolCfg, clock, key, s0, cfg, loop, turns + [turn], offers)
  {
    hide Iterate, OnEvent, GrantFrom, GrantedBy, Fold, PoolCalls;
    forall i | 0 <= i <= |turns|
      ensures After(cfg, loop, turns + [turn], i) == After(cfg, loop, turns, i)
    {
      AfterPrefix(cfg, loop, turns, turns + [turn], i);
    }
  }

  /** The permits that a run keeps, in hand or for good. */
  function Keeps(p: Progress, reset: ResetIo): int {
    if p.ending.Broke? then (if ExitGarbles(p, reset) then 1 else 0) else HeldBy(p.loop, p.ending)
  }

  /**
   * The whole of `transaction_loop`.  The run ends when the loop breaks or panics, when the
   * offers are used up, or when it is left waiting at the semaphore; after a break the code
   * behind the loop has run as well.  `turns` is the run with the backends that were granted;
   * the pool is as the calls in the log leave it, one after the other.
   */
  method RunTransactionLoop(pool: PoolManager, key: PoolKey, cfg: Settings, initial: Option<Backend>,
      start: nat, offers: seq<Offer>, lastReset: ResetIo)
    returns (p: Progress, turns: seq<Turn>, waiting: bool)
    requires PoolOk(pool, key, PoolSpec.InUse(pool.cfg, pool.State(), key))
    requires PoolSpec.InUse(pool.cfg, pool.State(), key) >= Held(initial)
    modifies pool
    ensures p == After(cfg, TransactionLoop.Fresh(initial, start), turns, |turns|)
    ensures TurnsFit(pool.cfg, pool.clock, key, old(pool.State()), cfg, TransactionLoop.Fresh(initial, start),
      turns, offers)
    ensures PoolOk(pool, key, old(PoolSpec.InUse(pool.cfg, pool.State(), key)) - Held(initial) + Keeps(p, lastReset))
    ensures PoolSpec.SameElsewhere(old(pool.State()), pool.State(), key)
    ensures p.ending.Running? && !waiting ==> |turns| == |offers|
    ensures
      var s := Fold(PoolCalls(pool.cfg, pool.clock, key), old(pool.State()), WholeLog(p, lastReset));
      pool.State() == if waiting then PoolSpec.Acquire(pool.cfg, pool.clock, s, key).0 else s
  {
    hide PoolSpec.Inv, PoolSpec.InUse, PoolSpec.SameElsewhere, Iterate, Fold, PoolSpec.Acquire, PoolSpec.Release,
      PoolSpec.Cancel, OnEvent, Reset, MeetsReady, MeetsGarble, TurnsFit;
    ghost var f := PoolCalls(pool.cfg, pool.clock, key);
    waiting := false;
    ghost var s0 := pool.State();
    ghost var base := PoolSpec.InUse(pool.cfg, s0, key) - Held(initial);
    var loop := TransactionLoop.Fresh(initial, start);
    p, turns := Progress(loop, Running, []), [];
    PoolSpec.SameElsewhereRefl(s0, key);
    FoldThree(f, s0, []);
    NoTurnsFit(pool.cfg, pool.clock, key, s0, cfg, loop, offers);
    while |turns| < |offers| && p.ending.Running?
      invariant |turns| <= |offers|
      invariant p == After(cfg, loop, turns, |turns|)
      invariant TurnsFit(pool.cfg, pool.clock, key, s0, cfg, loop, turns, offers)
      invariant PoolOk(pool, key, base + HeldBy(p.loop, p.ending))
      invariant PoolSpec.SameElsewhere(s0, pool.State(), key)
      invariant pool.State() == Fold(f, s0, p.log)
      decreases |offers| - |turns|
    {
      ghost var s1 := pool.State();
      var offer := offers[|turns|];
      var after, ending, log, waits, granted := RunIteration(pool, key, cfg, p.loop, offer, base);
      PoolSpec.SameElsewhereTrans(s0, s1, pool.State(), key);
      if waits {
        waiting := true;
        assert p.log + [] == p.log;
        return;
      }
      FoldAppend(f, s0, p.log, log);
      var turn := Turn(offer.input, granted);
      AfterAppend(cfg, loop, turns, turn);
      TurnsSoFar(pool.cfg, pool.clock, key, s0, cfg, loop, turns, turn, offers);
      turns := turns + [turn];
      p := Progress(after, ending, p.log + log);
    }
    if p.ending.Broke? && p.loop.server.Some? {
      ghost var s1 := pool.State();
      var r, server := RunResetQuery(p.loop.server.value, lastReset);
      ResetSucceedsExactly(p.loop.server.value, lastReset);
      match r {
        case ResetDone => ReleaseHeld(pool, key, server, base + 1);
        case ResetFailed => CancelHeld(pool, key, base + 1);
        case ResetPanics => PoolSpec.SameElsewhereRefl(s1, key);
      }
      PoolSpec.SameElsewhereTrans(s0, s1, pool.State(), key);
      FoldThree(f, s1, FarewellLog(p.loop, lastReset));
      FoldAppend(f, s0, p.log, FarewellLog(p.loop, lastReset));
    } else {
      assert p.log + [] == p.log;
    }
  }

  lemma {:induction false} AfterPrefix(cfg: Settings, l: Loop, turns: seq<Turn>, more: seq<Turn>, n: nat)
    requires n <= |turns| && turns <= more
    ensures After(cfg, l, turns, n) == After(cfg, l, more, n)
  {
    hide Iterate;
    if n > 0 {
      AfterPrefix(cfg, l, turns, more, n - 1);
    }
  }

  lemma AfterAppend(cfg: Settings, l: Loop, turns: seq<Turn>, turn: Turn)
    requires After(cfg, l, turns, |turns|).ending.Running?
    ensures var p := After(cfg, l, turns, |turns|);
      var q := Iterate(cfg, p.loop, turn);
      After(cfg, l, turns + [turn], |turns| + 1) == q.(log := p.log + q.log)
  {
    hide Iterate;
    AfterPrefix(cfg, l, turns, turns + [turn], |turns|);
  }
}
