// src/proxy/mod.rs: the other clients of the pool: session mode, the first acquire of
// transaction mode, and warm-up.

module PoolClients {
  import opened Prelude
  import opened Backends
  import opened Pool
  import opened PoolManagers
  import opened TransactionDriver
  import PoolSpec

  /** How a client is left by its call: suspended at the semaphore, failed, ended by a panic, or through. */
  datatype Outcome = Suspended | Failed | Died | Through(b: Option<Backend>)

  /**
   * acquire_session_backend.  A backend that could be created is held on success and given
   * back if the client cannot be told; one that could not takes its permit with it, for the
   * error returns without a cancel, and so does a panic.
   */
  method AcquireSessionBackend(pool: PoolManager, key: PoolKey, created: Connection, clientReady: bool,
      ghost inUse: nat)
    returns (r: Outcome, ghost lost: nat)
    requires PoolOk(pool, key, inUse)
    modifies pool
    ensures PoolOk(pool, key, inUse + lost + (if r.Through? then 1 else 0))
    ensures PoolSpec.SameElsewhere(old(pool.State()), pool.State(), key)
    ensures var (s1, outcome) := PoolSpec.Acquire(pool.cfg, pool.clock, old(pool.State()), key);
      match outcome
      case MustWait => r == Suspended && lost == 0 && pool.State() == s1
      case Reused(b) =>
        && lost == 0
        && r == (if clientReady then Through(Some(b)) else Failed)
        && pool.State() == (if clientReady then s1 else PoolSpec.Release(pool.cfg, pool.clock, s1, key, b))
      case NewPermit =>
        match created
        case Connected(b) =>
          && lost == 0
          && r == (if clientReady then Through(Some(b)) else Failed)
          && pool.State() == (if clientReady then s1 else PoolSpec.Cancel(pool.cfg, s1, key))
        case NotConnected => lost == 1 && r == Failed && pool.State() == s1
        case ConnectPanics => lost == 1 && r == Died && pool.State() == s1
  {
    hide PoolSpec.Inv, PoolSpec.SameElsewhere, PoolSpec.Acquire, PoolSpec.Release, PoolSpec.Cancel, PoolSpec.InUse;
    ghost var s0 := pool.State();
    PoolSpec.AcquireKeeps(pool.cfg, pool.clock, s0, key);
    var got := pool.Acquire(key);
    ghost var s1 := pool.State();
    lost := 0;
    match got
    case MustWait =>
      r := Suspended;
    case Reused(b) =>
      if clientReady {
        r := Through(Some(b));
      } else {
        ReleaseHeld(pool, key, b, inUse + 1);
        PoolSpec.SameElsewhereTrans(s0, s1, pool.State(), key);
        r := Failed;
      }
    case NewPermit =>
      if !created.Connected? {
        lost := 1;
        r := if created.NotConnected? then Failed else Died;
      } else if clientReady {
        r := Through(Some(created.b));
      } else {
        CancelHeld(pool, key, inUse + 1);
        PoolSpec.SameElsewhereTrans(s0, s1, pool.State(), key);
        r := Failed;
      }
  }

  /** acquire_and_release_initial: nothing is held afterwards, but a failed create loses a permit. */
  method AcquireAndReleaseInitial(pool: PoolManager, key: PoolKey, created: Connection, ghost inUse: nat)
    returns (r: Outcome, ghost lost: nat)
    requires PoolOk(pool, key, inUse)
    modifies pool
    ensures PoolOk(pool, key, inUse + lost)
    ensures PoolSpec.SameElsewhere(old(pool.State()), pool.State(), key)
    ensures lost == (if r.Failed? || r.Died? then 1 else 0)
    ensures var (s1, outcome) := PoolSpec.Acquire(pool.cfg, pool.clock, old(pool.State()), key);
      match outcome
      case MustWait => r == Suspended && pool.State() == s1
      case Reused(b) => r == Through(None) && pool.State() == PoolSpec.Release(pool.cfg, pool.clock, s1, key, b)
      case NewPermit =>
        match created
        case Connected(b) => r == Through(None) && pool.State() == PoolSpec.Release(pool.cfg, pool.clock, s1, key, b)
        case NotConnected => r == Failed && pool.State() == s1
        case ConnectPanics => r == Died && pool.State() == s1
  {
    hide PoolSpec.Inv, PoolSpec.SameElsewhere, PoolSpec.Acquire, PoolSpec.Release, PoolSpec.InUse;
    ghost var s0 := pool.State();
    PoolSpec.AcquireKeeps(pool.cfg, pool.clock, s0, key);
    var got := pool.Acquire(key);
    ghost var s1 := pool.State();
    lost := 0;
    match got
    case MustWait =>
      r := Suspended;
    case Reused(b) =>
      ReleaseHeld(pool, key, b, inUse + 1);
      PoolSpec.SameElsewhereTrans(s0, s1, pool.State(), key);
      r := Through(None);
    case NewPermit =>
      if created.Connected? {
        ReleaseHeld(pool, key, created.b, inUse + 1);
        PoolSpec.SameElsewhereTrans(s0, s1, pool.State(), key);
        r := Through(None);
      } else {
        lost := 1;
        r := if created.NotConnected? then Failed else Died;
      }
  }

  /** relay_and_release, once the copying has stopped: only a panic of the reset loses the permit. */
  method RelayAndRelease(pool: PoolManager, key: PoolKey, server: Backend, reset: ResetIo, ghost inUse: nat)
    returns (ghost lost: nat)
    requires PoolOk(pool, key, inUse) && inUse > 0
    modifies pool
    ensures PoolOk(pool, key, inUse - 1 + lost)
    ensures PoolSpec.SameElsewhere(old(pool.State()), pool.State(), key)
    ensures match Reset(server, reset).0
      case ResetDone =>
        && lost == 0
        && pool.State() ==
          PoolSpec.Release(pool.cfg, pool.clock, old(pool.State()), key, Reset(server, reset).1)
      case ResetFailed => lost == 0 && pool.State() == PoolSpec.Cancel(pool.cfg, old(pool.State()), key)
      case ResetPanics => lost == 1 && pool.State() == old(pool.State())
  {
    hide PoolSpec.Inv, PoolSpec.SameElsewhere, PoolSpec.InUse, PoolSpec.Release, PoolSpec.Cancel, Reset;
    lost := 0;
    var r, after := RunResetQuery(server, reset);
    match r
    case ResetDone =>
      ReleaseHeld(pool, key, after, inUse);
    case ResetFailed =>
      CancelHeld(pool, key, inUse);
    case ResetPanics =>
      lost := 1;
      PoolSpec.SameElsewhereRefl(pool.State(), key);
  }

  /** One task of spawn_warmup: it holds nothing afterwards and loses nothing but in a panic. */
  method WarmUp(pool: PoolManager, key: PoolKey, created: Connection, ghost inUse: nat)
    returns (ghost lost: nat)
    requires PoolOk(pool, key, inUse)
    modifies pool
    ensures PoolOk(pool, key, inUse + lost)
    ensures PoolSpec.SameElsewhere(old(pool.State()), pool.State(), key)
    ensures var (s1, g) := GrantFrom(pool.cfg, pool.clock, key, old(pool.State()), created);
      && lost == (if g == Ended(ConnectPanics) then 1 else 0)
      && pool.State() ==
        if g.Ended? && g.c.Connected? then PoolSpec.Release(pool.cfg, pool.clock, s1, key, g.c.b) else s1
  {
    hide PoolSpec.Inv, PoolSpec.SameElsewhere, PoolSpec.InUse, PoolSpec.Release;
    ghost var s0 := pool.State();
    var g := AcquireBackend(pool, key, created, inUse);
    lost := if g == Ended(ConnectPanics) then 1 else 0;
    if g.Ended? && g.c.Connected? {
      ghost var s1 := pool.State();
      ReleaseHeld(pool, key, g.c.b, inUse + 1);
      PoolSpec.SameElsewhereTrans(s0, s1, pool.State(), key);
    }
  }
}
