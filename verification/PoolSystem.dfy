// src/pool/mod.rs and src/proxy/mod.rs: any number of client handlers, warm-up tasks and
// monitors, interleaved step by step over one pool manager.

module PoolSystem {
  import opened Prelude
  import opened Frames
  import opened Backends
  import opened Pool
  import opened TransactionLoop
  import PoolSpec

  // ---- Tasks ----

  /** On whose behalf a task is in `acquire`. */
  datatype Who =
    | WarmUp                        // a task of spawn_warmup
    | Initial                       // acquire_and_release_initial
    | Session                       // acquire_session_backend
    | Txn(loop: Loop, m: Msg)       // transaction_loop, which wants to forward m

  /** Where a task goes on after `release` or `cancel`. */
  datatype Then =
    | ThenDone
    | ThenReady                     // tell the client, enter transaction_loop
    | ThenLoop(loop: Loop)          // the top of transaction_loop, the server being taken
    | ThenWarmUp                    // spawn_warmup

  /**
   * Program counters.  `sem` is the semaphore a task has got hold of.  A task that holds a
   * lock across several steps is in a state of its own; a section that the lock makes atomic
   * is one step.
   */
  datatype Pc =
    // stats_for, at the start of handle_client
    | StatsLookup(who: Who)
    | StatsInsert(who: Who)
    | StatsRead(who: Who, sem: nat)
    | StatsLock(who: Who, available: nat)      // permits read, waiting for the lock on the pools
    // acquire
    | AcqLookup(who: Who)
    | AcqInsert(who: Who)
    | AcqLock(who: Who, sem: nat)
    | AcqPop(who: Who, sem: nat)                          // holds the lock
    | AcqIdleCheck(who: Who, sem: nat, ic: IdleConn)      // holds the lock and a popped connection
    | AcqAgeCheck(who: Who, sem: nat, ic: IdleConn)       // the same
    | AcqRefund(who: Who, sem: nat)                       // holds the lock; dropped, permit not yet returned
    | AcqBlocked(who: Who, sem: nat)                      // waiting for a permit
    | Creating(who: Who, since: nat)                      // permit forgotten, create_backend under way
    | Leaked                                              // create failed and nobody cancelled
    | Crashed                                             // ended by a panic with a permit in hand
    // users of a backend
    | Announce(b: Backend, reused: bool)                  // session mode, telling the client
    | Relaying(b: Backend)                                // session mode
    | LoopForward(loop: Loop, m: Msg)                     // transaction_loop, backend just acquired
    | LoopTop(loop: Loop)
    | LoopExit(loop: Loop)
    | Ready
    // release
    | RelAge(b: Backend, next: Then)
    | RelLock(b: Backend, next: Then)
    | RelDrop(b: Backend, next: Then)
    // returning a permit: cancel, and the tail of release; `open` is a stream still in scope
    | RetLookup(open: Option<Backend>, next: Then)
    | RetInsert(open: Option<Backend>, next: Then)
    | RetAdd(open: Option<Backend>, next: Then, sem: nat)
    | Closing(b: Backend, next: Then)                     // permit returned, stream not yet dropped
    // spawn_warmup
    | WarmLock
    | Spawning(n: nat)
    // global_stats
    | TotalStart
    | TotalLock                                           // holds the semaphore map for reading
    | TotalScan(todo: seq<PoolKey>, total: PoolSpec.Stats)   // and the lock on the pools
    | Reported(total: PoolSpec.Stats)
    | Done

  datatype Task = Task(key: PoolKey, pc: Pc)

  /** A semaphore, with the key it was created for. */
  datatype Sem = Sem(key: PoolKey, permits: nat)

  /**
   * The shared state.  `sems` are all semaphores ever created, `semOf` is the map of them,
   * `born` gives for every backend ever created the key it was created for.
   */
  datatype State = State(
    now: nat,
    sems: seq<Sem>,
    semOf: map<PoolKey, nat>,
    pools: map<PoolKey, PoolInner>,
    lock: Option<nat>,
    born: seq<PoolKey>,
    tasks: seq<Task>)

  function Init(): State {
    State(0, [], map[], map[], None, [], [])
  }

  /** `checked` says whether the program is built with overflow checks. */
  datatype Env = Env(cfg: PoolConfig, settings: Settings, checked: bool)

  /**
   * What the outside decides about a step: success or, failing that, a panic, events, answers,
   * an iteration order.
   */
  datatype Choice = Choice(ok: bool, panics: bool, event: Event, io: Io, keys: seq<PoolKey>)

  // ---- Moves ----

  datatype LockChange = Keep | Take | Free

  /**
   * What one step does: the next program counter, a new entry for the task's key in `pools`,
   * permits added to its semaphore, the lock, and whether it creates a backend or a
   * semaphore or spawns a warm-up task.
   */
  datatype Move = Move(
    pc: Pc, inner: Option<PoolInner>, add: int, lock: LockChange, create: bool, insert: bool, spawn: bool)

  function Go(pc: Pc): Move {
    Move(pc, None, 0, Keep, false, false, false)
  }

  function SemIndex(s: State, key: PoolKey): nat {
    if key in s.semOf then s.semOf[key] else |s.sems|
  }

  /** Entry-or-insert under the write lock. */
  function GoInserting(s: State, key: PoolKey, pc: Pc): Move {
    Go(pc).(insert := key !in s.semOf)
  }

  /** Some task holds the map of semaphores for reading. */
  predicate ReadLocked(s: State) {
    exists t :: 0 <= t < |s.tasks| && (s.tasks[t].pc.TotalLock? || s.tasks[t].pc.TotalScan?)
  }

  function AfterGrant(who: Who, b: Backend, reused: bool): Pc {
    match who
    case WarmUp => RelAge(b, ThenDone)
    case Initial => RelAge(b, ThenReady)
    case Session => Announce(b, reused)
    case Txn(l, m) => LoopForward(l.(server := Some(b)), m)
  }

  function AfterFailedCreate(who: Who): Pc {
    match who
    case WarmUp => RetLookup(None, ThenDone)
    case Initial => Leaked
    case Session => Leaked
    case Txn(_, _) => RetLookup(None, ThenWarmUp)
  }

  function Resume(next: Then): Pc {
    match next
    case ThenDone => Done
    case ThenReady => Ready
    case ThenLoop(l) => LoopTop(l.(server := None))
    case ThenWarmUp => WarmLock
  }

  function AfterPlan(plan: Plan): Pc {
    match plan
    case Stay(l, _) => LoopTop(l)
    case Ask(l, m) => AcqLookup(Txn(l, m))
    case GiveBack(l, b, _) => RelAge(b, ThenLoop(l))
    case Abandon(l, _) => RetLookup(None, ThenLoop(l))
    case Leave(l, _) => LoopExit(l)
    case Crash(l, _) => if l.server.Some? then Pc.Crashed else Done
  }

  /** Resetting a backend that its user is done with. */
  function AfterUse(b: Backend, reset: ResetIo): Pc {
    var (r, b1) := Reset(b, reset);
    match r
    case ResetDone => RelAge(b1, ThenWarmUp)
    case ResetFailed => RetLookup(Some(b1), ThenWarmUp)
    case ResetPanics => Pc.Crashed
  }

  /** What follows transaction_loop. */
  function AfterExit(l: Loop, reset: ResetIo): Pc {
    match OnExit(l, reset)
    case NothingHeld => WarmLock
    case Return(b) => RelAge(b, ThenWarmUp)
    case CancelThenDrop(b) => RetLookup(Some(b), ThenWarmUp)
    case CrashHolding(_) => Pc.Crashed
  }

  /** The available permits that `global_stats` reads for a key. */
  function PermitsRead(s: State, key: PoolKey): nat
    requires key in s.pools
  {
    if key in s.semOf && s.semOf[key] < |s.sems| then s.sems[s.semOf[key]].permits
    else s.pools[key].limits.maxSize + s.pools[key].limits.reserveSize
  }

  function ScanOne(s: State, total: PoolSpec.Stats, key: PoolKey): PoolSpec.Stats
    requires key in s.pools
  {
    PoolSpec.AddKey(PoolSpec.PoolState(s.pools, map[key := PermitsRead(s, key)], 0), total, key)
  }

  /** The step that a task takes next; a task that has to wait stays where it is. */
  function Decide(env: Env, s: State, t: nat, c: Choice): Move
    requires t < |s.tasks|
  {
    var key, pc := s.tasks[t].key, s.tasks[t].pc;
    match pc
    case StatsLookup(who) =>
      Go(if key in s.semOf then StatsRead(who, s.semOf[key]) else StatsInsert(who))
    case StatsInsert(who) =>
      if ReadLocked(s) then Go(pc) else GoInserting(s, key, StatsRead(who, SemIndex(s, key)))
    case StatsRead(who, sem) =>
      Go(StatsLock(who, if sem < |s.sems| then s.sems[sem].permits else 0))
    case StatsLock(who, available) =>
      if s.lock.Some? then Go(pc)
      else if env.checked && available + IdleLen(s, key) > Capacity(env.cfg, key) then Go(Done)
      else Go(AcqLookup(who))
    case AcqLookup(who) =>
      Go(if key in s.semOf then AcqLock(who, s.semOf[key]) else AcqInsert(who))
    case AcqInsert(who) =>
      if ReadLocked(s) then Go(pc) else GoInserting(s, key, AcqLock(who, SemIndex(s, key)))
    case AcqLock(who, sem) =>
      if s.lock.Some? then Go(pc)
      else if key in s.pools then Go(AcqPop(who, sem)).(lock := Take)
      else Go(AcqBlocked(who, sem))
    case AcqPop(who, sem) =>
      if key !in s.pools || s.pools[key].idle == [] then Go(AcqBlocked(who, sem)).(lock := Free)
      else
        var inner := s.pools[key];
        var (ic, rest) := Popped(inner.limits.strategy, inner.idle);
        Go(AcqIdleCheck(who, sem, ic)).(inner := Some(inner.(idle := rest)))
    case AcqIdleCheck(who, sem, ic) =>
      if key in s.pools && IdleTooLong(s.pools[key], ic, s.now) then Go(AcqRefund(who, sem))
      else Go(AcqAgeCheck(who, sem, ic))
    case AcqAgeCheck(who, sem, ic) =>
      if key in s.pools && TooOld(s.pools[key], ic, s.now) then Go(AcqRefund(who, sem))
      else Go(AfterGrant(who, ic.stream, true)).(lock := Free)
    case AcqRefund(who, sem) => Go(AcqPop(who, sem)).(add := 1)
    case AcqBlocked(who, sem) =>
      if sem < |s.sems| && s.sems[sem].permits > 0 then Go(Creating(who, s.now)).(add := -1) else Go(pc)
    case Creating(who, since) =>
      if c.ok then Go(AfterGrant(who, Backend(|s.born|, since, []), false)).(create := true)
      else if c.panics then Go(Pc.Crashed)
      else Go(AfterFailedCreate(who))
    case Leaked => Go(pc)
    case Crashed => Go(pc)
    case Announce(b, reused) =>
      if c.ok then Go(Relaying(b))
      else if reused then Go(RelAge(b, ThenDone))
      else Go(RetLookup(Some(b), ThenDone))
    case Relaying(b) => Go(AfterUse(b.(unread := c.io.reply), c.io.reset))
    case LoopForward(l, m) =>
      Go(if l.server.Some? then AfterPlan(Forward(env.settings, l, m, s.now, c.io)) else pc)
    case LoopTop(l) => Go(AfterPlan(OnEvent(env.settings, l, Input(s.now, c.event, c.io))))
    case LoopExit(l) => Go(AfterExit(l, c.io.reset))
    case Ready => if c.ok then Go(LoopTop(Fresh(None, s.now))) else Go(Done)
    case RelAge(b, next) =>
      if Elapsed(s.now, b.bornAt) >= env.cfg.serverLifetime then Go(RelDrop(b, next)) else Go(RelLock(b, next))
    case RelLock(b, next) =>
      if s.lock.Some? then Go(pc)
      else
        var inner := if key in s.pools then s.pools[key] else NewInner(env.cfg, key);
        if |inner.idle| < inner.limits.maxSize
        then Go(Resume(next)).(inner := Some(inner.(idle := inner.idle + [IdleConn(b, s.now)])))
        else Go(RelDrop(b, next)).(inner := Some(inner))
    case RelDrop(b, next) => Go(RetLookup(None, next))
    case RetLookup(open, next) =>
      Go(if key in s.semOf then RetAdd(open, next, s.semOf[key]) else RetInsert(open, next))
    case RetInsert(open, next) =>
      if ReadLocked(s) then Go(pc) else GoInserting(s, key, RetAdd(open, next, SemIndex(s, key)))
    case RetAdd(open, next, sem) =>
      (match open
       case None => Go(Resume(next)).(add := 1)
       case Some(b) => Go(Closing(b, next)).(add := 1))
    case Closing(b, next) => Go(Resume(next))
    case WarmLock =>
      if s.lock.Some? then Go(pc)
      else Go(Spawning(PoolSpec.SatSub(ResolveLimits(env.cfg, key).minSize, IdleLen(s, key))))
    case Spawning(n) => if n == 0 then Go(Done) else Go(Spawning(n - 1)).(spawn := true)
    case TotalStart => Go(TotalLock)
    case TotalLock =>
      if s.lock.Some? || !PoolSpec.Enumerates(c.keys, s.pools) then Go(pc)
      else Go(TotalScan(c.keys, PoolSpec.Stats(0, 0, 0, 0, 0))).(lock := Take)
    case TotalScan(todo, total) =>
      if todo == [] then Go(Reported(total)).(lock := Free)
      else if todo[0] !in s.pools then Go(pc)
      else Go(TotalScan(todo[1..], ScanOne(s, total, todo[0])))
    case Reported(_) => Go(pc)
    case Done => Go(pc)
  }

  function IdleOf(s: State, key: PoolKey): seq<IdleConn> {
    if key in s.pools then s.pools[key].idle else []
  }

  function IdleLen(s: State, key: PoolKey): nat {
    |IdleOf(s, key)|
  }

  // ---- Steps and runs ----

  function Clamp(n: int): nat {
    if n < 0 then 0 else n
  }

  function SemsAfter(env: Env, s: State, key: PoolKey, mv: Move): seq<Sem> {
    if mv.insert then s.sems + [Sem(key, Capacity(env.cfg, key))]
    else if key in s.semOf && s.semOf[key] < |s.sems| then
      var i := s.semOf[key];
      s.sems[i := s.sems[i].(permits := Clamp(s.sems[i].permits + mv.add))]
    else s.sems
  }

  function LockAfter(s: State, t: nat, mv: Move): Option<nat> {
    match mv.lock case Keep => s.lock case Take => Some(t) case Free => None
  }

  function TasksAfter(s: State, t: nat, mv: Move): seq<Task>
    requires t < |s.tasks|
  {
    var key := s.tasks[t].key;
    s.tasks[t := Task(key, mv.pc)] + if mv.spawn then [Task(key, AcqLookup(WarmUp))] else []
  }

  function Apply(env: Env, s: State, t: nat, mv: Move): State
    requires t < |s.tasks|
  {
    var key := s.tasks[t].key;
    State(
      s.now,
      SemsAfter(env, s, key, mv),
      if mv.insert then s.semOf[key := |s.sems|] else s.semOf,
      if mv.inner.Some? then s.pools[key := mv.inner.value] else s.pools,
      LockAfter(s, t, mv),
      if mv.create then s.born + [key] else s.born,
      TasksAfter(s, t, mv))
  }

  datatype Act =
    | Tick(seconds: nat)
    | Connect(key: PoolKey, session: bool)     // a client handler starts
    | Monitor(key: PoolKey)                    // a call of global_stats starts
    | Run(t: nat, c: Choice)

  function Spawn(s: State, task: Task): State {
    s.(tasks := s.tasks + [task])
  }

  function Step(env: Env, s: State, a: Act): State {
    match a
    case Tick(d) => s.(now := s.now + d)
    case Connect(key, session) => Spawn(s, Task(key, StatsLookup(if session then Session else Initial)))
    case Monitor(key) => Spawn(s, Task(key, TotalStart))
    case Run(t, c) => if t < |s.tasks| then Apply(env, s, t, Decide(env, s, t, c)) else s
  }

  /** The state after the first `n` steps of a run. */
  function StateAfter(env: Env, acts: seq<Act>, n: nat): State
    requires n <= |acts|
  {
    if n == 0 then Init() else Step(env, StateAfter(env, acts, n - 1), acts[n - 1])
  }
}
