# Verification of the pgb-iam connection pool and its protocols

pgb-iam is a PostgreSQL connection pooler.  This project models five of its parts in Dafny and proves
what they keep over every run: the pool manager with its permits and idle connections, the
transaction-mode relay that uses it, the PostgreSQL wire format, the two SCRAM-SHA-256 parties, and the
cache of IAM tokens.  `dafny verify dfyconfig.toml` checks all of it.

## How it is built

**Code that changes things in place is imperative Dafny.**  `PoolManagers.PoolManager` is a class whose
methods pop, push, insert and count as the Rust methods do, with the pop loop of `acquire` as a loop over
the idle connections in the map of pools.  `TransactionDriver` and `PoolClients` run the transaction loop,
the session clients and the warm-up against that class.  `ScramObjects.ScramClient` and `ScramServer`,
`TokenCache.Cache`, the frame, startup and DataRow readers and writers are methods with loops.  Each is
proved equal to a specification function, and the theorems are about those functions: they say in literal
bytes, readings of the clock and entries of a log what comes of them.

**Concurrency is a step system.**  `PoolSystem` has any number of tasks, each with a program counter, over
one shared state: a clock, all semaphores ever created, the map of semaphores, the pools, the lock on
them, and the tasks.  A task is a client handler (session or transaction mode, with the whole of
`transaction_loop` inside), a warm-up task, or a call of `global_stats`.  What a lock makes atomic may be
one step, and what happens between locks is in separate steps, so that a task can be interrupted between
the look-up of a semaphore and its insertion, between popping an old connection and returning its permit,
between dropping a stream and returning its permit, and between reading the permits in `stats_for` and
taking the lock.  A run is a sequence of actions from the empty state, and the theorems of `PoolTheorems`
hold after any number of steps of any run, and so do those of `PoolLimits`, `PoolAges`, `PoolHandlers`,
`PoolStatistics`, `PoolAcquire`, `PoolLoops`, `PoolTransactions` and `PoolCleanliness`.  `PoolRefinement`
closes the gap between the two models: what a call of the class does to the pool, a task of the step system
that runs alone does as well, clock reading by clock reading.  `PoolLoops` does the same for the relay.  It reads off the steps of each task
what that task has been seen to do: the inputs of its iterations, the backends that the pool gave it, and a
log of messages and calls to the pool.  In every state of every interleaving that history is the one of the
sequential loop on those inputs and backends.  Exit balance, stickiness, the tracked list, the order of
deliveries and the clean release are then stated again for any task over the states of the system.

**What the outside decides is a parameter.**  The clock is a monotone sequence of readings; the tasks are
scheduled by the run; success of writes and of `create_backend`, events, answers of the backend, nonces,
salts, tokens and the iteration order of a hash map are inputs.  A backend is an identity, its time of
birth and the messages that have been sent to the pooler and not been read.

## What the code does that a reader might not expect

These are facts of the code, with the lemmas that say when they happen.

- **More connections than permits.**  On three paths the permit is returned while the stream is still in
  scope (`src/proxy/mod.rs:249-252`, `src/proxy/mod.rs:980-986`, `src/proxy/mod.rs:1056-1062`).  Until the
  stream is dropped, another task can use the permit.  `OpenConnectionsBound` says that the excess is at
  most the number of steps that took such a path, so there is none without them; `OpenConnectionsExactly`
  counts the open connections; `TwoConnectionsForOnePermit` is a run with two of them in a pool of one.
- **Permits that are lost.**  A failed `create_backend` at `src/proxy/mod.rs:248` and
  `src/proxy/mod.rs:274` returns without `cancel`.  Such permits end in the program counter `Leaked`.
- **Permits that go in a panic.**  The frame reader panics on a length field below 4
  (`src/pgproto/mod.rs:77-79`).  Nothing catches the unwinding, and a permit is a count that no destructor
  returns, so a client that holds a backend and sends the five bytes `Q` 0 0 0 0 takes the permit with it, and
  so does a backend that sends such a frame to the relay, to a reset, to the drain after DEALLOCATE or during
  `create_backend`.  Such permits end in `Crashed`.  `EveryExitHoldsNothingExactly` says that a run holds
  nothing when it has ended iff no such frame came with a permit in hand.  `LossesExactly` counts the steps
  that lose a permit, of both kinds, and `CapacityIsRecoveredButForLosses` says that the capacity is recovered
  but for as many; `PermitIsLost` and the two lemmas `GarblingLosesPermit` are runs.
- **Connections that go back to the pool with unread messages.**  The drain after DEALLOCATE leaves its loop
  after one message whatever it is (`src/proxy/mod.rs:941-946`), so every tracked statement leaves a
  ReadyForQuery behind; and an error outside a transaction is followed by the reset before the failed
  query's own ReadyForQuery has been read (`src/proxy/mod.rs:961-972`).  `IdleReleaseCleanExactly`,
  `ErrorReleaseCleanExactly` and `ExitReleaseCleanExactly` give the exact conditions,
  `DeallocateLeavesReadyUnread` and `ErrorLeavesAnswerUnread` the runs.
- **Answers meant for someone else.**  A client that is granted such a connection is delivered what was unread
  first.  `AnswersAreOwnExactly` says that clients get answers of their own only iff the connection they are
  granted has nothing unread, and `SettledRunsAreOwn` traces that back to the steps that give connections to the
  pool: if each of them is owed nothing more, no client ever gets another's answers.  In `StaleReadyHidesAnswer` a leftover ReadyForQuery ends a client's turn, and the
  reset reads the client's own answer away.
- **A reset that fails is not looked at** after an idle ReadyForQuery: the connection is released, dead or not
  (`src/proxy/mod.rs:928-954`), and the tracked names and `in_transaction` stay as they were.
  `UnresetReleaseExactly` says when.
- **`stats_for` can underflow.**  It reads the permits before it takes the lock
  (`src/pool/mod.rs:313-321`).  `StatsForExactly` gives the condition, `StatsForUnderflows` a run.  With overflow
  checks the handler ends there, holding nothing; without them it goes on; the step system has both.
- **A timeout of 0 means always expired** in `acquire` (`src/pool/mod.rs:236-237`), unlike the timeouts of
  the relay, where 0 means none (`ZeroTimeoutDropsAll`, `ZeroTimeoutsNeverEnd`).
- **A Close of a portal also untracks a statement** of the same name: the object kind is not looked at
  (`src/proxy/mod.rs:889-894`, `CloseIgnoresKind`).  Names that are not UTF-8 are not tracked.
- **The SCRAM client-final message carries the client nonce only** and the server does not compare nonces
  (`src/auth/scram.rs:114`, `src/auth/scram.rs:208-218`).  The two objects agree with each other; conformance
  to RFC 5802 is not claimed.  A proof longer than 32 bytes is accepted if its first 32 bytes are right.
- **A user name with a comma in it** reaches the SCRAM server cut at a comma (`src/auth/scram.rs:176-185`,
  `UserNameComesExactly`); the nonce behind it is found all the same (`NonceOfClientFirst`).
- **No hash of unbounded input into 32 bytes is injective**, so that assumption would prove anything.
  `AcceptsExactly` has no assumption about the hash and names the alternative instead: the right proof, or
  two inputs that collide.
- **Values without a NUL and impossible lengths** make the startup reader panic, and the model has that outcome; a
  DataRow column length below -1 leaves the loop or makes it panic (`src/auth/auth_query.rs:96-99`).
  `StartupPanicsExactly` and `DataRowPanicsExactly` say when.
- The repository's README (`README.md:320`) speaks of a separate semaphore for `reserve_size`.  The code has
  one semaphore of `max_size + reserve_size` permits, and the model follows the code.

## Model

| member | source | states |
|---|---|---|
| PoolTheorems.PermitsAreConserved | src/pool/mod.rs:199-290 | in every state that any run of any tasks reaches, for every key: permits available, idle connections and permits that tasks account for add up to max_size + reserve_size |
| PoolTheorems.OpenConnectionsBound | src/proxy/mod.rs:249-252 | in every reachable state the open connections exceed the capacity by no more than the number of steps so far that returned a permit before the drop: a client that cannot be told of a new backend, or a reset that fails after the relay or after transaction_loop; in a run without such a step they are within the capacity |
| PoolTheorems.OpenConnectionsExactly | src/proxy/mod.rs:980-986 | in every reachable state they are the capacity less the permits available or without a connection, plus the connections whose permit is already returned |
| PoolCounterexamples.TwoConnectionsForOnePermit | src/proxy/mod.rs:249-252 | a reachable state in which two tasks hold an open connection each for a key of capacity one |
| PoolTheorems.LossesExactly | src/proxy/mod.rs:248-274 | in every reachable state the permits that are lost are as many as the steps so far that lose one: a create_backend that panics, or fails for a caller that does not cancel; a malformed frame read by transaction_loop with a backend held, or by the reset after it or after the relay |
| PoolTheorems.CapacityIsRecoveredButForLosses | src/proxy/mod.rs:248-274 | once all tasks have ended, available and idle add up to the capacity less one permit for each such step |
| PoolCounterexamples.GarblingLosesPermit | src/pgproto/mod.rs:77-79 | a run in which every create_backend succeeds and a client sends a malformed frame, after which all is at rest and no permit of a capacity of one is left |
| PoolCounterexamples.PermitIsLost | src/proxy/mod.rs:248 | a run after which all is at rest, nothing is idle, and no permit of a capacity of one is available |
| PoolTheorems.NoTwoTasksShare | src/pool/mod.rs:219-284 | in every reachable state two tasks that hold the same backend are the same task |
| PoolTheorems.NoTaskHoldsIdle | src/pool/mod.rs:263-277 | no backend that a task holds is in an idle slot of any pool |
| PoolTheorems.NoBackendIsIdleTwice | src/pool/mod.rs:263-277 | two idle slots with the same backend are the same slot of the same pool |
| PoolTheorems.DroppedStaysDropped | src/pool/mod.rs:241-282 | no step brings a backend into more places than it was in, so one that is dropped never comes back |
| PoolTheorems.OneSemaphorePerKey | src/pool/mod.rs:199-211 | however the two phases of the look-up interleave, at most one semaphore is ever created for a key |
| PoolTheorems.PoolsAgreeWithLimits | src/pool/mod.rs:184-284 | in every reachable state a pool has its semaphore and the limits resolved for its key, at most max_size idle connections, sorted by the time they were parked |
| PoolLimits.LimitedByPrecedence | src/pool/mod.rs:184-197 | in every reachable state permits and connections of a key add up to max_size + reserve_size, and at most max_size are idle, of the limits given for its user; without any, for its database; and only without either of the global ones |
| PoolLimits.CallsAgree | src/pool/mod.rs:184-324 | every call on a key does the same under two configurations with the same timeouts and the same entry for its user, whatever they say for its database and globally; likewise for the database without an entry for the user, and for the global limits without either |
| PoolLimits.RunsAgree | src/pool/mod.rs:184-324 | so does every run of clients and monitors for such keys: it goes through the same states |
| PoolLimits.NewcomersByPrecedence | src/pool/mod.rs:199-211 | a new semaphore has max_size + reserve_size permits and a warm-up aims at min_size, of the limits with that precedence |
| PoolLimits.WarmupSpawnsExactly | src/proxy/mod.rs:1073-1103 | whatever other tasks do meanwhile, a warm-up spawns as many tasks as idle connections were missing to min_size when it had the lock |
| PoolAges.AgesAreOfTheRun | src/pool/mod.rs:259-277 | in every reachable state a connection was born when its permit was taken for it to be created, and an idle one has been parked since the step that parked it last |
| PoolAges.PopsChecksExactly | src/pool/mod.rs:236-244 | in every reachable state a popped connection is dropped iff it was parked the idle timeout ago or longer, or, if it passes that, was born the lifetime ago or longer; else it is granted and the lock freed |
| PoolAges.GrantsAreFresh | src/pool/mod.rs:236-240 | whenever an idle connection is granted, it was born less than the lifetime ago, and had been parked for less than the idle timeout at an earlier step of the task |
| PoolAges.ReleasesExactly | src/pool/mod.rs:259-284 | in every reachable state a released connection is dropped iff it was born the lifetime ago or longer or comes to max_size idle ones; else it is parked behind them with the time of the step |
| PoolAges.WaitsOnlyWithNothingIdle | src/pool/mod.rs:225-255 | in every reachable state a task begins to wait for a permit only when no connection of its pool is idle, and takes one as soon as it looks and there is one |
| PoolHandlers.AnnouncesExactly | src/proxy/mod.rs:238-255 | a client that is told of its backend is relayed to it; otherwise the backend is released if it was idle before, and the permit cancelled if it is new |
| PoolHandlers.RelayEndsExactly | src/proxy/mod.rs:1056-1062 | behind the relay the backend is released with what follows the ReadyForQuery unread iff the reset finds one, else the permit is cancelled with the connection still open, but for a malformed frame |
| PoolHandlers.UseEndsInWarmup | src/proxy/mod.rs:181-197 | a handler that has left transaction_loop or the relay does not end without a warm-up, whatever becomes of its backend, unless the reset panics |
| PoolHandlers.WarmupNeedsUse | src/proxy/mod.rs:181-197 | and only such handlers warm up: one that could not get a backend or tell its client ends without |
| PoolHandlers.WarmupsOnlyWarmUp | src/proxy/mod.rs:1085-1102 | a task that a warm-up has spawned never starts another one |
| PoolHandlers.SemaphoresStayWhileRead | src/pool/mod.rs:345-347 | while a call of global_stats has the map of semaphores, no step of any task adds one |
| PoolTheorems.OtherKeysUntouched | src/pool/mod.rs:219-290 | a step of a task leaves permits and idle connections of all other keys as they are |
| PoolTheorems.PoolsChangeOnlyUnderLock | src/pool/mod.rs:228-269 | while one task has the lock, no step of another one changes a pool or the lock |
| PoolStatistics.ScanStepIsExact | src/pool/mod.rs:355-364 | global_stats, whatever others do meanwhile, adds to active exactly the permits that tasks account for at that moment, and to idle the idle connections; nothing saturates |
| PoolStatistics.ReportedTotalsAddUp | src/pool/mod.rs:345-366 | what global_stats reports as active and idle together is at most the permits that there are |
| PoolStatistics.ScanCountsIdleOfOneState | src/pool/mod.rs:345-366 | from lock to report, no step of any task changes the sum of what has been and what will be counted as idle |
| PoolStatistics.ReportIsExact | src/pool/mod.rs:345-366 | for every report there is the step at which it took the lock: idle, max, reserve and min are the sums of each over all pools there were then, each pool once, and active is the sum of the permits that tasks accounted for when it came to each |
| PoolStatistics.StatsForExactly | src/pool/mod.rs:310-324 | for every task that waits with a number of permits there is the step that read it, and what stats_for calls active is the permits that tasks account for, less those that steps of any tasks have taken since that read, plus those they have returned; it is negative iff more were taken than were returned and are accounted for |
| PoolStatistics.UnderflowEndsHandler | src/pool/mod.rs:317-320 | with overflow checks the handler ends there iff that is negative, and goes on to acquire otherwise |
| PoolCounterexamples.StatsForUnderflows | src/pool/mod.rs:313-321 | a reachable state in which stats_for would report -1 active |
| PoolSafety.RunKeepsInv | src/pool/mod.rs:199-366 | the invariant behind these theorems holds after every number of steps of every run |
| PoolSafety.DecideLawful | src/proxy/mod.rs:787-1104 | every step of every kind of task, also one that ends in a panic of the frame reader, balances its permits, respects the lock, uses the semaphore of its key and copies no backend |
| PoolAcquire.AcquireTakesFirstFresh | src/pool/mod.rs:227-249 | from the moment a task begins the pop loop to the step that leaves it, whatever any other tasks do to permits and other pools meanwhile: it drops exactly the connections ahead of the first in strategy order that is within idle timeout and lifetime, each of them over one of the two by then, returning one permit for each, is granted that one and leaves the rest in order, or finds none |
| PoolRefinement.AcquireIsARun | src/pool/mod.rs:219-256 | a task that runs `acquire` alone, step by step, does to pools, permits and clock what the sequential call does, and goes on as its outcome says |
| PoolRefinement.ReleaseIsARun | src/pool/mod.rs:259-284 | the same for `release` |
| PoolRefinement.CancelIsARun | src/pool/mod.rs:287-290 | the same for `cancel` and the end of `release` |
| PoolLoops.EveryLoopIsARun | src/proxy/mod.rs:787-987 | in every reachable state of the interleaved system, what a task has been seen to do since it entered transaction_loop, its messages and calls to the pool in order, is the log of the loop by itself on the same inputs with the backends that the pool gave the task, and its locals are those of that run, also while it is suspended in a call to the pool |
| PoolLoops.TaskHoldsWhatItAcquired | src/proxy/mod.rs:787-987 | in every interleaving a task in its loop holds the backend that its own log says; one that is behind its loop has matched each acquire by one release or cancel iff no turn of its own and not the reset behind its loop met a malformed frame with a permit in hand |
| PoolLoops.TaskSticksToTransaction | src/proxy/mod.rs:871-977 | from a state in which a task is in a transaction, through any steps of any tasks and until it delivers an idle ReadyForQuery, it stays in its loop on that backend, sends all client messages there and makes no call to the pool, or it leaves the loop for good |
| PoolLoops.TaskTracksOpenNames | src/proxy/mod.rs:882-950 | in every interleaving the tracked list of a task in its loop is what its own log says |
| PoolTransactions.TaskTransactionIsLogged | src/proxy/mod.rs:895-959 | in every interleaving a task in its loop takes itself to be in a transaction iff its own log says so, and counts the time from the step in which it was last seen to begin one |
| PoolTransactions.TaskIsCutOffExactly | src/proxy/mod.rs:822-826 | in every interleaving a client message is cut off unseen iff the transaction timeout has passed since that step and no successful idle reset has come between |
| PoolLoops.TaskDeliversInOrder | src/proxy/mod.rs:871-920 | in every interleaving a task passes on what was unread in the backend it was given, then the answers to its own client, in order |
| PoolLoops.TaskReleasesCleanExactly | src/proxy/mod.rs:924-954 | in every interleaving a task's release on an idle ReadyForQuery leaves nothing unread iff its own log says that this was the one answer owed and no statement was tracked |
| PoolLoops.TaskErrorReleasesCleanExactly | src/proxy/mod.rs:961-972 | the same for a release on an error: nothing unread iff its own log owes no answer |
| PoolLoops.TaskExitReleasesCleanExactly | src/proxy/mod.rs:980-986 | and for the release behind the loop |
| PoolCleanliness.PoolStaysClean | src/pool/mod.rs:227-284 | in a run in which no user gives a backend back with messages unread, nothing idle in any pool and nothing about to be granted ever has any |
| PoolCleanliness.ClientsGetOwnAnswers | src/proxy/mod.rs:871-920 | in such a run every client has been delivered answers to its own messages and nothing else since its last acquire, in every state |
| PoolCleanliness.SettledRunsAreOwn | src/proxy/mod.rs:924-986 | when all requests are answered in full, nothing is ever given back with messages unread iff each release finds, by the log of the task itself, no other answer owed and no statement tracked; and then no client is ever delivered what answers another |
| PoolManagers.PoolManager.Acquire | src/pool/mod.rs:219-256 | new state and outcome of `acquire` |
| PoolManagers.PoolManager.PopFresh | src/pool/mod.rs:227-249 | the loop pops in place until a connection passes both age checks and returns one permit for each that does not: its effect is that of PopLoop |
| PoolManagers.PoolManager.Release | src/pool/mod.rs:259-284 | new state of `release`: parked with its permit, or dropped with the permit returned, the pool entry being created even if it is full |
| PoolManagers.PoolManager.Cancel | src/pool/mod.rs:287-290 | one permit more, and nothing else |
| PoolManagers.PoolManager.GetOrCreateSemaphore | src/pool/mod.rs:199-211 | a semaphore with the capacity of its key exists afterwards; one that was there is untouched |
| PoolManagers.PoolManager.NeedsWarmup | src/pool/mod.rs:293-306 | what is missing to min_size, and not below zero |
| PoolManagers.PoolManager.StatsFor | src/pool/mod.rs:310-324 | called alone: idle, permits in use, and the limits of the key |
| PoolManagers.PoolManager.GlobalStats | src/pool/mod.rs:345-366 | the totals over all pools, each visited once |
| PoolCalls.AcquireExactly | src/pool/mod.rs:219-256 | acquire gives out the first connection in strategy order that two readings of the clock find within its bounds, with one permit returned for each one dropped before it; without one it takes a permit, and it waits iff none is left |
| PoolCalls.ReleaseExactly | src/pool/mod.rs:259-284 | release drops a connection that the clock finds as old as the lifetime, or that meets max_size idle ones, and returns its permit; any other goes behind the idle ones with the reading made then; a pool that is new has the limits of its key and the two timeouts |
| PoolCalls.CancelExactly | src/pool/mod.rs:287-290 | cancel adds one permit, to all that the limits give if there is no semaphore yet, and changes nothing else |
| PoolCalls.WarmupExactly | src/pool/mod.rs:293-306 | with as many more there are at least min_size idle connections, and no more than that if any are missing |
| PoolCalls.TotalsAreSums | src/pool/mod.rs:345-366 | each total is the sum of the one thing it is named for over the pools, active with both differences cut off at zero |
| PoolSpec.TotalsInAnyOrder | src/pool/mod.rs:355-364 | the totals do not depend on the order in which the pools are visited |
| PoolSpec.TotalsAreExact | src/pool/mod.rs:345-366 | on a snapshot active is exactly the permits in use, and active and idle together at most max and reserve |
| PoolSpec.AcquireKeeps | src/pool/mod.rs:219-256 | acquire keeps the invariant, changes no other key, takes one permit in use more unless it must wait, and waits only with none available and none idle |
| PoolSpec.ReleaseKeeps | src/pool/mod.rs:259-284 | release by a holder keeps the invariant and gives back one permit: the connection is the last idle one, or a permit is available more |
| PoolSpec.CancelKeeps | src/pool/mod.rs:287-290 | cancel by a holder keeps the invariant and makes one permit available more |
| Pool.PopLoopTakesFirstFresh | src/pool/mod.rs:227-249 | the loop takes the first connection in strategy order with clock < parked + idle_timeout by one reading and clock < born + lifetime by the next, drops the ones ahead of it, each over one of these bounds by a reading of the call, and keeps the rest in order, for any clock |
| Pool.ZeroTimeoutDropsAll | src/pool/mod.rs:236-237 | with a timeout or a lifetime of 0 the loop drops all there is and finds nothing |
| Pool.LifoDrainsAll | src/pool/mod.rs:228-248 | under LIFO, if the newest connection has idled too long, the loop drops all of them with one look each |
| Pool.FifoLeavesNoneTooLong | src/pool/mod.rs:228-248 | under FIFO, when a connection is taken none of those left has idled too long |
| Pool.PopLoopKeepsSorted | src/pool/mod.rs:227-249 | what the loop leaves is from what was there, and sorted |
| Pool.SortedKept | src/pool/mod.rs:231-277 | popping from either end and parking under a clock that does not run back keep the order |
| TransactionDriver.RunTransactionLoop | src/proxy/mod.rs:787-987 | the loop against the pool manager is the specified run on the backends that the pool grants, the pool is as the logged calls leave it one after the other, an exit returns every permit but one that goes in a panic, and other keys are untouched |
| TransactionDriver.RunIteration | src/proxy/mod.rs:807-977 | one iteration, with what acquire_backend came to and its effect on the pool, up to the next one, a break or a panic |
| TransactionDriver.AcquireBackend | src/proxy/mod.rs:989-1009 | an idle backend, a created one, the permit cancelled again, or lost in a panic |
| TransactionTheorems.RunHoldsWhatItAcquired | src/proxy/mod.rs:787-987 | over every run of events, calls to the pool fit together, and the loop holds one permit iff `server` is `Some`, for the backend it acquired last, or create_backend has panicked |
| TransactionTheorems.EveryExitHoldsNothingExactly | src/proxy/mod.rs:978-987 | when a run has ended, each acquire has been matched by exactly one release of that backend or cancel, iff no turn of it and not the reset behind the loop met a malformed frame with a permit in hand; if one did, the run still holds the permit acquired last |
| TransactionTheorems.TurnDiesExactly | src/proxy/mod.rs:807-977 | an iteration ends in a panic with a permit in hand iff it is not overdue and create_backend panics for a client message, a client whose backend is held or the held backend sends a malformed frame, or after a delivery the reset or the drain meets one |
| TransactionCounterexamples.GarblingLosesPermit | src/pgproto/mod.rs:77-79 | a client that begins a transaction and sends a malformed frame ends the loop with its backend held |
| TransactionCounterexamples.GarbledFramePanics | src/pgproto/mod.rs:67-85 | the five bytes 'Q' 0 0 0 0 make the reader panic |
| TransactionTheorems.TransactionSticks | src/proxy/mod.rs:871-977 | from a moment in a transaction until an idle ReadyForQuery is delivered or the loop exits, in_transaction stays true, the pool is not called, and all client messages go to the same backend |
| TransactionTheorems.TransactionSticksOnce | src/proxy/mod.rs:871-977 | in each such iteration a client message that does not end the loop is sent to that backend |
| TransactionTheorems.InBlockStarts | src/proxy/mod.rs:955-959 | a delivered ReadyForQuery with status T is the start of such a period |
| TransactionTheorems.PreparedIsOpenSinceReset | src/proxy/mod.rs:882-950 | the tracked list is the non-empty names of Parse messages since the last successful idle reset, in order and with multiplicity, less those that a later Close names |
| TransactionState.TransactionIsLogged | src/proxy/mod.rs:895-959 | in every run in_transaction holds iff since the last successful idle reset a ReadyForQuery 'T' was passed on or a simple query with BEGIN or START TRANSACTION was seen, and tx_start is the time of the last turn with one of these |
| TransactionState.ClientTurnExactly | src/proxy/mod.rs:822-914 | in every run, for a client message: the loop ends unseen iff the transaction timeout has passed by the log or it is a Terminate; else a backend is acquired if none is held, and the message is tracked and sent to it; the loop ends iff one of these fails |
| TransactionState.ServerTurnExactly | src/proxy/mod.rs:915-976 | in every run, for a backend message: cut off, undeliverable, or passed on, and then the backend is kept, released, given up or taken down as message type, status, log and reset say: on 'Z' with 'I' released even unreset, on 'E' outside a transaction released or cancelled |
| TransactionState.ReleasedWith | src/proxy/mod.rs:924-970 | the backend goes back with what follows the first ReadyForQuery unread, less one message for each tracked name if an idle ReadyForQuery had it reset |
| TransactionState.OtherTurnsExactly | src/proxy/mod.rs:808-863 | in every run, which timeouts, closed connections and malformed frames end the loop, by what it holds and what the log says; they leave no trace in the log |
| TransactionState.FarewellExactly | src/proxy/mod.rs:980-986 | behind the loop a held backend is released with what follows the ReadyForQuery unread iff the reset finds one, else cancelled, but for a malformed frame |
| TransactionTheorems.OutstandingIsOwed | src/proxy/mod.rs:807-977 | whatever state backends are granted in, the unread ReadyForQuery messages are those that came with the backend and the requests sent to it, less those read |
| TransactionTheorems.IdleReleaseCleanExactly | src/proxy/mod.rs:924-954 | a backend released on an idle ReadyForQuery has nothing unread iff no other answer was owed, to this client or one before, and no statement was tracked |
| TransactionCounterexamples.DeallocateLeavesReadyUnread | src/proxy/mod.rs:941-946 | a run that prepares one statement and releases the backend with a ReadyForQuery unread |
| TransactionTheorems.ErrorReleaseCleanExactly | src/proxy/mod.rs:961-972 | a backend released on an error has nothing unread iff no answer was owed |
| TransactionCounterexamples.ErrorLeavesAnswerUnread | src/proxy/mod.rs:961-972 | a run with one failing query that releases the backend with the answer to the reset unread |
| TransactionTheorems.ExitReleaseCleanExactly | src/proxy/mod.rs:980-986 | the backend released on exit has nothing unread iff no answer was owed |
| TransactionTheorems.UnresetReleaseExactly | src/proxy/mod.rs:928-954 | after an idle ReadyForQuery a connection is released unreset iff the reset could not be sent or nothing answers it, and then the tracked names and in_transaction are as before |
| TransactionTheorems.CloseIgnoresKind | src/proxy/mod.rs:889-894 | a Close of any kind of object takes exactly its name off the tracked list |
| TransactionTheorems.ZeroTimeoutsNeverEnd | src/proxy/mod.rs:811-856 | with all timeouts 0 no lapse of time ends the loop |
| TransactionAnswers.DeliveriesAreInOrder | src/proxy/mod.rs:871-920 | in every run, what has been passed on since the last acquire and what is still unread is what was unread at the grant followed by the answers to what was sent |
| TransactionAnswers.AnswersAreOwnExactly | src/proxy/mod.rs:989-1009 | for a backend that is granted: in every run its client is delivered answers to its own messages only, from the first on and in order, iff the backend had nothing unread |
| TransactionCounterexamples.StaleReadyHidesAnswer | src/proxy/mod.rs:924-954 | a client that is granted a backend with a ReadyForQuery unread gets that, and the reset reads its own answer away |
| Backends.RunResetQuery | src/proxy/mod.rs:1011-1042 | reads up to and including the next ReadyForQuery, and succeeds iff there is one; at the end of what is unread it fails, or panics on a malformed frame; ends because the input gets shorter |
| Backends.ResetKeepsOutstanding | src/proxy/mod.rs:1011-1042 | a successful reset takes exactly one ReadyForQuery off what was unread and its answer, so with a complete answer the number is as before |
| Backends.ResetSucceedsExactly | src/proxy/mod.rs:1011-1042 | a reset succeeds iff it could be sent and a ReadyForQuery is to be read, and panics iff it could be sent and a malformed frame is all that follows |
| Backends.ResetCleansExactly | src/proxy/mod.rs:1011-1042 | after a reset nothing is unread iff no ReadyForQuery was |
| Backends.ResetReadsUpToReady | src/proxy/mod.rs:1011-1042 | what was unread and the answer are read in this order up to the first ReadyForQuery; everything is read if there is none, and nothing if the query could not be sent |
| Backends.DeallocateAll | src/proxy/mod.rs:930-947 | one message is read for each tracked name; panics iff one of them finds a malformed frame instead |
| Backends.DeallocateLeaves | src/proxy/mod.rs:941-946 | at least one message per tracked name is left behind |
| Backends.DeallocateReadsOneEach | src/proxy/mod.rs:930-947 | when each DEALLOCATE is answered, as many messages as there are names go from the front of what was unread and all answers |
| PoolClients.AcquireSessionBackend | src/proxy/mod.rs:231-256 | for each outcome of acquire, create and the reply: who holds the permit, what the pool is, and that only a failed or panicking create loses one |
| PoolClients.AcquireAndReleaseInitial | src/proxy/mod.rs:261-279 | nothing is held afterwards; a failed or panicking create loses a permit |
| PoolClients.RelayAndRelease | src/proxy/mod.rs:1046-1063 | released as the reset leaves it if that succeeds, cancelled if it fails: one permit fewer in use; lost if it panics |
| PoolClients.WarmUp | src/proxy/mod.rs:1086-1101 | a warm-up task holds and loses nothing, unless its create_backend panics |
| Frames.ReadPgMessage | src/pgproto/mod.rs:67-85 | result and unread rest for every input, short reads and bad lengths included |
| Frames.WriteRawMessage | src/pgproto/mod.rs:284-296 | appends exactly the frame of the message |
| Frames.FrameRoundTripExactly | src/pgproto/mod.rs:67-85 | reading a written message gives it back and leaves what follows iff its payload is below 2^31 - 4 bytes |
| Frames.FramingIsExact | src/pgproto/mod.rs:67-85 | a stream reads as a list of messages up to a clean close iff it is the concatenation of their frames and they fit, so the relay is byte-exact |
| MessageMeaning.FrameFailuresExactly | src/pgproto/mod.rs:67-85 | for every input: closed iff empty, a panic iff the length is below 4, an error iff less is there than announced, and else the type byte and the bytes announced |
| Startup.ReadInitialMessage | src/pgproto/mod.rs:87-161 | result and unread rest for every input |
| Startup.ReadParams | src/pgproto/mod.rs:113-160 | the loop over keys and values is ParseStartup |
| Startup.WriteStartupMessage | src/pgproto/mod.rs:163-196 | appends exactly the bytes of the startup |
| Startup.StartupRoundTripExactly | src/pgproto/mod.rs:113-196 | reading a written startup gives user, database and the parameters in canonical order and leaves what follows, iff strings are NUL-free, keys non-empty and the length below 2^31 |
| Startup.CanonicalPrintsTheSame | src/pgproto/mod.rs:163-196 | writing what was read gives the same bytes again |
| Startup.ParsedIsPrinted | src/pgproto/mod.rs:123-146 | whatever the parser returns has been read from its printed form |
| Startup.StartupPanicsExactly | src/pgproto/mod.rs:90-146 | the reader panics iff the length field is below 4, or the whole message is there and too short for a version, or its version is right and its parameters end with a key that has its NUL and a value that has not |
| StartupMeaning.StartupMeansExactly | src/pgproto/mod.rs:113-160 | for every list of parameters so printed and whatever follows: the list is read, the user is its first "user", the database its first "database" or else the user, and it fails for want of a user iff no key is "user" |
| StartupMeaning.StartupsArePrinted | src/pgproto/mod.rs:113-160 | whenever a startup is returned, the bytes are the length, the version 0 3 0 0 and parameters so printed, and it means them |
| StartupMeaning.ParamsExactly | src/pgproto/mod.rs:123-146 | the loop finds a list iff it is printed there and followed by an empty key or by no NUL at all |
| StartupMeaning.SslRequestExactly | src/pgproto/mod.rs:94-100 | a TLS request is read iff the eight bytes 0 0 0 8 4 210 22 47 come |
| StartupMeaning.CancelRequestExactly | src/pgproto/mod.rs:101-108 | a cancel request is read iff 0 0 0 8 4 210 22 46 come with a process id and a key behind them, in this order |
| StartupMeaning.FailuresExactly | src/pgproto/mod.rs:91-121 | when the reader fails for an unknown code, for the version, and for bytes that are missing |
| StartupMeaning.WrittenStartupBegins | src/pgproto/mod.rs:163-195 | what is written is its own length, 0 3 0 0, user, database and the other parameters, each string with its NUL, and a last NUL |
| StartupMeaning.OthersAreTheRest | src/pgproto/mod.rs:180-187 | the other parameters are those with a key that is neither "user" nor "database", all of them and in their order |
| Messages.SaslRoundTripExactly | src/pgproto/mod.rs:216-245 | a list of mechanisms comes back from its encoding iff all names are non-empty and NUL-free |
| MessageMeaning.AuthRequestExactly | src/pgproto/mod.rs:216-245 | for each result the code bytes that give it and what it carries: 0, 3, 5 with four bytes of salt, 10, 11, any other, and too short |
| MessageMeaning.NonEmptyIs | src/pgproto/mod.rs:234-239 | the mechanisms are the non-empty pieces, all of them and in their order |
| MessageMeaning.SplitExactly | src/pgproto/mod.rs:235 | the pieces are those free of the separator that join back to the text |
| Messages.NamesComeBackExactly | src/pgproto/mod.rs:51-65 | the name of a Parse or Close message comes back iff it is NUL-free UTF-8 |
| MessageMeaning.NamesAre | src/pgproto/mod.rs:51-65 | for every payload a name comes out iff it is UTF-8 and stands in front of the first NUL, or is all there is, in a Close behind the kind |
| MessageMeaning.Utf8Exactly | src/pgproto/mod.rs:53 | a byte string counts as UTF-8 iff it is the encoding of some characters, surrogates excluded |
| Messages.DecodeDataRow | src/auth/auth_query.rs:80-103 | the loop is DecodeRow for every payload, malformed ones included |
| Messages.DataRowYieldsLastNonNull | src/auth/auth_query.rs:80-103 | on the encoding of any columns the loop stays in bounds and yields the last column that is not NULL, or leaves the result as it was |
| Messages.DataRowPanicsExactly | src/auth/auth_query.rs:85-101 | the loop panics iff fewer encoded columns than announced are followed by a length below -1 that wraps round when the offset behind it is added |
| MessageMeaning.DataRowExactly | src/auth/auth_query.rs:80-103 | for every payload a password results iff the payload begins with encoded columns, all that are announced or up to something that is none, and it is the last of them that is not NULL, or the one from before |
| Base64.DecodesExactly | src/auth/scram.rs:40-46 | unpadded base64 decodes a text to some bytes iff the text is their encoding |
| Base64.EncodesGroups | src/auth/scram.rs:40-46 | each group of four sextets is the 24 bits of three bytes, most significant first, and a last one of one or two bytes has two or three sextets |
| Base64.AlphabetIs | src/auth/scram.rs:40-46 | the characters are those of Table 1 in section 4 of RFC 4648 |
| Decimal.ParsePrintExactly | src/auth/scram.rs:93-95 | an iteration count that is printed parses to itself iff it is a u32 |
| Decimal.ParsesExactly | src/auth/scram.rs:93-95 | a text parses iff it is one or more digits, after a plus or not, and stands for a number below 2^32 |
| Decimal.PrintsTheNumber | src/auth/scram.rs:190 | the printed digits stand for the number, with no zero in front |
| Xor.XorBytesCancels | src/auth/scram.rs:34-36 | the truncating xor applied twice gives back as much as both cover |
| Xor.XorBytesIs | src/auth/scram.rs:34-36 | a bit is set iff it is set in exactly one of the two bytes |
| ScramTheorems.NonceOfClientFirst | src/auth/scram.rs:175-185 | the server finds the client nonce whatever commas and fields the user name holds |
| ScramTheorems.UserNameComesExactly | src/auth/scram.rs:176-185 | the server has the user name as sent iff it has no comma in it |
| ScramTheorems.FirstMessageForms | src/auth/scram.rs:176-188 | the header may be left out, and a message without a nonce gets no answer |
| ScramTheorems.ServerFirstIsUnderstood | src/auth/scram.rs:81-103 | the client reads nonce, salt and iteration count as the server meant them |
| ScramTheorems.ServerFirstIsTakenExactly | src/auth/scram.rs:81-103 | of messages with a nonce, a salt and a count the client takes exactly those whose nonce begins with its own and is not empty, whose salt decodes to some bytes and whose count is a positive u32; of others it keeps nothing |
| ScramTheorems.ClientFirstIs | src/auth/scram.rs:74-78 | `n,,n=user,r=nonce`, of which all behind the first three bytes is kept |
| ScramTheorems.ClientFinalIs | src/auth/scram.rs:106-123 | `c=biws,r=nonce,p=proof`, the proof being the client key under the signature of the messages before it and of itself up to the proof |
| ScramTheorems.ClientFinalSplits | src/auth/scram.rs:113-122 | split at commas it is these three fields, for a nonce without a comma |
| ScramTheorems.OnlyTheSignatureIsAccepted | src/auth/scram.rs:126-137 | the client accepts `v=` with the signature under the server key, and nothing else |
| ScramTheorems.NothingOutOfOrder | src/auth/scram.rs:106-137 | before the steps they depend on, no final message is built, none is handled and none accepted |
| ScramTheorems.ExchangeSucceeds | src/auth/scram.rs:74-234 | with the same password, comma-free nonces, non-empty client nonce and salt and a positive u32 iteration count, all steps succeed for every user name; the four messages are given letter by letter, both sides hold the same auth message made of them, the server reads the header sent first and the client's nonce, and the client accepts the answer and no other text |
| ScramTheorems.AcceptsExactly | src/auth/scram.rs:203-233 | handle_client_final accepts iff the three fields are there and the first 32 proof bytes are ClientKey xor ClientSignature, or the recovered key and ClientKey are a SHA-256 collision; what it answers and keeps then |
| ScramTheorems.RecoversExactly | src/auth/scram.rs:224-228 | the truncating xor yields the 32-byte key iff there are 32 proof bytes and they are right |
| ScramObjects.ScramClient.ClientFirst | src/auth/scram.rs:74-78 | message and new state of build_client_first |
| ScramObjects.ScramClient.ReadServerFirst | src/auth/scram.rs:81-103 | result and new state of parse_server_first, which are unchanged fields where it bails out |
| ScramObjects.ScramClient.ReadFields | src/auth/scram.rs:85-96 | the loop succeeds iff all parts are acceptable, and then has the last field of each kind |
| ScramObjects.ScramClient.ClientFinal | src/auth/scram.rs:106-123 | message and new state of build_client_final |
| ScramObjects.ScramClient.CheckServerFinal | src/auth/scram.rs:126-137 | accepts iff the message is the expected signature |
| ScramObjects.ScramServer.FirstMessage | src/auth/scram.rs:175-200 | message and new state of build_server_first, also where it bails out |
| ScramObjects.ScramServer.ClientFinal | src/auth/scram.rs:203-234 | result and new state of handle_client_final, also where it bails out |
| TokenCache.ExpiryNeverDecreases | src/auth/cache.rs:25-82 | between any two moments of any run of getters and the refresher, expires_at does not decrease and a token does not vanish |
| TokenCache.ServedWasStoredRecently | src/auth/cache.rs:25-41 | a token served from the cache is the last that was stored in the run, less than 600 s before |
| TokenCache.NoCallSoonAfterStore | src/auth/cache.rs:36-54 | after a store no getter calls the provider for at least 600 s |
| TokenCache.LooksExactly | src/auth/cache.rs:25-65 | in every run a getter that looks is served iff a token was stored less than 600 s ago, and goes to the second look or the provider otherwise; the refresher goes to the provider iff none was |
| TokenCache.WriterKeepsOthersOut | src/auth/cache.rs:27-41 | while a getter has the cache for writing, no other task reads or writes it |
| TokenCache.AnswersExactly | src/auth/cache.rs:43-80 | a getter returns what the provider says and stores a token for 600 s; the refresher stores a token and sleeps for 300 s, also after a failure |
| TokenCache.RefresherRests | src/auth/cache.rs:57-63 | whenever the refresher looks, 300 s have passed since the step with which it fell asleep, or since the start |
| TokenCache.OneGetterInProvider | src/auth/cache.rs:36-43 | at most one getter is in the provider at a time |
| TokenCache.Cache.Get | src/auth/cache.rs:25-54 | result and cache after `get`, for any readings of the clock |
| TokenCache.Cache.Refresh | src/auth/cache.rs:61-80 | cache after one round of the refresher |
| TokenCache.GetterAlone | src/auth/cache.rs:25-54 | a getter that runs alone in the step system does what the method does |
| TokenCache.RefresherAlone | src/auth/cache.rs:57-81 | and a refresher that runs alone does what a round of the method does |

## Left out

- Sockets, TLS, async polling, logging, HTTP administration, metrics text and config parsing: I/O and libraries. A stream is the sequence of bytes or messages that it carries.
- Cancellation of partial reads by `tokio::select!`: an event of the relay is a whole message, so the loss of bytes read before another branch wins is not modelled.
- Progress: parking a connection wakes nobody who waits for a permit (`src/pool/mod.rs:270-277`), and only safety is proved. The fairness of the semaphore does not matter for it.
- The cancel-request round trip: `forward_cancel` writes length 16 (`src/proxy/mod.rs:204-207`), the reader takes a cancel request at length 8 only (`src/pgproto/mod.rs:95-108`).
- The in-band SASL wrapping in `do_scram_server_auth` and `do_scram_client_auth`; the SCRAM objects are used directly.
- HBA rules, AWS, GCP, PAM, LDAP and MD5 authentication, and the limit on the number of clients.
- HMAC, SHA-256 and PBKDF2 are functions with 32-byte results about which nothing is assumed; nonces and salts are inputs.
- UTF-8 lossy conversion: startup strings, SASL mechanism names and DataRow columns stay bytes. `str::to_uppercase` with its Unicode tables is a parameter of the relay.
- The text of the reset and DEALLOCATE queries: what matters is that one request is sent and what it is answered with.
- The Terminate message that the relay writes to the backend before it leaves the loop: the reset that follows may have any outcome.
- The bytes that `relay_and_release` copies in session mode: the backend has arbitrary messages unread when the copying stops.
- A semaphore of the class PoolManager is the number of its permits, and `acquire` returns where its caller would wait; identities of semaphores and waiting callers are in the step system.
- Clock readings of `release` in the step system: the age check and the parking are separate steps, and any time may pass between them, as in the class.
- Statistics and `needs_warmup` in `PoolRefinement`: only the three calls that move permits are related; the statistics have their own theorems in both models.
- A second look-up of a pool under the same lock is not a step of its own, because nobody can change it in between.
- Panics other than those of the frame reader and of the subtraction in `stats_for`, such as an allocation that fails or one inside a library.
- An answer of a backend arrives in full with the request that asks for it, or as the prefix before the connection breaks or a malformed frame comes: a reader would wait for it, and the order of messages on one connection is that of the requests.
- Integer widths where lengths stay below them: sizes and counts are unbounded except in the wire format, the DataRow decoder and the iteration count, where the casts are modelled.
- PoolTheorems.OpenConnectionsBound: that open connections never exceed max_size + reserve_size is false of the code, so the exact count, and the bound for runs that take none of the three paths, are stated instead.
- TransactionTheorems.EveryExitHoldsNothingExactly: that every exit returns its permit is false of the code, so the exact condition is stated instead.
- PoolStatistics.StatsForExactly: that the subtraction in `stats_for` cannot underflow is false of the code, so the exact difference and condition are stated instead.
- ScramTheorems.AcceptsExactly: acceptance is not proved under the assumption that SHA-256 is injective, because nothing satisfies it; a collision is the stated alternative.
