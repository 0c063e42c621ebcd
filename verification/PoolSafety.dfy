// Every step of every task is lawful, so every run keeps the invariant.

module PoolSafety {
  import opened Prelude
  import opened Frames
  import opened Backends
  import opened Pool
  import opened TransactionLoop
  import opened PoolSystem
  import opened PoolInvariant
  import PoolSpec

  // ---- What the users of a backend do with it ----

  /** Away from locks, semaphores and the states that carry facts of their own. */
  predicate Plain(pc: Pc) {
    && !HoldsLock(pc) && SemOf(pc).None? && !pc.Creating? && !pc.Reported?
    && (pc.LoopForward? ==> pc.loop.server.Some?)
  }

  /** `pc` holds nothing but the permit and at most the connection that comes from `b`. */
  predicate CarriesOn(pc: Pc, b: Option<Backend>) {
    && Plain(pc)
    && PermitsOf(pc) == One(b.Some?)
    && (BackendOf(pc).Some? ==>
          && b.Some?
          && BackendOf(pc).value.id == b.value.id
          && BackendOf(pc).value.bornAt == b.value.bornAt)
  }

  lemma ForwardCarriesOn(settings: Settings, l: Loop, m: Msg, now: nat, io: Io)
    requires l.server.Some?
    ensures CarriesOn(AfterPlan(Forward(settings, l, m, now, io)), l.server)
  {
    hide Track;
  }

  lemma OnEventCarriesOn(settings: Settings, l: Loop, input: Input)
    ensures CarriesOn(AfterPlan(OnEvent(settings, l, input)), l.server)
  {
    hide Track, CanHappen, Overdue, Deallocate;
    if l.server.Some? {
      assert CanHappen(settings, l, FromServer) ==> l.server.value.unread != [] by { CanReadOnlyUnread(settings, l); }
    }
    EventNeedsServer(settings, l, input);
  }

  lemma CanReadOnlyUnread(settings: Settings, l: Loop)
    ensures CanHappen(settings, l, FromServer) ==> l.server.Some? && l.server.value.unread != []
  {
  }

  lemma EventNeedsServer(settings: Settings, l: Loop, input: Input)
    ensures input.event.FromServer? && CanHappen(settings, l, input.event) ==>
      l.server.Some? && l.server.value.unread != []
  {
  }

  lemma AfterUseCarriesOn(b: Backend, reset: ResetIo)
    ensures CarriesOn(AfterUse(b, reset), Some(b))
  {
  }

  lemma GrantCarriesOn(who: Who, b: Backend, reused: bool)
    ensures CarriesOn(AfterGrant(who, b, reused), Some(b))
    ensures BackendOf(AfterGrant(who, b, reused)) == Some(b)
  {
  }

  lemma FailureHoldsPermit(who: Who)
    ensures var pc := AfterFailedCreate(who); Plain(pc) && PermitsOf(pc) == 1 && BackendOf(pc).None?
  {
  }

  lemma ResumeHoldsNothing(next: Then)
    ensures CarriesOn(Resume(next), None)
  {
  }

  // ---- Lawful, clause by clause ----

  lemma PoppedOk(env: Env, s: State, key: PoolKey)
    requires key in s.pools && PoolOk(env, s, key) && s.pools[key].idle != []
    ensures var (ic, rest) := Popped(s.pools[key].limits.strategy, s.pools[key].idle);
      && |rest| == |s.pools[key].idle| - 1
      && AtHome(s.born, s.now, key, ic.stream)
      && PoolSpec.InnerOk(env.cfg, key, s.pools[key].(idle := rest), s.now)
      && forall i :: 0 <= i < |rest| ==> AtHome(s.born, s.now, key, rest[i].stream)
  {
  }

  lemma ParkedOk(env: Env, s: State, key: PoolKey, b: Backend)
    requires key in s.pools ==> PoolOk(env, s, key)
    requires AtHome(s.born, s.now, key, b)
    ensures var inner := if key in s.pools then s.pools[key] else NewInner(env.cfg, key);
      && inner.idle == IdleOf(s, key)
      && PoolSpec.InnerOk(env.cfg, key, inner, s.now)
      && (forall i :: 0 <= i < |inner.idle| ==> AtHome(s.born, s.now, key, inner.idle[i].stream))
      && var parked := inner.idle + [IdleConn(b, s.now)];
      && (|inner.idle| < inner.limits.maxSize ==> PoolSpec.InnerOk(env.cfg, key, inner.(idle := parked), s.now))
      && (forall i :: 0 <= i < |parked| ==> AtHome(s.born, s.now, key, parked[i].stream))
  {
  }

  /** A task that holds a permit works on a key that has its semaphore. */
  lemma PermitNeedsSemaphore(env: Env, s: State, t: nat)
    requires t < |s.tasks| && Conserved(env, s, s.tasks[t].key)
    requires PermitsOf(s.tasks[t].pc) > 0
    ensures Avail(env, s, s.tasks[t].key) < Capacity(env.cfg, s.tasks[t].key)
    ensures s.tasks[t].key in s.semOf
  {
    SumAtLeast(s.tasks, t, PermitsFor(s.tasks[t].key));
  }

  /** What the invariant says about the task that is about to move. */
  lemma Facts(env: Env, s: State, t: nat)
    requires t < |s.tasks| && Inv(env, s)
    ensures var key := s.tasks[t].key;
      && TaskOk(s, t) && Conserved(env, s, key)
      && (key in s.pools ==> PoolOk(env, s, key))
      && (PermitsOf(s.tasks[t].pc) > 0 ==> key in s.semOf)
  {
    hide AllUnique, TaskOk, PoolOk;
    assert Conserved(env, s, s.tasks[t].key);
    if PermitsOf(s.tasks[t].pc) > 0 {
      PermitNeedsSemaphore(env, s, t);
    }
  }

  /** What the helpers of Decide promise, for the step that task t is about to take. */
  lemma CarryFacts(env: Env, s: State, t: nat, c: Choice)
    requires t < |s.tasks|
    ensures var pc := s.tasks[t].pc;
      && (pc.LoopTop? ==>
            CarriesOn(AfterPlan(OnEvent(env.settings, pc.loop, Input(s.now, c.event, c.io))), pc.loop.server))
      && (pc.LoopForward? && pc.loop.server.Some? ==>
            CarriesOn(AfterPlan(Forward(env.settings, pc.loop, pc.m, s.now, c.io)), pc.loop.server))
      && (pc.Relaying? ==> CarriesOn(AfterUse(pc.b.(unread := c.io.reply), c.io.reset), Some(pc.b)))
      && (pc.LoopExit? ==>
            var e := OnExit(pc.loop, c.io.reset);
            && (e.NothingHeld? <==> pc.loop.server.None?)
            && (e.Return? ==> e.b.id == pc.loop.server.value.id && e.b.bornAt == pc.loop.server.value.bornAt)
            && (e.CancelThenDrop? ==> e.b.id == pc.loop.server.value.id && e.b.bornAt == pc.loop.server.value.bornAt))
      && (pc.AcqAgeCheck? ==> CarriesOn(AfterGrant(pc.who, pc.ic.stream, true), Some(pc.ic.stream)))
      && (pc.Creating? ==>
            var b := Backend(|s.born|, pc.since, []);
            && CarriesOn(AfterGrant(pc.who, b, false), Some(b)) && BackendOf(AfterGrant(pc.who, b, false)) == Some(b)
            && Plain(AfterFailedCreate(pc.who)) && PermitsOf(AfterFailedCreate(pc.who)) == 1
            && BackendOf(AfterFailedCreate(pc.who)).None?)
      && (pc.RelLock? ==> CarriesOn(Resume(pc.next), None))
      && (pc.RetAdd? ==> CarriesOn(Resume(pc.next), None))
      && (pc.Closing? ==> CarriesOn(Resume(pc.next), None))
  {
    hide Forward, OnEvent, AfterUse, AfterPlan, CarriesOn, Plain, PermitsOf;
    var pc := s.tasks[t].pc;
    match pc
    case LoopTop(l) => OnEventCarriesOn(env.settings, l, Input(s.now, c.event, c.io));
    case LoopForward(l, m) => if l.server.Some? { ForwardCarriesOn(env.settings, l, m, s.now, c.io); }
    case Relaying(b) => RelayCarriesOn(b, c.io);
    case AcqAgeCheck(who, _, ic) => GrantCarriesOn(who, ic.stream, true);
    case Creating(who, since) =>
      GrantCarriesOn(who, Backend(|s.born|, since, []), false);
      FailureHoldsPermit(who);
    case RelLock(_, next) => ResumeHoldsNothing(next);
    case RetAdd(_, next, _) => ResumeHoldsNothing(next);
    case Closing(_, next) => ResumeHoldsNothing(next);
    case _ =>
  }

  lemma RelayCarriesOn(b: Backend, io: Io)
    ensures CarriesOn(AfterUse(b.(unread := io.reply), io.reset), Some(b))
  {
    AfterUseCarriesOn(b.(unread := io.reply), io.reset);
  }

  /** The totals of a scan that has not finished add up, whatever it reads next. */
  lemma TotalsStayOk(env: Env, s: State, t: nat)
    requires t < |s.tasks| && Inv(env, s)
    ensures TotalsOk(PoolSpec.Stats(0, 0, 0, 0, 0))
    ensures var pc := s.tasks[t].pc;
      pc.TotalScan? && pc.todo != [] && pc.todo[0] in s.pools ==> TotalsOk(ScanOne(s, pc.total, pc.todo[0]))
  {
    hide AllUnique, AllConserved;
    assert TaskOk(s, t);
    var pc := s.tasks[t].pc;
    if pc.TotalScan? && pc.todo != [] && pc.todo[0] in s.pools {
      ScanIsExact(env, s, pc.total, pc.todo[0]);
    }
  }

  /** One key of `global_stats`: no subtraction saturates, and `active` is what tasks account for. */
  lemma ScanIsExact(env: Env, s: State, total: PoolSpec.Stats, key: PoolKey)
    requires Inv(env, s) && key in s.pools
    ensures var after := ScanOne(s, total, key);
      && after.active == total.active + Sum(s.tasks, PermitsFor(key))
      && after.idle == total.idle + IdleLen(s, key)
      && after.max + after.reserve == total.max + total.reserve + Capacity(env.cfg, key)
      && PermitsRead(s, key) + IdleLen(s, key) <= Capacity(env.cfg, key)
  {
    hide AllUnique, AllTasksOk;
    assert PoolOk(env, s, key) && Conserved(env, s, key);
    assert PermitsRead(s, key) == Avail(env, s, key);
  }

  // ---- Steps that only move on ----

  /** Nothing shared changes but possibly a new semaphore, and the task holds what it held. */
  predicate Quiet(s: State, t: nat, mv: Move)
    requires t < |s.tasks|
  {
    var key, pc := s.tasks[t].key, s.tasks[t].pc;
    && mv.inner.None? && mv.add == 0 && mv.lock == Keep && !mv.create
    && !HoldsLock(mv.pc) && !HoldsLock(pc)
    && PermitsOf(mv.pc) == PermitsOf(pc)
    && (BackendOf(mv.pc).Some? ==>
          && BackendOf(pc).Some?
          && BackendOf(mv.pc).value.id == BackendOf(pc).value.id
          && BackendOf(mv.pc).value.bornAt == BackendOf(pc).value.bornAt)
    && (mv.insert ==> key !in s.semOf)
    && (SemOf(mv.pc).Some? ==> SemOf(mv.pc).value == SemIndex(s, key) && (key in s.semOf || mv.insert))
    && (mv.pc.Creating? ==> pc.Creating? && mv.pc.since == pc.since)
    && (mv.pc.Reported? ==> pc.Reported? && mv.pc.total == pc.total)
    && (mv.pc.LoopForward? ==> mv.pc.loop.server.Some?)
  }

  lemma QuietIsLawful(env: Env, s: State, t: nat, mv: Move)
    requires t < |s.tasks| && Inv(env, s) && Quiet(s, t, mv)
    ensures Lawful(env, s, t, mv)
  {
    hide Inv, CountIdle, PermitsOf, SemOf, TotalsOk;
    Facts(env, s, t);
  }

  /** The program counters from which a step only moves on. */
  predicate LooksUp(pc: Pc) {
    pc.StatsLookup? || pc.StatsInsert? || pc.StatsRead? || pc.StatsLock? || pc.AcqLookup? || pc.AcqInsert?
    || pc.RetLookup? || pc.RetInsert?
  }

  predicate HoldsNoBackend(pc: Pc) {
    pc.WarmLock? || pc.Spawning? || pc.TotalStart?
  }

  predicate Ended(pc: Pc) {
    pc.Leaked? || pc.Crashed? || pc.Reported? || pc.Done?
  }

  predicate UsesBackend(pc: Pc) {
    pc.Announce? || pc.Relaying? || pc.LoopForward? || pc.LoopTop? || pc.LoopExit? || pc.Ready?
  }

  predicate GivesBack(pc: Pc) {
    pc.RelAge? || pc.RelDrop? || pc.Closing?
  }

  lemma LookUpQuiet(env: Env, s: State, t: nat, c: Choice)
    requires t < |s.tasks| && Inv(env, s) && LooksUp(s.tasks[t].pc)
    ensures Quiet(s, t, Decide(env, s, t, c))
  {
    hide Inv, Conserved, PoolOk, AtHome, ReadLocked, TotalsOk, IdleLen, Capacity;
    Facts(env, s, t);
  }

  lemma HoldsNoBackendQuiet(env: Env, s: State, t: nat, c: Choice)
    requires t < |s.tasks| && Inv(env, s) && HoldsNoBackend(s.tasks[t].pc)
    ensures Quiet(s, t, Decide(env, s, t, c))
  {
    hide Inv, Conserved, PoolOk, AtHome, TotalsOk, IdleLen, SemIndex, ResolveLimits;
    Facts(env, s, t);
  }

  lemma EndedQuiet(env: Env, s: State, t: nat, c: Choice)
    requires t < |s.tasks| && Inv(env, s) && Ended(s.tasks[t].pc)
    ensures Quiet(s, t, Decide(env, s, t, c))
  {
    hide Inv, Conserved, PoolOk, AtHome, TotalsOk, IdleLen, SemIndex;
    Facts(env, s, t);
  }

  lemma UseQuiet(env: Env, s: State, t: nat, c: Choice)
    requires t < |s.tasks| && Inv(env, s) && UsesBackend(s.tasks[t].pc)
    ensures Quiet(s, t, Decide(env, s, t, c))
  {
    hide Inv, Conserved, PoolOk, AtHome, TotalsOk, Elapsed, SemIndex,
      OnEvent, Forward, AfterUse, AfterPlan, AfterGrant, AfterFailedCreate, Resume, OnExit;
    Facts(env, s, t);
    CarryFacts(env, s, t, c);
  }

  lemma GiveBackQuiet(env: Env, s: State, t: nat, c: Choice)
    requires t < |s.tasks| && Inv(env, s) && GivesBack(s.tasks[t].pc)
    ensures Quiet(s, t, Decide(env, s, t, c))
  {
    hide Inv, Conserved, PoolOk, AtHome, TotalsOk, Elapsed, SemIndex, Resume;
    Facts(env, s, t);
    CarryFacts(env, s, t, c);
  }

  predicate MovesOn(pc: Pc) {
    LooksUp(pc) || HoldsNoBackend(pc) || Ended(pc) || UsesBackend(pc) || GivesBack(pc)
  }

  lemma QuietSteps(env: Env, s: State, t: nat, c: Choice)
    requires t < |s.tasks| && Inv(env, s) && MovesOn(s.tasks[t].pc)
    ensures Quiet(s, t, Decide(env, s, t, c))
  {
    hide Inv, Decide, Quiet;
    var pc := s.tasks[t].pc;
    if LooksUp(pc) { LookUpQuiet(env, s, t, c); }
    else if HoldsNoBackend(pc) { HoldsNoBackendQuiet(env, s, t, c); }
    else if Ended(pc) { EndedQuiet(env, s, t, c); }
    else if UsesBackend(pc) { UseQuiet(env, s, t, c); }
    else { GiveBackQuiet(env, s, t, c); }
  }

  // ---- Steps that change what is shared ----

  /** Taking the lock, or finding nothing to pop under it. */
  lemma LockLawful(env: Env, s: State, t: nat, c: Choice)
    requires t < |s.tasks| && Inv(env, s) && s.tasks[t].pc.AcqLock?
    ensures Lawful(env, s, t, Decide(env, s, t, c))
  {
    hide Inv, Conserved, PoolOk, CountIdle;
    Facts(env, s, t);
  }

  lemma PopLawful(env: Env, s: State, t: nat, c: Choice)
    requires t < |s.tasks| && Inv(env, s) && s.tasks[t].pc.AcqPop?
    ensures Lawful(env, s, t, Decide(env, s, t, c))
  {
    hide Inv, Conserved, CountIdle, PoolSpec.InnerOk, Popped;
    var key := s.tasks[t].key;
    Facts(env, s, t);
    if s.pools[key].idle != [] {
      PoppedOk(env, s, key);
      var (ic, rest) := Popped(s.pools[key].limits.strategy, s.pools[key].idle);
      forall id: nat
        ensures CountIdle(s.pools[key].idle, id) == CountIdle(rest, id) + One(ic.stream.id == id)
      {
        CountIdlePopped(s.pools[key].limits.strategy, s.pools[key].idle, id);
      }
    }
  }

  lemma CheckLawful(env: Env, s: State, t: nat, c: Choice)
    requires t < |s.tasks| && Inv(env, s)
    requires s.tasks[t].pc.AcqIdleCheck? || s.tasks[t].pc.AcqAgeCheck? || s.tasks[t].pc.AcqRefund?
    ensures Lawful(env, s, t, Decide(env, s, t, c))
  {
    hide Inv, Conserved, PoolOk, CountIdle, IdleTooLong, TooOld, AfterGrant;
    Facts(env, s, t);
    CarryFacts(env, s, t, c);
  }

  lemma CreateLawful(env: Env, s: State, t: nat, c: Choice)
    requires t < |s.tasks| && Inv(env, s)
    requires s.tasks[t].pc.AcqBlocked? || s.tasks[t].pc.Creating?
    ensures Lawful(env, s, t, Decide(env, s, t, c))
  {
    hide Inv, Conserved, PoolOk, CountIdle, AfterGrant, AfterFailedCreate;
    Facts(env, s, t);
    CarryFacts(env, s, t, c);
  }

  lemma ParkLawful(env: Env, s: State, t: nat, c: Choice)
    requires t < |s.tasks| && Inv(env, s) && s.tasks[t].pc.RelLock?
    ensures Lawful(env, s, t, Decide(env, s, t, c))
  {
    hide Inv, Conserved, CountIdle, PoolSpec.InnerOk, Resume, NewInner;
    var key, b := s.tasks[t].key, s.tasks[t].pc.b;
    Facts(env, s, t);
    CarryFacts(env, s, t, c);
    ParkedOk(env, s, key, b);
    var ic := IdleConn(b, s.now);
    forall id: nat
      ensures CountIdle(IdleOf(s, key) + [ic], id) == CountIdle(IdleOf(s, key), id) + One(b.id == id)
    {
      CountIdleAppend(IdleOf(s, key), [ic], id);
      CountIdleOne(ic, id);
    }
  }

  lemma ReturnLawful(env: Env, s: State, t: nat, c: Choice)
    requires t < |s.tasks| && Inv(env, s) && s.tasks[t].pc.RetAdd?
    ensures Lawful(env, s, t, Decide(env, s, t, c))
  {
    hide Inv, Conserved, PoolOk, CountIdle, Resume;
    Facts(env, s, t);
    CarryFacts(env, s, t, c);
  }

  lemma TotalLawful(env: Env, s: State, t: nat, c: Choice)
    requires t < |s.tasks| && Inv(env, s)
    requires s.tasks[t].pc.TotalLock? || s.tasks[t].pc.TotalScan?
    ensures Lawful(env, s, t, Decide(env, s, t, c))
  {
    hide Inv, Conserved, PoolOk, CountIdle, TotalsOk, ScanOne;
    Facts(env, s, t);
    TotalsStayOk(env, s, t);
  }

  /** Every step of every task is lawful. */
  lemma DecideLawful(env: Env, s: State, t: nat, c: Choice)
    requires t < |s.tasks| && Inv(env, s)
    ensures Lawful(env, s, t, Decide(env, s, t, c))
  {
    hide Inv, Decide, Lawful, Quiet;
    var pc := s.tasks[t].pc;
    if MovesOn(pc) { QuietSteps(env, s, t, c); QuietIsLawful(env, s, t, Decide(env, s, t, c)); }
    else if pc.AcqLock? { LockLawful(env, s, t, c); }
    else if pc.AcqPop? { PopLawful(env, s, t, c); }
    else if pc.AcqBlocked? || pc.Creating? { CreateLawful(env, s, t, c); }
    else if pc.RelLock? { ParkLawful(env, s, t, c); }
    else if pc.RetAdd? { ReturnLawful(env, s, t, c); }
    else if pc.TotalLock? || pc.TotalScan? { TotalLawful(env, s, t, c); }
    else { CheckLawful(env, s, t, c); }
  }

  // ---- Every run ----

  lemma StepKeepsInv(env: Env, s: State, a: Act)
    requires Inv(env, s)
    ensures Inv(env, Step(env, s, a))
  {
    hide Inv, Lawful, Decide, Apply;
    match a
    case Run(t, c) =>
      if t < |s.tasks| {
        DecideLawful(env, s, t, c);
        ApplyKeepsInv(env, s, t, Decide(env, s, t, c));
      }
    case Tick(d) => TickKeepsInv(env, s, d);
    case Connect(key, session) => SpawnKeepsInv(env, s, Task(key, StatsLookup(if session then Session else Initial)));
    case Monitor(key) => SpawnKeepsInv(env, s, Task(key, TotalStart));
  }

  lemma TickKeepsInv(env: Env, s: State, d: nat)
    requires Inv(env, s)
    ensures Inv(env, s.(now := s.now + d))
  {
    hide TotalsOk;
    var s' := s.(now := s.now + d);
    forall t | 0 <= t < |s'.tasks|
      ensures TaskOk(s', t)
    {
      assert TaskOk(s, t);
    }
    forall k | k in s'.pools
      ensures PoolOk(env, s', k)
    {
      assert PoolOk(env, s, k);
    }
    assert forall k :: Conserved(env, s, k) ==> Conserved(env, s', k);
    assert forall id: nat :: id < |s.born| ==> Places(s', id) == Places(s, id);
  }

  lemma SpawnKeepsTasks(env: Env, s: State, task: Task)
    requires Inv(env, s) && (task.pc.StatsLookup? || task.pc.TotalStart?)
    ensures AllTasksOk(Spawn(s, task)) && AllPoolsOk(env, Spawn(s, task))
    ensures SemsOk(Spawn(s, task)) && LockOk(Spawn(s, task))
  {
    hide TotalsOk, PoolSpec.InnerOk, AllConserved, AllUnique;
    var s' := Spawn(s, task);
    forall t | 0 <= t < |s'.tasks|
      ensures TaskOk(s', t)
    {
      if t < |s.tasks| {
        assert TaskOk(s, t);
        assert s'.tasks[t] == s.tasks[t];
      }
    }
    forall k | k in s'.pools
      ensures PoolOk(env, s', k)
    {
      assert PoolOk(env, s, k);
    }
  }

  lemma SpawnConserves(env: Env, s: State, task: Task, k: PoolKey)
    requires Conserved(env, s, k) && (task.pc.StatsLookup? || task.pc.TotalStart?)
    ensures Conserved(env, Spawn(s, task), k)
  {
    hide Capacity;
    SumAppend(s.tasks, [task], PermitsFor(k));
    SumOne(task, PermitsFor(k));
  }

  lemma SpawnKeepsUnique(s: State, task: Task, id: nat)
    requires id < |s.born| && (task.pc.StatsLookup? || task.pc.TotalStart?)
    ensures Places(Spawn(s, task), id) == Places(s, id)
  {
    SumAppend(s.tasks, [task], HasId(id));
    SumOne(task, HasId(id));
  }

  lemma SpawnKeepsInv(env: Env, s: State, task: Task)
    requires Inv(env, s) && (task.pc.StatsLookup? || task.pc.TotalStart?)
    ensures Inv(env, Spawn(s, task))
  {
    hide SemsOk, LockOk, AllTasksOk, AllPoolsOk, Conserved, Places;
    SpawnKeepsTasks(env, s, task);
    forall k
      ensures Conserved(env, Spawn(s, task), k)
    {
      SpawnConserves(env, s, task, k);
    }
    forall id: nat | id < |s.born|
      ensures Places(Spawn(s, task), id) <= 1
    {
      SpawnKeepsUnique(s, task, id);
    }
  }

  /** In every reachable state of any number of interleaved tasks, the invariant holds. */
  lemma {:induction false} RunKeepsInv(env: Env, acts: seq<Act>, n: nat)
    requires n <= |acts|
    ensures Inv(env, StateAfter(env, acts, n))
  {
    hide Inv, Step;
    if n == 0 {
      InitOk(env);
    } else {
      RunKeepsInv(env, acts, n - 1);
      StepKeepsInv(env, StateAfter(env, acts, n - 1), acts[n - 1]);
    }
  }

  lemma InitOk(env: Env)
    ensures Inv(env, Init())
  {
  }
}
