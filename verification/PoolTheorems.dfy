// What the invariant means in every reachable state of the interleaved system.

module PoolTheorems {
  import opened Backends
  import opened Frames
  import opened Pool
  import opened TransactionLoop
  import opened PoolSystem
  import opened PoolInvariant
  import opened PoolSafety
  import PoolSpec
  import TransactionTheorems

  // ---- A step, seen from its tasks ----

  /** The step of a task. */
  lemma StepGives(env: Env, s: State, t: nat, c: Choice)
    requires t < |s.tasks|
    ensures var mv, key, r := Decide(env, s, t, c), s.tasks[t].key, Step(env, s, Run(t, c));
      && r.born == (if mv.create then s.born + [key] else s.born)
      && r.pools == (if mv.inner.Some? then s.pools[key := mv.inner.value] else s.pools)
      && |s.tasks| <= |r.tasks| && r.tasks[t] == Task(key, mv.pc)
      && (forall u :: 0 <= u < |s.tasks| && u != t ==> r.tasks[u] == s.tasks[u])
      && (forall u :: |s.tasks| <= u < |r.tasks| ==> r.tasks[u].pc == AcqLookup(WarmUp))
  {
    hide Decide, SemsAfter, LockAfter;
  }

  /** What takes no step stays as it is. */
  lemma OthersStay(env: Env, s: State, a: Act, t: nat)
    requires t < |s.tasks| && (a.Run? ==> a.t != t)
    ensures t < |Step(env, s, a).tasks| && Step(env, s, a).tasks[t] == s.tasks[t]
  {
    hide Decide, SemsAfter, LockAfter;
  }

  // ---- Permits and open connections ----

  /**
   * In every reachable state and for every key, available permits, idle connections and the
   * permits that tasks account for add up to the capacity.
   */
  lemma PermitsAreConserved(env: Env, acts: seq<Act>, n: nat, key: PoolKey)
    requires n <= |acts|
    ensures var s := StateAfter(env, acts, n);
      Avail(env, s, key) + IdleLen(s, key) + Sum(s.tasks, PermitsFor(key)) == Capacity(env.cfg, key)
  {
    hide SemsOk, LockOk, AllTasksOk, AllPoolsOk, AllUnique, StateAfter;
    RunKeepsInv(env, acts, n);
    assert Conserved(env, StateAfter(env, acts, n), key);
  }

  /** A task with a connection that is open, or being opened. */
  function OpenFor(key: PoolKey): Task -> nat {
    (x: Task) => One(x.key == key && (BackendOf(x.pc).Some? || x.pc.Creating?))
  }

  /** A task with a permit and no connection: one to be returned, or one that was lost. */
  function BareFor(key: PoolKey): Task -> nat {
    (x: Task) => One(x.key == key && PermitsOf(x.pc) == 1 && BackendOf(x.pc).None? && !x.pc.Creating?)
  }

  /** A task with a connection whose permit it has already returned. */
  function OverdueFor(key: PoolKey): Task -> nat {
    (x: Task) => One(x.key == key && x.pc.Closing?)
  }

  /** Connections to the backend of a key that are open or being opened. */
  function OpenConnections(s: State, key: PoolKey): nat {
    IdleLen(s, key) + Sum(s.tasks, OpenFor(key))
  }

  lemma {:induction false} SumsBalance(tasks: seq<Task>, key: PoolKey)
    ensures Sum(tasks, OpenFor(key)) + Sum(tasks, BareFor(key))
      == Sum(tasks, PermitsFor(key)) + Sum(tasks, OverdueFor(key))
  {
    if tasks != [] {
      SumsBalance(tasks[1..], key);
    }
  }

  /**
   * The number of open connections is known exactly: those that are idle, with a task or being
   * opened are as many as the permits less the available ones and those without a connection,
   * and the ones whose permit has already been returned come on top.
   */
  lemma OpenConnectionsExactly(env: Env, acts: seq<Act>, n: nat, key: PoolKey)
    requires n <= |acts|
    ensures var s := StateAfter(env, acts, n);
      OpenConnections(s, key) ==
        Capacity(env.cfg, key) - Avail(env, s, key) - Sum(s.tasks, BareFor(key)) + Sum(s.tasks, OverdueFor(key))
  {
    hide StateAfter;
    PermitsAreConserved(env, acts, n, key);
    SumsBalance(StateAfter(env, acts, n).tasks, key);
  }

  /**
   * The steps from which on a task returns the permit of a connection that it has not dropped:
   * a client that cannot be told of its new backend, a reset that fails after the relay, and
   * one that fails after transaction_loop.
   */
  predicate ReturnsBeforeDrop(pc: Pc, c: Choice) {
    match pc
    case Announce(b, reused) => !c.ok && !reused
    case Relaying(b) => Reset(b.(unread := c.io.reply), c.io.reset).0.ResetFailed?
    case LoopExit(l) => l.server.Some? && Reset(l.server.value, c.io.reset).0.ResetFailed?
    case _ => false
  }

  /** How many of the first `n` steps of a run were such a step for this key. */
  function EarlyReturns(env: Env, acts: seq<Act>, n: nat, key: PoolKey): nat
    requires n <= |acts|
  {
    if n == 0 then 0
    else EarlyReturns(env, acts, n - 1, key) + One(IsEarlyReturn(StateAfter(env, acts, n - 1), acts[n - 1], key))
  }

  predicate IsEarlyReturn(s: State, a: Act, key: PoolKey) {
    a.Run? && a.t < |s.tasks| && s.tasks[a.t].key == key && ReturnsBeforeDrop(s.tasks[a.t].pc, a.c)
  }

  /** Between such a step and the drop of the connection. */
  predicate Late(pc: Pc) {
    match pc
    case RetLookup(open, _) => open.Some?
    case RetInsert(open, _) => open.Some?
    case RetAdd(open, _, _) => open.Some?
    case Closing(_, _) => true
    case _ => false
  }

  function LateFor(key: PoolKey): Task -> nat {
    (x: Task) => One(x.key == key && Late(x.pc))
  }

  lemma PlanIsNotLate(plan: Plan)
    ensures !Late(AfterPlan(plan))
  {
  }

  lemma ResumeIsNotLate(next: Then)
    ensures !Late(Resume(next))
  {
  }

  lemma GrantIsNotLate(who: Who, b: Backend, reused: bool)
    ensures !Late(AfterGrant(who, b, reused)) && !Late(AfterFailedCreate(who))
  {
  }

  lemma UseIsLateExactly(b: Backend, reset: ResetIo)
    ensures Late(AfterUse(b, reset)) <==> Reset(b, reset).0.ResetFailed?
  {
  }

  /** A task gets late by such a step and by no other. */
  lemma LateByEarlyReturn(env: Env, s: State, t: nat, c: Choice)
    requires t < |s.tasks| && Late(Decide(env, s, t, c).pc)
    ensures Late(s.tasks[t].pc) || ReturnsBeforeDrop(s.tasks[t].pc, c)
  {
    hide AfterPlan, OnEvent, Forward, Resume, AfterGrant, AfterFailedCreate, AfterUse, Reset, ScanOne, ReadLocked,
      Popped, IdleTooLong, TooOld, Elapsed, SemIndex, IdleLen, ResolveLimits, NewInner, PoolSpec.Enumerates, Capacity;
    var pc := s.tasks[t].pc;
    match pc
    case LoopTop(l) => PlanIsNotLate(OnEvent(env.settings, l, Input(s.now, c.event, c.io)));
    case LoopForward(l, m) => if l.server.Some? { PlanIsNotLate(Forward(env.settings, l, m, s.now, c.io)); }
    case AcqAgeCheck(who, _, ic) => GrantIsNotLate(who, ic.stream, true);
    case Creating(who, since) => GrantIsNotLate(who, Backend(|s.born|, since, []), false);
    case RelLock(_, next) => ResumeIsNotLate(next);
    case RetAdd(_, next, _) => ResumeIsNotLate(next);
    case Closing(_, next) => ResumeIsNotLate(next);
    case Relaying(b) => UseIsLateExactly(b.(unread := c.io.reply), c.io.reset);
    case _ =>
  }

  lemma {:induction false} LateTasksReturnedEarly(env: Env, acts: seq<Act>, n: nat, key: PoolKey)
    requires n <= |acts|
    ensures Sum(StateAfter(env, acts, n).tasks, LateFor(key)) <= EarlyReturns(env, acts, n, key)
  {
    hide Decide, Apply, Late, Sum;
    if n == 0 {
      NoneLate(key);
    } else {
      LateTasksReturnedEarly(env, acts, n - 1, key);
      LateAfterStep(env, StateAfter(env, acts, n - 1), acts[n - 1], key);
    }
  }

  lemma NoneLate(key: PoolKey)
    ensures Sum(Init().tasks, LateFor(key)) == 0
  {
  }

  lemma LateAfterStep(env: Env, s: State, a: Act, key: PoolKey)
    ensures Sum(Step(env, s, a).tasks, LateFor(key)) <= Sum(s.tasks, LateFor(key)) + One(IsEarlyReturn(s, a, key))
  {
    hide Decide, Apply, Sum, ReturnsBeforeDrop;
    match a
    case Run(t, c) =>
      if t < |s.tasks| {
        var mv := Decide(env, s, t, c);
        SumAfter(env, s, t, mv, LateFor(key));
        if Late(mv.pc) {
          LateByEarlyReturn(env, s, t, c);
        }
      }
    case Tick(_) =>
    case Connect(k, session) => OneMoreTask(s, Task(k, StatsLookup(if session then Session else Initial)), key);
    case Monitor(k) => OneMoreTask(s, Task(k, TotalStart), key);
  }

  lemma OneMoreTask(s: State, task: Task, key: PoolKey)
    requires !Late(task.pc)
    ensures Sum(Spawn(s, task).tasks, LateFor(key)) == Sum(s.tasks, LateFor(key))
  {
    SumAppend(s.tasks, [task], LateFor(key));
    SumOne(task, LateFor(key));
  }

  lemma {:induction false} SumIsMonotone(tasks: seq<Task>, f: Task -> nat, g: Task -> nat)
    requires forall x: Task :: f(x) <= g(x)
    ensures Sum(tasks, f) <= Sum(tasks, g)
  {
    if tasks != [] {
      SumIsMonotone(tasks[1..], f, g);
    }
  }

  /**
   * The open connections of a key exceed its capacity by no more than the number of steps so
   * far from which on a permit was returned before its connection was dropped.  In a run
   * without such a step they are within the capacity in every state.
   */
  lemma OpenConnectionsBound(env: Env, acts: seq<Act>, n: nat, key: PoolKey)
    requires n <= |acts|
    ensures var s := StateAfter(env, acts, n);
      && Sum(s.tasks, OverdueFor(key)) <= EarlyReturns(env, acts, n, key)
      && OpenConnections(s, key) <= Capacity(env.cfg, key) + EarlyReturns(env, acts, n, key)
      && (EarlyReturns(env, acts, n, key) == 0 ==> OpenConnections(s, key) <= Capacity(env.cfg, key))
  {
    hide StateAfter, EarlyReturns;
    OpenConnectionsExactly(env, acts, n, key);
    LateTasksReturnedEarly(env, acts, n, key);
    SumIsMonotone(StateAfter(env, acts, n).tasks, OverdueFor(key), LateFor(key));
  }

  /** Nothing is under way: every task has ended, one way or another. */
  predicate AtRest(s: State) {
    forall t :: 0 <= t < |s.tasks| ==> var pc := s.tasks[t].pc; pc.Done? || pc.Leaked? || pc.Crashed? || pc.Reported?
  }

  /** A task that has ended with a permit. */
  predicate Lost(pc: Pc) {
    pc.Leaked? || pc.Crashed?
  }

  function LostFor(key: PoolKey): Task -> nat {
    (x: Task) => One(x.key == key && Lost(x.pc))
  }

  /**
   * The steps that lose a permit: create_backend panics, or fails for a caller that does not
   * cancel; or a malformed frame comes, in transaction_loop with a backend held, or where the
   * reset after it or after the relay looks for its ReadyForQuery.
   */
  predicate LosesPermit(env: Env, now: nat, pc: Pc, c: Choice) {
    match pc
    case Creating(who, _) => !c.ok && (c.panics || who.Initial? || who.Session?)
    case LoopTop(l) =>
      TransactionTheorems.TurnGarbles(env.settings, l, Turn(Input(now, c.event, c.io), NotConnected))
    case LoopExit(l) => l.server.Some? && MeetsGarble(l.server.value, c.io.reset)
    case Relaying(b) => MeetsGarble(b.(unread := c.io.reply), c.io.reset)
    case _ => false
  }

  predicate IsLoss(env: Env, s: State, a: Act, key: PoolKey) {
    a.Run? && a.t < |s.tasks| && s.tasks[a.t].key == key && LosesPermit(env, s.now, s.tasks[a.t].pc, a.c)
  }

  /** How many of the first `n` steps of a run were such a step for this key. */
  function Losses(env: Env, acts: seq<Act>, n: nat, key: PoolKey): nat
    requires n <= |acts|
  {
    if n == 0 then 0
    else Losses(env, acts, n - 1, key) + One(IsLoss(env, StateAfter(env, acts, n - 1), acts[n - 1], key))
  }

  lemma PlanIsLostExactly(cfg: Settings, l: Loop, input: Input)
    ensures Lost(AfterPlan(OnEvent(cfg, l, input))) <==>
      TransactionTheorems.TurnGarbles(cfg, l, Turn(input, NotConnected))
  {
    hide OnEvent, TransactionTheorems.TurnGarbles;
    TransactionTheorems.TurnDiesExactly(cfg, l, Turn(input, NotConnected));
  }

  lemma ForwardIsNotLost(cfg: Settings, l: Loop, m: Msg, now: nat, io: Io)
    requires l.server.Some?
    ensures !Lost(AfterPlan(Forward(cfg, l, m, now, io)))
  {
    hide Forward;
  }

  lemma UseIsLostExactly(b: Backend, reset: ResetIo)
    ensures Lost(AfterUse(b, reset)) <==> MeetsGarble(b, reset)
  {
    hide Reset, MeetsGarble, MeetsReady;
    ResetSucceedsExactly(b, reset);
  }

  lemma ExitIsLostExactly(l: Loop, reset: ResetIo)
    ensures Lost(AfterExit(l, reset)) <==> l.server.Some? && MeetsGarble(l.server.value, reset)
  {
    hide Reset, MeetsGarble, MeetsReady;
    if l.server.Some? {
      ResetSucceedsExactly(l.server.value, reset);
    }
  }

  lemma OnTheWayNotLost(next: Then, who: Who, b: Backend, reused: bool)
    ensures !Lost(Resume(next)) && !Lost(AfterGrant(who, b, reused))
    ensures Lost(AfterFailedCreate(who)) <==> who.Initial? || who.Session?
  {
  }

  /** A permit is lost by such a step and by no other, and for good. */
  lemma LostExactly(env: Env, s: State, t: nat, c: Choice)
    requires t < |s.tasks| && (s.tasks[t].pc.LoopForward? ==> s.tasks[t].pc.loop.server.Some?)
    ensures Lost(Decide(env, s, t, c).pc) <==> Lost(s.tasks[t].pc) || LosesPermit(env, s.now, s.tasks[t].pc, c)
  {
    hide AfterPlan, AfterExit, OnEvent, Forward, Resume, AfterGrant, AfterFailedCreate, AfterUse, ScanOne, ReadLocked,
      Popped, IdleTooLong, TooOld, Elapsed, SemIndex, IdleLen, ResolveLimits, NewInner, PoolSpec.Enumerates, Capacity,
      MeetsGarble, TransactionTheorems.TurnGarbles;
    var pc, some := s.tasks[t].pc, Backend(0, 0, []);
    match pc
    case LoopTop(l) => PlanIsLostExactly(env.settings, l, Input(s.now, c.event, c.io));
    case LoopForward(l, m) => ForwardIsNotLost(env.settings, l, m, s.now, c.io);
    case LoopExit(l) => ExitIsLostExactly(l, c.io.reset);
    case Relaying(b) => UseIsLostExactly(b.(unread := c.io.reply), c.io.reset);
    case AcqAgeCheck(who, _, ic) => OnTheWayNotLost(ThenDone, who, ic.stream, true);
    case Creating(who, since) => OnTheWayNotLost(ThenDone, who, Backend(|s.born|, since, []), false);
    case RelLock(b, next) => OnTheWayNotLost(next, WarmUp, b, false);
    case RetAdd(_, next, _) => OnTheWayNotLost(next, WarmUp, some, false);
    case Closing(b, next) => OnTheWayNotLost(next, WarmUp, b, false);
    case _ =>
  }

  lemma LostAfterStep(env: Env, s: State, a: Act, key: PoolKey)
    requires Inv(env, s)
    ensures Sum(Step(env, s, a).tasks, LostFor(key)) == Sum(s.tasks, LostFor(key)) + One(IsLoss(env, s, a, key))
  {
    hide Decide, Apply, Sum, LosesPermit, SemsOk, LockOk, AllPoolsOk, AllConserved, AllUnique;
    match a
    case Run(t, c) =>
      if t < |s.tasks| {
        assert TaskOk(s, t);
        SumAfter(env, s, t, Decide(env, s, t, c), LostFor(key));
        LostExactly(env, s, t, c);
        EndedStays(env, s, t, c);
      }
    case Tick(_) =>
    case Connect(k, session) =>
      SumAppend(s.tasks, [Task(k, StatsLookup(if session then Session else Initial))], LostFor(key));
      SumOne(Task(k, StatsLookup(if session then Session else Initial)), LostFor(key));
    case Monitor(k) =>
      SumAppend(s.tasks, [Task(k, TotalStart)], LostFor(key));
      SumOne(Task(k, TotalStart), LostFor(key));
  }

  /** A task that has lost its permit takes no step that loses one. */
  lemma EndedStays(env: Env, s: State, t: nat, c: Choice)
    requires t < |s.tasks|
    ensures Lost(s.tasks[t].pc) ==> !LosesPermit(env, s.now, s.tasks[t].pc, c)
  {
  }

  /** In every reachable state the permits that are lost are as many as the steps that lose one. */
  lemma {:induction false} LossesExactly(env: Env, acts: seq<Act>, n: nat, key: PoolKey)
    requires n <= |acts|
    ensures Sum(StateAfter(env, acts, n).tasks, LostFor(key)) == Losses(env, acts, n, key)
  {
    hide Step, Sum, Inv, IsLoss;
    if n == 0 {
      NothingLost(key);
    } else {
      LossesExactly(env, acts, n - 1, key);
      RunKeepsInv(env, acts, n - 1);
      LostAfterStep(env, StateAfter(env, acts, n - 1), acts[n - 1], key);
    }
  }

  lemma NothingLost(key: PoolKey)
    ensures Sum(Init().tasks, LostFor(key)) == 0
  {
  }

  lemma {:induction false} SumsAgree(tasks: seq<Task>, f: Task -> nat, g: Task -> nat)
    requires forall t :: 0 <= t < |tasks| ==> f(tasks[t]) == g(tasks[t])
    ensures Sum(tasks, f) == Sum(tasks, g)
  {
    if tasks != [] {
      SumsAgree(tasks[1..], f, g);
    }
  }

  /**
   * When all tasks have ended, the capacity of a key has been recovered but for one permit for
   * each step so far that lost one: a create_backend that panicked, or failed in session mode
   * or on the first acquire of transaction mode, and a malformed frame that was read with a
   * permit in hand.  It has been recovered in full if and only if there was no such step.
   */
  lemma CapacityIsRecoveredButForLosses(env: Env, acts: seq<Act>, n: nat, key: PoolKey)
    requires n <= |acts| && AtRest(StateAfter(env, acts, n))
    ensures var s := StateAfter(env, acts, n);
      Avail(env, s, key) + IdleLen(s, key) == Capacity(env.cfg, key) - Losses(env, acts, n, key)
  {
    hide StateAfter, Losses;
    PermitsAreConserved(env, acts, n, key);
    SumsAgree(StateAfter(env, acts, n).tasks, PermitsFor(key), LostFor(key));
    LossesExactly(env, acts, n, key);
  }

  // ---- Backends are not shared ----

  lemma {:induction false} TwoHoldTwo(tasks: seq<Task>, t: nat, u: nat, f: Task -> nat)
    requires t < u < |tasks|
    ensures Sum(tasks, f) >= f(tasks[t]) + f(tasks[u])
    decreases t
  {
    if t == 0 {
      SumAtLeast(tasks[1..], u - 1, f);
    } else {
      TwoHoldTwo(tasks[1..], t - 1, u - 1, f);
    }
  }

  lemma {:induction false} IdleCounts(idle: seq<IdleConn>, i: nat, id: nat)
    requires i < |idle| && idle[i].stream.id == id
    ensures CountIdle(idle, id) >= 1
    decreases i
  {
    if i > 0 {
      IdleCounts(idle[1..], i - 1, id);
    }
  }

  lemma {:induction false} IdleCountsTwice(idle: seq<IdleConn>, i: nat, j: nat, id: nat)
    requires i < j < |idle| && idle[i].stream.id == id && idle[j].stream.id == id
    ensures CountIdle(idle, id) >= 2
    decreases i
  {
    if i == 0 {
      IdleCounts(idle[1..], j - 1, id);
    } else {
      IdleCountsTwice(idle[1..], i - 1, j - 1, id);
    }
  }

  /** No two tasks ever hold the same backend, and none that is idle, of whatever pool. */
  lemma NoTwoTasksShare(env: Env, acts: seq<Act>, n: nat, t: nat, u: nat)
    requires n <= |acts|
    requires var s := StateAfter(env, acts, n);
      && t < |s.tasks| && BackendOf(s.tasks[t].pc).Some?
      && u < |s.tasks| && BackendOf(s.tasks[u].pc).Some?
      && BackendOf(s.tasks[t].pc).value.id == BackendOf(s.tasks[u].pc).value.id
    ensures t == u
  {
    hide StateAfter, SemsOk, LockOk, AllPoolsOk, AllConserved;
    var s := StateAfter(env, acts, n);
    RunKeepsInv(env, acts, n);
    var id := BackendOf(s.tasks[t].pc).value.id;
    assert TaskOk(s, t) && Places(s, id) <= 1;
    if t < u {
      TwoHoldTwo(s.tasks, t, u, HasId(id));
    } else if u < t {
      TwoHoldTwo(s.tasks, u, t, HasId(id));
    }
  }

  lemma NoTaskHoldsIdle(env: Env, acts: seq<Act>, n: nat, t: nat, key: PoolKey, i: nat)
    requires n <= |acts|
    requires var s := StateAfter(env, acts, n);
      && t < |s.tasks| && BackendOf(s.tasks[t].pc).Some?
      && key in s.pools && i < |s.pools[key].idle|
    ensures var s := StateAfter(env, acts, n);
      BackendOf(s.tasks[t].pc).value.id != s.pools[key].idle[i].stream.id
  {
    hide StateAfter, SemsOk, LockOk, AllConserved, PoolSpec.InnerOk;
    var s := StateAfter(env, acts, n);
    RunKeepsInv(env, acts, n);
    var id := s.pools[key].idle[i].stream.id;
    assert PoolOk(env, s, key) && Places(s, id) <= 1;
    IdleCounts(s.pools[key].idle, i, id);
    SumAtLeast(s.tasks, t, HasId(id));
  }

  lemma NoBackendIsIdleTwice(env: Env, acts: seq<Act>, n: nat, key: PoolKey, i: nat, key2: PoolKey, j: nat)
    requires n <= |acts|
    requires var s := StateAfter(env, acts, n);
      && key in s.pools && i < |s.pools[key].idle|
      && key2 in s.pools && j < |s.pools[key2].idle|
      && s.pools[key].idle[i].stream.id == s.pools[key2].idle[j].stream.id
    ensures key == key2 && i == j
  {
    hide StateAfter, SemsOk, LockOk, AllConserved, AllTasksOk, PoolSpec.InnerOk;
    var s := StateAfter(env, acts, n);
    RunKeepsInv(env, acts, n);
    var id := s.pools[key].idle[i].stream.id;
    assert PoolOk(env, s, key) && PoolOk(env, s, key2) && Places(s, id) <= 1;
    if i < j {
      IdleCountsTwice(s.pools[key].idle, i, j, id);
    } else if j < i {
      IdleCountsTwice(s.pools[key].idle, j, i, id);
    }
  }

  /** A backend that is in no idle slot and with no task has been dropped: it never comes back. */
  lemma DroppedStaysDropped(env: Env, s: State, a: Act, id: nat)
    requires Inv(env, s) && id < |s.born|
    ensures id < |Step(env, s, a).born| && Step(env, s, a).born[id] == s.born[id]
    ensures Places(Step(env, s, a), id) <= Places(s, id)
  {
    match a
    case Run(t, c) =>
      if t < |s.tasks| {
        hide Inv, Decide, Apply, Places;
        var mv := Decide(env, s, t, c);
        DecideLawful(env, s, t, c);
        InvParts(env, s);
        LawfulParts(env, s, t, mv);
        BornGrows(env, s, t, mv);
        ApplyKeepsUnique(env, s, t, mv, id);
      }
    case Tick(_) =>
    case Connect(key, session) =>
      SpawnKeepsUnique(s, Task(key, StatsLookup(if session then Session else Initial)), id);
    case Monitor(key) =>
      SpawnKeepsUnique(s, Task(key, TotalStart), id);
  }

  lemma InvParts(env: Env, s: State)
    requires Inv(env, s)
    ensures AllTasksOk(s) && AllPoolsOk(env, s)
  {
  }

  lemma LawfulParts(env: Env, s: State, t: nat, mv: Move)
    requires t < |s.tasks| && Lawful(env, s, t, mv)
    ensures CopiesNothing(s, t, mv) && StaysHome(env, s, t, mv) && PointsRightly(s, t, mv)
  {
  }

  // ---- Semaphores, limits and order ----

  /** At most one semaphore is ever created for a key, for all the two-phase lookups there are. */
  lemma OneSemaphorePerKey(env: Env, acts: seq<Act>, n: nat, i: nat, j: nat)
    requires n <= |acts|
    requires var s := StateAfter(env, acts, n);
      i < |s.sems| && j < |s.sems| && s.sems[i].key == s.sems[j].key
    ensures i == j
  {
    hide StateAfter, LockOk, AllTasksOk, AllPoolsOk, AllConserved, AllUnique;
    RunKeepsInv(env, acts, n);
  }

  /**
   * Every pool has its semaphore and the limits that are resolved for its key, no more idle
   * connections than max_size, and those in the order in which they were parked.
   */
  lemma PoolsAgreeWithLimits(env: Env, acts: seq<Act>, n: nat, key: PoolKey)
    requires n <= |acts| && key in StateAfter(env, acts, n).pools
    ensures var s := StateAfter(env, acts, n);
      && key in s.semOf && s.semOf[key] < |s.sems| && s.sems[s.semOf[key]].key == key
      && s.pools[key].limits == ResolveLimits(env.cfg, key)
      && |s.pools[key].idle| <= ResolveLimits(env.cfg, key).maxSize
      && Sorted(s.pools[key].idle)
      && forall i :: 0 <= i < |s.pools[key].idle| ==> s.pools[key].idle[i].parkedSince <= s.now
  {
    hide StateAfter, LockOk, AllTasksOk, AllConserved, AllUnique;
    RunKeepsInv(env, acts, n);
    assert PoolOk(env, StateAfter(env, acts, n), key);
  }

  /** A step of a task leaves the pools and the semaphores of all other keys alone. */
  lemma OtherKeysUntouched(env: Env, s: State, t: nat, c: Choice, key: PoolKey)
    requires t < |s.tasks| && Inv(env, s) && key != s.tasks[t].key
    ensures var s' := Step(env, s, Run(t, c));
      && Avail(env, s', key) == Avail(env, s, key)
      && (key in s'.pools <==> key in s.pools) && (key in s.pools ==> s'.pools[key] == s.pools[key])
  {
    hide Decide, SemsAfter, LockAfter, TasksAfter, Avail, AllConserved, AllTasksOk, AllPoolsOk, AllUnique;
    var mv := Decide(env, s, t, c);
    DecideLawful(env, s, t, c);
    ApplyKeepsSems(env, s, t, mv);
  }

  /** Idle connections change only in the hands of the task that has the lock, if any has it. */
  lemma PoolsChangeOnlyUnderLock(env: Env, s: State, t: nat, c: Choice)
    requires t < |s.tasks| && Inv(env, s)
    requires s.lock.Some? && s.lock.value != t
    ensures Step(env, s, Run(t, c)).pools == s.pools
    ensures Step(env, s, Run(t, c)).lock == s.lock
  {
    hide Decide, SemsAfter, TasksAfter, AllConserved, AllPoolsOk, AllUnique, SemsOk;
    DecideLawful(env, s, t, c);
    assert TaskOk(s, t);
  }
}
