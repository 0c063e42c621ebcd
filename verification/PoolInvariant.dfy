// The invariant of the interleaved system, and why every step keeps it.

module PoolInvariant {
  import opened Prelude
  import opened Backends
  import opened Pool
  import opened PoolSystem
  import PoolSpec

  // ---- What a task holds ----

  /** Permits that a task at this point accounts for, forgotten ones included. */
  function PermitsOf(pc: Pc): nat {
    match pc
    case AcqIdleCheck(_, _, _) => 1
    case AcqAgeCheck(_, _, _) => 1
    case AcqRefund(_, _) => 1
    case Creating(_, _) => 1
    case Leaked => 1
    case Crashed => 1
    case Announce(_, _) => 1
    case Relaying(_) => 1
    case LoopForward(l, _) => if l.server.Some? then 1 else 0
    case LoopTop(l) => if l.server.Some? then 1 else 0
    case LoopExit(l) => if l.server.Some? then 1 else 0
    case RelAge(_, _) => 1
    case RelLock(_, _) => 1
    case RelDrop(_, _) => 1
    case RetLookup(_, _) => 1
    case RetInsert(_, _) => 1
    case RetAdd(_, _, _) => 1
    case _ => 0
  }

  /** The open connection that a task at this point holds. */
  function BackendOf(pc: Pc): Option<Backend> {
    match pc
    case AcqIdleCheck(_, _, ic) => Some(ic.stream)
    case AcqAgeCheck(_, _, ic) => Some(ic.stream)
    case Announce(b, _) => Some(b)
    case Relaying(b) => Some(b)
    case LoopForward(l, _) => l.server
    case LoopTop(l) => l.server
    case LoopExit(l) => l.server
    case RelAge(b, _) => Some(b)
    case RelLock(b, _) => Some(b)
    case RelDrop(b, _) => Some(b)
    case RetLookup(open, _) => open
    case RetInsert(open, _) => open
    case RetAdd(open, _, _) => open
    case Closing(b, _) => Some(b)
    case _ => None
  }

  /** The semaphore that a task at this point has got hold of. */
  function SemOf(pc: Pc): Option<nat> {
    match pc
    case StatsRead(_, sem) => Some(sem)
    case AcqLock(_, sem) => Some(sem)
    case AcqPop(_, sem) => Some(sem)
    case AcqIdleCheck(_, sem, _) => Some(sem)
    case AcqAgeCheck(_, sem, _) => Some(sem)
    case AcqRefund(_, sem) => Some(sem)
    case AcqBlocked(_, sem) => Some(sem)
    case RetAdd(_, _, sem) => Some(sem)
    case _ => None
  }

  predicate HoldsLock(pc: Pc) {
    pc.AcqPop? || pc.AcqIdleCheck? || pc.AcqAgeCheck? || pc.AcqRefund? || pc.TotalScan?
  }

  // ---- Counting over tasks ----

  function Sum(tasks: seq<Task>, f: Task -> nat): nat {
    if tasks == [] then 0 else f(tasks[0]) + Sum(tasks[1..], f)
  }

  lemma {:induction false} SumAppend(a: seq<Task>, b: seq<Task>, f: Task -> nat)
    ensures Sum(a + b, f) == Sum(a, f) + Sum(b, f)
    decreases |a|
  {
    if a == [] {
      assert a + b == b;
    } else {
      assert (a + b)[1..] == a[1..] + b;
      SumAppend(a[1..], b, f);
    }
  }

  lemma {:induction false} SumUpdate(tasks: seq<Task>, t: nat, x: Task, f: Task -> nat)
    requires t < |tasks|
    ensures Sum(tasks[t := x], f) + f(tasks[t]) == Sum(tasks, f) + f(x)
    decreases t
  {
    if t == 0 {
      assert tasks[0 := x][1..] == tasks[1..];
    } else {
      assert tasks[t := x][1..] == tasks[1..][t - 1 := x];
      SumUpdate(tasks[1..], t - 1, x, f);
    }
  }

  lemma SumOne(x: Task, f: Task -> nat)
    ensures Sum([x], f) == f(x)
  {
    assert [x][1..] == [];
  }

  lemma {:induction false} SumAtLeast(tasks: seq<Task>, t: nat, f: Task -> nat)
    requires t < |tasks|
    ensures Sum(tasks, f) >= f(tasks[t])
    decreases t
  {
    if t > 0 {
      SumAtLeast(tasks[1..], t - 1, f);
    }
  }

  function PermitsFor(key: PoolKey): Task -> nat {
    (x: Task) => if x.key == key then PermitsOf(x.pc) else 0
  }

  predicate Has(pc: Pc, id: nat) {
    BackendOf(pc).Some? && BackendOf(pc).value.id == id
  }

  function HasId(id: nat): Task -> nat {
    (x: Task) => if Has(x.pc, id) then 1 else 0
  }

  /** How many of these idle connections are the backend `id`. */
  function CountIdle(idle: seq<IdleConn>, id: nat): nat {
    if idle == [] then 0
    else (if idle[0].stream.id == id then 1 else 0) + CountIdle(idle[1..], id)
  }

  lemma {:induction false} CountIdleAppend(a: seq<IdleConn>, b: seq<IdleConn>, id: nat)
    ensures CountIdle(a + b, id) == CountIdle(a, id) + CountIdle(b, id)
    decreases |a|
  {
    if a == [] {
      assert a + b == b;
    } else {
      assert (a + b)[1..] == a[1..] + b;
      CountIdleAppend(a[1..], b, id);
    }
  }

  lemma CountIdleOne(ic: IdleConn, id: nat)
    ensures CountIdle([ic], id) == if ic.stream.id == id then 1 else 0
  {
    assert [ic][1..] == [];
  }

  lemma CountIdlePopped(strategy: Strategy, idle: seq<IdleConn>, id: nat)
    requires idle != []
    ensures var (ic, rest) := Popped(strategy, idle);
      CountIdle(idle, id) == CountIdle(rest, id) + (if ic.stream.id == id then 1 else 0)
  {
    var (ic, rest) := Popped(strategy, idle);
    if strategy == Lifo {
      assert idle == rest + [ic];
      CountIdleAppend(rest, [ic], id);
      CountIdleOne(ic, id);
    }
  }

  // ---- The invariant ----

  /** Available permits; a semaphore that does not exist yet has all of them. */
  function Avail(env: Env, s: State, key: PoolKey): nat {
    if key in s.semOf && s.semOf[key] < |s.sems| then s.sems[s.semOf[key]].permits
    else Capacity(env.cfg, key)
  }

  /** The map of semaphores and the semaphores ever created are one to one. */
  predicate SemsOk(s: State) {
    && (forall k :: k in s.semOf ==> s.semOf[k] < |s.sems| && s.sems[s.semOf[k]].key == k)
    && (forall i :: 0 <= i < |s.sems| ==> s.sems[i].key in s.semOf && s.semOf[s.sems[i].key] == i)
  }

  /** A backend is known, was created for this key, and not in the future. */
  predicate AtHome(born: seq<PoolKey>, now: nat, key: PoolKey, b: Backend) {
    b.id < |born| && born[b.id] == key && b.bornAt <= now
  }

  predicate TotalsOk(total: PoolSpec.Stats) {
    total.active >= 0 && total.active + total.idle <= total.max + total.reserve
  }

  predicate TaskOk(s: State, t: nat)
    requires t < |s.tasks|
  {
    var key, pc := s.tasks[t].key, s.tasks[t].pc;
    && (HoldsLock(pc) <==> s.lock == Some(t))
    && (SemOf(pc).Some? ==> key in s.semOf && s.semOf[key] == SemOf(pc).value)
    && (BackendOf(pc).Some? ==> AtHome(s.born, s.now, key, BackendOf(pc).value))
    && (pc.Creating? ==> pc.since <= s.now)
    && (HoldsLock(pc) && !pc.TotalScan? ==> key in s.pools)
    && (pc.TotalScan? ==> TotalsOk(pc.total) && forall i :: 0 <= i < |pc.todo| ==> pc.todo[i] in s.pools)
    && (pc.Reported? ==> TotalsOk(pc.total))
    && (pc.LoopForward? ==> pc.loop.server.Some?)
  }

  predicate PoolOk(env: Env, s: State, key: PoolKey)
    requires key in s.pools
  {
    var idle := s.pools[key].idle;
    && key in s.semOf
    && PoolSpec.InnerOk(env.cfg, key, s.pools[key], s.now)
    && (forall i :: 0 <= i < |idle| ==> AtHome(s.born, s.now, key, idle[i].stream))
  }

  /** Every permit is available, with an idle connection, or accounted for by a task. */
  predicate Conserved(env: Env, s: State, key: PoolKey) {
    Avail(env, s, key) + IdleLen(s, key) + Sum(s.tasks, PermitsFor(key)) == Capacity(env.cfg, key)
  }

  /** In how many places a backend is: idle slots of its pool and tasks. */
  function Places(s: State, id: nat): nat
    requires id < |s.born|
  {
    CountIdle(IdleOf(s, s.born[id]), id) + Sum(s.tasks, HasId(id))
  }

  predicate LockOk(s: State) {
    s.lock.Some? ==> s.lock.value < |s.tasks| && HoldsLock(s.tasks[s.lock.value].pc)
  }

  predicate AllTasksOk(s: State) {
    forall t :: 0 <= t < |s.tasks| ==> TaskOk(s, t)
  }

  predicate AllPoolsOk(env: Env, s: State) {
    forall k :: k in s.pools ==> PoolOk(env, s, k)
  }

  ghost predicate AllConserved(env: Env, s: State) {
    forall k :: Conserved(env, s, k)
  }

  predicate AllUnique(s: State) {
    forall id: nat :: id < |s.born| ==> Places(s, id) <= 1
  }

  ghost predicate Inv(env: Env, s: State) {
    SemsOk(s) && LockOk(s) && AllTasksOk(s) && AllPoolsOk(env, s) && AllConserved(env, s) && AllUnique(s)
  }

  // ---- What one move has to respect ----

  function NewIdle(s: State, key: PoolKey, mv: Move): seq<IdleConn> {
    if mv.inner.Some? then mv.inner.value.idle else IdleOf(s, key)
  }

  function BornAfter(s: State, key: PoolKey, mv: Move): seq<PoolKey> {
    if mv.create then s.born + [key] else s.born
  }

  predicate Balances(env: Env, s: State, t: nat, mv: Move)
    requires t < |s.tasks|
  {
    var key, pc := s.tasks[t].key, s.tasks[t].pc;
    && mv.add + |NewIdle(s, key, mv)| + PermitsOf(mv.pc) == IdleLen(s, key) + PermitsOf(pc)
    && (mv.add != 0 ==> key in s.semOf && !mv.insert)
    && Avail(env, s, key) + mv.add >= 0
  }

  predicate LocksRightly(s: State, t: nat, mv: Move)
    requires t < |s.tasks|
  {
    var pc := s.tasks[t].pc;
    && (mv.lock == Keep ==> HoldsLock(mv.pc) == HoldsLock(pc))
    && (mv.lock == Take ==> s.lock == None && HoldsLock(mv.pc))
    && (mv.lock == Free ==> HoldsLock(pc) && !HoldsLock(mv.pc))
    && (mv.inner.Some? ==> s.lock == None || s.lock == Some(t))
  }

  predicate PointsRightly(s: State, t: nat, mv: Move)
    requires t < |s.tasks|
  {
    var key := s.tasks[t].key;
    && (mv.insert ==> key !in s.semOf)
    && (SemOf(mv.pc).Some? ==> SemOf(mv.pc).value == SemIndex(s, key) && (key in s.semOf || mv.insert))
    && (mv.spawn ==> !mv.create)
  }

  predicate StaysHome(env: Env, s: State, t: nat, mv: Move)
    requires t < |s.tasks|
  {
    var key := s.tasks[t].key;
    var born := BornAfter(s, key, mv);
    && (BackendOf(mv.pc).Some? ==> AtHome(born, s.now, key, BackendOf(mv.pc).value))
    && (mv.pc.Creating? ==> mv.pc.since <= s.now)
    && (mv.inner.Some? ==>
          && key in s.semOf
          && PoolSpec.InnerOk(env.cfg, key, mv.inner.value, s.now)
          && forall i :: 0 <= i < |mv.inner.value.idle| ==> AtHome(s.born, s.now, key, mv.inner.value.idle[i].stream))
    && (HoldsLock(mv.pc) && !mv.pc.TotalScan? ==> key in s.pools)
    && (mv.pc.TotalScan? ==> TotalsOk(mv.pc.total) && forall i :: 0 <= i < |mv.pc.todo| ==> mv.pc.todo[i] in s.pools)
    && (mv.pc.Reported? ==> TotalsOk(mv.pc.total))
    && (mv.pc.LoopForward? ==> mv.pc.loop.server.Some?)
  }

  function One(b: bool): nat {
    if b then 1 else 0
  }

  /** The move puts no backend into more places than it was in, and a new one into one. */
  ghost predicate CopiesNothing(s: State, t: nat, mv: Move)
    requires t < |s.tasks|
  {
    var key, pc := s.tasks[t].key, s.tasks[t].pc;
    forall id: nat ::
      CountIdle(NewIdle(s, key, mv), id) + One(Has(mv.pc, id))
        <= CountIdle(IdleOf(s, key), id) + One(Has(pc, id)) + One(mv.create && id == |s.born|)
  }

  ghost predicate Lawful(env: Env, s: State, t: nat, mv: Move)
    requires t < |s.tasks|
  {
    && Balances(env, s, t, mv) && LocksRightly(s, t, mv) && PointsRightly(s, t, mv)
    && StaysHome(env, s, t, mv) && CopiesNothing(s, t, mv)
  }

  // ---- Lawful moves keep the invariant ----

  lemma ApplyKeepsSems(env: Env, s: State, t: nat, mv: Move)
    requires t < |s.tasks| && SemsOk(s) && PointsRightly(s, t, mv) && Balances(env, s, t, mv)
    ensures var s' := Apply(env, s, t, mv);
      && SemsOk(s')
      && Avail(env, s', s.tasks[t].key) == Avail(env, s, s.tasks[t].key) + mv.add
      && (forall k :: k in s.semOf ==> k in s'.semOf && s'.semOf[k] == s.semOf[k])
      && (forall k :: k != s.tasks[t].key ==> Avail(env, s', k) == Avail(env, s, k))
  {
  }

  lemma SumAfter(env: Env, s: State, t: nat, mv: Move, f: Task -> nat)
    requires t < |s.tasks|
    ensures var key := s.tasks[t].key;
      Sum(Apply(env, s, t, mv).tasks, f) + f(s.tasks[t]) ==
        Sum(s.tasks, f) + f(Task(key, mv.pc)) + (if mv.spawn then f(Task(key, AcqLookup(WarmUp))) else 0)
  {
    hide SemsAfter, LockAfter;
    var key := s.tasks[t].key;
    var moved := s.tasks[t := Task(key, mv.pc)];
    SumUpdate(s.tasks, t, Task(key, mv.pc), f);
    if mv.spawn {
      SumAppend(moved, [Task(key, AcqLookup(WarmUp))], f);
      SumOne(Task(key, AcqLookup(WarmUp)), f);
    } else {
      assert moved + [] == moved;
    }
  }

  lemma ApplyConserves(env: Env, s: State, t: nat, mv: Move, k: PoolKey)
    requires t < |s.tasks| && SemsOk(s) && PointsRightly(s, t, mv) && Balances(env, s, t, mv)
    requires Conserved(env, s, k)
    ensures Conserved(env, Apply(env, s, t, mv), k)
  {
    hide Avail, SemsAfter, LockAfter, SemsOk, Capacity;
    ApplyKeepsSems(env, s, t, mv);
    SumAfter(env, s, t, mv, PermitsFor(k));
  }

  lemma ApplyKeepsUnique(env: Env, s: State, t: nat, mv: Move, id: nat)
    requires t < |s.tasks| && CopiesNothing(s, t, mv) && AllTasksOk(s) && AllPoolsOk(env, s)
    requires StaysHome(env, s, t, mv) && PointsRightly(s, t, mv)
    requires id < |BornAfter(s, s.tasks[t].key, mv)|
    ensures var s' := Apply(env, s, t, mv);
      && |s'.born| == |BornAfter(s, s.tasks[t].key, mv)|
      && (id < |s.born| ==> s'.born[id] == s.born[id] && Places(s', id) <= Places(s, id))
      && (id == |s.born| ==> Places(s', id) <= 1)
  {
    hide SemsAfter, LockAfter, PoolSpec.InnerOk;
    var key, pc := s.tasks[t].key, s.tasks[t].pc;
    var s' := Apply(env, s, t, mv);
    SumAfter(env, s, t, mv, HasId(id));
    assert CountIdle(NewIdle(s, key, mv), id) + One(Has(mv.pc, id))
        <= CountIdle(IdleOf(s, key), id) + One(Has(pc, id)) + One(mv.create && id == |s.born|);
    assert TaskOk(s, t);
    if id < |s.born| && s.born[id] != key {
      // A backend of another key is not in the hands of this task, before or after.
      assert !Has(pc, id) && !Has(mv.pc, id);
    }
    if id == |s.born| {
      NobodyHasYet(s, id);
      NotIdleYet(IdleOf(s, key), id, s.born, s.now, key);
    }
  }

  lemma NobodyHasYet(s: State, id: nat)
    requires AllTasksOk(s) && id >= |s.born|
    ensures Sum(s.tasks, HasId(id)) == 0
  {
    assert forall t :: 0 <= t < |s.tasks| ==> TaskOk(s, t) && HasId(id)(s.tasks[t]) == 0;
    SumOfNone(s.tasks, HasId(id));
  }

  lemma {:induction false} SumOfNone(tasks: seq<Task>, f: Task -> nat)
    requires forall t :: 0 <= t < |tasks| ==> f(tasks[t]) == 0
    ensures Sum(tasks, f) == 0
  {
    if tasks != [] {
      SumOfNone(tasks[1..], f);
    }
  }

  lemma {:induction false} NotIdleYet(idle: seq<IdleConn>, id: nat, born: seq<PoolKey>, now: nat, key: PoolKey)
    requires forall i :: 0 <= i < |idle| ==> AtHome(born, now, key, idle[i].stream)
    requires id >= |born|
    ensures CountIdle(idle, id) == 0
  {
    if idle != [] {
      NotIdleYet(idle[1..], id, born, now, key);
    }
  }

  lemma ApplyKeepsTasks(env: Env, s: State, t: nat, mv: Move)
    requires t < |s.tasks| && SemsOk(s) && AllTasksOk(s) && LockOk(s)
    requires Balances(env, s, t, mv) && LocksRightly(s, t, mv) && PointsRightly(s, t, mv) && StaysHome(env, s, t, mv)
    ensures LockOk(Apply(env, s, t, mv)) && AllTasksOk(Apply(env, s, t, mv))
  {
    hide TotalsOk, PoolSpec.InnerOk, Capacity, SemsAfter, Avail, IdleLen, SemsOk, NewIdle;
    ApplyKeepsSems(env, s, t, mv);
    var s' := Apply(env, s, t, mv);
    assert |s'.tasks| == |s.tasks| + One(mv.spawn);
    assert TaskOk(s, t);
    forall u | 0 <= u < |s'.tasks|
      ensures TaskOk(s', u)
    {
      if u < |s.tasks| && u != t {
        assert s'.tasks[u] == s.tasks[u];
        assert TaskOk(s, u);
      } else if u == t {
        assert s'.tasks[u] == Task(s.tasks[t].key, mv.pc);
      } else {
        assert s'.tasks[u] == Task(s.tasks[t].key, AcqLookup(WarmUp));
      }
    }
  }

  lemma ApplyKeepsPools(env: Env, s: State, t: nat, mv: Move)
    requires t < |s.tasks| && AllPoolsOk(env, s) && SemsOk(s)
    requires StaysHome(env, s, t, mv)
    ensures AllPoolsOk(env, Apply(env, s, t, mv))
  {
    hide PoolSpec.InnerOk, SemsAfter, TotalsOk;
    var s' := Apply(env, s, t, mv);
    forall k | k in s'.pools
      ensures PoolOk(env, s', k)
    {
      if k in s.pools {
        assert PoolOk(env, s, k);
      }
    }
  }

  lemma ApplyKeepsInv(env: Env, s: State, t: nat, mv: Move)
    requires t < |s.tasks| && Inv(env, s) && Lawful(env, s, t, mv)
    ensures Inv(env, Apply(env, s, t, mv))
  {
    hide Apply, SemsOk, LockOk, AllTasksOk, AllPoolsOk, Conserved, Places;
    var s' := Apply(env, s, t, mv);
    ApplyKeepsSems(env, s, t, mv);
    ApplyKeepsTasks(env, s, t, mv);
    ApplyKeepsPools(env, s, t, mv);
    forall k
      ensures Conserved(env, s', k)
    {
      ApplyConserves(env, s, t, mv, k);
    }
    forall id: nat | id < |s'.born|
      ensures Places(s', id) <= 1
    {
      BornGrows(env, s, t, mv);
      ApplyKeepsUnique(env, s, t, mv, id);
    }
  }

  lemma BornGrows(env: Env, s: State, t: nat, mv: Move)
    requires t < |s.tasks|
    ensures Apply(env, s, t, mv).born == BornAfter(s, s.tasks[t].key, mv)
  {
  }
}
