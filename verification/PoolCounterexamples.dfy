// Runs of the interleaved system that show where two bounds fail.

module PoolCounterexamples {
  import opened Prelude
  import opened Frames
  import opened Backends
  import opened Pool
  import opened TransactionLoop
  import opened PoolSystem
  import opened PoolInvariant
  import opened PoolStatistics
  import opened PoolTheorems

  ghost predicate Reached(env: Env, s: State) {
    exists acts :: StateAfter(env, acts, |acts|) == s
  }

  lemma {:induction false} StateAfterPrefix(env: Env, acts: seq<Act>, a: Act, n: nat)
    requires n <= |acts|
    ensures StateAfter(env, acts + [a], n) == StateAfter(env, acts, n)
  {
    hide Step;
    if n > 0 {
      StateAfterPrefix(env, acts, a, n - 1);
    }
  }

  lemma Reaches(env: Env, s: State, a: Act)
    requires Reached(env, s)
    ensures Reached(env, Step(env, s, a))
  {
    hide Step;
    var acts :| StateAfter(env, acts, |acts|) == s;
    StateAfterPrefix(env, acts, a, |acts|);
    assert StateAfter(env, acts + [a], |acts + [a]|) == Step(env, s, a);
  }

  // ---- A pool of one connection ----

  const KEY := PoolKey([104], 5432, [117], [100])

  const LIMITS := Limits(1, 0, 0, Lifo)

  const ENV := Env(
    PoolConfig(LIMITS, map[], map[], 600, 3600),
    Settings(0, 0, 0, (s: bytes) => s),
    false)

  function Answer(ok: bool): Choice {
    Choice(ok, false, ClientClosed, Io(ok, [], ok, ResetIo(ok, [], false), [], false), [])
  }

  function Small(permits: nat, pools: map<PoolKey, PoolInner>, born: seq<PoolKey>, tasks: seq<Task>): State {
    State(0, [Sem(KEY, permits)], map[KEY := 0], pools, None, born, tasks)
  }

  /** A step that only moves a program counter and the permits, in a pool with nothing idle. */
  lemma Hops(permits: nat, tasks: seq<Task>, t: nat, ok: bool, born: seq<PoolKey>, pc: Pc, add: int, create: bool)
    requires t < |tasks| && tasks[t].key == KEY && permits + add >= 0
    ensures var s := Small(permits, map[], born, tasks);
      var r := Small(permits + add, map[], if create then born + [KEY] else born, tasks[t := Task(KEY, pc)]);
      Decide(ENV, s, t, Answer(ok)) == Go(pc).(add := add, create := create) && Reached(ENV, s) ==> Reached(ENV, r)
  {
    hide Decide, Reached;
    var s := Small(permits, map[], born, tasks);
    if Decide(ENV, s, t, Answer(ok)) == Go(pc).(add := add, create := create) && Reached(ENV, s) {
      Reaches(ENV, s, Run(t, Answer(ok)));
      var r := Step(ENV, s, Run(t, Answer(ok)));
      assert r.tasks == tasks[t := Task(KEY, pc)];
      assert r.sems == [Sem(KEY, permits + add)];
    }
  }

  /** A task that is about to read the permits gets the only one. */
  lemma GetsThePermit(tasks: seq<Task>, t: nat, who: Who, born: seq<PoolKey>)
    requires t < |tasks| && tasks[t] == Task(KEY, StatsRead(who, 0))
    requires Reached(ENV, Small(1, map[], born, tasks))
    ensures Reached(ENV, Small(0, map[], born, tasks[t := Task(KEY, Creating(who, 0))]))
  {
    hide Reached;
    var t1 := tasks[t := Task(KEY, StatsLock(who, 1))];
    var t2 := tasks[t := Task(KEY, AcqLookup(who))];
    var t3 := tasks[t := Task(KEY, AcqLock(who, 0))];
    var t4 := tasks[t := Task(KEY, AcqBlocked(who, 0))];
    var t5 := tasks[t := Task(KEY, Creating(who, 0))];
    Hops(1, tasks, t, true, born, StatsLock(who, 1), 0, false);
    Hops(1, t1, t, true, born, AcqLookup(who), 0, false);
    assert t1[t := Task(KEY, AcqLookup(who))] == t2;
    Hops(1, t2, t, true, born, AcqLock(who, 0), 0, false);
    assert t2[t := Task(KEY, AcqLock(who, 0))] == t3;
    Hops(1, t3, t, true, born, AcqBlocked(who, 0), 0, false);
    assert t3[t := Task(KEY, AcqBlocked(who, 0))] == t4;
    Hops(1, t4, t, true, born, Creating(who, 0), -1, false);
    assert t4[t := Task(KEY, Creating(who, 0))] == t5;
  }

  /** A first client has made the semaphore. */
  lemma FirstClient(who: Who)
    requires who == Session || who == Initial
    ensures Reached(ENV, Small(1, map[], [], [Task(KEY, StatsRead(who, 0))]))
  {
    hide Reached;
    var c := Answer(true);
    var s1 := State(0, [], map[], map[], None, [], [Task(KEY, StatsLookup(who))]);
    var s2 := State(0, [], map[], map[], None, [], [Task(KEY, StatsInsert(who))]);
    var s3 := Small(1, map[], [], [Task(KEY, StatsRead(who, 0))]);
    assert Reached(ENV, Init()) by { Starts(); }
    Reaches(ENV, Init(), Connect(KEY, who == Session));
    assert Step(ENV, Init(), Connect(KEY, who == Session)) == s1;
    Reaches(ENV, s1, Run(0, c));
    assert Step(ENV, s1, Run(0, c)) == s2;
    Reaches(ENV, s2, Run(0, c));
    assert !ReadLocked(s2);
    assert Step(ENV, s2, Run(0, c)) == s3;
  }

  lemma Starts()
    ensures Reached(ENV, Init())
  {
    var none: seq<Act> := [];
    assert StateAfter(ENV, none, |none|) == Init();
  }

  /** The first client has connected. */
  lemma FirstConnects()
    ensures Reached(ENV, Small(0, map[], [KEY], [Task(KEY, Announce(Backend(0, 0, []), false))]))
  {
    hide Reached, Decide;
    var first := [Task(KEY, StatsRead(Session, 0))];
    FirstClient(Session);
    GetsThePermit(first, 0, Session, []);
    var t1 := [Task(KEY, Creating(Session, 0))];
    assert first[0 := t1[0]] == t1;
    var t2 := [Task(KEY, Announce(Backend(0, 0, []), false))];
    Creates(t1, 0, Session);
    assert t1[0 := t2[0]] == t2;
  }

  lemma Creates(tasks: seq<Task>, t: nat, who: Who)
    requires t < |tasks| && tasks[t] == Task(KEY, Creating(who, 0))
    requires Reached(ENV, Small(0, map[], [], tasks))
    ensures Reached(ENV, Small(0, map[], [KEY], tasks[t := Task(KEY, AfterGrant(who, Backend(0, 0, []), false))]))
  {
    hide Reached, AfterGrant;
    Hops(0, tasks, t, true, [], AfterGrant(who, Backend(0, 0, []), false), 0, true);
    assert [] + [KEY] == [KEY];
  }

  /** It cannot be told so: its permit is returned and its connection not yet dropped. */
  lemma FirstReturnsItsPermit()
    ensures Reached(ENV, Small(1, map[], [KEY], [Task(KEY, Closing(Backend(0, 0, []), ThenDone))]))
  {
    hide Reached;
    FirstConnects();
    var b := Backend(0, 0, []);
    var t2 := [Task(KEY, Announce(b, false))];
    var t3 := [Task(KEY, RetLookup(Some(b), ThenDone))];
    Hops(0, t2, 0, false, [KEY], t3[0].pc, 0, false);
    assert t2[0 := t3[0]] == t3;
    var t4 := [Task(KEY, RetAdd(Some(b), ThenDone, 0))];
    Hops(0, t3, 0, true, [KEY], t4[0].pc, 0, false);
    assert t3[0 := t4[0]] == t4;
    var t5 := [Task(KEY, Closing(b, ThenDone))];
    Hops(0, t4, 0, true, [KEY], t5[0].pc, 1, false);
    assert t4[0 := t5[0]] == t5;
  }

  lemma SecondClient(first: Pc, born: seq<PoolKey>, who: Who)
    requires who == Session || who == Initial
    requires Reached(ENV, Small(1, map[], born, [Task(KEY, first)]))
    ensures Reached(ENV, Small(1, map[], born, [Task(KEY, first), Task(KEY, StatsRead(who, 0))]))
  {
    hide Reached;
    var s := Small(1, map[], born, [Task(KEY, first)]);
    var t1 := [Task(KEY, first), Task(KEY, StatsLookup(who))];
    Reaches(ENV, s, Connect(KEY, who == Session));
    assert Step(ENV, s, Connect(KEY, who == Session)) == Small(1, map[], born, t1);
    Hops(1, t1, 1, true, born, StatsRead(who, 0), 0, false);
    assert t1[1 := Task(KEY, StatsRead(who, 0))] == [Task(KEY, first), Task(KEY, StatsRead(who, 0))];
  }

  /**
   * A session client whose reply cannot be delivered gives its permit back and still has its
   * connection when another client gets the permit and connects: two connections are open
   * where there may be one.
   */
  lemma TwoConnectionsForOnePermit()
    ensures Capacity(ENV.cfg, KEY) == 1
    ensures exists s :: (
      Reached(ENV, s) && OpenConnections(s, KEY) == 2
      && forall t :: 0 <= t < |s.tasks| ==> BackendOf(s.tasks[t].pc).Some?)
  {
    hide Reached, Decide, OpenConnections;
    FirstReturnsItsPermit();
    var closing := Task(KEY, Closing(Backend(0, 0, []), ThenDone));
    SecondClient(closing.pc, [KEY], Session);
    var t6 := [closing, Task(KEY, StatsRead(Session, 0))];
    GetsThePermit(t6, 1, Session, [KEY]);
    var t7 := [closing, Task(KEY, Creating(Session, 0))];
    assert t6[1 := t7[1]] == t7;
    SecondConnectsToo(t7);
    var t8 := [closing, Task(KEY, Announce(Backend(1, 0, []), false))];
    TwoAreOpen(t8);
    assert Reached(ENV, Small(0, map[], [KEY, KEY], t8));
  }

  lemma SecondConnectsToo(tasks: seq<Task>)
    requires |tasks| == 2 && tasks[1] == Task(KEY, Creating(Session, 0))
    requires Reached(ENV, Small(0, map[], [KEY], tasks))
    ensures Reached(ENV, Small(0, map[], [KEY, KEY], [tasks[0], Task(KEY, Announce(Backend(1, 0, []), false))]))
  {
    hide Reached;
    var next := Announce(Backend(1, 0, []), false);
    Hops(0, tasks, 1, true, [KEY], next, 0, true);
    assert tasks[1 := Task(KEY, next)] == [tasks[0], Task(KEY, next)] && [KEY] + [KEY] == [KEY, KEY];
  }

  lemma TwoAreOpen(tasks: seq<Task>)
    requires tasks ==
      [Task(KEY, Closing(Backend(0, 0, []), ThenDone)), Task(KEY, Announce(Backend(1, 0, []), false))]
    ensures OpenConnections(Small(0, map[], [KEY, KEY], tasks), KEY) == 2
  {
    SumTwo(tasks[0], tasks[1], OpenFor(KEY));
    hide Sum;
    assert tasks == [tasks[0], tasks[1]];
  }

  lemma SumTwo(x: Task, y: Task, f: Task -> nat)
    ensures Sum([x, y], f) == f(x) + f(y)
  {
    assert [x, y][1..] == [y];
    SumOne(y, f);
  }

  /** A client that parks its connection while the first task waits. */
  lemma SecondParks(waiting: Task)
    requires waiting == Task(KEY, StatsLock(Session, 1))
    ensures exists s :: Reached(ENV, s) && |s.tasks| > 0 && s.tasks[0] == waiting && IdleLen(s, KEY) == 1
  {
    hide Reached;
    SecondConnects(waiting);
    var b := Backend(0, 0, []);
    var t3 := [waiting, Task(KEY, RelAge(b, ThenReady))];
    var t4 := [waiting, Task(KEY, RelLock(b, ThenReady))];
    Hops(0, t3, 1, true, [KEY], t4[1].pc, 0, false);
    assert t3[1 := t4[1]] == t4;
    var before := Small(0, map[], [KEY], t4);
    Reaches(ENV, before, Run(1, Answer(true)));
    var s := Step(ENV, before, Run(1, Answer(true)));
    assert s.tasks[0] == waiting && s.pools[KEY].idle == [IdleConn(b, 0)];
  }

  lemma SecondConnects(waiting: Task)
    requires waiting == Task(KEY, StatsLock(Session, 1))
    ensures Reached(ENV, Small(0, map[], [KEY], [waiting, Task(KEY, RelAge(Backend(0, 0, []), ThenReady))]))
  {
    hide Reached, Decide;
    FirstWaits();
    SecondClient(waiting.pc, [], Initial);
    var t1 := [waiting, Task(KEY, StatsRead(Initial, 0))];
    GetsThePermit(t1, 1, Initial, []);
    var t2 := [waiting, Task(KEY, Creating(Initial, 0))];
    assert t1[1 := t2[1]] == t2;
    Creates(t2, 1, Initial);
    var t3 := [waiting, Task(KEY, RelAge(Backend(0, 0, []), ThenReady))];
    assert t2[1 := t3[1]] == t3;
  }

  lemma FirstWaits()
    ensures Reached(ENV, Small(1, map[], [], [Task(KEY, StatsLock(Session, 1))]))
  {
    hide Reached;
    var first := [Task(KEY, StatsRead(Session, 0))];
    FirstClient(Session);
    Hops(1, first, 0, true, [], StatsLock(Session, 1), 0, false);
    assert first[0 := Task(KEY, StatsLock(Session, 1))] == [Task(KEY, StatsLock(Session, 1))];
  }

  /**
   * A client that has read the permits in stats_for waits for the lock while another one
   * takes the permit, connects and parks its connection: what is left to subtract from is -1.
   */
  lemma StatsForUnderflows()
    ensures exists s :: Reached(ENV, s) && |s.tasks| > 0 && s.tasks[0].pc.StatsLock? && StatsActive(ENV, s, 0) == -1
  {
    hide Reached;
    var waiting := Task(KEY, StatsLock(Session, 1));
    SecondParks(waiting);
    var s :| Reached(ENV, s) && |s.tasks| > 0 && s.tasks[0] == waiting && IdleLen(s, KEY) == 1;
    assert StatsActive(ENV, s, 0) == -1;
  }

  /**
   * The first client cannot connect, and the permit is lost: at rest, with nothing idle,
   * none of the capacity is available.
   */
  lemma PermitIsLost()
    ensures exists s :: Reached(ENV, s) && AtRest(s) && Avail(ENV, s, KEY) + IdleLen(s, KEY) == 0
  {
    hide Reached;
    var first := [Task(KEY, StatsRead(Session, 0))];
    FirstClient(Session);
    GetsThePermit(first, 0, Session, []);
    var t1 := [Task(KEY, Creating(Session, 0))];
    assert first[0 := t1[0]] == t1;
    var t2 := [Task(KEY, Leaked)];
    Hops(0, t1, 0, false, [], Leaked, 0, false);
    assert t1[0 := t2[0]] == t2;
    assert AtRest(Small(0, map[], [], t2));
  }

  // ---- A client that sends a malformed frame ----

  const MINE := Backend(0, 0, [])

  const PARKED := [IdleConn(MINE, 0)]

  /** The pool with no permit available and one task. */
  function Single(lock: Option<nat>, idle: seq<IdleConn>, pc: Pc): State {
    State(0, [Sem(KEY, 0)], map[KEY := 0], map[KEY := PoolInner(idle, LIMITS, 600, 3600)], lock, [KEY], [Task(KEY, pc)])
  }

  /** A step that moves the program counter, the lock and what is idle. */
  lemma Walks(lock: Option<nat>, idle: seq<IdleConn>, pc: Pc, c: Choice, mv: Move, rest: seq<IdleConn>)
    requires !mv.create && !mv.insert && !mv.spawn && mv.add == 0
    requires if mv.inner.Some? then mv.inner.value == PoolInner(rest, LIMITS, 600, 3600) else rest == idle
    ensures var s := Single(lock, idle, pc);
      Decide(ENV, s, 0, c) == mv && Reached(ENV, s) ==> Reached(ENV, Single(LockAfter(s, 0, mv), rest, mv.pc))
  {
    hide Decide, Reached;
    var s := Single(lock, idle, pc);
    if Decide(ENV, s, 0, c) == mv && Reached(ENV, s) {
      Reaches(ENV, s, Run(0, c));
      var r := Step(ENV, s, Run(0, c));
      assert r.tasks == [Task(KEY, mv.pc)];
      assert r.sems == s.sems;
      assert r.pools == map[KEY := PoolInner(rest, LIMITS, 600, 3600)];
    }
  }

  /** A client in transaction mode has had its backend parked and waits in its loop. */
  lemma ClientIsReady()
    ensures Reached(ENV, Single(None, PARKED, Ready))
  {
    hide Reached;
    var first := [Task(KEY, StatsRead(Initial, 0))];
    FirstClient(Initial);
    GetsThePermit(first, 0, Initial, []);
    var t1 := [Task(KEY, Creating(Initial, 0))];
    assert first[0 := t1[0]] == t1;
    Creates(t1, 0, Initial);
    var t2 := [Task(KEY, RelAge(MINE, ThenReady))];
    assert t1[0 := t2[0]] == t2;
    var t3 := [Task(KEY, RelLock(MINE, ThenReady))];
    Hops(0, t2, 0, true, [KEY], t3[0].pc, 0, false);
    assert t2[0 := t3[0]] == t3;
    ParksReady(t3);
  }

  lemma ParksReady(tasks: seq<Task>)
    requires tasks == [Task(KEY, RelLock(MINE, ThenReady))] && Reached(ENV, Small(0, map[], [KEY], tasks))
    ensures Reached(ENV, Single(None, PARKED, Ready))
  {
    hide Reached;
    var s := Small(0, map[], [KEY], tasks);
    Reaches(ENV, s, Run(0, Answer(true)));
    var r := Step(ENV, s, Run(0, Answer(true)));
    assert r.sems == s.sems && r.tasks == [Task(KEY, Ready)];
    assert r.pools[KEY].idle == PARKED;
    assert r.pools == map[KEY := PoolInner(PARKED, LIMITS, 600, 3600)];
  }

  const SYNC := Msg(83, [])

  function Sees(e: Event): Choice {
    Answer(true).(event := e)
  }

  function Wants(): Who {
    Txn(Fresh(None, 0), SYNC)
  }

  /** It sends a message and gets its backend from the pool. */
  lemma ClientGetsBackend()
    ensures Reached(ENV, Single(None, [], LoopForward(Fresh(Some(MINE), 0), SYNC)))
  {
    hide Reached;
    ClientPops();
    var ic := PARKED[0];
    Walks(Some(0), [], AcqIdleCheck(Wants(), 0, ic), Answer(true), Go(AcqAgeCheck(Wants(), 0, ic)), []);
    Walks(Some(0), [], AcqAgeCheck(Wants(), 0, ic), Answer(true),
      Go(LoopForward(Fresh(Some(MINE), 0), SYNC)).(lock := Free), []);
  }

  lemma ClientPops()
    ensures Reached(ENV, Single(Some(0), [], AcqIdleCheck(Wants(), 0, PARKED[0])))
  {
    hide Reached;
    ClientLocksPool();
    var taken := Go(AcqIdleCheck(Wants(), 0, PARKED[0])).(inner := Some(PoolInner([], LIMITS, 600, 3600)));
    Walks(Some(0), PARKED, AcqPop(Wants(), 0), Answer(true), taken, []);
  }

  lemma ClientLocksPool()
    ensures Reached(ENV, Single(Some(0), PARKED, AcqPop(Wants(), 0)))
  {
    hide Reached;
    ClientIsReady();
    Walks(None, PARKED, Ready, Answer(true), Go(LoopTop(Fresh(None, 0))), PARKED);
    Walks(None, PARKED, LoopTop(Fresh(None, 0)), Sees(FromClient(SYNC)), Go(AcqLookup(Wants())), PARKED);
    Walks(None, PARKED, AcqLookup(Wants()), Answer(true), Go(AcqLock(Wants(), 0)), PARKED);
    Walks(None, PARKED, AcqLock(Wants(), 0), Answer(true), Go(AcqPop(Wants(), 0)).(lock := Take), PARKED);
  }

  lemma GarbledFrameCrashes(held: Loop)
    requires held == Fresh(Some(MINE), 0)
    ensures Reached(ENV, Single(None, [], LoopTop(held))) ==> Reached(ENV, Single(None, [], Pc.Crashed))
  {
    hide Reached;
    Walks(None, [], LoopTop(held), Sees(ClientGarbled), Go(Pc.Crashed), []);
  }

  /**
   * Before it is answered it sends a frame with a length field below 4.  Its handler is ended
   * by the panic: at rest, with every create_backend successful, the only permit is lost.
   */
  lemma GarblingLosesPermit()
    ensures exists s :: (
      Reached(ENV, s) && AtRest(s) && Avail(ENV, s, KEY) + IdleLen(s, KEY) == 0
      && forall t :: 0 <= t < |s.tasks| ==> !s.tasks[t].pc.Leaked?)
  {
    hide Reached;
    ClientGetsBackend();
    var held := Fresh(Some(MINE), 0);
    assert AfterPlan(Forward(ENV.settings, held, SYNC, 0, Answer(true).io)) == LoopTop(held) by {
      var none: seq<Msg> := [];
      assert none + none == none;
    }
    hide Forward, AfterPlan;
    Walks(None, [], LoopForward(held, SYNC), Answer(true), Go(LoopTop(held)), []);
    GarbledFrameCrashes(held);
    var s := Single(None, [], Pc.Crashed);
    assert AtRest(s) && Avail(ENV, s, KEY) + IdleLen(s, KEY) == 0;
  }
}
