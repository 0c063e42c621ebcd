// The transaction loops inside the interleaved system are runs of transaction_loop: each task's
// own history, read off the steps that it takes, is that of a run.

module PoolLoops {
  import opened Prelude
  import opened Frames
  import opened Backends
  import opened Pool
  import opened TransactionLoop
  import opened TransactionTheorems
  import opened TransactionAnswers
  import opened TransactionDriver
  import opened PoolSystem

  // ---- What a task is seen to do ----

  /**
   * What a task has been seen to do since it entered transaction_loop: the inputs of its
   * iterations with the backends that the pool gave it, what has happened in order, and the
   * reset behind the loop once that has been reached.
   */
  datatype History =
    | Outside
    | Inside(start: nat, turns: seq<Turn>, log: seq<Entry>, last: Option<ResetIo>)

  /**
   * The call to the pool that a step begins, or the end of acquire_backend, as far as program
   * counters tell: `release` starts at RelAge, `cancel` at RetLookup, unless that is the end of
   * a release or follows a create_backend that failed.
   */
  function CallSeen(pc: Pc, next: Pc): seq<Entry> {
    match next
    case LoopForward(l, _) => if l.server.Some? && !pc.LoopForward? then [Acquired(l.server.value)] else []
    case RelAge(b, _) => [Released(b)]
    case RetLookup(_, _) => if pc.RelDrop? then [] else if pc.Creating? then [CreateFailed] else [Cancelled]
    case Crashed => if pc.Creating? then [CreatePanicked] else []
    case _ => []
  }

  /** What a step does with messages. */
  function MessagesSeen(cfg: Settings, now: nat, pc: Pc, c: Choice): seq<Entry> {
    match pc
    case LoopTop(l) =>
      var plan := OnEvent(cfg, l, Input(now, c.event, c.io));
      if plan.Ask? then [] else plan.log
    case LoopForward(l, m) => if l.server.Some? then Forward(cfg, l, m, now, c.io).log else []
    case _ => []
  }

  /** The iteration that a step completes, if it does. */
  function TurnSeen(now: nat, pc: Pc, next: Pc, c: Choice): seq<Turn> {
    match pc
    case LoopTop(_) => if next.AcqLookup? then [] else [Turn(Input(now, c.event, c.io), NotConnected)]
    case LoopForward(l, m) =>
      if l.server.Some? then [Turn(Input(now, FromClient(m), c.io), Connected(l.server.value))] else []
    case Creating(who, _) =>
      if who.Txn? && !next.LoopForward?
      then [Turn(Input(now, FromClient(who.m), c.io), if next.Crashed? then ConnectPanics else NotConnected)]
      else []
    case _ => []
  }

  /** The history after a step from `pc` to `next`. */
  function Recorded(cfg: Settings, now: nat, h: History, pc: Pc, next: Pc, c: Choice): History {
    if pc.Ready? && next.LoopTop? then Inside(now, [], [], None)
    else if h.Outside? then h
    else
      Inside(h.start, h.turns + TurnSeen(now, pc, next, c),
        h.log + MessagesSeen(cfg, now, pc, c) + CallSeen(pc, next),
        if pc.LoopExit? then Some(c.io.reset) else h.last)
  }

  /** The history of task `t` after the first `n` steps of a run. */
  function HistoryOf(env: Env, acts: seq<Act>, n: nat, t: nat): History
    requires n <= |acts|
  {
    if n == 0 then Outside
    else
      var s, h := StateAfter(env, acts, n - 1), HistoryOf(env, acts, n - 1, t);
      match acts[n - 1]
      case Run(u, c) =>
        if u == t && t < |s.tasks|
        then Recorded(env.settings, s.now, h, s.tasks[t].pc, Decide(env, s, t, c).pc, c)
        else h
      case _ => h
  }

  // ---- Where a task stands ----

  datatype Place =
    | Top(l: Loop)                   // at the top of its loop
    | Wanting(l: Loop, m: Msg)       // somewhere in acquire_backend
    | Holding(l: Loop, m: Msg)       // with a backend just acquired
    | GivingBack(l: Loop)            // somewhere in release or cancel, to come back to the loop
    | Leaving(l: Loop)               // just behind its loop
    | Behind                         // further on, or ended
    | Elsewhere

  function PlaceOfWho(who: Who): Place {
    match who
    case Txn(l, m) => Wanting(l, m)
    case _ => Elsewhere
  }

  function PlaceOfThen(next: Then): Place {
    match next
    case ThenLoop(l) => GivingBack(l.(server := None))
    case ThenWarmUp => Behind
    case _ => Elsewhere
  }

  function PlaceOf(pc: Pc): Place {
    match pc
    case AcqLookup(who) => PlaceOfWho(who)
    case AcqInsert(who) => PlaceOfWho(who)
    case AcqLock(who, _) => PlaceOfWho(who)
    case AcqPop(who, _) => PlaceOfWho(who)
    case AcqIdleCheck(who, _, _) => PlaceOfWho(who)
    case AcqAgeCheck(who, _, _) => PlaceOfWho(who)
    case AcqRefund(who, _) => PlaceOfWho(who)
    case AcqBlocked(who, _) => PlaceOfWho(who)
    case Creating(who, _) => PlaceOfWho(who)
    case LoopForward(l, m) => Holding(l, m)
    case LoopTop(l) => Top(l)
    case LoopExit(l) => Leaving(l)
    case RelAge(_, next) => PlaceOfThen(next)
    case RelLock(_, next) => PlaceOfThen(next)
    case RelDrop(_, next) => PlaceOfThen(next)
    case RetLookup(_, next) => PlaceOfThen(next)
    case RetInsert(_, next) => PlaceOfThen(next)
    case RetAdd(_, next, _) => PlaceOfThen(next)
    case Closing(_, next) => PlaceOfThen(next)
    case WarmLock => Behind
    case Spawning(_) => Behind
    case Done => Behind
    case Crashed => Behind
    case _ => Elsewhere
  }

  // ---- The run that a history is ----

  /** The run of transaction_loop on the inputs of the task, with the backends it was given. */
  function RunOf(cfg: Settings, h: History): Progress
    requires h.Inside?
  {
    After(cfg, TransactionLoop.Fresh(None, h.start), h.turns, |h.turns|)
  }

  function LastReset(h: History): ResetIo
    requires h.Inside?
  {
    match h.last case None => ResetIo(false, [], false) case Some(reset) => reset
  }

  /** stats_for is called before transaction_loop and not in it. */
  predicate StatsInLoop(pc: Pc) {
    (pc.StatsLookup? || pc.StatsInsert? || pc.StatsRead? || pc.StatsLock?) && pc.who.Txn?
  }

  /**
   * The history and the place of a task fit the run: at the top of its loop the task has the
   * locals and the log of the run, and so in acquire_backend, in release and in cancel; with a
   * backend just acquired, that is all the log has more; behind the loop the log is that of the
   * run and of what follows it, and the task was ended by a panic if that lost its permit.
   */
  predicate Follows(cfg: Settings, h: History, pc: Pc) {
    match h
    case Outside => (PlaceOf(pc).Behind? || PlaceOf(pc).Elsewhere?) && !StatsInLoop(pc)
    case Inside(_, _, log, _) =>
      var p := RunOf(cfg, h);
      match PlaceOf(pc)
      case Top(l) => p == Progress(l, Running, log)
      case Wanting(l, m) => p == Progress(l, Running, log) && l.server.None? && m.t != TERMINATE
      case Holding(l, m) =>
        && l.server.Some? && m.t != TERMINATE
        && p.loop == l.(server := None) && p.ending == Running && log == p.log + [Acquired(l.server.value)]
      case GivingBack(l) => p == Progress(l, Running, log)
      case Leaving(l) => p == Progress(l, Broke, log)
      case Behind =>
        && !p.ending.Running? && log == WholeLog(p, LastReset(h))
        && (pc.Crashed? <==> DiedHolding(p) || ExitGarbles(p, LastReset(h)))
      case Elsewhere => false
  }

  // ---- Every step of the task goes with the run ----

  lemma RunGrows(cfg: Settings, h: History, turn: Turn, log: seq<Entry>, last: Option<ResetIo>)
    requires h.Inside? && RunOf(cfg, h).ending.Running?
    ensures var p := RunOf(cfg, h);
      var q := Iterate(cfg, p.loop, turn);
      RunOf(cfg, Inside(h.start, h.turns + [turn], log, last)) == q.(log := p.log + q.log)
  {
    hide Iterate;
    AfterAppend(cfg, TransactionLoop.Fresh(None, h.start), h.turns, turn);
  }

  /** What a plan comes to in an iteration and in a task. */
  lemma PlanIsSeen(cfg: Settings, l: Loop, input: Input)
    ensures var plan, q := OnEvent(cfg, l, input), Iterate(cfg, l, Turn(input, NotConnected));
      var next := AfterPlan(plan);
      && (plan.Ask? <==> next.AcqLookup?)
      && (plan.Ask? ==> plan.loop == l && l.server.None? && plan.m.t != TERMINATE)
      && (!plan.Ask? ==> q.loop == plan.loop && q.log == plan.log + CallSeen(LoopTop(l), next))
      && (plan.Stay? || plan.GiveBack? || plan.Abandon? ==> q.ending == Running)
      && (plan.Leave? ==> q.ending == Broke)
      && (plan.Crash? ==> q.ending == Ending.Crashed)
      && (plan.GiveBack? || plan.Abandon? ==> plan.loop.server.None?)
  {
    hide Track, Reset, Deallocate, RunsDry, CanTimeOut;
    var plan := OnEvent(cfg, l, input);
    assert !plan.Ask? ==> plan.log + [] == plan.log;
  }

  lemma TopFollows(cfg: Settings, now: nat, h: History, l: Loop, c: Choice)
    requires Follows(cfg, h, LoopTop(l))
    ensures var next := AfterPlan(OnEvent(cfg, l, Input(now, c.event, c.io)));
      Follows(cfg, Recorded(cfg, now, h, LoopTop(l), next, c), next)
  {
    hide OnEvent, Iterate, FarewellLog, After;
    var pc, input := LoopTop(l), Input(now, c.event, c.io);
    var plan := OnEvent(cfg, l, input);
    var next := AfterPlan(plan);
    PlanIsSeen(cfg, l, input);
    if plan.Ask? {
      assert h.log + [] + [] == h.log && h.turns + [] == h.turns;
    } else {
      var log := h.log + plan.log + CallSeen(pc, next);
      assert log == h.log + (plan.log + CallSeen(pc, next));
      RunGrows(cfg, h, Turn(input, NotConnected), log, h.last);
      if plan.GiveBack? || plan.Abandon? {
        assert plan.loop.(server := None) == plan.loop;
      }
      assert log + [] == log;
    }
  }

  /** The last step of acquire_backend. */
  lemma GrantFollows(cfg: Settings, now: nat, h: History, pc: Pc, l: Loop, m: Msg, b: Backend, c: Choice)
    requires Follows(cfg, h, pc) && PlaceOf(pc) == Wanting(l, m)
    ensures var next := LoopForward(l.(server := Some(b)), m);
      Follows(cfg, Recorded(cfg, now, h, pc, next, c), next)
  {
    hide OnEvent, Iterate, After, Forward, WholeLog, DiedHolding, ExitGarbles, LastReset;
    assert h.log + [] + [Acquired(b)] == h.log + [Acquired(b)] && h.turns + [] == h.turns;
    assert l.(server := Some(b)).(server := None) == l;
  }

  /** What a client message comes to that needs a backend and gets none. */
  lemma AskComesTo(cfg: Settings, l: Loop, m: Msg, now: nat, io: Io, c: Connection)
    requires l.server.None? && m.t != TERMINATE
    ensures var q := Iterate(cfg, l, Turn(Input(now, FromClient(m), io), c));
      match c
      case NotConnected => q == Progress(l, Broke, [CreateFailed])
      case ConnectPanics => q == Progress(l, CrashedConnecting, [CreatePanicked])
      case Connected(b) =>
        var plan := Forward(cfg, l.(server := Some(b)), m, now, io);
        q == Progress(plan.loop, if plan.Leave? then Broke else Running, [Acquired(b)] + plan.log)
  {
    hide Forward;
  }

  /** A run that ends because acquire_backend has got no backend. */
  lemma EndsInAcquire(cfg: Settings, now: nat, h: History, l: Loop, m: Msg, c: Choice, g: Connection, e: Entry)
    requires h.Inside? && RunOf(cfg, h) == Progress(l, Running, h.log) && l.server.None? && m.t != TERMINATE
    requires (g.NotConnected? && e.CreateFailed?) || (g.ConnectPanics? && e.CreatePanicked?)
    ensures var h1 := Inside(h.start, h.turns + [Turn(Input(now, FromClient(m), c.io), g)], h.log + [] + [e], h.last);
      && RunOf(cfg, h1) == Progress(l, if g.NotConnected? then Broke else CrashedConnecting, h1.log)
      && h1.log == WholeLog(RunOf(cfg, h1), LastReset(h1))
  {
    hide OnEvent, Iterate, After, Forward;
    var turn := Turn(Input(now, FromClient(m), c.io), g);
    RunGrows(cfg, h, turn, h.log + [] + [e], h.last);
    AskComesTo(cfg, l, m, now, c.io, g);
    assert h.log + [] + [e] == h.log + [e] && h.log + [e] + [] == h.log + [e];
  }

  lemma NoGrantFollows(cfg: Settings, now: nat, h: History, since: nat, l: Loop, m: Msg, c: Choice)
    requires Follows(cfg, h, Creating(Txn(l, m), since))
    ensures var pc, next := Creating(Txn(l, m), since), AfterFailedCreate(Txn(l, m));
      && Follows(cfg, Recorded(cfg, now, h, pc, next, c), next)
      && Follows(cfg, Recorded(cfg, now, h, pc, Pc.Crashed, c), Pc.Crashed)
  {
    hide RunOf, WholeLog, LastReset;
    EndsInAcquire(cfg, now, h, l, m, c, NotConnected, CreateFailed);
    EndsInAcquire(cfg, now, h, l, m, c, ConnectPanics, CreatePanicked);
  }

  lemma HoldingFollows(cfg: Settings, now: nat, h: History, l: Loop, m: Msg, c: Choice)
    requires Follows(cfg, h, LoopForward(l, m))
    ensures l.server.Some?
    ensures var next := AfterPlan(Forward(cfg, l, m, now, c.io));
      Follows(cfg, Recorded(cfg, now, h, LoopForward(l, m), next, c), next)
  {
    hide OnEvent, Iterate, After, Track, FarewellLog;
    var b := l.server.value;
    var plan := Forward(cfg, l, m, now, c.io);
    var p := RunOf(cfg, h);
    assert p.loop.(server := Some(b)) == l;
    AskComesTo(cfg, p.loop, m, now, c.io, Connected(b));
    RunGrows(cfg, h, Turn(Input(now, FromClient(m), c.io), Connected(b)), h.log + plan.log + [], h.last);
    assert h.log + plan.log + [] == p.log + ([Acquired(b)] + plan.log);
  }

  lemma LeavingFollows(cfg: Settings, now: nat, h: History, l: Loop, c: Choice)
    requires Follows(cfg, h, LoopExit(l))
    ensures var next := AfterExit(l, c.io.reset);
      Follows(cfg, Recorded(cfg, now, h, LoopExit(l), next, c), next)
  {
    hide OnEvent, Iterate, After, Forward, Reset, MeetsGarble, MeetsReady;
    if l.server.Some? {
      ResetSucceedsExactly(l.server.value, c.io.reset);
    }
    var next := AfterExit(l, c.io.reset);
    assert h.turns + [] == h.turns;
    assert CallSeen(LoopExit(l), next) == FarewellLog(l, c.io.reset);
    assert h.log + [] + FarewellLog(l, c.io.reset) == h.log + FarewellLog(l, c.io.reset);
  }

  /** A step that is nothing to the loop. */
  lemma NothingSeen(cfg: Settings, now: nat, h: History, pc: Pc, next: Pc, c: Choice)
    requires Follows(cfg, h, pc) && PlaceOf(next) == PlaceOf(pc)
    requires PlaceOf(pc).Wanting? || PlaceOf(pc).GivingBack? || PlaceOf(pc).Behind?
    requires h.Inside? ==>
      CallSeen(pc, next) == [] && TurnSeen(now, pc, next, c) == [] && (next.Crashed? <==> pc.Crashed?)
    ensures Follows(cfg, Recorded(cfg, now, h, pc, next, c), next)
  {
    hide After, WholeLog, OnEvent, Forward;
    if h.Inside? {
      assert h.log + [] + [] == h.log && h.turns + [] == h.turns;
    }
  }

  /** Back at the top of the loop. */
  lemma ResumeFollows(cfg: Settings, now: nat, h: History, pc: Pc, next: Then, c: Choice)
    requires Follows(cfg, h, pc) && PlaceOf(pc) == PlaceOfThen(next)
    requires pc.RelLock? || pc.RetAdd? || pc.Closing?
    ensures Follows(cfg, Recorded(cfg, now, h, pc, Resume(next), c), Resume(next))
  {
    hide After, WholeLog, OnEvent, Forward;
    if h.Inside? {
      assert h.log + [] + [] == h.log && h.turns + [] == h.turns;
    }
  }

  lemma EntryFollows(cfg: Settings, now: nat, h: History, c: Choice)
    ensures var next := LoopTop(TransactionLoop.Fresh(None, now));
      Follows(cfg, Recorded(cfg, now, h, Ready, next, c), next)
  {
  }

  /** Whatever step a task takes, its history goes on with the run. */
  lemma StepFollows(env: Env, s: State, t: nat, c: Choice, h: History)
    requires t < |s.tasks| && Follows(env.settings, h, s.tasks[t].pc)
    ensures var pc, next := s.tasks[t].pc, Decide(env, s, t, c).pc;
      Follows(env.settings, Recorded(env.settings, s.now, h, pc, next, c), next)
  {
    hide Follows, Recorded, Decide;
    var cfg, now, pc, next := env.settings, s.now, s.tasks[t].pc, Decide(env, s, t, c).pc;
    NextOf(env, s, t, c);
    if pc.LoopTop? {
      TopFollows(cfg, now, h, pc.loop, c);
    } else if pc.LoopForward? {
      HoldingFollows(cfg, now, h, pc.loop, pc.m, c);
    } else if pc.LoopExit? {
      LeavingFollows(cfg, now, h, pc.loop, c);
    } else if pc.Ready? && next.LoopTop? {
      EntryFollows(cfg, now, h, c);
    } else if PlaceOf(pc).Wanting? && EndsAcquire(pc, next) {
      GrantStepFollows(env, s, t, c, h);
    } else if EndsReturn(pc, next) {
      ReturnStepFollows(env, s, t, c, h);
    } else {
      OtherStepFollows(env, s, t, c, h);
    }
  }

  /** The steps of the loop itself. */
  lemma NextOf(env: Env, s: State, t: nat, c: Choice)
    requires t < |s.tasks|
    ensures var pc, next := s.tasks[t].pc, Decide(env, s, t, c).pc;
      && (pc.LoopTop? ==> next == AfterPlan(OnEvent(env.settings, pc.loop, Input(s.now, c.event, c.io))))
      && (pc.LoopForward? && pc.loop.server.Some? ==>
            next == AfterPlan(Forward(env.settings, pc.loop, pc.m, s.now, c.io)))
      && (pc.LoopExit? ==> next == AfterExit(pc.loop, c.io.reset))
      && (pc.Ready? && next.LoopTop? ==> next == LoopTop(TransactionLoop.Fresh(None, s.now)))
  {
    hide OnEvent, Forward, AfterPlan, AfterExit;
  }

  predicate EndsAcquire(pc: Pc, next: Pc) {
    pc.Creating? || (pc.AcqAgeCheck? && !next.AcqRefund?)
  }

  predicate EndsReturn(pc: Pc, next: Pc) {
    (pc.RelLock? && !next.RelLock? && !next.RelDrop?) || pc.RetAdd? || pc.Closing?
  }

  lemma GrantStepFollows(env: Env, s: State, t: nat, c: Choice, h: History)
    requires t < |s.tasks| && Follows(env.settings, h, s.tasks[t].pc)
    requires var pc, next := s.tasks[t].pc, Decide(env, s, t, c).pc;
      PlaceOf(pc).Wanting? && EndsAcquire(pc, next)
    ensures var pc, next := s.tasks[t].pc, Decide(env, s, t, c).pc;
      Follows(env.settings, Recorded(env.settings, s.now, h, pc, next, c), next)
  {
    hide Follows, Recorded, TooOld;
    var cfg, now, pc := env.settings, s.now, s.tasks[t].pc;
    var l, m := pc.who.loop, pc.who.m;
    if pc.AcqAgeCheck? {
      GrantFollows(cfg, now, h, pc, l, m, pc.ic.stream, c);
    } else if c.ok {
      GrantFollows(cfg, now, h, pc, l, m, Backend(|s.born|, pc.since, []), c);
    } else {
      NoGrantFollows(cfg, now, h, pc.since, l, m, c);
    }
  }

  lemma ReturnStepFollows(env: Env, s: State, t: nat, c: Choice, h: History)
    requires t < |s.tasks| && Follows(env.settings, h, s.tasks[t].pc)
    requires var pc, next := s.tasks[t].pc, Decide(env, s, t, c).pc;
      EndsReturn(pc, next)
    ensures var pc, next := s.tasks[t].pc, Decide(env, s, t, c).pc;
      Follows(env.settings, Recorded(env.settings, s.now, h, pc, next, c), next)
  {
    hide Follows, Recorded, CallSeen, TurnSeen, NewInner;
    var cfg, now, pc, next := env.settings, s.now, s.tasks[t].pc, Decide(env, s, t, c).pc;
    if pc.RetAdd? && next.Closing? {
      if PlaceOf(pc).Elsewhere? {
        OutsideStays(cfg, now, h, pc, next, c);
      } else {
        NothingIsSeen(now, pc, next, c);
        NothingSeen(cfg, now, h, pc, next, c);
      }
    } else {
      ResumeFollows(cfg, now, h, pc, pc.next, c);
    }
  }

  /** Between these program counters there is nothing to be seen. */
  lemma NothingIsSeen(now: nat, pc: Pc, next: Pc, c: Choice)
    requires !next.LoopForward? && !next.RelAge? && (next.RetLookup? ==> pc.RelDrop?)
    requires !pc.LoopTop? && !pc.LoopForward? && !pc.Creating?
    ensures CallSeen(pc, next) == [] && TurnSeen(now, pc, next, c) == []
  {
  }

  lemma OutsideStays(cfg: Settings, now: nat, h: History, pc: Pc, next: Pc, c: Choice)
    requires Follows(cfg, h, pc) && PlaceOf(pc).Elsewhere? && !(pc.Ready? && next.LoopTop?)
    requires Outwards(next)
    ensures Follows(cfg, Recorded(cfg, now, h, pc, next, c), next)
  {
  }

  lemma NotStatsInLoop(cfg: Settings, h: History, pc: Pc)
    requires Follows(cfg, h, pc) && PlaceOf(pc).Elsewhere?
    ensures !StatsInLoop(pc)
  {
  }

  lemma OtherStepFollows(env: Env, s: State, t: nat, c: Choice, h: History)
    requires t < |s.tasks| && Follows(env.settings, h, s.tasks[t].pc)
    requires var pc, next := s.tasks[t].pc, Decide(env, s, t, c).pc;
      && !pc.LoopTop? && !pc.LoopForward? && !pc.LoopExit? && !(pc.Ready? && next.LoopTop?)
      && !(PlaceOf(pc).Wanting? && EndsAcquire(pc, next)) && !EndsReturn(pc, next)
    ensures var pc, next := s.tasks[t].pc, Decide(env, s, t, c).pc;
      Follows(env.settings, Recorded(env.settings, s.now, h, pc, next, c), next)
  {
    hide Follows, Recorded, Decide, CallSeen, TurnSeen;
    var cfg, now, pc, next := env.settings, s.now, s.tasks[t].pc, Decide(env, s, t, c).pc;
    match PlaceOf(pc)
    case Elsewhere =>
      NotStatsInLoop(cfg, h, pc);
      ElsewhereSteps(env, s, t, c);
      OutsideStays(cfg, now, h, pc, next, c);
    case Wanting(_, _) =>
      WantingSteps(env, s, t, c);
      NothingIsSeen(now, pc, next, c);
      NothingSeen(cfg, now, h, pc, next, c);
    case _ =>
      ReturningSteps(env, s, t, c);
      NothingIsSeen(now, pc, next, c);
      NothingSeen(cfg, now, h, pc, next, c);
  }

  predicate Outwards(pc: Pc) {
    (PlaceOf(pc).Behind? || PlaceOf(pc).Elsewhere?) && !StatsInLoop(pc)
  }

  /** Outside transaction_loop a task stays outside but for the step that enters it. */
  lemma ElsewhereSteps(env: Env, s: State, t: nat, c: Choice)
    requires t < |s.tasks| && PlaceOf(s.tasks[t].pc).Elsewhere? && !StatsInLoop(s.tasks[t].pc)
    requires var pc, next := s.tasks[t].pc, Decide(env, s, t, c).pc;
      !(pc.Ready? && next.LoopTop?) && !EndsReturn(pc, next)
    ensures Outwards(Decide(env, s, t, c).pc)
  {
    hide Decide, PlaceOf;
    var pc := s.tasks[t].pc;
    if pc.RelAge? || pc.RelLock? || pc.RelDrop? || pc.RetLookup? || pc.RetInsert? {
      ReturningElsewhere(env, s, t, c);
    } else if pc.Announce? || pc.Relaying? || pc.Ready? || pc.TotalStart? || pc.TotalLock? || pc.TotalScan?
      || pc.Leaked? || pc.Reported? {
      UsingElsewhere(env, s, t, c);
    } else {
      AcquiringElsewhere(env, s, t, c);
    }
  }

  lemma ReturningElsewhere(env: Env, s: State, t: nat, c: Choice)
    requires t < |s.tasks| && PlaceOf(s.tasks[t].pc).Elsewhere? && !EndsReturn(s.tasks[t].pc, Decide(env, s, t, c).pc)
    requires var pc := s.tasks[t].pc; pc.RelAge? || pc.RelLock? || pc.RelDrop? || pc.RetLookup? || pc.RetInsert?
    ensures Outwards(Decide(env, s, t, c).pc)
  {
    hide ReadLocked, Elapsed, SemIndex, NewInner;
  }

  lemma UsingElsewhere(env: Env, s: State, t: nat, c: Choice)
    requires t < |s.tasks| && !(s.tasks[t].pc.Ready? && Decide(env, s, t, c).pc.LoopTop?)
    requires var pc := s.tasks[t].pc;
      pc.Announce? || pc.Relaying? || pc.Ready? || pc.TotalStart? || pc.TotalLock? || pc.TotalScan? || pc.Leaked?
      || pc.Reported?
    ensures Outwards(Decide(env, s, t, c).pc)
  {
    hide ScanOne, PoolSpec.Enumerates, Reset;
  }

  lemma AcquiringElsewhere(env: Env, s: State, t: nat, c: Choice)
    requires t < |s.tasks| && PlaceOf(s.tasks[t].pc).Elsewhere? && !StatsInLoop(s.tasks[t].pc)
    requires var pc := s.tasks[t].pc;
      && !pc.RelAge? && !pc.RelLock? && !pc.RelDrop? && !pc.RetLookup? && !pc.RetInsert? && !pc.RetAdd? && !pc.Closing?
      && !pc.Announce? && !pc.Relaying? && !pc.Ready? && !pc.TotalStart? && !pc.TotalLock? && !pc.TotalScan?
      && !pc.Leaked? && !pc.Reported?
    ensures Outwards(Decide(env, s, t, c).pc)
  {
    hide ReadLocked, Popped, IdleTooLong, TooOld, SemIndex, IdleLen, Capacity;
  }

  /** On the way through acquire a task wants the same. */
  lemma WantingSteps(env: Env, s: State, t: nat, c: Choice)
    requires t < |s.tasks| && PlaceOf(s.tasks[t].pc).Wanting?
    requires !EndsAcquire(s.tasks[t].pc, Decide(env, s, t, c).pc)
    ensures var pc, next := s.tasks[t].pc, Decide(env, s, t, c).pc;
      && PlaceOf(next) == PlaceOf(pc) && !pc.Crashed?
      && !next.LoopForward? && !next.RelAge? && !next.Crashed? && !next.RetLookup?
      && !pc.LoopTop? && !pc.LoopForward? && !pc.Creating?
  {
    hide ReadLocked, Popped, IdleTooLong, TooOld, SemIndex, AfterFailedCreate;
  }

  /** On the way through release and cancel it is to go on in the same place. */
  lemma ReturningSteps(env: Env, s: State, t: nat, c: Choice)
    requires t < |s.tasks| && (PlaceOf(s.tasks[t].pc).GivingBack? || PlaceOf(s.tasks[t].pc).Behind?)
    requires !EndsReturn(s.tasks[t].pc, Decide(env, s, t, c).pc)
    ensures var pc, next := s.tasks[t].pc, Decide(env, s, t, c).pc;
      && PlaceOf(next) == PlaceOf(pc) && (next.Crashed? <==> pc.Crashed?)
      && !next.LoopForward? && !next.RelAge? && (next.RetLookup? ==> pc.RelDrop?)
      && !pc.LoopTop? && !pc.LoopForward? && !pc.Creating?
  {
    hide ReadLocked, SemIndex, Elapsed, IdleLen, ResolveLimits, NewInner;
  }

  // ---- Every history is that of a run ----

  /**
   * Wherever a task is inside transaction_loop or behind it, in any state that any run of the
   * interleaved system reaches, what it has been seen to do is what the loop does by itself on
   * the same inputs with the backends that the pool gave the task.
   */
  lemma {:induction false} EveryLoopIsARun(env: Env, acts: seq<Act>, n: nat, t: nat)
    requires n <= |acts|
    ensures var s, h := StateAfter(env, acts, n), HistoryOf(env, acts, n, t);
      if t < |s.tasks| then Follows(env.settings, h, s.tasks[t].pc) else h.Outside?
    decreases n
  {
    hide Follows, Decide, Recorded;
    if n > 0 {
      var before := StateAfter(env, acts, n - 1);
      EveryLoopIsARun(env, acts, n - 1, t);
      match acts[n - 1]
      case Run(u, c) =>
        if u == t && t < |before.tasks| {
          StepFollows(env, before, t, c, HistoryOf(env, acts, n - 1, t));
        } else {
          NewTaskFollows(env.settings, WarmUp);
        }
      case _ =>
        NewTaskFollows(env.settings, Session);
        NewTaskFollows(env.settings, Initial);
    }
  }

  lemma NewTaskFollows(cfg: Settings, who: Who)
    requires !who.Txn?
    ensures Follows(cfg, Outside, StatsLookup(who)) && Follows(cfg, Outside, AcqLookup(who))
    ensures Follows(cfg, Outside, TotalStart)
  {
  }

  // ---- What this means for every task in every interleaving ----

  /** A turn of the task, or the reset behind its loop, met a malformed frame with a permit in hand. */
  predicate HistoryGarbles(cfg: Settings, h: History)
    requires h.Inside?
  {
    || RunGarbles(cfg, TransactionLoop.Fresh(None, h.start), h.turns, |h.turns|)
    || ExitGarbles(RunOf(cfg, h), LastReset(h))
  }

  /** The task is inside its loop, and not in a call to the pool. */
  predicate InLoop(pc: Pc) {
    pc.LoopTop? || pc.LoopExit?
  }

  /**
   * A task in its loop holds what its own log says; one that is behind its loop has matched
   * each acquire by one release of that backend or one cancel, if and only if no turn of its
   * own, and not the reset behind its loop, met a malformed frame with a permit in hand.
   */
  lemma TaskHoldsWhatItAcquired(env: Env, acts: seq<Act>, n: nat, t: nat)
    requires n <= |acts| && t < |StateAfter(env, acts, n).tasks|
    ensures var pc, h := StateAfter(env, acts, n).tasks[t].pc, HistoryOf(env, acts, n, t);
      && (InLoop(pc) ==> h.Inside? && Fold(Hold, Nothing, h.log) == TransactionTheorems.HeldBy(pc.loop, Running))
      && (h.Inside? && PlaceOf(pc).Behind? ==>
            var garbled := HistoryGarbles(env.settings, h);
            (Fold(Hold, Nothing, h.log) == Nothing <==> !garbled) && (pc.Crashed? <==> garbled))
  {
    hide StateAfter, HistoryOf, After, Fold, Hold, WholeLog, DiedHolding, ExitGarbles, RunGarbles;
    var pc, h := StateAfter(env, acts, n).tasks[t].pc, HistoryOf(env, acts, n, t);
    EveryLoopIsARun(env, acts, n, t);
    if h.Inside? {
      var l := TransactionLoop.Fresh(None, h.start);
      RunHoldsWhatItAcquired(env.settings, l, h.turns, |h.turns|);
      if PlaceOf(pc).Behind? {
        RunDiesExactly(env.settings, l, h.turns, |h.turns|);
        EveryExitHoldsNothingExactly(env.settings, l, h.turns, |h.turns|, LastReset(h));
      }
    }
  }

  /** A task at the top of its loop tracks the names that its own log says it should. */
  lemma TaskTracksOpenNames(env: Env, acts: seq<Act>, n: nat, t: nat)
    requires n <= |acts| && t < |StateAfter(env, acts, n).tasks|
    requires InLoop(StateAfter(env, acts, n).tasks[t].pc)
    ensures HistoryOf(env, acts, n, t).Inside?
    ensures StateAfter(env, acts, n).tasks[t].pc.loop.prepared == OpenSinceReset(HistoryOf(env, acts, n, t).log)
  {
    hide StateAfter, HistoryOf, After, OpenSinceReset;
    var h := HistoryOf(env, acts, n, t);
    EveryLoopIsARun(env, acts, n, t);
    PreparedIsOpenSinceReset(env.settings, None, h.start, h.turns, |h.turns|);
  }

  /**
   * What the client of a task in its loop has been delivered since the last acquire is the
   * beginning of what was unread in the backend when the pool gave it out, followed by the
   * answers to what the client has sent; it is answers of its own only, if nothing was unread.
   */
  lemma TaskDeliversInOrder(env: Env, acts: seq<Act>, n: nat, t: nat)
    requires n <= |acts| && t < |StateAfter(env, acts, n).tasks|
    requires InLoop(StateAfter(env, acts, n).tasks[t].pc)
    ensures HistoryOf(env, acts, n, t).Inside?
    ensures var x := TenureOf(HistoryOf(env, acts, n, t).log);
      && PassedInOrder(x, StateAfter(env, acts, n).tasks[t].pc.loop, Running)
      && (Stale(x) == [] ==> x.delivered <= x.answers)
  {
    hide StateAfter, HistoryOf, After, TenureOf;
    var h := HistoryOf(env, acts, n, t);
    EveryLoopIsARun(env, acts, n, t);
    DeliveriesAreInOrder(env.settings, h.start, h.turns, |h.turns|);
    var x := TenureOf(h.log);
    assert Stale(x) == [] ==> Stale(x) + x.answers == x.answers;
  }

  /**
   * When the step of a task ends with the release of its backend after an idle ReadyForQuery,
   * that goes to the pool with nothing unread if and only if the task's own log says that this
   * was the one answer owed and that no statement was tracked.
   */
  lemma TaskReleasesCleanExactly(env: Env, acts: seq<Act>, n: nat, t: nat, c: Choice, b: Backend)
    requires n <= |acts| && t < |StateAfter(env, acts, n).tasks|
    requires var s := StateAfter(env, acts, n);
      && s.tasks[t].pc.LoopTop? && Orderly(s.tasks[t].pc.loop, c.io)
      && IsIdleTurn(MessagesSeen(env.settings, s.now, s.tasks[t].pc, c)
           + CallSeen(s.tasks[t].pc, Decide(env, s, t, c).pc), b)
    requires var h := HistoryOf(env, acts, n, t);
      h.Inside? && forall i :: 0 <= i < |h.turns| ==> WellAnswered(h.turns[i])
    ensures var h := HistoryOf(env, acts, n, t);
      b.unread == [] <==> Fold(Owe, 0, h.log) == 1 && OpenSinceReset(h.log) == []
  {
    hide StateAfter, HistoryOf, After, Fold, Owe, OpenSinceReset, OnEvent, Iterate, WellAnswered, Orderly, AfterPlan;
    var s, h := StateAfter(env, acts, n), HistoryOf(env, acts, n, t);
    var l, input := s.tasks[t].pc.loop, Input(s.now, c.event, c.io);
    EveryLoopIsARun(env, acts, n, t);
    NextOf(env, s, t, c);
    hide Decide;
    PlanIsSeen(env.settings, l, input);
    var turn := Turn(input, NotConnected);
    assert Iterate(env.settings, l, turn).log ==
      OnEvent(env.settings, l, input).log + CallSeen(LoopTop(l), Decide(env, s, t, c).pc);
    IdleReleaseCleanExactly(env.settings, h.start, h.turns, |h.turns|, turn, b);
  }

  /** The same for a release on an error outside a transaction. */
  lemma TaskErrorReleasesCleanExactly(env: Env, acts: seq<Act>, n: nat, t: nat, c: Choice, b: Backend)
    requires n <= |acts| && t < |StateAfter(env, acts, n).tasks|
    requires var s := StateAfter(env, acts, n);
      && s.tasks[t].pc.LoopTop? && Orderly(s.tasks[t].pc.loop, c.io)
      && IsErrorTurn(MessagesSeen(env.settings, s.now, s.tasks[t].pc, c)
           + CallSeen(s.tasks[t].pc, Decide(env, s, t, c).pc), b)
    requires var h := HistoryOf(env, acts, n, t);
      h.Inside? && forall i :: 0 <= i < |h.turns| ==> WellAnswered(h.turns[i])
    ensures b.unread == [] <==> Fold(Owe, 0, HistoryOf(env, acts, n, t).log) == 0
  {
    hide StateAfter, HistoryOf, After, Fold, Owe, OnEvent, Iterate, WellAnswered, Orderly, AfterPlan;
    var s, h := StateAfter(env, acts, n), HistoryOf(env, acts, n, t);
    var l, input := s.tasks[t].pc.loop, Input(s.now, c.event, c.io);
    EveryLoopIsARun(env, acts, n, t);
    NextOf(env, s, t, c);
    hide Decide;
    PlanIsSeen(env.settings, l, input);
    var turn := Turn(input, NotConnected);
    assert Iterate(env.settings, l, turn).log ==
      OnEvent(env.settings, l, input).log + CallSeen(LoopTop(l), Decide(env, s, t, c).pc);
    ErrorReleaseCleanExactly(env.settings, h.start, h.turns, |h.turns|, turn, b);
  }

  /** And for the release behind the loop. */
  lemma TaskExitReleasesCleanExactly(env: Env, acts: seq<Act>, n: nat, t: nat, c: Choice)
    requires n <= |acts| && t < |StateAfter(env, acts, n).tasks|
    requires var pc := StateAfter(env, acts, n).tasks[t].pc; pc.LoopExit? && pc.loop.server.Some?
    requires c.io.reset.sent && Complete(c.io.reset.reply)
    requires var h := HistoryOf(env, acts, n, t);
      h.Inside? && forall i :: 0 <= i < |h.turns| ==> WellAnswered(h.turns[i])
    ensures var next := Decide(env, StateAfter(env, acts, n), t, c).pc;
      && next.RelAge?
      && (next.b.unread == [] <==> Fold(Owe, 0, HistoryOf(env, acts, n, t).log) == 0)
  {
    hide StateAfter, HistoryOf, After, Fold, Owe, Iterate, WellAnswered, Reset, Complete;
    var s, h := StateAfter(env, acts, n), HistoryOf(env, acts, n, t);
    EveryLoopIsARun(env, acts, n, t);
    NextOf(env, s, t, c);
    hide Decide;
    ExitReleaseCleanExactly(env.settings, h.start, h.turns, |h.turns|, c.io.reset);
  }

  // ---- Transactions in the interleaved system ----

  predicate Extends(h: History, g: History) {
    g.Inside? ==> h.Inside? && h.start == g.start && g.turns <= h.turns && g.log <= h.log
  }

  lemma RecordedExtends(cfg: Settings, now: nat, h: History, pc: Pc, next: Pc, c: Choice)
    requires h.Inside? ==> !pc.Ready?
    ensures Extends(Recorded(cfg, now, h, pc, next, c), h)
  {
    hide MessagesSeen, CallSeen, TurnSeen;
  }

  lemma ExtendsAll(h: History, g: History, f: History)
    requires Extends(h, g) && Extends(g, f)
    ensures Extends(h, f)
  {
  }

  /** Once in its loop, a task only adds to its history. */
  lemma {:induction false} HistoryGrows(env: Env, acts: seq<Act>, a: nat, n: nat, t: nat)
    requires a <= n <= |acts|
    ensures Extends(HistoryOf(env, acts, n, t), HistoryOf(env, acts, a, t))
    decreases n
  {
    hide StateAfter, Decide, Recorded, Extends;
    var g, h := HistoryOf(env, acts, a, t), HistoryOf(env, acts, n, t);
    if a == n {
      ExtendsItself(g);
    } else {
      HistoryGrows(env, acts, a, n - 1, t);
      var s, before := StateAfter(env, acts, n - 1), HistoryOf(env, acts, n - 1, t);
      ExtendsItself(before);
      if acts[n - 1].Run? && acts[n - 1].t == t && t < |s.tasks| {
        if before.Inside? {
          NotReadyInside(env, acts, n - 1, t);
        }
        var c := acts[n - 1].c;
        RecordedExtends(env.settings, s.now, before, s.tasks[t].pc, Decide(env, s, t, c).pc, c);
      }
      ExtendsAll(h, before, g);
    }
  }

  lemma ExtendsItself(h: History)
    ensures Extends(h, h)
  {
  }

  lemma NotReadyInside(env: Env, acts: seq<Act>, n: nat, t: nat)
    requires n <= |acts| && HistoryOf(env, acts, n, t).Inside? && t < |StateAfter(env, acts, n).tasks|
    ensures !StateAfter(env, acts, n).tasks[t].pc.Ready?
  {
    hide After, StateAfter, HistoryOf;
    EveryLoopIsARun(env, acts, n, t);
  }

  /** What one history has more than an earlier one. */
  function Since(g: History, h: History): seq<Entry> {
    if g.Inside? && h.Inside? && |g.log| <= |h.log| then h.log[|g.log|..] else []
  }

  /** One run has the turns of another and more. */
  lemma LongerRunSticks(cfg: Settings, g: History, h: History, id: nat)
    requires g.Inside? && h.Inside? && h.start == g.start && g.turns <= h.turns
    requires InTransactionOn(RunOf(cfg, g).loop, id)
    ensures RunOf(cfg, g).log <= RunOf(cfg, h).log
    ensures NoIdleDelivery(RunOf(cfg, h).log[|RunOf(cfg, g).log|..]) ==>
      InTransactionOn(RunOf(cfg, h).loop, id) && StaysWith(RunOf(cfg, h).log[|RunOf(cfg, g).log|..], id)
  {
    hide After, NoIdleDelivery, StaysWith;
    var l := TransactionLoop.Fresh(None, h.start);
    AfterPrefix(cfg, l, g.turns, h.turns, |g.turns|);
    LogOnlyGrows(cfg, l, h.turns, |g.turns|, |h.turns|);
    if NoIdleDelivery(RunOf(cfg, h).log[|RunOf(cfg, g).log|..]) {
      TransactionSticks(cfg, l, h.turns, |g.turns|, |h.turns|, id);
    }
  }

  /** The one call to the pool behind the loop. */
  predicate IsFarewell(e: Entry, id: nat) {
    e.Cancelled? || (e.Released? && e.b.id == id)
  }

  /**
   * From any state in which a task is in a transaction on a backend, through any interleaving
   * of any tasks, for as long as it is seen to deliver no idle ReadyForQuery: it is in its loop
   * and in the transaction on that backend, or has left the loop for good; all that its client
   * has sent has gone to that backend, and it has made no call to the pool, unless it has left
   * the loop and the call is the farewell.
   */
  lemma TaskSticksToTransaction(env: Env, acts: seq<Act>, a: nat, n: nat, t: nat, id: nat)
    requires a <= n <= |acts| && t < |StateAfter(env, acts, a).tasks|
    requires var pc := StateAfter(env, acts, a).tasks[t].pc; InLoop(pc) && InTransactionOn(pc.loop, id)
    requires NoIdleDelivery(Since(HistoryOf(env, acts, a, t), HistoryOf(env, acts, n, t)))
    ensures t < |StateAfter(env, acts, n).tasks|
    ensures var g, h := HistoryOf(env, acts, a, t), HistoryOf(env, acts, n, t);
      g.Inside? && h.Inside? && h.log == g.log + Since(g, h)
    ensures var pc := StateAfter(env, acts, n).tasks[t].pc;
      var log := Since(HistoryOf(env, acts, a, t), HistoryOf(env, acts, n, t));
      || (InLoop(pc) && InTransactionOn(pc.loop, id) && StaysWith(log, id))
      || (PlaceOf(pc).Behind? && StaysWith(log, id))
      || (PlaceOf(pc).Behind? && log != [] && IsFarewell(log[|log| - 1], id) && StaysWith(log[..|log| - 1], id))
  {
    hide StateAfter, HistoryOf, After, InTransactionOn;
    var cfg, g, h := env.settings, HistoryOf(env, acts, a, t), HistoryOf(env, acts, n, t);
    EveryLoopIsARun(env, acts, a, t);
    EveryLoopIsARun(env, acts, n, t);
    HistoryGrows(env, acts, a, n, t);
    LongerRunSticks(cfg, g, h, id);
    StickingPlaces(cfg, g, h, StateAfter(env, acts, n).tasks[t].pc, id);
  }

  /** What the log of a task has more than that of its run: one entry at the most. */
  function Beyond(cfg: Settings, h: History, pc: Pc): (more: seq<Entry>)
    requires h.Inside? && Follows(cfg, h, pc)
    ensures |more| <= 1
  {
    match PlaceOf(pc)
    case Holding(l, _) => [Acquired(l.server.value)]
    case Behind => if RunOf(cfg, h).ending.Broke? then FarewellLog(RunOf(cfg, h).loop, LastReset(h)) else []
    case _ => []
  }

  lemma LogIsRunAndBeyond(cfg: Settings, h: History, pc: Pc)
    requires h.Inside? && Follows(cfg, h, pc)
    ensures h.log == RunOf(cfg, h).log + Beyond(cfg, h, pc)
  {
    hide After, Reset;
  }

  lemma SinceAndBeyond(before: seq<Entry>, log: seq<Entry>, more: seq<Entry>)
    requires before <= log
    ensures (log + more)[|before|..] == log[|before|..] + more
  {
  }

  /** The run is still in the transaction, so the task is in its loop or behind it. */
  lemma InTransactionInLoop(cfg: Settings, h: History, pc: Pc, id: nat)
    requires h.Inside? && Follows(cfg, h, pc) && InTransactionOn(RunOf(cfg, h).loop, id)
    ensures PlaceOf(pc).Behind? || (InLoop(pc) && InTransactionOn(pc.loop, id) && Beyond(cfg, h, pc) == [])
    ensures var more := Beyond(cfg, h, pc); more != [] ==> IsFarewell(more[0], id)
  {
    hide After;
  }

  lemma StickingPlaces(cfg: Settings, g: History, h: History, pc: Pc, id: nat)
    requires g.Inside? && h.Inside? && Follows(cfg, h, pc) && g.log <= h.log && g.log <= RunOf(cfg, h).log
    requires NoIdleDelivery(h.log[|g.log|..])
    requires var since := RunOf(cfg, h).log[|g.log|..];
      NoIdleDelivery(since) ==> InTransactionOn(RunOf(cfg, h).loop, id) && StaysWith(since, id)
    ensures var log := h.log[|g.log|..];
      || (InLoop(pc) && InTransactionOn(pc.loop, id) && StaysWith(log, id))
      || (PlaceOf(pc).Behind? && StaysWith(log, id))
      || (PlaceOf(pc).Behind? && log != [] && IsFarewell(log[|log| - 1], id) && StaysWith(log[..|log| - 1], id))
  {
    hide After, NoIdleDelivery, StaysWith, InTransactionOn, IsFarewell, Follows, Beyond, PlaceOf, InLoop, RunOf;
    var p, log, more := RunOf(cfg, h), h.log[|g.log|..], Beyond(cfg, h, pc);
    var since := p.log[|g.log|..];
    LogIsRunAndBeyond(cfg, h, pc);
    SinceAndBeyond(g.log, p.log, more);
    NoIdleSplit(since, more, log);
    InTransactionInLoop(cfg, h, pc, id);
    if more == [] {
      assert log == since;
    } else {
      assert log[..|log| - 1] == since && log[|log| - 1] == more[0];
    }
  }
}
