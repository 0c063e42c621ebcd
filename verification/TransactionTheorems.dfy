// What transaction_loop keeps over every finite run of events.

module TransactionTheorems {
  import opened Prelude
  import opened Frames
  import opened Backends
  import opened Messages
  import opened Text
  import opened TransactionLoop

  // ---- Reading a log from left to right ----

  function Fold<A>(f: (A, Entry) -> A, a: A, log: seq<Entry>): A
    decreases |log|
  {
    if log == [] then a else Fold(f, f(a, log[0]), log[1..])
  }

  lemma {:induction false} FoldAppend<A>(f: (A, Entry) -> A, a: A, x: seq<Entry>, y: seq<Entry>)
    ensures Fold(f, a, x + y) == Fold(f, Fold(f, a, x), y)
    decreases |x|
  {
    if x == [] {
      assert x + y == y;
    } else {
      assert (x + y)[1..] == x[1..] + y;
      FoldAppend(f, f(a, x[0]), x[1..], y);
    }
  }

  /** An iteration adds at most three entries. */
  lemma FoldThree<A>(f: (A, Entry) -> A, a: A, log: seq<Entry>)
    ensures |log| == 0 ==> Fold(f, a, log) == a
    ensures |log| == 1 ==> Fold(f, a, log) == f(a, log[0])
    ensures |log| == 2 ==> Fold(f, a, log) == f(f(a, log[0]), log[1])
    ensures |log| == 3 ==> Fold(f, a, log) == f(f(f(a, log[0]), log[1]), log[2])
  {
    if 2 <= |log| <= 3 {
      var tail := log[1..];
      assert tail[1..] == log[2..];
      assert Fold(f, f(a, log[0]), tail) == Fold(f, f(f(a, log[0]), tail[0]), log[2..]);
      if |log| == 3 {
        assert log[2..][1..] == [];
      }
    }
  }

  /** Whatever each iteration keeps in step with its entries, the whole run does. */
  lemma {:induction false} RunFolds<A>(f: (A, Entry) -> A, view: (Loop, Ending) -> A,
      cfg: Settings, l: Loop, turns: seq<Turn>, n: nat)
    requires n <= |turns|
    requires forall i, k :: 0 <= i < n ==>
      var q := Iterate(cfg, k, turns[i]); Fold(f, view(k, Running), q.log) == view(q.loop, q.ending)
    ensures var p := After(cfg, l, turns, n); Fold(f, view(l, Running), p.log) == view(p.loop, p.ending)
  {
    hide Iterate;
    if n > 0 {
      RunFolds(f, view, cfg, l, turns, n - 1);
      var p := After(cfg, l, turns, n - 1);
      if p.ending.Running? {
        FoldAppend(f, view(l, Running), p.log, Iterate(cfg, p.loop, turns[n - 1]).log);
      }
    }
  }

  // ---- Every acquire is matched ----

  /**
   * What a log says is held: nothing, one backend, a permit without one, or that the calls do
   * not fit together.
   */
  datatype Holding = Nothing | One(id: nat) | Bare | Broken

  /** A backend is acquired with empty hands; what is held is released as itself, or cancelled. */
  function Hold(h: Holding, e: Entry): Holding {
    match e
    case Acquired(b) => if h == Nothing then One(b.id) else Broken
    case Released(b) => if h == One(b.id) then Nothing else Broken
    case Cancelled => if h.One? then Nothing else Broken
    case CreateFailed => if h == Nothing then Nothing else Broken
    case CreatePanicked => if h == Nothing then Bare else Broken
    case _ => h
  }

  function HeldBy(l: Loop, ending: Ending): Holding {
    if ending.CrashedConnecting? then Bare
    else match l.server case None => Nothing case Some(b) => One(b.id)
  }

  lemma IterationKeepsHolding(cfg: Settings, l: Loop, turn: Turn)
    ensures var q := Iterate(cfg, l, turn);
      Fold(Hold, HeldBy(l, Running), q.log) == HeldBy(q.loop, q.ending)
  {
    hide Fold, Track, Deallocate, RunsDry, Reset, CanTimeOut, Contains;
    FoldThree(Hold, HeldBy(l, Running), Iterate(cfg, l, turn).log);
  }

  /**
   * In every run from any start, the calls to the pool fit together, and the loop holds a
   * permit exactly while `server` is `Some`, the one it acquired last, or if create_backend
   * has panicked.
   */
  lemma RunHoldsWhatItAcquired(cfg: Settings, l: Loop, turns: seq<Turn>, n: nat)
    requires n <= |turns|
    ensures var p := After(cfg, l, turns, n); Fold(Hold, HeldBy(l, Running), p.log) == HeldBy(p.loop, p.ending)
  {
    hide Iterate, HeldBy, Hold;
    forall i, k | 0 <= i < n
      ensures var q := Iterate(cfg, k, turns[i]);
        Fold(Hold, HeldBy(k, Running), q.log) == HeldBy(q.loop, q.ending)
    {
      IterationKeepsHolding(cfg, k, turns[i]);
    }
    RunFolds(Hold, HeldBy, cfg, l, turns, n);
  }

  // ---- What loses a permit ----

  /**
   * The first unread message is passed on, and on the way to the release a malformed frame
   * comes: where the reset looks for its ReadyForQuery, or where a DEALLOCATE finds no answer.
   */
  predicate DeliveryGarbles(l: Loop, io: Io)
    requires l.server.Some? && l.server.value.unread != []
  {
    var m, b := l.server.value.unread[0], l.server.value.(unread := l.server.value.unread[1..]);
    io.delivered &&
    if IsIdle(m) then
      || MeetsGarble(b, io.reset)
      || (MeetsReady(b, io.reset) && io.deallocGarbled
          && RunsDry(Reset(b, io.reset).1.unread, |l.prepared|, io.dealloc))
    else m.t == ERROR && !l.inTx && MeetsGarble(b, io.reset)
  }

  /**
   * With a permit in hand a turn meets a malformed frame: from the backend in create_backend,
   * from a client whose backend is held, from the held backend, or after a delivery.
   */
  predicate TurnGarbles(cfg: Settings, l: Loop, turn: Turn) {
    && !Overdue(cfg, l, turn.input.now) && CanHappen(cfg, l, turn.input.event)
    && match turn.input.event
       case FromClient(m) => l.server.None? && m.t != TERMINATE && turn.granted.ConnectPanics?
       case FromServer => DeliveryGarbles(l, turn.input.io)
       case ClientGarbled => l.server.Some?
       case ServerGarbled => true
       case _ => false
  }

  /** The run has ended in a panic of the loop with a permit in hand. */
  predicate DiedHolding(p: Progress) {
    p.ending.CrashedConnecting? || (p.ending.Crashed? && p.loop.server.Some?)
  }

  lemma ServerTurnDiesExactly(l: Loop, now: nat, io: Io)
    requires l.server.Some? && l.server.value.unread != []
    ensures var plan := OnServer(l, now, io);
      && (plan.Crash? ==> plan.loop.server.Some?)
      && (plan.Crash? <==> DeliveryGarbles(l, io))
  {
    hide Reset, Deallocate, RunsDry, MeetsReady, MeetsGarble;
    ResetSucceedsExactly(l.server.value.(unread := l.server.value.unread[1..]), io.reset);
  }

  lemma TurnDiesExactly(cfg: Settings, l: Loop, turn: Turn)
    ensures DiedHolding(Iterate(cfg, l, turn)) <==> TurnGarbles(cfg, l, turn)
  {
    hide OnServer, Forward, DeliveryGarbles, CanTimeOut, Overdue;
    if l.server.Some? && l.server.value.unread != [] {
      ServerTurnDiesExactly(l, turn.input.now, turn.input.io);
    }
  }

  /** One of the first `n` turns, taken while the loop runs, meets a malformed frame so. */
  predicate RunGarbles(cfg: Settings, l: Loop, turns: seq<Turn>, n: nat)
    requires n <= |turns|
  {
    exists i :: 0 <= i < n && GarblesAt(cfg, l, turns, i)
  }

  predicate GarblesAt(cfg: Settings, l: Loop, turns: seq<Turn>, i: nat)
    requires i < |turns|
  {
    After(cfg, l, turns, i).ending.Running? && TurnGarbles(cfg, After(cfg, l, turns, i).loop, turns[i])
  }

  lemma {:induction false} RunDiesExactly(cfg: Settings, l: Loop, turns: seq<Turn>, n: nat)
    requires n <= |turns|
    ensures DiedHolding(After(cfg, l, turns, n)) <==> RunGarbles(cfg, l, turns, n)
    decreases n
  {
    hide Iterate, TurnGarbles;
    if n > 0 {
      var p := After(cfg, l, turns, n - 1);
      RunDiesExactly(cfg, l, turns, n - 1);
      if p.ending.Running? {
        TurnDiesExactly(cfg, p.loop, turns[n - 1]);
      }
      assert RunGarbles(cfg, l, turns, n) <==>
        RunGarbles(cfg, l, turns, n - 1) || GarblesAt(cfg, l, turns, n - 1);
    }
  }

  /** The run has left the loop with a backend held, whose reset meets a malformed frame. */
  predicate ExitGarbles(p: Progress, reset: ResetIo) {
    p.ending.Broke? && p.loop.server.Some? && MeetsGarble(p.loop.server.value, reset)
  }

  /**
   * A run that has ended, with the code behind the loop if that was reached, holds nothing if
   * and only if neither a turn of it nor the reset behind the loop met a malformed frame with a
   * permit in hand; if one did, it still holds the permit it acquired last.
   */
  lemma EveryExitHoldsNothingExactly(cfg: Settings, l: Loop, turns: seq<Turn>, n: nat, reset: ResetIo)
    requires n <= |turns| && !After(cfg, l, turns, n).ending.Running?
    ensures var p := After(cfg, l, turns, n);
      var garbled := RunGarbles(cfg, l, turns, n) || ExitGarbles(p, reset);
      && (Fold(Hold, HeldBy(l, Running), WholeLog(p, reset)) == Nothing <==> !garbled)
      && (garbled ==> Fold(Hold, HeldBy(l, Running), WholeLog(p, reset)) == HeldBy(p.loop, p.ending))
  {
    hide Iterate, After, RunGarbles, Reset, MeetsGarble;
    var p := After(cfg, l, turns, n);
    RunHoldsWhatItAcquired(cfg, l, turns, n);
    RunDiesExactly(cfg, l, turns, n);
    if p.loop.server.Some? {
      ResetSucceedsExactly(p.loop.server.value, reset);
    }
    var last := if p.ending.Broke? then FarewellLog(p.loop, reset) else [];
    FoldAppend(Hold, HeldBy(l, Running), p.log, last);
    FoldThree(Hold, HeldBy(p.loop, p.ending), last);
  }

  // ---- Transactions stick to their backend ----

  predicate IsPoolCall(e: Entry) {
    e.Acquired? || e.CreateFailed? || e.CreatePanicked? || e.Released? || e.Cancelled?
  }

  predicate IsIdleDelivery(e: Entry) {
    e.Delivered? && IsIdle(e.m)
  }

  /** No call to the pool, and every message that is sent goes to this backend. */
  predicate StaysWith(log: seq<Entry>, id: nat) {
    forall i :: 0 <= i < |log| ==> !IsPoolCall(log[i]) && (log[i].Sent? ==> log[i].to == id)
  }

  predicate NoIdleDelivery(log: seq<Entry>) {
    forall i :: 0 <= i < |log| ==> !IsIdleDelivery(log[i])
  }

  predicate InTransactionOn(l: Loop, id: nat) {
    l.server.Some? && l.server.value.id == id && l.inTx
  }

  /** Delivering a ReadyForQuery with status 'T' is what puts the loop into a transaction. */
  lemma InBlockStarts(cfg: Settings, l: Loop, turn: Turn)
    requires var log := Iterate(cfg, l, turn).log;
      log != [] && log[|log| - 1].Delivered? && IsInBlock(log[|log| - 1].m)
    ensures var p := Iterate(cfg, l, turn);
      p.loop.server.Some? && InTransactionOn(p.loop, p.loop.server.value.id) && p.ending.Running?
  {
    hide Reset, Deallocate, RunsDry, CanTimeOut, Track;
  }

  lemma TransactionSticksOnce(cfg: Settings, l: Loop, id: nat, turn: Turn)
    requires InTransactionOn(l, id)
    requires NoIdleDelivery(Iterate(cfg, l, turn).log)
    ensures InTransactionOn(Iterate(cfg, l, turn).loop, id)
    ensures StaysWith(Iterate(cfg, l, turn).log, id)
    ensures turn.input.event.FromClient? && Iterate(cfg, l, turn).ending.Running? ==>
      Sent(id, turn.input.event.m, turn.input.io.reply) in Iterate(cfg, l, turn).log
  {
    hide Reset, Deallocate, RunsDry, CanTimeOut, StartsTransaction, Without, ParseStatementName, ParseCloseTarget;
    var log := Iterate(cfg, l, turn).log;
    assert log != [] ==> !IsIdleDelivery(log[0]);
  }

  /** What a run has added to its log since its first `a` turns. */
  function LogSince(cfg: Settings, l: Loop, turns: seq<Turn>, a: nat, n: nat): (log: seq<Entry>)
    requires a <= n <= |turns|
    ensures After(cfg, l, turns, a).log + log == After(cfg, l, turns, n).log
  {
    LogOnlyGrows(cfg, l, turns, a, n);
    After(cfg, l, turns, n).log[|After(cfg, l, turns, a).log|..]
  }

  /**
   * From any moment in a transaction on, for as long as no idle ReadyForQuery is delivered or
   * until the loop is left, the loop stays in the transaction, the pool is not called, and what
   * the client sends goes to the same backend.
   */
  lemma {:induction false} TransactionSticks(cfg: Settings, l: Loop, turns: seq<Turn>, a: nat, n: nat, id: nat)
    requires a <= n <= |turns|
    requires InTransactionOn(After(cfg, l, turns, a).loop, id)
    requires NoIdleDelivery(LogSince(cfg, l, turns, a, n))
    ensures InTransactionOn(After(cfg, l, turns, n).loop, id)
    ensures StaysWith(LogSince(cfg, l, turns, a, n), id)
    decreases n
  {
    hide Iterate;
    if a < n {
      var before, p := After(cfg, l, turns, a).log, After(cfg, l, turns, n - 1);
      LogOnlyGrows(cfg, l, turns, a, n - 1);
      if !p.ending.Running? {
        TransactionSticks(cfg, l, turns, a, n - 1, id);
      } else {
        var q := Iterate(cfg, p.loop, turns[n - 1]);
        var k := |before|;
        NoIdleSplit(p.log[k..], q.log, After(cfg, l, turns, n).log[k..]);
        TransactionSticks(cfg, l, turns, a, n - 1, id);
        TransactionSticksOnce(cfg, p.loop, id, turns[n - 1]);
      }
    }
  }

  lemma NoIdleSplit(a: seq<Entry>, b: seq<Entry>, whole: seq<Entry>)
    requires whole == a + b && NoIdleDelivery(whole)
    ensures NoIdleDelivery(a) && NoIdleDelivery(b)
  {
    assert forall i :: 0 <= i < |a| ==> a[i] == whole[i];
    assert forall i :: 0 <= i < |b| ==> b[i] == whole[|a| + i];
  }

  lemma {:induction false} LogOnlyGrows(cfg: Settings, l: Loop, turns: seq<Turn>, a: nat, n: nat)
    requires a <= n <= |turns|
    ensures After(cfg, l, turns, a).log <= After(cfg, l, turns, n).log
    decreases n
  {
    hide Iterate;
    if a < n {
      LogOnlyGrows(cfg, l, turns, a, n - 1);
    }
  }

  // ---- The tracked prepared statements ----

  /** The statement name that an entry adds to the list, if any. */
  function ParsedName(e: Entry): Option<bytes> {
    if e.Tracked? && e.m.t as int == 'P' as int && ParseStatementName(e.m.payload) != []
    then Some(ParseStatementName(e.m.payload)) else None
  }

  predicate Closes(e: Entry, name: bytes) {
    e.Tracked? && e.m.t as int == 'C' as int && ParseCloseTarget(e.m.payload).1 == name
  }

  /** What was logged after the last successful reset on an idle ReadyForQuery. */
  function SinceReset(log: seq<Entry>): seq<Entry> {
    if log == [] || log[|log| - 1].WasReset? then []
    else SinceReset(log[..|log| - 1]) + [log[|log| - 1]]
  }

  predicate ClosedIn(log: seq<Entry>, name: bytes) {
    exists i :: 0 <= i < |log| && Closes(log[i], name)
  }

  /** The names of the Parse messages that no later Close names, in order, with repetitions. */
  function Open(log: seq<Entry>): seq<bytes> {
    if log == [] then []
    else
      var name := ParsedName(log[0]);
      (if name.Some? && !ClosedIn(log[1..], name.value) then [name.value] else []) + Open(log[1..])
  }

  lemma WithoutAppend(a: seq<bytes>, b: seq<bytes>, name: bytes)
    ensures Without(a + b, name) == Without(a, name) + Without(b, name)
  {
    if a == [] {
      assert a + b == b;
    } else {
      assert (a + b)[1..] == a[1..] + b;
      WithoutAppend(a[1..], b, name);
    }
  }

  /** What one more entry does to the names that are open. */
  function OpenStep(names: seq<bytes>, e: Entry): seq<bytes> {
    if ParsedName(e).Some? then names + [ParsedName(e).value]
    else if e.Tracked? && e.m.t == CLOSE && ParseCloseTarget(e.m.payload).1 != []
    then Without(names, ParseCloseTarget(e.m.payload).1)
    else names
  }

  lemma ClosedInAppend(log: seq<Entry>, e: Entry, name: bytes)
    ensures ClosedIn(log + [e], name) <==> ClosedIn(log, name) || Closes(e, name)
  {
    var whole := log + [e];
    if ClosedIn(log, name) {
      var i :| 0 <= i < |log| && Closes(log[i], name);
      assert whole[i] == log[i];
    }
    if Closes(e, name) {
      assert whole[|log|] == e;
    }
  }

  lemma {:induction false} OpenAppend(log: seq<Entry>, e: Entry)
    ensures Open(log + [e]) == OpenStep(Open(log), e)
    decreases |log|
  {
    if log == [] {
      assert log + [e] == [e] && [e][1..] == [];
      assert Open([e]) == (if ParsedName(e).Some? then [ParsedName(e).value] else []) + Open([]);
    } else {
      var rest := log[1..];
      assert (log + [e])[1..] == rest + [e];
      OpenAppend(rest, e);
      var name := ParsedName(log[0]);
      var first := if name.Some? && !ClosedIn(rest, name.value) then [name.value] else [];
      if name.Some? {
        ClosedInAppend(rest, e, name.value);
        assert ParsedName(e).Some? ==> !Closes(e, name.value);
      }
      if e.Tracked? && e.m.t == CLOSE {
        var closed := ParseCloseTarget(e.m.payload).1;
        WithoutAppend(first, Open(rest), closed);
        assert Without(first, closed) == if first == [closed] then [] else first by {
          if first != [] { assert first[1..] == []; }
        }
      }
    }
  }

  /** The tracked list as the log says it should be. */
  function OpenSinceReset(log: seq<Entry>): seq<bytes> {
    Open(SinceReset(log))
  }

  function TrackStep(names: seq<bytes>, e: Entry): seq<bytes> {
    if e.WasReset? then [] else OpenStep(names, e)
  }

  lemma {:induction false} OpenSinceResetIsFold(log: seq<Entry>)
    ensures OpenSinceReset(log) == Fold(TrackStep, [], log)
    decreases |log|
  {
    if log != [] {
      var n := |log| - 1;
      OpenSinceResetIsFold(log[..n]);
      assert log == log[..n] + [log[n]];
      FoldAppend(TrackStep, [], log[..n], [log[n]]);
      FoldThree(TrackStep, OpenSinceReset(log[..n]), [log[n]]);
      OpenAppend(SinceReset(log[..n]), log[n]);
    }
  }

  function PreparedOf(l: Loop, ending: Ending): seq<bytes> {
    l.prepared
  }

  lemma TrackIsOpenStep(cfg: Settings, l: Loop, m: Msg, now: nat)
    ensures Track(cfg, l, m, now).prepared == OpenStep(l.prepared, Tracked(m))
  {
    hide StartsTransaction;
  }

  lemma OpenStepOfOthers(names: seq<bytes>, e: Entry)
    requires !e.Tracked?
    ensures OpenStep(names, e) == names
  {
  }

  lemma ForwardTracks(cfg: Settings, l: Loop, m: Msg, now: nat, io: Io)
    requires l.server.Some?
    ensures var plan := Forward(cfg, l, m, now, io);
      && plan.loop.prepared == OpenStep(l.prepared, Tracked(m))
      && (plan.log == [Tracked(m)] || plan.log == [Tracked(m), Sent(l.server.value.id, m, io.reply)])
  {
    hide Track, OpenStep;
    TrackIsOpenStep(cfg, l, m, now);
  }

  lemma IterationTracks(cfg: Settings, l: Loop, turn: Turn)
    ensures Fold(TrackStep, l.prepared, Iterate(cfg, l, turn).log) == Iterate(cfg, l, turn).loop.prepared
  {
    hide Fold, Forward, OpenStep, Reset, Deallocate, RunsDry, CanTimeOut;
    var log := Iterate(cfg, l, turn).log;
    FoldThree(TrackStep, l.prepared, log);
    forall names, e: Entry | !e.Tracked?
      ensures OpenStep(names, e) == names
    {
      OpenStepOfOthers(names, e);
    }
    if turn.input.event.FromClient? {
      var m, now, io := turn.input.event.m, turn.input.now, turn.input.io;
      if l.server.Some? {
        ForwardTracks(cfg, l, m, now, io);
      } else if turn.granted.Connected? {
        ForwardTracks(cfg, l.(server := Some(turn.granted.b)), m, now, io);
      }
    }
  }

  /**
   * After every run, the tracked list is exactly the non-empty names of the Parse messages
   * since the last successful idle reset, in order and with repetitions, without those that a
   * later Close message names.
   */
  lemma PreparedIsOpenSinceReset(cfg: Settings, server: Option<Backend>, now: nat,
      turns: seq<Turn>, n: nat)
    requires n <= |turns|
    ensures var p := After(cfg, Fresh(server, now), turns, n);
      p.loop.prepared == OpenSinceReset(p.log)
  {
    hide Iterate, TrackStep;
    forall i, k | 0 <= i < n
      ensures var q := Iterate(cfg, k, turns[i]);
        Fold(TrackStep, PreparedOf(k, Running), q.log) == PreparedOf(q.loop, q.ending)
    {
      IterationTracks(cfg, k, turns[i]);
    }
    RunFolds(TrackStep, PreparedOf, cfg, Fresh(server, now), turns, n);
    OpenSinceResetIsFold(After(cfg, Fresh(server, now), turns, n).log);
  }

  lemma {:induction false} WithoutIsGone(names: seq<bytes>, name: bytes)
    ensures forall x :: x in Without(names, name) <==> x in names && x != name
  {
    if names != [] {
      WithoutIsGone(names[1..], name);
      assert names == [names[0]] + names[1..];
    }
  }

  /**
   * A Close takes its name off the tracked list whatever kind of object it closes: closing a
   * portal untracks the statement of the same name, which the backend keeps.
   */
  lemma CloseIgnoresKind(cfg: Settings, l: Loop, kind: byte, name: bytes, now: nat)
    requires name != [] && Free(name, NUL) && ValidUtf8(name)
    ensures var names := Track(cfg, l, Msg(CLOSE, [kind] + name + [NUL]), now).prepared;
      forall x :: x in names <==> x in l.prepared && x != name
  {
    hide StartsTransaction, Without;
    NamesComeBackExactly(kind, name, []);
    assert [kind] + name + [NUL] + [] == [kind] + name + [NUL];
    WithoutIsGone(l.prepared, name);
  }

  /** In the relay a timeout of 0 is none: with all of them 0, it ends for no lapse of time. */
  lemma ZeroTimeoutsNeverEnd(cfg: Settings, l: Loop, now: nat, io: Io)
    requires cfg.clientIdle == 0 && cfg.transaction == 0 && cfg.queryWait == 0
    ensures OnEvent(cfg, l, Input(now, TimedOut, io)) == Stay(l, [])
  {
  }

  // ---- Unread replies ----

  const SYNC: byte := 83           // 'S'
  const FUNCTION_CALL: byte := 70  // 'F'

  /** Client messages that are answered with a ReadyForQuery. */
  predicate IsRequest(m: Msg) {
    m.t == QUERY || m.t == SYNC || m.t == FUNCTION_CALL
  }

  predicate Answers(reply: seq<Msg>, m: Msg) {
    if IsRequest(m) then Complete(reply) else CountReady(reply) == 0
  }

  /** Requests get complete answers, other messages none with ReadyForQuery. */
  predicate WellAnswered(turn: Turn) {
    turn.input.event.FromClient? ==> Answers(turn.input.io.reply, turn.input.event.m)
  }

  /** How many ReadyForQuery messages of the held backend are still to be read. */
  function Outstanding(l: Loop): int {
    match l.server case None => 0 case Some(b) => CountReady(b.unread)
  }

  /**
   * ReadyForQuery messages that came with the backend and requests sent to it, less those read,
   * counted from the last acquire.
   */
  function Owe(owed: int, e: Entry): int {
    match e
    case Acquired(b) => CountReady(b.unread)
    case Released(_) => 0
    case Cancelled => 0
    case Sent(_, m, _) => if IsRequest(m) then owed + 1 else owed
    case Delivered(m) => if IsReady(m) then owed - 1 else owed
    case Undelivered(m) => if IsReady(m) then owed - 1 else owed
    case _ => owed
  }

  lemma ForwardOwes(cfg: Settings, l: Loop, m: Msg, now: nat, io: Io)
    requires l.server.Some? && Answers(io.reply, m)
    ensures var plan := Forward(cfg, l, m, now, io);
      && (plan.log == [Tracked(m)] || plan.log == [Tracked(m), Sent(l.server.value.id, m, io.reply)])
      && Outstanding(plan.loop)
        == Outstanding(l) + (if |plan.log| == 2 && IsRequest(m) then 1 else 0)
  {
    hide Track;
    CountReadyAppend(l.server.value.unread, io.reply);
    if IsRequest(m) {
      CompleteHasOne(io.reply);
    }
  }

  lemma IterationOwes(cfg: Settings, l: Loop, turn: Turn)
    requires WellAnswered(turn)
    ensures var q := Iterate(cfg, l, turn);
      q.ending.Running? || q.ending.Broke? ==> Fold(Owe, Outstanding(l), q.log) == Outstanding(q.loop)
  {
    hide Fold, Forward, Reset, Deallocate, RunsDry, CanTimeOut;
    FoldThree(Owe, Outstanding(l), Iterate(cfg, l, turn).log);
    if turn.input.event.FromClient? {
      var m, now, io := turn.input.event.m, turn.input.now, turn.input.io;
      if l.server.Some? {
        ForwardOwes(cfg, l, m, now, io);
      } else if turn.granted.Connected? {
        ForwardOwes(cfg, l.(server := Some(turn.granted.b)), m, now, io);
      }
    }
  }

  /**
   * In every run whose requests are answered in full, whatever state the granted backends were
   * in, what is outstanding is what the log says is owed, unless the run has ended in a panic.
   */
  lemma {:induction false} OutstandingIsOwed(cfg: Settings, l: Loop, turns: seq<Turn>, n: nat)
    requires n <= |turns|
    requires forall i :: 0 <= i < n ==> WellAnswered(turns[i])
    ensures var p := After(cfg, l, turns, n);
      p.ending.Running? || p.ending.Broke? ==> Fold(Owe, Outstanding(l), p.log) == Outstanding(p.loop)
    decreases n
  {
    hide Iterate, Owe, Outstanding;
    if n > 0 {
      OutstandingIsOwed(cfg, l, turns, n - 1);
      var p := After(cfg, l, turns, n - 1);
      if p.ending.Running? {
        IterationOwes(cfg, p.loop, turns[n - 1]);
        FoldAppend(Owe, Outstanding(l), p.log, Iterate(cfg, p.loop, turns[n - 1]).log);
      }
    }
  }

  /** The reset and the DEALLOCATE queries of this turn are answered as PostgreSQL answers. */
  predicate Orderly(l: Loop, io: Io) {
    io.reset.sent && Complete(io.reset.reply) && Ordinary(|l.prepared|, io.dealloc)
  }

  lemma OnIdleCleansExactly(l: Loop, b: Backend, m: Msg, io: Io)
    requires Orderly(l, io)
    ensures OnIdle(l, b, m, io).GiveBack?
    ensures OnIdle(l, b, m, io).b.unread == [] <==> CountReady(b.unread) == 0 && l.prepared == []
  {
    ResetKeepsOutstanding(b, io.reset);
    ResetCleansExactly(b, io.reset);
    DeallocateLeaves(Reset(b, io.reset).1.unread, |l.prepared|, io.dealloc);
    OrdinaryNeverDry(Reset(b, io.reset).1.unread, |l.prepared|, io.dealloc);
  }

  /**
   * A backend released on an idle ReadyForQuery has nothing unread if and only if that was
   * the one answer still owed, be it to this client or to one before, and no prepared statement
   * was tracked: each DEALLOCATE reads a single message of its answer and leaves the rest.
   */
  lemma IdleReleaseCleanExactly(cfg: Settings, now: nat, turns: seq<Turn>, n: nat, turn: Turn, b: Backend)
    requires n <= |turns| && forall i :: 0 <= i < n ==> WellAnswered(turns[i])
    requires var p := After(cfg, Fresh(None, now), turns, n);
      && p.ending.Running? && Orderly(p.loop, turn.input.io)
      && IsIdleTurn(Iterate(cfg, p.loop, turn).log, b)
    ensures var log := After(cfg, Fresh(None, now), turns, n).log;
      b.unread == [] <==> Fold(Owe, 0, log) == 1 && OpenSinceReset(log) == []
  {
    hide After, Fold, Owe;
    var p := After(cfg, Fresh(None, now), turns, n);
    OutstandingIsOwed(cfg, Fresh(None, now), turns, n);
    PreparedIsOpenSinceReset(cfg, None, now, turns, n);
    IdleTurnCleansExactly(cfg, p.loop, turn, b);
  }

  /** The entries of an iteration that ends with a release on an idle ReadyForQuery. */
  predicate IsIdleTurn(log: seq<Entry>, b: Backend) {
    |log| == 3 && IsIdleDelivery(log[0]) && log[1].WasReset? && log[2] == Released(b)
  }

  lemma IdleTurnCleansExactly(cfg: Settings, l: Loop, turn: Turn, b: Backend)
    requires Orderly(l, turn.input.io) && IsIdleTurn(Iterate(cfg, l, turn).log, b)
    ensures b.unread == [] <==> Outstanding(l) == 1 && l.prepared == []
  {
    hide Complete, Ordinary, Track;
    var held := l.server.value;
    var rest := held.(unread := held.unread[1..]);
    OnIdleCleansExactly(l.(server := Some(rest)), rest, held.unread[0], turn.input.io);
  }

  /** The entries of an iteration that ends with a release on an error outside a transaction. */
  predicate IsErrorTurn(log: seq<Entry>, b: Backend) {
    |log| == 2 && log[0].Delivered? && log[0].m.t == ERROR && log[1] == Released(b)
  }

  /**
   * A backend released on an error has nothing unread if and only if no answer is owed.  The
   * error that answers a request comes before that request's own ReadyForQuery, so there it
   * goes back to the pool with messages to be read.
   */
  lemma ErrorReleaseCleanExactly(cfg: Settings, now: nat, turns: seq<Turn>, n: nat, turn: Turn, b: Backend)
    requires n <= |turns| && forall i :: 0 <= i < n ==> WellAnswered(turns[i])
    requires var p := After(cfg, Fresh(None, now), turns, n);
      && p.ending.Running? && Orderly(p.loop, turn.input.io)
      && IsErrorTurn(Iterate(cfg, p.loop, turn).log, b)
    ensures b.unread == [] <==> Fold(Owe, 0, After(cfg, Fresh(None, now), turns, n).log) == 0
  {
    hide After, Fold, Owe;
    OutstandingIsOwed(cfg, Fresh(None, now), turns, n);
    ErrorTurnCleansExactly(cfg, After(cfg, Fresh(None, now), turns, n).loop, turn, b);
  }

  lemma ErrorTurnCleansExactly(cfg: Settings, l: Loop, turn: Turn, b: Backend)
    requires Orderly(l, turn.input.io) && IsErrorTurn(Iterate(cfg, l, turn).log, b)
    ensures b.unread == [] <==> Outstanding(l) == 0
  {
    hide Complete, Ordinary, Deallocate, RunsDry, Track;
    var held := l.server.value;
    ResetCleansExactly(held.(unread := held.unread[1..]), turn.input.io.reset);
  }

  /** The same for the backend that is held when the loop breaks. */
  lemma ExitReleaseCleanExactly(cfg: Settings, now: nat, turns: seq<Turn>, n: nat, reset: ResetIo)
    requires n <= |turns| && forall i :: 0 <= i < n ==> WellAnswered(turns[i])
    requires var p := After(cfg, Fresh(None, now), turns, n); p.ending.Broke? && p.loop.server.Some?
    requires reset.sent && Complete(reset.reply)
    ensures var p := After(cfg, Fresh(None, now), turns, n);
      && OnExit(p.loop, reset).Return?
      && (OnExit(p.loop, reset).b.unread == [] <==> Fold(Owe, 0, p.log) == 0)
  {
    hide After, Fold, Owe;
    OutstandingIsOwed(cfg, Fresh(None, now), turns, n);
    var held := After(cfg, Fresh(None, now), turns, n).loop.server.value;
    ResetKeepsOutstanding(held, reset);
    ResetCleansExactly(held, reset);
  }

  // ---- A reset that fails ----

  /** The entries of an iteration that releases on an idle ReadyForQuery without a reset. */
  predicate IsUnresetTurn(log: seq<Entry>, b: Backend) {
    |log| == 2 && IsIdleDelivery(log[0]) && log[1] == Released(b)
  }

  /**
   * After an idle ReadyForQuery a connection is released although its reset failed exactly if
   * the reset could not be sent, or no ReadyForQuery answers it and no malformed frame comes
   * instead; the tracked names and the transaction flag then stay as they were.
   */
  lemma UnresetReleaseExactly(cfg: Settings, l: Loop, turn: Turn)
    requires l.server.Some? && l.server.value.unread != [] && IsIdle(l.server.value.unread[0])
    requires turn.input.event.FromServer? && turn.input.io.delivered && !Overdue(cfg, l, turn.input.now)
    ensures var q, reset := Iterate(cfg, l, turn), turn.input.io.reset;
      var rest := l.server.value.(unread := l.server.value.unread[1..]);
      var failed := !reset.sent || (CountReady(rest.unread) + CountReady(reset.reply) == 0 && !reset.garbled);
      && ((exists b :: IsUnresetTurn(q.log, b)) <==> failed)
      && (failed ==> q == Progress(l.(server := None), Running,
            [Delivered(l.server.value.unread[0]), Released(Reset(rest, reset).1)]))
  {
    hide Reset, Deallocate, RunsDry, CanTimeOut;
    var rest := l.server.value.(unread := l.server.value.unread[1..]);
    var q := Iterate(cfg, l, turn);
    ResetSucceedsExactly(rest, turn.input.io.reset);
    if Reset(rest, turn.input.io.reset).0.ResetFailed? {
      assert IsUnresetTurn(q.log, Reset(rest, turn.input.io.reset).1);
    }
  }
}
