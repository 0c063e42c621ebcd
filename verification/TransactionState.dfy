// src/proxy/mod.rs: the state of transaction_loop and the end of its turns, read off the log.

module TransactionState {
  import opened Prelude
  import opened Frames
  import opened Backends
  import opened TransactionLoop
  import opened TransactionTheorems

  // ---- Messages as the protocol spells them ----

  predicate IsType(m: Msg, c: char) {
    m.t as int == c as int
  }

  /** A ReadyForQuery with this transaction status. */
  predicate ReadyWith(m: Msg, status: char) {
    IsType(m, 'Z') && |m.payload| > 0 && m.payload[0] as int == status as int
  }

  predicate TextAt(s: bytes, i: nat, text: string) {
    i + |text| <= |s| && forall j :: 0 <= j < |text| ==> s[i + j] as int == text[j] as int
  }

  predicate HasText(s: bytes, text: string) {
    exists i :: 0 <= i <= |s| && TextAt(s, i, text)
  }

  lemma ContainsText(s: bytes, pattern: bytes, text: string)
    requires |pattern| == |text| && forall j :: 0 <= j < |text| ==> pattern[j] as int == text[j] as int
    ensures Contains(s, pattern) <==> HasText(s, text)
  {
    if Contains(s, pattern) {
      var i :| 0 <= i <= |s| && pattern <= s[i..];
      assert forall j :: 0 <= j < |pattern| ==> s[i..][j] == s[i + j] && pattern[j] == s[i..][j];
      assert TextAt(s, i, text);
    }
    if HasText(s, text) {
      var i :| 0 <= i <= |s| && TextAt(s, i, text);
      assert forall j :: 0 <= j < |pattern| ==> s[i..][j] == s[i + j];
      assert pattern <= s[i..];
    }
  }

  /** A simple query that mentions the beginning of a transaction, in upper or lower case. */
  predicate AsksToBegin(cfg: Settings, m: Msg) {
    IsType(m, 'Q') && (HasText(cfg.upper(m.payload), "BEGIN") || HasText(cfg.upper(m.payload), "START TRANSACTION"))
  }

  lemma AsksToBeginExactly(cfg: Settings, m: Msg)
    ensures m.t == QUERY && StartsTransaction(cfg, m.payload) <==> AsksToBegin(cfg, m)
  {
    hide Contains, HasText;
    ContainsText(cfg.upper(m.payload), BEGIN, "BEGIN");
    ContainsText(cfg.upper(m.payload), START_TRANSACTION, "START TRANSACTION");
  }

  // ---- in_transaction ----

  /** The client has asked to begin a transaction, or the backend has reported to be in one. */
  predicate Begins(cfg: Settings, e: Entry) {
    match e
    case Tracked(m) => AsksToBegin(cfg, m)
    case Delivered(m) => ReadyWith(m, 'T')
    case _ => false
  }

  /** A transaction has begun, and no reset after an idle ReadyForQuery has succeeded since. */
  predicate InTransaction(cfg: Settings, log: seq<Entry>) {
    log != []
    && var e, before := log[|log| - 1], log[..|log| - 1];
       !e.WasReset? && (Begins(cfg, e) || InTransaction(cfg, before))
  }

  function BeginStep(cfg: Settings): (bool, Entry) -> bool {
    (b: bool, e: Entry) => !e.WasReset? && (b || Begins(cfg, e))
  }

  lemma {:induction false} InTransactionIsFold(cfg: Settings, log: seq<Entry>)
    ensures InTransaction(cfg, log) == Fold(BeginStep(cfg), false, log)
    decreases |log|
  {
    hide Begins;
    if log != [] {
      var n := |log| - 1;
      InTransactionIsFold(cfg, log[..n]);
      assert log == log[..n] + [log[n]];
      FoldAppend(BeginStep(cfg), false, log[..n], [log[n]]);
      FoldThree(BeginStep(cfg), InTransaction(cfg, log[..n]), [log[n]]);
    }
  }

  lemma NotYet(cfg: Settings)
    ensures !InTransaction(cfg, [])
  {
  }

  function FlagOf(l: Loop, ending: Ending): bool {
    l.inTx
  }

  predicate HasBegin(cfg: Settings, log: seq<Entry>) {
    exists i :: 0 <= i < |log| && Begins(cfg, log[i])
  }

  lemma HasBeginShort(cfg: Settings, log: seq<Entry>)
    ensures log == [] ==> !HasBegin(cfg, log)
    ensures |log| == 1 ==> (HasBegin(cfg, log) <==> Begins(cfg, log[0]))
    ensures |log| == 2 ==> (HasBegin(cfg, log) <==> Begins(cfg, log[0]) || Begins(cfg, log[1]))
    ensures |log| == 3 ==> (HasBegin(cfg, log) <==> Begins(cfg, log[0]) || Begins(cfg, log[1]) || Begins(cfg, log[2]))
  {
    hide Begins;
  }

  lemma HasBeginAppend(cfg: Settings, a: seq<Entry>, b: seq<Entry>)
    ensures HasBegin(cfg, a + b) <==> HasBegin(cfg, a) || HasBegin(cfg, b)
  {
    hide Begins;
    var all := a + b;
    if HasBegin(cfg, a) {
      var i :| 0 <= i < |a| && Begins(cfg, a[i]);
      assert all[i] == a[i];
    }
    if HasBegin(cfg, b) {
      var i :| 0 <= i < |b| && Begins(cfg, b[i]);
      assert all[|a| + i] == b[i];
    }
  }

  /** The locals after a step of the loop with these entries at this time. */
  predicate Keeps(cfg: Settings, l: Loop, l1: Loop, now: nat, log: seq<Entry>) {
    && l1.inTx == Fold(BeginStep(cfg), l.inTx, log)
    && l1.txStart == (if HasBegin(cfg, log) then now else l.txStart)
  }

  lemma TrackKeeps(cfg: Settings, l: Loop, m: Msg, now: nat)
    ensures var l1 := Track(cfg, l, m, now);
      && l1.inTx == (l.inTx || AsksToBegin(cfg, m))
      && l1.txStart == (if AsksToBegin(cfg, m) then now else l.txStart)
  {
    hide StartsTransaction, AsksToBegin, Without;
    AsksToBeginExactly(cfg, m);
    assert AsksToBegin(cfg, m) ==> m.t == QUERY;
  }

  lemma ForwardKeeps(cfg: Settings, l: Loop, m: Msg, now: nat, io: Io)
    requires l.server.Some?
    ensures var plan := Forward(cfg, l, m, now, io); Keeps(cfg, l, plan.loop, now, plan.log)
  {
    hide Track, AsksToBegin, Fold, HasBegin;
    var plan := Forward(cfg, l, m, now, io);
    TrackKeeps(cfg, l, m, now);
    FoldThree(BeginStep(cfg), l.inTx, plan.log);
    HasBeginShort(cfg, plan.log);
  }

  lemma ServerKeeps(cfg: Settings, l: Loop, now: nat, io: Io)
    requires l.server.Some? && l.server.value.unread != []
    ensures var plan := OnServer(l, now, io); Keeps(cfg, l, plan.loop, now, plan.log)
  {
    hide Reset, Deallocate, RunsDry, Fold, HasBegin;
    var plan := OnServer(l, now, io);
    FoldThree(BeginStep(cfg), l.inTx, plan.log);
    HasBeginShort(cfg, plan.log);
  }

  lemma PlanKeeps(cfg: Settings, l: Loop, input: Input)
    requires !OnEvent(cfg, l, input).Ask?
    ensures var plan := OnEvent(cfg, l, input); Keeps(cfg, l, plan.loop, input.now, plan.log)
  {
    hide Forward, OnServer, Overdue, CanTimeOut, Keeps;
    NothingKeeps(cfg, l, input.now);
    match input.event
    case FromClient(m) => if l.server.Some? { ForwardKeeps(cfg, l, m, input.now, input.io); }
    case FromServer =>
      if CanHappen(cfg, l, input.event) {
        ServerKeeps(cfg, l, input.now, input.io);
      }
    case _ =>
  }

  lemma NothingKeeps(cfg: Settings, l: Loop, now: nat)
    ensures Keeps(cfg, l, l, now, [])
  {
  }

  /** What is written in front or behind by a call to the pool begins nothing and resets nothing. */
  lemma CallsKeep(cfg: Settings, l: Loop, l1: Loop, now: nat, before: seq<Entry>, log: seq<Entry>, after: seq<Entry>)
    requires |before| <= 1 && |after| <= 1
    requires forall e :: e in before || e in after ==> IsPoolCall(e)
    ensures Keeps(cfg, l, l1, now, before + log + after) <==> Keeps(cfg, l, l1, now, log)
  {
    hide Fold;
    var f := BeginStep(cfg);
    FoldAppend(f, l.inTx, before + log, after);
    FoldAppend(f, l.inTx, before, log);
    FoldThree(f, l.inTx, before);
    FoldThree(f, Fold(f, l.inTx, before + log), after);
    HasBeginAppend(cfg, before + log, after);
    HasBeginAppend(cfg, before, log);
    HasBeginShort(cfg, before);
    HasBeginShort(cfg, after);
    assert before != [] ==> IsPoolCall(before[0]);
    assert after != [] ==> IsPoolCall(after[0]);
  }

  lemma IterationKeeps(cfg: Settings, l: Loop, turn: Turn)
    ensures var q := Iterate(cfg, l, turn); Keeps(cfg, l, q.loop, turn.input.now, q.log)
  {
    hide Keeps, OnEvent, Forward;
    var plan, q, now := OnEvent(cfg, l, turn.input), Iterate(cfg, l, turn), turn.input.now;
    if plan.Ask? {
      var l1 := plan.loop;
      assert l1 == l by { AskLeavesLoop(cfg, l, turn.input); }
      if turn.granted.Connected? {
        var l2 := l1.(server := Some(turn.granted.b));
        ForwardKeeps(cfg, l2, plan.m, now, turn.input.io);
        var log := Forward(cfg, l2, plan.m, now, turn.input.io).log;
        CallsKeep(cfg, l, q.loop, now, [Acquired(turn.granted.b)], log, []);
        assert [Acquired(turn.granted.b)] + log + [] == q.log;
        ServerIsNothing(cfg, l, l2, q.loop, now, log);
      } else {
        NothingKeeps(cfg, l, now);
        CallsKeep(cfg, l, l, now, q.log, [], []);
        assert q.log + [] + [] == q.log;
      }
    } else {
      PlanKeeps(cfg, l, turn.input);
      var call := CallOf(plan);
      CallsKeep(cfg, l, q.loop, now, [], plan.log, call);
      assert [] + plan.log + call == q.log;
    }
  }

  lemma AskLeavesLoop(cfg: Settings, l: Loop, input: Input)
    requires OnEvent(cfg, l, input).Ask?
    ensures OnEvent(cfg, l, input).loop == l
  {
    hide Overdue, CanTimeOut, Forward, OnServer;
  }

  lemma ServerIsNothing(cfg: Settings, l: Loop, l2: Loop, l1: Loop, now: nat, log: seq<Entry>)
    requires l2 == l.(server := l2.server)
    ensures Keeps(cfg, l, l1, now, log) <==> Keeps(cfg, l2, l1, now, log)
  {
  }

  /** When the last turn was taken that began a transaction, or else when the loop was entered. */
  function BeganAt(cfg: Settings, l: Loop, turns: seq<Turn>, n: nat): nat
    requires n <= |turns|
  {
    if n == 0 then l.txStart
    else if BeginsIn(cfg, l, turns, n - 1) then turns[n - 1].input.now
    else BeganAt(cfg, l, turns, n - 1)
  }

  /** A turn adds the beginning of a transaction to the log. */
  predicate BeginsIn(cfg: Settings, l: Loop, turns: seq<Turn>, i: nat)
    requires i < |turns|
  {
    HasBegin(cfg, LogSince(cfg, l, turns, i, i + 1))
  }

  lemma TurnAdds(cfg: Settings, l: Loop, turns: seq<Turn>, n: nat)
    requires n < |turns|
    ensures var p := After(cfg, l, turns, n);
      LogSince(cfg, l, turns, n, n + 1) == if p.ending.Running? then Iterate(cfg, p.loop, turns[n]).log else []
  {
    hide Iterate;
  }

  /**
   * In every run of the loop from its entry on, it takes itself to be in a transaction if and
   * only if, since the last reset that succeeded on an idle ReadyForQuery, a ReadyForQuery with
   * status 'T' has been passed on or a simple query with BEGIN or START TRANSACTION in it has
   * come; and it counts the time from the last of these.
   */
  lemma {:induction false} TransactionIsLogged(cfg: Settings, server: Option<Backend>, now: nat, turns: seq<Turn>,
      n: nat)
    requires n <= |turns|
    ensures var l := TransactionLoop.Fresh(server, now);
      var p := After(cfg, l, turns, n);
      && p.loop.inTx == InTransaction(cfg, p.log)
      && p.loop.txStart == BeganAt(cfg, l, turns, n)
    decreases n
  {
    hide Iterate, InTransaction, HasBegin, Fold, LogSince;
    var l := TransactionLoop.Fresh(server, now);
    if n == 0 {
      NotYet(cfg);
    } else {
      TransactionIsLogged(cfg, server, now, turns, n - 1);
      TurnAdds(cfg, l, turns, n - 1);
      HasBeginShort(cfg, []);
      var p := After(cfg, l, turns, n - 1);
      if p.ending.Running? {
        var q := Iterate(cfg, p.loop, turns[n - 1]);
        IterationKeeps(cfg, p.loop, turns[n - 1]);
        InTransactionIsFold(cfg, p.log);
        InTransactionIsFold(cfg, p.log + q.log);
        FoldAppend(BeginStep(cfg), false, p.log, q.log);
      }
    }
  }

  // ---- How each turn goes ----

  /** By what the log says, a transaction has taken too long at this time. */
  predicate TooLate(cfg: Settings, l: Loop, turns: seq<Turn>, n: nat, now: nat)
    requires n <= |turns|
  {
    var p := After(cfg, l, turns, n);
    && cfg.transaction > 0 && p.loop.server.Some? && InTransaction(cfg, p.log)
    && now >= BeganAt(cfg, l, turns, n) + cfg.transaction
  }

  lemma TooLateIsOverdue(cfg: Settings, server: Option<Backend>, start: nat, turns: seq<Turn>, n: nat, now: nat)
    requires n <= |turns|
    ensures var l := TransactionLoop.Fresh(server, start);
      TooLate(cfg, l, turns, n, now) <==> Overdue(cfg, After(cfg, l, turns, n).loop, now)
  {
    hide After, InTransaction, BeganAt;
    TransactionIsLogged(cfg, server, start, turns, n);
  }

  /** What a client message comes to in a turn that is not too late, with a backend or without. */
  predicate Relays(l: Loop, m: Msg, turn: Turn, q: Progress) {
    if IsType(m, 'X') then q == Progress(l, Broke, [])
    else if l.server.None? && turn.granted.NotConnected? then q == Progress(l, Broke, [CreateFailed])
    else if l.server.None? && turn.granted.ConnectPanics? then q == Progress(l, CrashedConnecting, [CreatePanicked])
    else
      var b := if l.server.None? then turn.granted.b else l.server.value;
      var got := if l.server.None? then [Acquired(b)] else [];
      if turn.input.io.sent then
        && q.log == got + [Tracked(m), Sent(b.id, m, turn.input.io.reply)] && q.ending == Running
        && q.loop.server == Some(b.(unread := b.unread + turn.input.io.reply))
      else
        q.log == got + [Tracked(m)] && q.ending == Broke && q.loop.server == Some(b)
  }

  /**
   * In every run, a client message ends the loop unseen if a transaction has taken too long, or
   * if it is a Terminate; else a backend is acquired if none is held, and the message is
   * tracked and sent to it.
   */
  lemma ClientTurnExactly(cfg: Settings, server: Option<Backend>, start: nat, turns: seq<Turn>, n: nat, turn: Turn)
    requires n <= |turns| && turn.input.event.FromClient?
    ensures var l := TransactionLoop.Fresh(server, start);
      var p := After(cfg, l, turns, n);
      var q := Iterate(cfg, p.loop, turn);
      if TooLate(cfg, l, turns, n, turn.input.now) then q == Progress(p.loop, Broke, [])
      else Relays(p.loop, turn.input.event.m, turn, q)
  {
    hide After, TooLate, Track, Overdue;
    TooLateIsOverdue(cfg, server, start, turns, n, turn.input.now);
  }

  /** The reset finds a ReadyForQuery to read, or else a malformed frame. */
  predicate Answered(b: Backend, reset: ResetIo) {
    reset.sent && exists i :: 0 <= i < |b.unread + reset.reply| && IsType((b.unread + reset.reply)[i], 'Z')
  }

  predicate AnsweredByGarble(b: Backend, reset: ResetIo) {
    reset.sent && !Answered(b, reset) && reset.garbled
  }

  lemma {:induction false} CountsReady(ms: seq<Msg>)
    ensures CountReady(ms) > 0 <==> exists i :: 0 <= i < |ms| && IsType(ms[i], 'Z')
  {
    if ms != [] {
      CountsReady(ms[1..]);
      if IsType(ms[0], 'Z') {
        assert CountReady(ms) > 0;
      } else if CountReady(ms) > 0 {
        var i :| 0 <= i < |ms[1..]| && IsType(ms[1..][i], 'Z');
        assert IsType(ms[i + 1], 'Z');
      } else {
        assert forall i :: 1 <= i < |ms| ==> ms[i] == ms[1..][i - 1];
      }
    }
  }

  lemma ResetGoes(b: Backend, reset: ResetIo) returns (read: seq<Msg>)
    ensures var (r, b1) := Reset(b, reset);
      && (r.ResetDone? <==> Answered(b, reset))
      && (r.ResetPanics? <==> AnsweredByGarble(b, reset))
      && b1 == b.(unread := b1.unread)
      && (r.ResetDone? ==> UpToReady(read) && b.unread + reset.reply == read + b1.unread)
      && (!r.ResetDone? ==> b1.unread == if reset.sent then [] else b.unread)
  {
    hide Reset;
    ResetSucceedsExactly(b, reset);
    CountReadyAppend(b.unread, reset.reply);
    CountsReady(b.unread + reset.reply);
    read := ResetReadsUpToReady(b, reset);
  }

  /** What a message that has been passed on does to the backend it comes from. */
  datatype Fate =
    | Kept          // the loop goes on with it
    | GivenBack     // it is released
    | GivenUp       // it is dropped, and the permit cancelled
    | TakenDown     // a malformed frame ends the loop with it in hand

  /**
   * A ReadyForQuery with status 'I' has the backend reset and released, be the reset successful
   * or not; an error outside a transaction has it reset and released or given up.
   */
  function FateOf(cfg: Settings, p: Progress, rest: Backend, m: Msg, io: Io): Fate {
    if ReadyWith(m, 'I') then
      if AnsweredByGarble(rest, io.reset) then TakenDown
      else if Answered(rest, io.reset) && io.deallocGarbled
        && RunsDry(Reset(rest, io.reset).1.unread, |OpenSinceReset(p.log)|, io.dealloc) then TakenDown
      else GivenBack
    else if IsType(m, 'E') && !InTransaction(cfg, p.log) then
      if AnsweredByGarble(rest, io.reset) then TakenDown
      else if Answered(rest, io.reset) then GivenBack
      else GivenUp
    else Kept
  }

  /** The turn adds these entries, and the backend it releases is the one held but for what is unread. */
  predicate Passes(p: Progress, q: Progress, rest: Backend, m: Msg, io: Io, fate: Fate) {
    match fate
    case Kept => q.log == [Delivered(m)] && q.ending == Running && q.loop.server == Some(rest)
    case TakenDown => q.log == [Delivered(m)] && q.ending == Ending.Crashed && q.loop.server.Some?
    case GivenUp => q.log == [Delivered(m), Cancelled] && q.ending == Running && q.loop.server.None?
    case GivenBack =>
      var resets := ReadyWith(m, 'I') && Answered(rest, io.reset);
      && q.ending == Running && q.loop.server.None?
      && |q.log| == (if resets then 3 else 2) && q.log[0] == Delivered(m) && (resets ==> q.log[1] == WasReset)
      && var e := q.log[|q.log| - 1];
         e.Released? && e.b == rest.(unread := e.b.unread)
         && (!Answered(rest, io.reset) ==> e.b.unread == if io.reset.sent then [] else rest.unread)
  }

  /**
   * In every run, the next message of the backend ends the loop unread if a transaction has
   * taken too long, or unsent if the client is gone; else it is passed on, and what becomes of
   * the backend follows from the message, the log and the reset.
   */
  lemma ServerTurnExactly(cfg: Settings, server: Option<Backend>, start: nat, turns: seq<Turn>, n: nat, turn: Turn)
    requires n <= |turns| && turn.input.event.FromServer?
    requires var p := After(cfg, TransactionLoop.Fresh(server, start), turns, n);
      p.loop.server.Some? && p.loop.server.value.unread != []
    ensures var l := TransactionLoop.Fresh(server, start);
      var p := After(cfg, l, turns, n);
      var q, io := Iterate(cfg, p.loop, turn), turn.input.io;
      var m, held := p.loop.server.value.unread[0], p.loop.server.value;
      var rest := held.(unread := held.unread[1..]);
      if TooLate(cfg, l, turns, n, turn.input.now) then q == Progress(p.loop, Broke, [])
      else if !io.delivered then q.log == [Undelivered(m)] && q.ending == Broke && q.loop.server == Some(rest)
      else Passes(p, q, rest, m, io, FateOf(cfg, p, rest, m, io))
  {
    hide After, TooLate, Overdue, InTransaction, CanTimeOut, Reset, RunsDry, Deallocate, Answered, OpenSinceReset,
      BeganAt;
    var l := TransactionLoop.Fresh(server, start);
    var p := After(cfg, l, turns, n);
    TooLateIsOverdue(cfg, server, start, turns, n, turn.input.now);
    TransactionIsLogged(cfg, server, start, turns, n);
    PreparedIsOpenSinceReset(cfg, server, start, turns, n);
    var held := p.loop.server.value;
    var read := ResetGoes(held.(unread := held.unread[1..]), turn.input.io.reset);
  }

  /**
   * The backend released on an error, or on an idle ReadyForQuery with no statement tracked, has
   * what follows the first ReadyForQuery unread; with statements tracked and every DEALLOCATE
   * answered, one message less for each of them.
   */
  lemma ReleasedWith(cfg: Settings, server: Option<Backend>, start: nat, turns: seq<Turn>, n: nat, turn: Turn)
      returns (read: seq<Msg>)
    requires n <= |turns| && turn.input.event.FromServer? && turn.input.io.delivered
    requires var l := TransactionLoop.Fresh(server, start);
      var p, io := After(cfg, l, turns, n), turn.input.io;
      && !TooLate(cfg, l, turns, n, turn.input.now)
      && p.loop.server.Some? && p.loop.server.value.unread != []
      && var rest := p.loop.server.value.(unread := p.loop.server.value.unread[1..]);
         Answered(rest, io.reset) && FateOf(cfg, p, rest, p.loop.server.value.unread[0], io).GivenBack?
    requires forall i :: 0 <= i < |turn.input.io.dealloc| ==> turn.input.io.dealloc[i] != []
    requires |OpenSinceReset(After(cfg, TransactionLoop.Fresh(server, start), turns, n).log)| <= |turn.input.io.dealloc|
    ensures var p, io := After(cfg, TransactionLoop.Fresh(server, start), turns, n), turn.input.io;
      var held, log := p.loop.server.value, Iterate(cfg, p.loop, turn).log;
      var names := if ReadyWith(held.unread[0], 'I') then |OpenSinceReset(p.log)| else 0;
      && UpToReady(read) && log != [] && log[|log| - 1].Released?
      && read <= held.unread[1..] + io.reset.reply
      && var left := (held.unread[1..] + io.reset.reply)[|read|..] + RepliesUpTo(names, io.dealloc);
         names <= |left| && log[|log| - 1].b.unread == left[names..]
  {
    hide After, TooLate, Overdue, InTransaction, CanTimeOut, Reset, RunsDry, Deallocate, Answered, OpenSinceReset,
      BeganAt, RepliesUpTo;
    var p, io := After(cfg, TransactionLoop.Fresh(server, start), turns, n), turn.input.io;
    TooLateIsOverdue(cfg, server, start, turns, n, turn.input.now);
    TransactionIsLogged(cfg, server, start, turns, n);
    PreparedIsOpenSinceReset(cfg, server, start, turns, n);
    var held := p.loop.server.value;
    var rest := held.(unread := held.unread[1..]);
    read := ResetGoes(rest, io.reset);
    var left := Reset(rest, io.reset).1.unread;
    assert (rest.unread + io.reset.reply)[|read|..] == left;
    DeallocateReadsOneEach(left, |p.loop.prepared|, io.dealloc);
    DeallocateReadsOneEach(left, 0, io.dealloc);
    NoReplies(left, io.dealloc);
  }

  lemma NoReplies(left: seq<Msg>, replies: seq<seq<Msg>>)
    ensures (left + RepliesUpTo(0, replies))[0..] == left
  {
  }

  /** Which other events end the loop, by what the log says; none of them leaves a trace in it. */
  lemma OtherTurnsExactly(cfg: Settings, server: Option<Backend>, start: nat, turns: seq<Turn>, n: nat, turn: Turn)
    requires n <= |turns| && !turn.input.event.FromClient?
    requires var p := After(cfg, TransactionLoop.Fresh(server, start), turns, n);
      turn.input.event.FromServer? ==> p.loop.server.None? || p.loop.server.value.unread == []
    ensures var l := TransactionLoop.Fresh(server, start);
      var p := After(cfg, l, turns, n);
      var held, waiting := p.loop.server.Some?, p.loop.server.Some? && p.loop.server.value.unread == [];
      var ending := if TooLate(cfg, l, turns, n, turn.input.now) then Broke else
        match turn.input.event
        case TimedOut =>
          if || cfg.clientIdle > 0 || (held && cfg.queryWait > 0)
             || (held && cfg.transaction > 0 && InTransaction(cfg, p.log))
          then Broke else Running
        case ClientClosed => Broke
        case ServerClosed => if held then Broke else Running
        case ClientGarbled => Ending.Crashed
        case ServerGarbled => if waiting then Ending.Crashed else Running
        case _ => Running;
      Iterate(cfg, p.loop, turn) == Progress(p.loop, ending, [])
  {
    hide After, TooLate, Overdue, InTransaction, BeganAt;
    TooLateIsOverdue(cfg, server, start, turns, n, turn.input.now);
    TransactionIsLogged(cfg, server, start, turns, n);
  }

  /**
   * Behind the loop, what is still held is reset and released as the reset leaves it, given up
   * if the reset fails, and taken down by a malformed frame.
   */
  lemma FarewellExactly(l: Loop, reset: ResetIo) returns (read: seq<Msg>)
    ensures var log := FarewellLog(l, reset);
      if l.server.None? || AnsweredByGarble(l.server.value, reset) then log == []
      else if Answered(l.server.value, reset) then
        && |log| == 1 && log[0].Released? && log[0].b == l.server.value.(unread := log[0].b.unread)
        && UpToReady(read) && l.server.value.unread + reset.reply == read + log[0].b.unread
      else log == [Cancelled]
  {
    hide Reset, Answered;
    read := [];
    if l.server.Some? {
      read := ResetGoes(l.server.value, reset);
    }
  }
}
