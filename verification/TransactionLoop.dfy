// src/proxy/mod.rs: transaction_loop as decisions between its calls to the pool.

module TransactionLoop {
  import opened Prelude
  import opened Frames
  import opened Backends
  import opened Messages

  const CLOSE: byte := 67        // 'C'
  const ERROR: byte := 69        // 'E'
  const PARSE: byte := 80        // 'P'
  const QUERY: byte := 81        // 'Q'
  const TERMINATE: byte := 88    // 'X'
  const IDLE: byte := 73         // 'I', transaction status of ReadyForQuery
  const IN_BLOCK: byte := 84     // 'T'

  const BEGIN: bytes := [66, 69, 71, 73, 78]
  const START_TRANSACTION: bytes :=
    [83, 84, 65, 82, 84, 32, 84, 82, 65, 78, 83, 65, 67, 84, 73, 79, 78]

  /** Timeouts in seconds, 0 for none, and `str::to_uppercase` with its Unicode tables. */
  datatype Settings = Settings(
    clientIdle: nat, transaction: nat, queryWait: nat, upper: bytes -> bytes)

  /** The locals of the loop. */
  datatype Loop = Loop(server: Option<Backend>, prepared: seq<bytes>, inTx: bool, txStart: nat)

  function Fresh(server: Option<Backend>, now: nat): Loop {
    Loop(server, [], false, now)
  }

  /** What the select at the top of the loop yields. */
  datatype Event =
    | TimedOut
    | ClientClosed
    | FromClient(m: Msg)
    | ServerClosed
    | FromServer            // the first unread message of the backend
    | ClientGarbled         // a frame with a length field below 4: the reader panics
    | ServerGarbled         // the same, from the backend

  /** How the input and output of one iteration turns out. */
  datatype Io = Io(
    sent: bool,                   // a client message could be written to the backend
    reply: seq<Msg>,              // and this is what it is answered with
    delivered: bool,              // a server message could be written to the client
    reset: ResetIo,
    dealloc: seq<seq<Msg>>,       // the answers to the DEALLOCATE queries
    deallocGarbled: bool)         // what their reader meets when nothing else is there

  datatype Input = Input(now: nat, event: Event, io: Io)

  /** What has happened, in order: the calls to the pool and what passed through the loop. */
  datatype Entry =
    | Acquired(b: Backend)        // acquire_backend returned a connection
    | CreateFailed                // acquire took a permit, create failed, cancel gave it back
    | CreatePanicked              // acquire took a permit, create panicked
    | Released(b: Backend)
    | Cancelled
    | Tracked(m: Msg)             // a client message was looked at
    | Sent(to: nat, m: Msg, reply: seq<Msg>)   // and written to a backend, to be answered so
    | Delivered(m: Msg)           // a server message was written to the client
    | Undelivered(m: Msg)         // or could not be
    | WasReset                    // a reset succeeded on an idle ReadyForQuery, names were dropped

  /** What an iteration has done, and the call to the pool that it goes on with. */
  datatype Plan =
    | Stay(loop: Loop, log: seq<Entry>)                   // back to the top of the loop
    | Ask(loop: Loop, m: Msg)                             // acquire a backend, then forward m
    | GiveBack(loop: Loop, b: Backend, log: seq<Entry>)   // pool.release
    | Abandon(loop: Loop, log: seq<Entry>)                // connection dropped, then pool.cancel
    | Leave(loop: Loop, log: seq<Entry>)                  // break
    | Crash(loop: Loop, log: seq<Entry>)                  // a read panics, the handler ends

  predicate Contains(s: bytes, pattern: bytes) {
    exists i :: 0 <= i <= |s| && pattern <= s[i..]
  }

  predicate StartsTransaction(cfg: Settings, payload: bytes) {
    Contains(cfg.upper(payload), BEGIN) || Contains(cfg.upper(payload), START_TRANSACTION)
  }

  /** `prepared.retain(|s| s != name)` */
  function Without(names: seq<bytes>, name: bytes): seq<bytes> {
    if names == [] then []
    else (if names[0] == name then [] else [names[0]]) + Without(names[1..], name)
  }

  /** The transaction timeout has passed: the select is not even entered. */
  predicate Overdue(cfg: Settings, l: Loop, now: nat) {
    l.server.Some? && l.inTx && cfg.transaction > 0 && now >= l.txStart + cfg.transaction
  }

  /** Which sleeps are in the select at all. */
  predicate CanTimeOut(cfg: Settings, l: Loop) {
    || cfg.clientIdle > 0
    || (l.server.Some? && (cfg.queryWait > 0 || (l.inTx && cfg.transaction > 0)))
  }

  /** Events that the select can yield in this state. */
  predicate CanHappen(cfg: Settings, l: Loop, e: Event) {
    match e
    case TimedOut => CanTimeOut(cfg, l)
    case ClientClosed => true
    case FromClient(_) => true
    case ServerClosed => l.server.Some?
    case FromServer => l.server.Some? && l.server.value.unread != []
    case ClientGarbled => true
    case ServerGarbled => l.server.Some? && l.server.value.unread == []
  }

  /** What a client message does to the tracked state, before it is written. */
  function Track(cfg: Settings, l: Loop, m: Msg, now: nat): (l1: Loop)
    ensures l1.server == l.server
  {
    if m.t == PARSE then
      var name := ParseStatementName(m.payload);
      if name == [] then l else l.(prepared := l.prepared + [name])
    else if m.t == CLOSE then
      var name := ParseCloseTarget(m.payload).1;
      if name == [] then l else l.(prepared := Without(l.prepared, name))
    else if m.t == QUERY && StartsTransaction(cfg, m.payload) then
      l.(inTx := true, txStart := now)
    else l
  }

  /** A client message with a backend at hand: track it and write it. */
  function Forward(cfg: Settings, l: Loop, m: Msg, now: nat, io: Io): (plan: Plan)
    requires l.server.Some?
    ensures plan.Stay? || plan.Leave?
  {
    var l1 := Track(cfg, l, m, now);
    if !io.sent then Leave(l1, [Tracked(m)])
    else
      var b := l.server.value;
      Stay(l1.(server := Some(b.(unread := b.unread + io.reply))), [Tracked(m), Sent(b.id, m, io.reply)])
  }

  predicate IsIdle(m: Msg) {
    m.t == READY && |m.payload| > 0 && m.payload[0] == IDLE
  }

  predicate IsInBlock(m: Msg) {
    m.t == READY && |m.payload| > 0 && m.payload[0] == IN_BLOCK
  }

  /** ReadyForQuery, idle: reset, deallocate, and release whether or not the reset worked. */
  function OnIdle(l: Loop, b: Backend, m: Msg, io: Io): Plan {
    var (r, b1) := Reset(b, io.reset);
    match r
    case ResetDone =>
      if io.deallocGarbled && RunsDry(b1.unread, |l.prepared|, io.dealloc)
      then Crash(l.(server := Some(b1)), [Delivered(m)])
      else
        var b2 := b1.(unread := Deallocate(b1.unread, |l.prepared|, io.dealloc));
        GiveBack(l.(server := None, prepared := [], inTx := false), b2, [Delivered(m), WasReset])
    case ResetFailed => GiveBack(l.(server := None), b1, [Delivered(m)])
    case ResetPanics => Crash(l.(server := Some(b1)), [Delivered(m)])
  }

  /** An error outside a transaction: reset, and release or give the connection up. */
  function OnError(l: Loop, b: Backend, m: Msg, io: Io): Plan {
    var (r, b1) := Reset(b, io.reset);
    match r
    case ResetDone => GiveBack(l.(server := None), b1, [Delivered(m)])
    case ResetFailed => Abandon(l.(server := None), [Delivered(m)])
    case ResetPanics => Crash(l.(server := Some(b1)), [Delivered(m)])
  }

  /** The first unread message of the backend, passed on to the client. */
  function OnServer(l: Loop, now: nat, io: Io): (plan: Plan)
    requires l.server.Some? && l.server.value.unread != []
    ensures !plan.Ask?
  {
    var m := l.server.value.unread[0];
    var b := l.server.value.(unread := l.server.value.unread[1..]);
    var l1 := l.(server := Some(b));
    if !io.delivered then Leave(l1, [Undelivered(m)])
    else if IsIdle(m) then OnIdle(l1, b, m, io)
    else if IsInBlock(m) then Stay(l1.(inTx := true, txStart := now), [Delivered(m)])
    else if m.t == ERROR && !l.inTx then OnError(l1, b, m, io)
    else Stay(l1, [Delivered(m)])
  }

  /** One iteration of the loop, up to its call to the pool. */
  function OnEvent(cfg: Settings, l: Loop, input: Input): Plan {
    if Overdue(cfg, l, input.now) then Leave(l, [])
    else if !CanHappen(cfg, l, input.event) then Stay(l, [])
    else
      match input.event
      case FromClient(m) =>
        if m.t == TERMINATE then Leave(l, [])
        else if l.server.None? then Ask(l, m)
        else Forward(cfg, l, m, input.now, input.io)
      case FromServer => OnServer(l, input.now, input.io)
      case ClientGarbled => Crash(l, [])
      case ServerGarbled => Crash(l, [])
      case _ => Leave(l, [])
  }

  /** After the loop: reset what is held and release it, or cancel and only then drop it. */
  datatype Farewell = NothingHeld | Return(b: Backend) | CancelThenDrop(b: Backend) | CrashHolding(b: Backend)

  function OnExit(l: Loop, reset: ResetIo): Farewell {
    match l.server
    case None => NothingHeld
    case Some(b) =>
      var (r, b1) := Reset(b, reset);
      match r
      case ResetDone => Return(b1)
      case ResetFailed => CancelThenDrop(b1)
      case ResetPanics => CrashHolding(b1)
  }

  // ---- Whole runs ----

  /** The call to the pool that a plan ends with. */
  function CallOf(plan: Plan): seq<Entry> {
    match plan
    case GiveBack(_, b, _) => [Released(b)]
    case Abandon(_, _) => [Cancelled]
    case _ => []
  }

  /** How far a run is: in the loop, behind it, or ended by a panic. */
  datatype Ending =
    | Running
    | Broke
    | Crashed
    | CrashedConnecting     // in create_backend, with a permit and no connection

  datatype Progress = Progress(loop: Loop, ending: Ending, log: seq<Entry>)

  /** An input together with what acquire_backend comes to if it is called. */
  datatype Turn = Turn(input: Input, granted: Connection)

  /** One iteration with its call to the pool: the loop after it, and what it adds to the log. */
  function Iterate(cfg: Settings, l: Loop, turn: Turn): Progress {
    match OnEvent(cfg, l, turn.input)
    case Stay(l1, log) => Progress(l1, Running, log)
    case Leave(l1, log) => Progress(l1, Broke, log)
    case Crash(l1, log) => Progress(l1, Crashed, log)
    case GiveBack(l1, b, log) => Progress(l1, Running, log + [Released(b)])
    case Abandon(l1, log) => Progress(l1, Running, log + [Cancelled])
    case Ask(l1, m) =>
      match turn.granted
      case NotConnected => Progress(l1, Broke, [CreateFailed])
      case ConnectPanics => Progress(l1, CrashedConnecting, [CreatePanicked])
      case Connected(b) =>
        var plan := Forward(cfg, l1.(server := Some(b)), m, turn.input.now, turn.input.io);
        Progress(plan.loop, if plan.Leave? then Broke else Running, [Acquired(b)] + plan.log)
  }

  /** Where the loop stands after the first `n` turns; it does nothing once it has ended. */
  function After(cfg: Settings, l: Loop, turns: seq<Turn>, n: nat): Progress
    requires n <= |turns|
  {
    if n == 0 then Progress(l, Running, [])
    else
      var p := After(cfg, l, turns, n - 1);
      if !p.ending.Running? then p
      else
        var q := Iterate(cfg, p.loop, turns[n - 1]);
        q.(log := p.log + q.log)
  }

  /** What the code after the loop adds to the log. */
  function FarewellLog(l: Loop, reset: ResetIo): seq<Entry> {
    match OnExit(l, reset)
    case NothingHeld => []
    case Return(b) => [Released(b)]
    case CancelThenDrop(_) => [Cancelled]
    case CrashHolding(_) => []
  }

  /** All that a run has done, with what follows the loop if that has been reached. */
  function WholeLog(p: Progress, reset: ResetIo): seq<Entry> {
    p.log + if p.ending.Broke? then FarewellLog(p.loop, reset) else []
  }
}
