/** The socket's keep-alive and reconnection: what each resumption of a task does to the transport, as functions.
    `SocketClient` performs the same steps by assigning fields. */
module Socket {
  import opened Common

  /** Constructor settings, in seconds. */
  datatype Config = Config(pingDelay: real, silence: real, retry: real, auto: bool)

  const MAX_DELAY := 60.0

  function MinReal(a: real, b: real): real {
    if a < b then a else b
  }

  /** `r` times two to the power `n`. */
  function Doubled(r: real, n: nat): real {
    if n == 0 then r else 2.0 * Doubled(r, n - 1)
  }

  /** The wait before the attempt after `failures` - 1 failed ones. */
  function Delay(c: Config, failures: nat): real {
    if failures > 1 then MinReal(Doubled(c.retry, failures - 2), MAX_DELAY) else c.retry
  }

  /** A reconnect task: just created, or asleep until a time. */
  datatype Phase = Starting | Waiting(until: real)

  /** Tasks are numbers; `readers`, `keepers` and `reconnects` are the ones still running, the single names are
      the transport's own references, which only it can cancel. */
  datatype State = State(
    now: real,
    socket: Option<nat>,
    readers: set<nat>, reader: Option<nat>,
    keepers: set<nat>, keeper: Option<nat>,
    reconnects: map<nat, Phase>, reconnect: Option<nat>,
    lastFrameAt: real, pingSentAt: Option<real>,
    failures: nat, closed: bool,
    markers: nat, nextId: nat)

  function Init(now: real): State {
    State(now, None, {}, None, {}, None, map[], None, 0.0, None, 0, true, 0, 0)
  }

  function Without(tasks: set<nat>, task: Option<nat>): set<nat> {
    if task.Some? then tasks - {task.value} else tasks
  }

  function Schedule(c: Config, s: State): State {
    if s.closed || !c.auto then s.(markers := s.markers + 1)
    else if s.reconnect.Some? && s.reconnect.value in s.reconnects then s
    else s.(reconnects := s.reconnects[s.nextId := Starting], reconnect := Some(s.nextId), nextId := s.nextId + 1)
  }

  function Drop(s: State): State {
    s.(socket := None, readers := Without(s.readers, s.reader), reader := None,
       keepers := Without(s.keepers, s.keeper), keeper := None)
  }

  function Teardown(s: State): State {
    Drop(if s.reconnect.None? then s else s.(reconnects := s.reconnects - {s.reconnect.value}, reconnect := None))
  }

  /** A handshake succeeded. */
  function Handshaken(s: State): State {
    s.(socket := Some(s.nextId), lastFrameAt := s.now, pingSentAt := None, failures := 0, nextId := s.nextId + 1)
  }

  function Started(s: State): State {
    s.(readers := s.readers + {s.nextId}, reader := Some(s.nextId),
       keepers := s.keepers + {s.nextId + 1}, keeper := Some(s.nextId + 1), nextId := s.nextId + 2)
  }

  function Connected(s: State): State {
    Started(Handshaken(s))
  }

  function KeeperEnds(c: Config, s: State, k: nat, schedule: bool): State {
    var rest := s.(keepers := s.keepers - {k});
    if schedule then Schedule(c, rest) else rest
  }

  /** One turn of the keep-alive loop. */
  function KeeperTurn(c: Config, s: State, k: nat, sent: bool): State {
    if s.closed then KeeperEnds(c, s, k, false)
    else if s.pingSentAt.Some? then
      if s.now >= s.pingSentAt.value + c.silence then KeeperEnds(c, s, k, true) else s
    else if s.now >= s.lastFrameAt + c.pingDelay then
      if s.socket.Some? && sent then s.(pingSentAt := Some(s.now)) else KeeperEnds(c, s, k, true)
    else s
  }

  function Finished(s: State, t: nat): State {
    s.(reconnects := s.reconnects - {t})
  }

  /** The head of the reconnect loop: give up when closed, otherwise sleep. */
  function NextAttempt(c: Config, s: State, t: nat): State {
    if s.closed then Finished(s, t)
    else
      var failures := s.failures + 1;
      s.(failures := failures, reconnects := s.reconnects[t := Waiting(s.now + Delay(c, failures))])
  }

  function ReconnectTurn(c: Config, s: State, t: nat, ok: bool): State
    requires t in s.reconnects
  {
    match s.reconnects[t]
    case Starting => NextAttempt(c, Drop(s), t)
    case Waiting(_) =>
      if s.closed then Finished(s, t)
      else if ok then Finished(Connected(s), t)
      else NextAttempt(c, s, t)
  }

  function Connect(s: State, reuse: bool, ok: bool): State {
    if s.socket.Some? && !s.closed && reuse then s
    else if ok then Connected(Teardown(s)).(closed := false)
    else Teardown(s)
  }

  function Close(s: State): State {
    var down := Teardown(s.(closed := true));
    down.(markers := down.markers + 1)
  }

  // ── events ─────────────────────────────────────────────────────────────────

  /** Outcomes the network decides (`sent`, `ok`) are part of the event. */
  datatype Event =
    | Tick(dt: real)
    | Frame(reader: nat)
    | ReaderFails(reader: nat)
    | KeeperWakes(keeper: nat, sent: bool)
    | ReconnectWakes(task: nat, ok: bool)
    | Connects(reuse: bool, ok: bool)
    | Closes

  predicate Enabled(s: State, e: Event) {
    match e
    case Tick(dt) => dt > 0.0
    case Frame(r) => r in s.readers
    case ReaderFails(r) => r in s.readers
    case KeeperWakes(k, _) => k in s.keepers
    case ReconnectWakes(t, _) => t in s.reconnects && (s.reconnects[t].Waiting? ==> s.now >= s.reconnects[t].until)
    case _ => true
  }

  function Apply(c: Config, s: State, e: Event): State
    requires Enabled(s, e)
  {
    match e
    case Tick(dt) => s.(now := s.now + dt)
    case Frame(_) => s.(lastFrameAt := s.now, pingSentAt := None)
    case ReaderFails(r) =>
      var rest := s.(readers := s.readers - {r});
      if s.closed then rest else Schedule(c, rest)
    case KeeperWakes(k, sent) => KeeperTurn(c, s, k, sent)
    case ReconnectWakes(t, ok) => ReconnectTurn(c, s, t, ok)
    case Connects(reuse, ok) => Connect(s, reuse, ok)
    case Closes => Close(s)
  }
}
