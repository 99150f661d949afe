/** The transport as an object: each method is one resumption of a task, or one call. */
module SocketClient {
  import opened Common
  import opened Socket
  import opened SocketRuns

  /** Fields as the code keeps them; each method is one resumption, or one call, and refines the step above. */
  class SocketTransport {
    const config: Config
    var now: real
    var socket: Option<nat>
    var readers: set<nat>
    var reader: Option<nat>
    var keepers: set<nat>
    var keeper: Option<nat>
    var reconnects: map<nat, Phase>
    var reconnect: Option<nat>
    var lastFrameAt: real
    var pingSentAt: Option<real>
    var failures: nat
    var closed: bool
    var markers: nat
    var nextId: nat

    ghost function View(): State
      reads this
    {
      State(now, socket, readers, reader, keepers, keeper, reconnects, reconnect,
            lastFrameAt, pingSentAt, failures, closed, markers, nextId)
    }

    /** At most one task of each kind, each known to the transport, and honest timers. */
    ghost predicate Valid()
      reads this
    {
      Inv(config, View())
    }

    constructor (config: Config, now: real)
      ensures Valid() && this.config == config && View() == Init(now)
    {
      this.config, this.now := config, now;
      socket, readers, reader, keepers, keeper := None, {}, None, {}, None;
      reconnects, reconnect := map[], None;
      lastFrameAt, pingSentAt, failures, closed, markers, nextId := 0.0, None, 0, true, 0, 0;
    }

    method ScheduleReconnect()
      modifies this
      ensures View() == Schedule(config, old(View()))
    {
      if closed || !config.auto {
        markers := markers + 1;
        return;
      }
      if reconnect.Some? && reconnect.value in reconnects {
        return;
      }
      reconnects := reconnects[nextId := Starting];
      reconnect := Some(nextId);
      nextId := nextId + 1;
    }

    method DropSocket()
      modifies this
      ensures View() == Drop(old(View()))
    {
      socket := None;
      if reader.Some? {
        readers := readers - {reader.value};
      }
      reader := None;
      if keeper.Some? {
        keepers := keepers - {keeper.value};
      }
      keeper := None;
    }

    method TeardownAll()
      modifies this
      ensures View() == Teardown(old(View()))
    {
      if reconnect.Some? {
        reconnects := reconnects - {reconnect.value};
        reconnect := None;
      }
      DropSocket();
    }

    /** `_connect_once` after a good handshake, and the reset of the failure count. */
    method ConnectOnce()
      modifies `socket, `lastFrameAt, `pingSentAt, `failures, `nextId
      ensures View() == Handshaken(old(View()))
    {
      socket := Some(nextId);
      lastFrameAt := now;
      pingSentAt := None;
      failures := 0;
      nextId := nextId + 1;
    }

    method StartTasks()
      modifies `readers, `reader, `keepers, `keeper, `nextId
      ensures View() == Started(old(View()))
    {
      reader := Some(nextId);
      readers := readers + {nextId};
      keeper := Some(nextId + 1);
      keepers := keepers + {nextId + 1};
      nextId := nextId + 2;
    }

    method OnFrame(r: nat)
      requires Enabled(View(), Frame(r))
      modifies this
      ensures View() == Apply(config, old(View()), Frame(r))
    {
      lastFrameAt := now;
      pingSentAt := None;
    }

    method OnReaderError(r: nat)
      requires Enabled(View(), ReaderFails(r))
      modifies this
      ensures View() == Apply(config, old(View()), ReaderFails(r))
    {
      readers := readers - {r};
      if !closed {
        ScheduleReconnect();
      }
    }

    method KeepaliveTurn(k: nat, sent: bool)
      requires Enabled(View(), KeeperWakes(k, sent))
      modifies this
      ensures View() == Apply(config, old(View()), KeeperWakes(k, sent))
    {
      if closed {
        keepers := keepers - {k};
        return;
      }
      if pingSentAt.Some? {
        var deadline := pingSentAt.value + config.silence;
        if now >= deadline {
          keepers := keepers - {k};
          ScheduleReconnect();
        }
        return;
      }
      var due := lastFrameAt + config.pingDelay;
      if now >= due {
        if socket.None? || !sent {
          keepers := keepers - {k};
          ScheduleReconnect();
        } else {
          pingSentAt := Some(now);
        }
      }
    }

    method SleepBeforeAttempt(t: nat)
      modifies this
      ensures View() == NextAttempt(config, old(View()), t)
    {
      if closed {
        reconnects := reconnects - {t};
        return;
      }
      failures := failures + 1;
      var delay := if failures > 1 then MinReal(Doubled(config.retry, failures - 2), MAX_DELAY) else config.retry;
      reconnects := reconnects[t := Waiting(now + delay)];
    }

    method ReconnectResumes(t: nat, ok: bool)
      requires Enabled(View(), ReconnectWakes(t, ok))
      modifies this
      ensures View() == Apply(config, old(View()), ReconnectWakes(t, ok))
    {
      if reconnects[t].Starting? {
        DropSocket();
        SleepBeforeAttempt(t);
        return;
      }
      if closed {
        reconnects := reconnects - {t};
        return;
      }
      if !ok {
        SleepBeforeAttempt(t);
        return;
      }
      ConnectOnce();
      StartTasks();
      reconnects := reconnects - {t};
    }

    method ConnectCall(reuse: bool, ok: bool)
      modifies this
      ensures View() == Apply(config, old(View()), Connects(reuse, ok))
    {
      if socket.Some? && !closed && reuse {
        return;
      }
      TeardownAll();
      if ok {
        ConnectOnce();
        StartTasks();
        closed := false;
      }
    }

    method CloseCall()
      modifies this
      ensures View() == Apply(config, old(View()), Closes)
    {
      closed := true;
      TeardownAll();
      markers := markers + 1;
    }

    /** Any enabled event takes the fields where the runs say, and keeps them valid. */
    method Perform(e: Event)
      requires Valid() && Enabled(View(), e)
      modifies this
      ensures View() == Apply(config, old(View()), e)
      ensures Valid()
    {
      StepHolds(config, View(), e);
      match e {
        case Tick(dt) => now := now + dt;
        case Frame(r) => OnFrame(r);
        case ReaderFails(r) => OnReaderError(r);
        case KeeperWakes(k, sent) => KeepaliveTurn(k, sent);
        case ReconnectWakes(t, ok) => ReconnectResumes(t, ok);
        case Connects(reuse, ok) => ConnectCall(reuse, ok);
        case Closes => CloseCall();
      }
    }
  }
}
