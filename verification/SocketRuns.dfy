/** What holds in every run of the transport: one reconnect, one unanswered ping, honest timers. */
module SocketRuns {
  import opened Common
  import opened Socket

  // ── every state ────────────────────────────────────────────────────────────

  ghost predicate Owned(tasks: set<nat>, task: Option<nat>) {
    forall t :: t in tasks ==> task == Some(t)
  }

  ghost predicate Timers(c: Config, s: State) {
    && (s.socket.Some? || s.pingSentAt.Some? ==> s.lastFrameAt <= s.now)
    && (s.pingSentAt.Some? ==> s.lastFrameAt + c.pingDelay <= s.pingSentAt.value <= s.now)
  }

  /** Every running task is the one the transport refers to, so there is at most one of each kind; the two loops
      run only while there is a socket, a reconnect sleeps only while there is none, and a closed transport runs
      nothing. */
  ghost predicate Inv(c: Config, s: State) {
    && Owned(s.readers, s.reader) && Owned(s.keepers, s.keeper) && Owned(s.reconnects.Keys, s.reconnect)
    && (s.socket.None? ==> s.readers == {} && s.keepers == {})
    && (forall t :: t in s.reconnects && s.reconnects[t].Waiting? ==> s.socket.None?)
    && (s.closed ==> s.socket.None? && s.reconnects == map[])
    && Timers(c, s)
  }

  lemma InitHolds(c: Config, now: real)
    ensures Inv(c, Init(now))
  {
  }

  lemma DropHolds(c: Config, s: State)
    requires Inv(c, s)
    ensures Inv(c, Drop(s))
  {
  }

  lemma ScheduleHolds(c: Config, s: State)
    requires Inv(c, s)
    ensures Inv(c, Schedule(c, s))
  {
  }

  lemma TeardownHolds(c: Config, s: State)
    requires Inv(c, s)
    ensures Inv(c, Teardown(s)) && Teardown(s).reconnects == map[]
    ensures Teardown(s).readers == {} && Teardown(s).keepers == {} && Teardown(s).socket.None?
  {
    hide Inv;
    TeardownEmpties(c, s);
    DropHolds(c, if s.reconnect.None? then s else s.(reconnects := map[], reconnect := None)) by {
      CancelHolds(c, s);
    }
  }

  lemma CancelHolds(c: Config, s: State)
    requires Inv(c, s)
    ensures Inv(c, s.(reconnects := map[], reconnect := None))
  {
  }

  lemma TeardownEmpties(c: Config, s: State)
    requires Inv(c, s)
    ensures s.reconnect.Some? ==> s.reconnects - {s.reconnect.value} == map[]
    ensures s.reconnect.None? ==> s.reconnects == map[]
    ensures Drop(s).readers == {} && Drop(s).keepers == {}
  {
  }

  lemma ConnectedHolds(c: Config, s: State)
    requires Inv(c, s) && s.readers == {} && s.keepers == {} && forall t :: t in s.reconnects ==> s.reconnects[t].Starting?
    ensures Inv(c, Connected(s).(closed := false))
  {
  }

  lemma StepHolds(c: Config, s: State, e: Event)
    requires Inv(c, s) && Enabled(s, e)
    ensures Inv(c, Apply(c, s, e))
  {
    match e
    case Tick(dt) =>
    case Frame(r) =>
    case ReaderFails(r) =>
      ScheduleHolds(c, s.(readers := s.readers - {r}));
    case KeeperWakes(k, sent) =>
      KeeperHolds(c, s, k, sent);
    case ReconnectWakes(t, ok) =>
      ReconnectHolds(c, s, t, ok);
    case Connects(reuse, ok) =>
      TeardownHolds(c, s);
      if ok {
        ConnectedHolds(c, Teardown(s));
      }
    case Closes =>
      TeardownHolds(c, s);
      CloseHolds(c, s);
  }

  lemma KeeperHolds(c: Config, s: State, k: nat, sent: bool)
    requires Inv(c, s) && k in s.keepers
    ensures Inv(c, KeeperTurn(c, s, k, sent))
  {
    ScheduleHolds(c, s.(keepers := s.keepers - {k}));
  }

  lemma CloseHolds(c: Config, s: State)
    requires Inv(c, s)
    ensures Inv(c, Close(s))
  {
    TeardownEmpties(c, s);
  }

  lemma ReconnectHolds(c: Config, s: State, t: nat, ok: bool)
    requires Inv(c, s) && t in s.reconnects
    ensures Inv(c, ReconnectTurn(c, s, t, ok))
  {
    TeardownEmpties(c, s);
    DropHolds(c, s);
  }

  // ── one step ───────────────────────────────────────────────────────────────

  /** Something arrived: a frame, or the answer to a handshake. */
  predicate Hears(s: State, e: Event) {
    match e
    case Frame(_) => true
    case ReconnectWakes(t, ok) => t in s.reconnects && s.reconnects[t].Waiting? && !s.closed && ok
    case Connects(reuse, ok) => !(s.socket.Some? && !s.closed && reuse) && ok
    case _ => false
  }

  predicate Pings(c: Config, s: State, e: Event) {
    && e.KeeperWakes? && !s.closed && s.pingSentAt.None? && s.now >= s.lastFrameAt + c.pingDelay
    && s.socket.Some? && e.sent
  }

  /** A reconnect task is running, as far as the transport knows. */
  predicate Reconnecting(s: State) {
    s.reconnect.Some? && s.reconnect.value in s.reconnects
  }

  /** When the keep-alive loop wakes it ends exactly when the transport is closed, when a ping has been unanswered for
      the silence timeout, or when a ping is due and cannot be sent. In the last two cases the transport then has a
      reconnect task, the old one or a new one, if it reconnects by itself. Otherwise it at most sends a due ping. */
  lemma KeeperTable(c: Config, s: State, k: nat, sent: bool)
    requires Enabled(s, KeeperWakes(k, sent))
    ensures var t, due := Apply(c, s, KeeperWakes(k, sent)), s.pingSentAt.None? && s.now - s.lastFrameAt >= c.pingDelay;
      var silent := s.pingSentAt.Some? && s.now - s.pingSentAt.value >= c.silence;
      && (k !in t.keepers <==> s.closed || silent || (due && (s.socket.None? || !sent)))
      && (k in t.keepers ==> t == if due then s.(pingSentAt := Some(s.now)) else s)
      && (k !in t.keepers ==>
            && t == s.(keepers := s.keepers - {k}, reconnects := t.reconnects, reconnect := t.reconnect,
                       markers := t.markers, nextId := t.nextId)
            && (s.closed ==> t.reconnects == s.reconnects && t.reconnect == s.reconnect && t.markers == s.markers)
            && (!s.closed && c.auto ==> Reconnecting(t) && t.markers == s.markers)
            && (!s.closed && c.auto && Reconnecting(s) ==> t.reconnects == s.reconnects && t.reconnect == s.reconnect)
            && (!s.closed && c.auto && !Reconnecting(s) ==>
                  t.reconnect == Some(s.nextId) && t.reconnects == s.reconnects[s.nextId := Starting])
            && (!s.closed && !c.auto ==> t.reconnects == s.reconnects && t.reconnect == s.reconnect && t.markers == s.markers + 1))
  {
  }

  /** A reader that fails ends; an open transport that reconnects by itself then has a reconnect task, the old one or a
      new one, and one that does not marks the drop. */
  lemma ReaderTable(c: Config, s: State, r: nat)
    requires Enabled(s, ReaderFails(r))
    ensures var t, left := Apply(c, s, ReaderFails(r)), s.readers - {r};
      if s.closed || (c.auto && Reconnecting(s)) then t == s.(readers := left)
      else if !c.auto then t == s.(readers := left, markers := s.markers + 1)
      else t == s.(readers := left, reconnects := s.reconnects[s.nextId := Starting], reconnect := Some(s.nextId), nextId := s.nextId + 1)
  {
  }

  /** No socket, and no loop that runs with one. */
  function Bare(s: State): State {
    s.(socket := None, readers := {}, reader := None, keepers := {}, keeper := None)
  }

  /** A new socket that has just been heard from, with a reader and a keep-alive loop of its own. */
  function Fresh(s: State): State {
    var n := s.nextId;
    s.(socket := Some(n), lastFrameAt := s.now, pingSentAt := None, failures := 0,
       readers := {n + 1}, reader := Some(n + 1), keepers := {n + 2}, keeper := Some(n + 2), nextId := n + 3)
  }

  /** Closing ends every task, gives the socket up and marks the drop. A connect call reuses a live connection if it
      may; otherwise everything is ended first, and a good handshake gives an open transport with a fresh socket. */
  lemma CallTable(c: Config, s: State, reuse: bool, ok: bool)
    requires Inv(c, s)
    ensures Apply(c, s, Closes) == Bare(s).(closed := true, reconnects := map[], reconnect := None, markers := s.markers + 1)
    ensures Apply(c, s, Connects(reuse, ok)) ==
      if s.socket.Some? && !s.closed && reuse then s
      else if ok then Fresh(Bare(s).(reconnects := map[], reconnect := None)).(closed := false)
      else Bare(s).(reconnects := map[], reconnect := None)
  {
    TeardownEmpties(c, s);
  }

  /** A reconnect task drops the socket in its first turn; a good attempt ends it with a fresh socket; in every other
      turn it counts the attempt and sleeps. */
  lemma AttemptTable(c: Config, s: State, task: nat, ok: bool)
    requires Inv(c, s) && Enabled(s, ReconnectWakes(task, ok))
    ensures !s.closed
    ensures var t, asleep := Apply(c, s, ReconnectWakes(task, ok)), Waiting(s.now + Delay(c, s.failures + 1));
      if s.reconnects[task].Waiting? && ok then t == Fresh(s).(reconnects := s.reconnects - {task})
      else t == (if s.reconnects[task].Starting? then Bare(s) else s).(
        failures := s.failures + 1, reconnects := s.reconnects[task := asleep])
  {
    TeardownEmpties(c, s);
  }

  /** All a step can do to the timers. */
  lemma TimersMove(c: Config, s: State, e: Event)
    requires Enabled(s, e)
    ensures var s' := Apply(c, s, e);
      && s.now <= s'.now && (e.Tick? || s'.now == s.now)
      && (Hears(s, e) ==> s'.lastFrameAt == s.now && s'.pingSentAt.None?)
      && (Pings(c, s, e) ==> s'.lastFrameAt == s.lastFrameAt && s'.pingSentAt == Some(s.now))
      && (!Hears(s, e) && !Pings(c, s, e) ==> s'.lastFrameAt == s.lastFrameAt && s'.pingSentAt == s.pingSentAt)
  {
  }

  /** A socket is had only by hearing from one. */
  lemma SocketIsHeard(c: Config, s: State, e: Event)
    requires Enabled(s, e) && s.socket.None? && Apply(c, s, e).socket.Some?
    ensures Hears(s, e)
  {
  }

  // ── runs ───────────────────────────────────────────────────────────────────

  datatype Run = Run(states: seq<State>, events: seq<Event>)

  ghost predicate StepAt(c: Config, run: Run, i: nat)
    requires i < |run.events| && |run.states| == |run.events| + 1
  {
    Enabled(run.states[i], run.events[i]) && run.states[i + 1] == Apply(c, run.states[i], run.events[i])
  }

  ghost predicate IsRun(c: Config, run: Run) {
    && |run.states| == |run.events| + 1
    && run.states[0] == Init(run.states[0].now)
    && forall i :: 0 <= i < |run.events| ==> StepAt(c, run, i)
  }

  predicate HearsAt(run: Run, i: nat)
    requires i < |run.events| < |run.states|
  {
    Hears(run.states[i], run.events[i])
  }

  predicate PingsAt(c: Config, run: Run, i: nat)
    requires i < |run.events| < |run.states|
  {
    Pings(c, run.states[i], run.events[i])
  }

  ghost predicate NothingHeard(run: Run, i: nat, k: nat)
    requires k <= |run.events| < |run.states|
  {
    forall j :: i < j < k ==> !HearsAt(run, j)
  }

  lemma {:induction false} EveryState(c: Config, run: Run, k: nat)
    requires IsRun(c, run) && k < |run.states|
    ensures Inv(c, run.states[k])
  {
    hide Inv, Apply, Enabled;
    if k == 0 {
      InitHolds(c, run.states[0].now);
    } else {
      EveryState(c, run, k - 1);
      assert StepAt(c, run, k - 1);
      StepHolds(c, run.states[k - 1], run.events[k - 1]);
    }
  }

  /** Never more than one reader, one keep-alive loop and one reconnect task, at any point of any run. */
  lemma OneOfEach(c: Config, run: Run, k: nat)
    requires IsRun(c, run) && k < |run.states|
    ensures var s := run.states[k]; |s.readers| <= 1 && |s.keepers| <= 1 && |s.reconnects| <= 1
  {
    hide IsRun, Timers;
    EveryState(c, run, k);
    var s := run.states[k];
    AtMostOne(s.readers, s.reader);
    AtMostOne(s.keepers, s.keeper);
    AtMostOne(s.reconnects.Keys, s.reconnect);
    assert |s.reconnects| == |s.reconnects.Keys|;
  }

  lemma AtMostOne(tasks: set<nat>, task: Option<nat>)
    requires Owned(tasks, task)
    ensures |tasks| <= 1
  {
    if t :| t in tasks {
      assert tasks == {t};
    }
  }

  /** The clock at step `i`. */
  function Time(run: Run, i: nat): real
    requires i < |run.states|
  {
    run.states[i].now
  }

  /** No frame heard so far is later than the frame the timers count from. */
  lemma {:induction false} FramesAreCounted(c: Config, run: Run, i: nat, k: nat)
    requires IsRun(c, run) && i < k < |run.states| && HearsAt(run, i)
    ensures run.states[k].lastFrameAt >= Time(run, i)
    decreases k
  {
    hide Apply, Enabled, Hears, Pings, Inv;
    assert StepAt(c, run, k - 1);
    TimersMove(c, run.states[k - 1], run.events[k - 1]);
    if i < k - 1 {
      FramesAreCounted(c, run, i, k - 1);
      TimeIsMonotone(c, run, i, k - 1);
    }
  }

  lemma {:induction false} TimeIsMonotone(c: Config, run: Run, i: nat, k: nat)
    requires IsRun(c, run) && i <= k < |run.states|
    ensures Time(run, i) <= Time(run, k)
    decreases k
  {
    hide Apply, Enabled, Hears, Pings;
    if i < k {
      TimeIsMonotone(c, run, i, k - 1);
      assert StepAt(c, run, k - 1);
      TimersMove(c, run.states[k - 1], run.events[k - 1]);
    }
  }

  /** The time the timers count from is that of a frame. */
  lemma {:induction false} CountsFromAFrame(c: Config, run: Run, k: nat) returns (i: nat)
    requires IsRun(c, run) && k < |run.states| && run.states[k].socket.Some?
    ensures i < k && HearsAt(run, i) && run.states[k].lastFrameAt == Time(run, i)
    decreases k
  {
    hide Apply, Enabled, Hears, Pings;
    assert StepAt(c, run, k - 1);
    var s, e := run.states[k - 1], run.events[k - 1];
    TimersMove(c, s, e);
    if Hears(s, e) {
      i := k - 1;
    } else {
      if s.socket.None? {
        SocketIsHeard(c, s, e);
        assert false;
      }
      i := CountsFromAFrame(c, run, k - 1);
    }
  }

  /** An unanswered ping is remembered. */
  lemma {:induction false} PingIsRemembered(c: Config, run: Run, i: nat, k: nat)
    requires IsRun(c, run) && i < k < |run.states| && PingsAt(c, run, i) && NothingHeard(run, i, k)
    ensures run.states[k].pingSentAt == Some(Time(run, i))
    decreases k
  {
    hide Apply, Enabled, Hears;
    assert StepAt(c, run, k - 1);
    TimersMove(c, run.states[k - 1], run.events[k - 1]);
    if i < k - 1 {
      PingIsRemembered(c, run, i, k - 1);
      assert !HearsAt(run, k - 1);
    } else {
      PingHearsNothing(c, run.states[i], run.events[i]);
    }
  }

  lemma PingHearsNothing(c: Config, s: State, e: Event)
    requires Pings(c, s, e)
    ensures !Hears(s, e)
  {
  }

  /** And what is remembered was sent. */
  lemma {:induction false} PingWasSent(c: Config, run: Run, k: nat) returns (i: nat)
    requires IsRun(c, run) && k < |run.states| && run.states[k].pingSentAt.Some?
    ensures i < k && PingsAt(c, run, i) && run.states[k].pingSentAt == Some(Time(run, i)) && NothingHeard(run, i, k)
    decreases k
  {
    hide Apply, Enabled, Hears, Pings;
    assert StepAt(c, run, k - 1);
    var s, e := run.states[k - 1], run.events[k - 1];
    TimersMove(c, s, e);
    if Pings(c, s, e) {
      i := k - 1;
    } else {
      i := PingWasSent(c, run, k - 1);
      assert !HearsAt(run, k - 1);
    }
  }

  // ── the promises ───────────────────────────────────────────────────────────

  /** At most one ping is unanswered: between two pings something was heard. */
  lemma PingsAreAnswered(c: Config, run: Run, i: nat, j: nat)
    requires IsRun(c, run) && i < j < |run.events| && PingsAt(c, run, i) && PingsAt(c, run, j)
    ensures exists k: nat :: i < k < j && HearsAt(run, k)
  {
    hide IsRun, Hears;
    RunLength(c, run);
    if NothingHeard(run, i, j) {
      PingIsRemembered(c, run, i, j);
      assert false;
    }
  }

  lemma RunLength(c: Config, run: Run)
    requires IsRun(c, run)
    ensures |run.states| == |run.events| + 1
  {
  }

  /** A ping goes out only on a connection that has been heard from, and never before the heartbeat interval has
      passed since anything was heard last. */
  lemma PingsWait(c: Config, run: Run, j: nat)
    requires IsRun(c, run) && j < |run.events| && PingsAt(c, run, j)
    ensures exists i: nat :: i < j && HearsAt(run, i)
    ensures forall i: nat :: i < j && HearsAt(run, i) ==> Time(run, j) >= Time(run, i) + c.pingDelay
  {
    hide IsRun, Hears;
    RunLength(c, run);
    var last := CountsFromAFrame(c, run, j);
    forall i: nat | i < j && HearsAt(run, i)
      ensures Time(run, j) >= Time(run, i) + c.pingDelay
    {
      FramesAreCounted(c, run, i, j);
    }
  }

  /** Event `j` is a wake of the keep-alive loop that ends it while the transport is open. */
  ghost predicate GivesUpAt(run: Run, j: nat)
    requires j < |run.events| < |run.states|
  {
    var e := run.events[j];
    e.KeeperWakes? && !run.states[j].closed && e.keeper !in run.states[j + 1].keepers
  }

  /** The keep-alive loop gives an open connection up only for one of two reasons: a ping was sent at least the
      silence timeout earlier and nothing was heard since, or a ping was due, the heartbeat interval after everything
      heard before, and could not be sent. */
  lemma SilenceIsReal(c: Config, run: Run, j: nat)
    requires IsRun(c, run) && j < |run.events| && |run.states| == |run.events| + 1 && GivesUpAt(run, j)
    ensures run.states[j].pingSentAt.Some? ==>
      exists i: nat :: i < j && PingsAt(c, run, i) && NothingHeard(run, i, j) && Time(run, j) >= Time(run, i) + c.silence
    ensures run.states[j].pingSentAt.None? ==>
      && (run.states[j].socket.None? || !run.events[j].sent)
      && forall i: nat :: i < j && HearsAt(run, i) ==> Time(run, j) >= Time(run, i) + c.pingDelay
  {
    hide Hears, Pings, Apply, KeeperTurn;
    assert StepAt(c, run, j);
    KeeperTable(c, run.states[j], run.events[j].keeper, run.events[j].sent);
    if run.states[j].pingSentAt.Some? {
      var i := PingWasSent(c, run, j);
    } else {
      forall i: nat | i < j && HearsAt(run, i)
        ensures Time(run, j) >= Time(run, i) + c.pingDelay
      {
        FramesAreCounted(c, run, i, j);
      }
    }
  }

  /** And it does give up at any wake when a ping has been unanswered for so long, and the transport reconnects. */
  lemma SilenceIsNoticed(c: Config, run: Run, i: nat, j: nat)
    requires IsRun(c, run) && i < j < |run.events| && PingsAt(c, run, i) && NothingHeard(run, i, j)
    requires Time(run, j) >= Time(run, i) + c.silence && run.events[j].KeeperWakes? && !run.states[j].closed
    ensures |run.states| == |run.events| + 1 && GivesUpAt(run, j)
    ensures c.auto ==> Reconnecting(run.states[j + 1])
  {
    hide Hears, Pings, Apply, KeeperTurn;
    assert StepAt(c, run, j);
    PingIsRemembered(c, run, i, j);
    KeeperTable(c, run.states[j], run.events[j].keeper, run.events[j].sent);
  }

  /** A closed transport does nothing by itself. */
  lemma ClosedIsQuiet(c: Config, run: Run, k: nat)
    requires IsRun(c, run) && k < |run.events| && run.states[k].closed
    ensures run.events[k].Tick? || run.events[k].Connects? || run.events[k].Closes?
  {
    EveryState(c, run, k);
    assert StepAt(c, run, k);
  }

  // ── watched or reconnecting ────────────────────────────────────────────────

  /** Closed, reconnecting, or connected with both loops running. */
  ghost predicate Watched(s: State) {
    s.closed || s.reconnects != map[] || (s.socket.Some? && s.readers != {} && s.keepers != {})
  }

  /** A connect call on an open transport that tears the old connection down and gets no new one. */
  predicate FailsToConnect(s: State, e: Event) {
    e.Connects? && !e.ok && !s.closed && !(s.socket.Some? && e.reuse)
  }

  lemma ScheduleWatches(c: Config, s: State)
    requires c.auto
    ensures Watched(Schedule(c, s))
  {
    if !s.closed && s.reconnect.Some? && s.reconnect.value in s.reconnects {
      assert s.reconnects != map[];
    } else if !s.closed {
      assert s.nextId in Schedule(c, s).reconnects;
    }
  }

  lemma ReconnectWatches(c: Config, s: State, t: nat, ok: bool)
    requires Inv(c, s) && t in s.reconnects
    ensures Watched(ReconnectTurn(c, s, t, ok))
  {
    if s.reconnects[t].Waiting? && ok {
      assert s.nextId + 1 in Connected(s).readers;
      assert s.nextId + 2 in Connected(s).keepers;
    } else {
      assert t in NextAttempt(c, Drop(s), t).reconnects && t in NextAttempt(c, s, t).reconnects;
    }
  }

  lemma ConnectWatches(c: Config, s: State, reuse: bool, ok: bool)
    requires Inv(c, s) && Watched(s)
    ensures Watched(Connect(s, reuse, ok)) <==> !FailsToConnect(s, Connects(reuse, ok))
  {
    TeardownHolds(c, s);
    var down := Teardown(s);
    assert down.nextId + 1 in Connected(down).readers;
    assert down.nextId + 2 in Connected(down).keepers;
  }

  /** With automatic reconnection on, a step leaves the transport unwatched exactly when it is a connect call
      that fails while the transport is open. */
  lemma UnwatchedExactlyWhen(c: Config, s: State, e: Event)
    requires c.auto && Inv(c, s) && Watched(s) && Enabled(s, e)
    ensures !Watched(Apply(c, s, e)) <==> FailsToConnect(s, e)
  {
    hide Inv;
    match e
    case ReaderFails(r) =>
      ScheduleWatches(c, s.(readers := s.readers - {r}));
    case KeeperWakes(k, sent) =>
      ScheduleWatches(c, s.(keepers := s.keepers - {k}));
    case ReconnectWakes(t, ok) =>
      ReconnectWatches(c, s, t, ok);
    case Connects(reuse, ok) =>
      ConnectWatches(c, s, reuse, ok);
    case _ =>
  }

  /** Such a call is all it takes: a good connect call, then one that fails. */
  function ForcedRun(now: real): Run {
    var up := Connect(Init(now), false, true);
    Run([Init(now), up, Connect(up, false, false)], [Connects(false, true), Connects(false, false)])
  }

  lemma UnwatchedIsReachable(c: Config, now: real)
    ensures var run := ForcedRun(now);
      && IsRun(c, run)
      && !run.states[2].closed && run.states[2].socket.None? && run.states[2].reconnects == map[] && !Watched(run.states[2])
  {
    var run := ForcedRun(now);
    assert StepAt(c, run, 0) && StepAt(c, run, 1);
  }
}
