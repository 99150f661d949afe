/** The waits of the reconnect tasks, over whole runs. */
module SocketWaits {
  import opened Common
  import opened Socket
  import opened SocketRuns

  // ── the delays ─────────────────────────────────────────────────────────────

  /** The times between attempts: the retry delay r, then min(r, 60), min(2r, 60), min(4r, 60) and so on. */
  lemma DelayTable(c: Config, n: nat)
    ensures Delay(c, 0) == Delay(c, 1) == c.retry
    ensures Delay(c, n + 2) == MinReal(Doubled(c.retry, n), MAX_DELAY)
  {
    assert n + 2 - 2 == n;
  }

  lemma {:induction false} DoubledGrows(r: real, n: nat)
    requires r >= 0.0
    ensures 0.0 <= Doubled(r, n) <= Doubled(r, n + 1) == 2.0 * Doubled(r, n)
  {
    if n > 0 {
      DoubledGrows(r, n - 1);
    }
  }

  lemma DelayGrows(c: Config, n: nat)
    requires 0.0 <= c.retry <= MAX_DELAY
    ensures Delay(c, n) <= Delay(c, n + 1) && Delay(c, n) <= MAX_DELAY
  {
    if n > 1 {
      DoubledGrows(c.retry, n - 2);
    }
  }

  // ── one alarm after another ────────────────────────────────────────────────

  ghost predicate Numbered(s: State) {
    forall t :: t in s.reconnects ==> t < s.nextId
  }

  /** Task numbers are not used twice. */
  lemma NumbersAreFresh(c: Config, s: State, e: Event, t: nat)
    requires Numbered(s) && Enabled(s, e)
    ensures Numbered(Apply(c, s, e)) && s.nextId <= Apply(c, s, e).nextId
    ensures t < s.nextId && t !in s.reconnects ==> t !in Apply(c, s, e).reconnects
  {
  }

  lemma {:induction false} EveryNumber(c: Config, run: Run, k: nat)
    requires IsRun(c, run) && k < |run.states|
    ensures Numbered(run.states[k])
  {
    hide Apply, Enabled, Numbered;
    if k > 0 {
      EveryNumber(c, run, k - 1);
      assert StepAt(c, run, k - 1);
      NumbersAreFresh(c, run.states[k - 1], run.events[k - 1], 0);
    } else {
      StartIsNumbered(run.states[0].now);
    }
  }

  lemma StartIsNumbered(now: real)
    ensures Numbered(Init(now))
  {
  }

  lemma {:induction false} NumberStays(c: Config, run: Run, i: nat, k: nat, t: nat)
    requires IsRun(c, run) && i <= k < |run.states| && t in run.states[i].reconnects
    ensures t < run.states[k].nextId
    decreases k
  {
    hide Apply, Enabled;
    EveryNumber(c, run, k);
    if i < k {
      NumberStays(c, run, i, k - 1, t);
      EveryNumber(c, run, k - 1);
      assert StepAt(c, run, k - 1);
      NumbersAreFresh(c, run.states[k - 1], run.events[k - 1], t);
    }
  }

  ghost predicate TurnAt(run: Run, i: nat, t: nat)
    requires i < |run.events|
  {
    run.events[i].ReconnectWakes? && run.events[i].task == t
  }

  /** A reconnect task sleeps on while others act, or is cancelled. */
  lemma SleepsOn(c: Config, s: State, e: Event, t: nat)
    requires Enabled(s, e) && t in s.reconnects && !e.ReconnectWakes?
    ensures t in Apply(c, s, e).reconnects ==> Apply(c, s, e).reconnects[t] == s.reconnects[t] || t == s.nextId
  {
  }

  lemma OnlyTask(c: Config, s: State, e: Event, t: nat)
    requires Inv(c, s) && Enabled(s, e) && t in s.reconnects && e.ReconnectWakes?
    ensures e.task == t
  {
    assert s.reconnect == Some(e.task);
  }

  /** A turn of a reconnect task ends it or sets its next alarm. */
  lemma TurnSleeps(c: Config, s: State, t: nat, ok: bool)
    requires t in s.reconnects
    ensures var s' := ReconnectTurn(c, s, t, ok);
      t in s'.reconnects ==> s'.reconnects[t] == Waiting(s.now + Delay(c, s'.failures)) && s'.failures == s.failures + 1
  {
  }

  lemma WakesItself(s: State, e: Event)
    requires Enabled(s, e) && e.ReconnectWakes?
    ensures e.task in s.reconnects
  {
  }

  lemma {:induction false} StillAsleep(c: Config, run: Run, i: nat, k: nat, t: nat)
    requires IsRun(c, run) && i < k < |run.states| && TurnAt(run, i, t) && t in run.states[k].reconnects
    requires forall j :: i < j < k ==> !TurnAt(run, j, t)
    ensures run.states[k].reconnects[t] == Waiting(Time(run, i) + Delay(c, run.states[i + 1].failures))
    decreases k
  {
    hide Enabled, Inv, Delay, Numbered, ReconnectTurn, Apply;
    var s, e := run.states[k - 1], run.events[k - 1];
    assert StepAt(c, run, k - 1) && StepAt(c, run, i);
    WakesItself(run.states[i], run.events[i]);
    if i == k - 1 {
      TurnSleeps(c, s, t, e.ok);
      TurnIs(c, s, e);
    } else {
      NumberStays(c, run, i, k - 1, t);
      EveryNumber(c, run, k - 1);
      NumbersAreFresh(c, s, e, t);
      assert t in s.reconnects;
      StillAsleep(c, run, i, k - 1, t);
      EveryState(c, run, k - 1);
      assert !TurnAt(run, k - 1, t);
      if e.ReconnectWakes? {
        OnlyTask(c, s, e, t);
      }
      NumberStays(c, run, k - 1, k - 1, t);
      SleepsOn(c, s, e, t);
    }
  }

  lemma TurnIs(c: Config, s: State, e: Event)
    requires Enabled(s, e) && e.ReconnectWakes?
    ensures e.task in s.reconnects && Apply(c, s, e) == ReconnectTurn(c, s, e.task, e.ok)
  {
  }

  /** Between one turn of a reconnect task and its next the whole wait passes. */
  lemma WaitsItOut(c: Config, run: Run, i: nat, j: nat, t: nat)
    requires IsRun(c, run) && i < j < |run.events| && TurnAt(run, i, t) && TurnAt(run, j, t)
    requires forall k :: i < k < j ==> !TurnAt(run, k, t)
    ensures Time(run, j) >= Time(run, i) + Delay(c, run.states[i + 1].failures)
  {
    hide Delay, Apply;
    assert StepAt(c, run, j);
    StillAsleep(c, run, i, j, t);
  }

  // ── which wait comes when ──────────────────────────────────────────────────

  /** The failure count is zero while there is a connection, and when a reconnect task has just been created. */
  ghost predicate CountsFromZero(s: State) {
    && (s.socket.Some? ==> s.failures == 0)
    && (forall t :: t in s.reconnects && s.reconnects[t].Starting? ==> s.failures == 0)
  }

  lemma StepCountsFromZero(c: Config, s: State, e: Event)
    requires Inv(c, s) && Enabled(s, e) && CountsFromZero(s)
    ensures CountsFromZero(Apply(c, s, e))
  {
    TeardownEmpties(c, s);
    if e.ReconnectWakes? {
      WakesItself(s, e);
      forall t | t in s.reconnects
        ensures t == e.task
      {
        OnlyTask(c, s, e, t);
      }
    }
  }

  lemma {:induction false} EveryCountFromZero(c: Config, run: Run, k: nat)
    requires IsRun(c, run) && k < |run.states|
    ensures CountsFromZero(run.states[k])
  {
    hide Apply, Enabled, Inv;
    if k > 0 {
      EveryCountFromZero(c, run, k - 1);
      EveryState(c, run, k - 1);
      assert StepAt(c, run, k - 1);
      StepCountsFromZero(c, run.states[k - 1], run.events[k - 1]);
    }
  }

  /** How often task `t` had its turn in the first `k` events. */
  ghost function Turns(run: Run, t: nat, k: nat): nat
    requires k <= |run.events|
  {
    if k == 0 then 0 else Turns(run, t, k - 1) + if TurnAt(run, k - 1, t) then 1 else 0
  }

  lemma {:induction false} NoTurnsYet(c: Config, run: Run, t: nat, k: nat)
    requires IsRun(c, run) && k <= |run.events| && t >= run.states[k].nextId
    ensures Turns(run, t, k) == 0
  {
    hide Apply, Enabled;
    if k > 0 {
      assert StepAt(c, run, k - 1);
      EveryNumber(c, run, k - 1);
      NumbersAreFresh(c, run.states[k - 1], run.events[k - 1], t);
      NoTurnsYet(c, run, t, k - 1);
      if TurnAt(run, k - 1, t) {
        WakesItself(run.states[k - 1], run.events[k - 1]);
        assert false;
      }
    }
  }

  /** A task that appears is a new one, with no failures counted; a task that stays keeps its count, or has had
      its turn. */
  lemma CountMoves(c: Config, s: State, e: Event, t: nat)
    requires Inv(c, s) && Enabled(s, e) && Numbered(s) && CountsFromZero(s) && t in Apply(c, s, e).reconnects
    ensures var s' := Apply(c, s, e);
      if t !in s.reconnects then t >= s.nextId && s'.failures == 0 && !(e.ReconnectWakes? && e.task == t)
      else s'.failures == s.failures + (if e.ReconnectWakes? && e.task == t then 1 else 0)
  {
    TeardownEmpties(c, s);
    NumbersAreFresh(c, s, e, t);
    if e.ReconnectWakes? {
      WakesItself(s, e);
      if t in s.reconnects {
        OnlyTask(c, s, e, t);
        TurnSleeps(c, s, t, e.ok);
      }
    }
  }

  /** While a reconnect task is running, the failure count is the number of turns it has had. */
  lemma {:induction false} FailuresAreTurns(c: Config, run: Run, t: nat, k: nat)
    requires IsRun(c, run) && k <= |run.events| && t in run.states[k].reconnects
    ensures run.states[k].failures == Turns(run, t, k)
    decreases k
  {
    hide Apply, Enabled, Inv, CountsFromZero, Numbered;
    if k == 0 {
      assert false;
    } else {
      var s, e := run.states[k - 1], run.events[k - 1];
      assert StepAt(c, run, k - 1);
      EveryState(c, run, k - 1);
      EveryNumber(c, run, k - 1);
      EveryCountFromZero(c, run, k - 1);
      CountMoves(c, s, e, t);
      if t in s.reconnects {
        FailuresAreTurns(c, run, t, k - 1);
      } else {
        NoTurnsYet(c, run, t, k - 1);
      }
    }
  }

  /** The alarm a task sets in its turn at event `i`, counted from then. */
  ghost function WaitAt(run: Run, i: nat, t: nat): real
    requires i < |run.events| < |run.states| && t in run.states[i + 1].reconnects && run.states[i + 1].reconnects[t].Waiting?
  {
    run.states[i + 1].reconnects[t].until - run.states[i].now
  }

  ghost predicate Sleeps(run: Run, i: nat, t: nat)
    requires i < |run.events| < |run.states|
  {
    TurnAt(run, i, t) && t in run.states[i + 1].reconnects && run.states[i + 1].reconnects[t].Waiting?
  }

  /** The n-th turn of a reconnect task, unless it is the last, sets the n-th of the waits r, min(r, 60),
      min(2r, 60), min(4r, 60) and so on. */
  lemma NthWait(c: Config, run: Run, i: nat, t: nat)
    requires IsRun(c, run) && i < |run.events| && TurnAt(run, i, t) && t in run.states[i + 1].reconnects
    ensures Sleeps(run, i, t) && Turns(run, t, i + 1) >= 1
    ensures var n := Turns(run, t, i + 1);
      WaitAt(run, i, t) == if n == 1 then c.retry else MinReal(Doubled(c.retry, n - 2), MAX_DELAY)
  {
    hide Apply, Enabled, Inv, ReconnectTurn;
    var s, e := run.states[i], run.events[i];
    assert StepAt(c, run, i);
    TurnIs(c, s, e);
    TurnSleeps(c, s, t, e.ok);
    FailuresAreTurns(c, run, t, i + 1);
  }

  /** And the task does not take its next turn before that wait has passed. */
  lemma NthWaitPasses(c: Config, run: Run, i: nat, j: nat, t: nat)
    requires IsRun(c, run) && i < j < |run.events| && TurnAt(run, i, t) && TurnAt(run, j, t)
    requires forall k :: i < k < j ==> !TurnAt(run, k, t)
    ensures Time(run, j) - Time(run, i) >= Delay(c, Turns(run, t, i + 1))
  {
    hide Apply, Enabled, Inv, Delay;
    assert StepAt(c, run, i) && StepAt(c, run, j);
    WaitsItOut(c, run, i, j, t);
    WakesItself(run.states[i], run.events[i]);
    WakesItself(run.states[j], run.events[j]);
    NumberStays(c, run, i, i + 1, t);
    StillRunning(c, run, i + 1, j, t);
    FailuresAreTurns(c, run, t, i + 1);
  }

  /** A task that runs now and has had a turn before was running in between. */
  lemma {:induction false} StillRunning(c: Config, run: Run, i: nat, k: nat, t: nat)
    requires IsRun(c, run) && i <= k < |run.states| && t < run.states[i].nextId && t in run.states[k].reconnects
    ensures t in run.states[i].reconnects
    decreases k
  {
    hide Apply, Enabled;
    if i < k {
      assert StepAt(c, run, k - 1);
      NumberGrows(c, run, i, k - 1);
      EveryNumber(c, run, k - 1);
      NumbersAreFresh(c, run.states[k - 1], run.events[k - 1], t);
      StillRunning(c, run, i, k - 1, t);
    }
  }

  lemma {:induction false} NumberGrows(c: Config, run: Run, i: nat, k: nat)
    requires IsRun(c, run) && i <= k < |run.states|
    ensures run.states[i].nextId <= run.states[k].nextId
    decreases k
  {
    hide Apply, Enabled;
    if i < k {
      NumberGrows(c, run, i, k - 1);
      assert StepAt(c, run, k - 1);
      EveryNumber(c, run, k - 1);
      NumbersAreFresh(c, run.states[k - 1], run.events[k - 1], 0);
    }
  }

  // ── waits that shrink ──────────────────────────────────────────────────────

  /** Task `t` sleeps at event `i` and again, next, at event `j`. */
  ghost predicate SleepsNext(run: Run, i: nat, j: nat, t: nat)
    requires |run.states| == |run.events| + 1
  {
    && i < j < |run.events| && Sleeps(run, i, t) && Sleeps(run, j, t)
    && forall k :: i < k < j ==> !TurnAt(run, k, t)
  }

  ghost predicate NeverShrinks(run: Run) {
    |run.states| == |run.events| + 1
    && forall i: nat, j: nat, t: nat :: SleepsNext(run, i, j, t) ==> WaitAt(run, i, t) <= WaitAt(run, j, t)
  }

  ghost predicate WithinAMinute(run: Run) {
    |run.states| == |run.events| + 1
    && forall i: nat, t: nat :: i < |run.events| && Sleeps(run, i, t) ==> WaitAt(run, i, t) <= MAX_DELAY
  }

  lemma {:induction false} NextTurn(run: Run, t: nat, i: nat, j: nat)
    requires i < j < |run.events| && TurnAt(run, i, t) && TurnAt(run, j, t) && forall k :: i < k < j ==> !TurnAt(run, k, t)
    ensures Turns(run, t, j + 1) == Turns(run, t, i + 1) + 1
  {
    NoTurns(run, t, i + 1, j);
  }

  lemma {:induction false} NoTurns(run: Run, t: nat, i: nat, j: nat)
    requires i <= j <= |run.events| && forall k :: i <= k < j ==> !TurnAt(run, k, t)
    ensures Turns(run, t, j) == Turns(run, t, i)
    decreases j
  {
    if i < j {
      NoTurns(run, t, i, j - 1);
    }
  }

  lemma WaitIsDelay(c: Config, run: Run, i: nat, t: nat)
    requires IsRun(c, run) && i < |run.events| && Sleeps(run, i, t)
    ensures WaitAt(run, i, t) == Delay(c, Turns(run, t, i + 1))
  {
    NthWait(c, run, i, t);
  }

  lemma RunNeverShrinks(c: Config, run: Run)
    requires IsRun(c, run) && 0.0 <= c.retry <= MAX_DELAY
    ensures NeverShrinks(run)
  {
    hide IsRun, WaitAt, Delay;
    RunLength(c, run);
    forall i: nat, j: nat, t: nat | SleepsNext(run, i, j, t)
      ensures WaitAt(run, i, t) <= WaitAt(run, j, t)
    {
      WaitIsDelay(c, run, i, t);
      WaitIsDelay(c, run, j, t);
      SleepsInTurn(run, i, t);
      SleepsInTurn(run, j, t);
      NextTurn(run, t, i, j);
      DelayGrows(c, Turns(run, t, i + 1));
    }
  }

  lemma RunWithinAMinute(c: Config, run: Run)
    requires IsRun(c, run) && c.retry <= MAX_DELAY
    ensures WithinAMinute(run)
  {
    hide IsRun, WaitAt, Delay;
    RunLength(c, run);
    forall i: nat, t: nat | i < |run.events| && Sleeps(run, i, t)
      ensures WaitAt(run, i, t) <= MAX_DELAY
    {
      WaitIsDelay(c, run, i, t);
      DelayAtMost(c, Turns(run, t, i + 1));
    }
  }

  lemma DelayAtMost(c: Config, n: nat)
    requires c.retry <= MAX_DELAY
    ensures Delay(c, n) <= MAX_DELAY
  {
  }

  /** Without automatic reconnection there is no reconnect task, so nothing waits. */
  lemma {:induction false} NoTaskWithoutAuto(c: Config, run: Run, k: nat)
    requires IsRun(c, run) && !c.auto && k < |run.states|
    ensures run.states[k].reconnects == map[]
  {
    if k > 0 {
      assert StepAt(c, run, k - 1);
      NoTaskWithoutAuto(c, run, k - 1);
      StaysWithoutTask(c, run.states[k - 1], run.events[k - 1]);
    }
  }

  lemma StaysWithoutTask(c: Config, s: State, e: Event)
    requires Enabled(s, e) && !c.auto && s.reconnects == map[]
    ensures Apply(c, s, e).reconnects == map[]
  {
  }

  lemma RunWithoutAuto(c: Config, run: Run)
    requires IsRun(c, run) && !c.auto
    ensures NeverShrinks(run) && WithinAMinute(run)
  {
    hide Apply, Enabled;
    RunLength(c, run);
    forall i: nat, t: nat | i < |run.events|
      ensures !Sleeps(run, i, t)
    {
      NoTaskWithoutAuto(c, run, i + 1);
    }
  }

  lemma SleepsInTurn(run: Run, i: nat, t: nat)
    requires i < |run.events| < |run.states| && Sleeps(run, i, t)
    ensures TurnAt(run, i, t)
  {
  }

  /** A connection is made, its reader fails, and the first attempt to reconnect fails too. */
  function FailingEvents(c: Config): seq<Event> {
    [Connects(false, true), ReaderFails(1), ReconnectWakes(3, false), Tick(c.retry), ReconnectWakes(3, false)]
  }

  /** In that run the first wait is the retry delay and the second is capped. */
  lemma FailingRun(c: Config) returns (run: Run)
    requires c.auto && c.retry > MAX_DELAY
    ensures IsRun(c, run) && SleepsNext(run, 2, 4, 3)
    ensures WaitAt(run, 2, 3) == c.retry && WaitAt(run, 4, 3) == MAX_DELAY
  {
    var es := FailingEvents(c);
    var s0 := Init(0.0);
    var s1 := Apply(c, s0, es[0]);
    var s2 := Apply(c, s1, es[1]);
    assert s2.reconnects == map[3 := Starting] && s2.failures == 0 && s2.now == 0.0;
    var s3 := Apply(c, s2, es[2]);
    assert s3.reconnects == map[3 := Waiting(c.retry)] && s3.failures == 1;
    var s4 := Apply(c, s3, es[3]);
    var s5 := Apply(c, s4, es[4]);
    DelayTable(c, 0);
    assert s5.reconnects == map[3 := Waiting(c.retry + MAX_DELAY)];
    run := Run([s0, s1, s2, s3, s4, s5], es);
    assert StepAt(c, run, 0) && StepAt(c, run, 1) && StepAt(c, run, 2) && StepAt(c, run, 3) && StepAt(c, run, 4);
  }

  /** A negative retry delay, which nothing refuses: the third wait is shorter than the second. */
  lemma HastyRun(c: Config) returns (run: Run)
    requires c.auto && c.retry < 0.0
    ensures IsRun(c, run) && SleepsNext(run, 3, 4, 3)
    ensures WaitAt(run, 3, 3) == c.retry && WaitAt(run, 4, 3) == 2.0 * c.retry
  {
    var es := [Connects(false, true), ReaderFails(1), ReconnectWakes(3, false), ReconnectWakes(3, false), ReconnectWakes(3, false)];
    var s0 := Init(0.0);
    var s1 := Apply(c, s0, es[0]);
    var s2 := Apply(c, s1, es[1]);
    assert s2.reconnects == map[3 := Starting] && s2.failures == 0 && s2.now == 0.0;
    var s3 := Apply(c, s2, es[2]);
    assert s3.reconnects == map[3 := Waiting(c.retry)] && s3.failures == 1;
    DelayTable(c, 0);
    DelayTable(c, 1);
    var s4 := Apply(c, s3, es[3]);
    assert s4.reconnects == map[3 := Waiting(c.retry)] && s4.failures == 2;
    var s5 := Apply(c, s4, es[4]);
    assert s5.reconnects == map[3 := Waiting(2.0 * c.retry)];
    run := Run([s0, s1, s2, s3, s4, s5], es);
    assert StepAt(c, run, 0) && StepAt(c, run, 1) && StepAt(c, run, 2) && StepAt(c, run, 3) && StepAt(c, run, 4);
  }

  /** In every run every wait is at least as long as the one before it exactly when the retry delay is between
      zero and a minute, and at most a minute exactly when the retry delay is; or when nothing reconnects. */
  lemma WaitsGrowExactlyWhen(c: Config)
    ensures (forall run: Run :: IsRun(c, run) ==> NeverShrinks(run)) <==> !c.auto || 0.0 <= c.retry <= MAX_DELAY
    ensures (forall run: Run :: IsRun(c, run) ==> WithinAMinute(run)) <==> !c.auto || c.retry <= MAX_DELAY
  {
    hide IsRun, NeverShrinks, WithinAMinute;
    if !c.auto {
      forall run: Run | IsRun(c, run)
        ensures NeverShrinks(run) && WithinAMinute(run)
      {
        RunWithoutAuto(c, run);
      }
    } else {
      ShrinkingRun(c);
      if c.retry <= MAX_DELAY {
        forall run: Run | IsRun(c, run)
          ensures WithinAMinute(run) && (0.0 <= c.retry ==> NeverShrinks(run))
        {
          RunWithinAMinute(c, run);
          if 0.0 <= c.retry {
            RunNeverShrinks(c, run);
          }
        }
      }
    }
  }

  lemma ShrinkingRun(c: Config)
    requires c.auto
    ensures !(0.0 <= c.retry <= MAX_DELAY) ==> exists run: Run :: IsRun(c, run) && !NeverShrinks(run)
    ensures c.retry > MAX_DELAY ==> exists run: Run :: IsRun(c, run) && !WithinAMinute(run)
  {
    hide IsRun;
    if c.retry > MAX_DELAY {
      var run := FailingRun(c);
      RunLength(c, run);
      assert !NeverShrinks(run) && !WithinAMinute(run);
    } else if c.retry < 0.0 {
      var run := HastyRun(c);
      RunLength(c, run);
      assert !NeverShrinks(run);
    }
  }
}
