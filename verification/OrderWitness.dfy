/** Two concrete runs that show where an outcome does not mean what its name promises, and exactly when. */
module OrderWitness {
  import opened Common
  import opened OrderStore
  import opened OrderSteps
  import opened OrderInvariant
  import opened OrderKeeps
  import opened OrderAppends
  import opened OrderRuns
  import opened OrderOutcomes

  ghost predicate Reachable(cfg: Config, s: Store) {
    exists states: seq<Store>, events: seq<Event> :: IsRun(cfg, states, events) && states[|events|] == s
  }

  lemma ReachEmpty(cfg: Config, now: Time)
    ensures Reachable(cfg, EmptyStore(now))
  {
    assert IsRun(cfg, [EmptyStore(now)], []);
  }

  lemma ReachStep(cfg: Config, s: Store, e: Event, t: Store)
    requires Reachable(cfg, s) && StepOf(cfg, s, e, t)
    ensures Reachable(cfg, t)
  {
    var states: seq<Store>, events: seq<Event> :| IsRun(cfg, states, events) && states[|events|] == s;
    RunExtends(cfg, states, events, e, t);
  }

  lemma RunExtends(cfg: Config, states: seq<Store>, events: seq<Event>, e: Event, t: Store)
    requires IsRun(cfg, states, events) && StepOf(cfg, states[|events|], e, t)
    ensures IsRun(cfg, states + [t], events + [e])
  {
    var longer, more := states + [t], events + [e];
    forall n | 0 <= n < |more|
      ensures StepAt(cfg, longer, more, n)
    {
      if n < |events| {
        assert StepAt(cfg, states, events, n);
        assert longer[n] == states[n] && longer[n + 1] == states[n + 1] && more[n] == events[n];
      }
    }
  }

  // ── a cancelled order that had delivered everything ────────────────────────

  /**
   * A cancellation is decided on the success count read when the item was loaded. The job then ends
   * PARTIAL although it delivered the requested number exactly when that number was reached in between.
   */
  lemma CancelShortchangesExactlyWhen(s: Store, cfg: Config, i: ItemId)
    requires Inv(s, cfg) && i < |s.items| && s.items[i].status.Running? && Cancels(s, i, BadTarget(false))
    ensures var j := s.items[i].job; var t := Complete(s, cfg, i, BadTarget(false));
      && j < |t.jobs| && Terminal(t.jobs[j].status) && CountInFlight(t.items, j) == 0
      && (t.jobs[j].success >= t.jobs[j].requested && t.jobs[j].status.Partial?) == (JobOf(s, i).success >= JobOf(s, i).requested)
      && (JobOf(s, i).success == 0 ==> t.jobs[j].status.Fail?)
  {
    var j := s.items[i].job;
    var t := Complete(s, cfg, i, BadTarget(false));
    CompleteKeeps(s, cfg, i, BadTarget(false));
    AnswerStatus(s, cfg, i, BadTarget(false), j);
    assert StatusAgrees(t.jobs[j]);
    ActiveIsIdle(t, cfg, j);
    CancelSuccess(s, cfg, i);
  }

  lemma CancelSuccess(s: Store, cfg: Config, i: ItemId)
    requires Inv(s, cfg) && i < |s.items| && s.items[i].status.Running? && Cancels(s, i, BadTarget(false))
    ensures var j := s.items[i].job; var t := Complete(s, cfg, i, BadTarget(false));
      j < |t.jobs| && t.jobs[j].success == s.jobs[j].success && SameOrder(s.jobs[j], t.jobs[j])
  {
    var f := FinishItem(s, i, ItemStatus.Skipped, Message.InvalidTarget);
    FinishPlainly(s, cfg, i, ItemStatus.Skipped, Message.InvalidTarget);
    InFlightInProgress(s, i);
    assert StatusAgrees(JobOf(s, i));
    assert JobCounters(f.jobs[s.items[i].job], f.items, s.items[i].job);
    CancelRow(f, s.items[i].job);
  }

  const PLAIN_CONFIG := Config(0, 0, 0, 0, 0, 0.0)

  function OneAccount(now: Time): Store {
    EmptyStore(now).(accounts := [AccountStatus.Active])
  }

  const RETAINED := Order("k", Join, "t", 1, Some(1))

  lemma OneIsPicked(s: Store, pool: set<AccountId>)
    requires pool == {0}
    ensures FirstOf(pool, 1, 0, 1) == [0]
  {
    assert FirstOf(pool, 0, 1, 1) == [];
  }

  function RetainedJob(status: JobStatus, success: nat): Job {
    Job("k", Join, "t", 1, 1, 1, success, 0, 0, status, Some(1), false, Some(0), None)
  }

  function Ordered(): Store {
    OneAccount(0).(jobs := [RetainedJob(JobStatus.InProgress, 0)], items := [NewItem(0, 0)])
  }

  function Working(): Store {
    Ordered().(items := [NewItem(0, 0).(status := ItemStatus.Running, attempts := 1, startedAt := Some(0))],
               throttles := map[0 := Some(0)])
  }

  function Joined(): Store {
    Working().(
      jobs := [RetainedJob(JobStatus.InProgress, 1)],
      items := [Working().items[0].(status := ItemStatus.Success, finishedAt := Some(0))],
      memberships := map[(0, "t") := Membership(true, Some(0), 0)],
      schedules := map[0 := Schedule(0, 0, "t", DAY, ScheduleStatus.Pending, 0)])
  }

  function Waiting(): Store {
    Joined().(jobs := [RetainedJob(JobStatus.Active, 1)])
  }

  function Leaving(): Store {
    Waiting().(now := DAY, schedules := map[0 := Schedule(0, 0, "t", DAY, ScheduleStatus.Processing, 1)])
  }

  function LeaveFailed(): Store {
    Leaving().(schedules := map[0 := Schedule(0, 0, "t", DAY, ScheduleStatus.Fail, 1)])
  }

  lemma ReachOrdered()
    ensures Reachable(PLAIN_CONFIG, Ordered())
  {
    var empty, one := EmptyStore(0), OneAccount(0);
    ReachEmpty(PLAIN_CONFIG, 0);
    assert StepOf(PLAIN_CONFIG, empty, AccountAdded, one);
    ReachStep(PLAIN_CONFIG, empty, AccountAdded, one);
    var pool := Eligible(one, PLAIN_CONFIG, Join, "t", {});
    assert Free(one, PLAIN_CONFIG, Join, "t", 0);
    assert pool == {0};
    OneIsPicked(one, pool);
    assert TargetCount(PLAIN_CONFIG, RETAINED) == 1;
    assert SelectForOrder(one, PLAIN_CONFIG, RETAINED, {}, []) == [0];
    assert FindJob([], "k") == 0;
    assert NewItems(0, [0]) == [NewItem(0, 0)];
    assert StepOf(PLAIN_CONFIG, one, OrderPlaced(RETAINED, {}, []), Ordered());
    ReachStep(PLAIN_CONFIG, one, OrderPlaced(RETAINED, {}, []), Ordered());
  }

  /** A pending item of an account without a throttle row is claimed at once. */
  lemma FirstClaim(s: Store, cfg: Config, i: ItemId)
    requires Linked(s) && i < |s.items| && s.items[i].status.Pending? && !JobOf(s, i).action.View? && !IsThrottled(s, s.items[i].account)
    ensures Claim(s, cfg, i).0 == s.(
      items := s.items[i := s.items[i].(status := ItemStatus.Running, attempts := s.items[i].attempts + 1, startedAt := Some(s.now))],
      throttles := s.throttles[s.items[i].account := Some(s.now + cfg.actionDelay)])
  {
    assert s.items[i := s.items[i]] == s.items;
  }

  lemma ReachClaim(cfg: Config, s: Store, i: ItemId, t: Store)
    requires Reachable(cfg, s) && Linked(s) && i < |s.items| && t == Claim(s, cfg, i).0
    ensures Reachable(cfg, t)
  {
    assert StepOf(cfg, s, ItemClaimed(i), t);
    ReachStep(cfg, s, ItemClaimed(i), t);
  }

  lemma ReachWorkingFrom(cfg: Config, s: Store, t: Store)
    requires Reachable(cfg, s) && cfg.actionDelay == 0 && s == Ordered() && t == Working()
    ensures Reachable(cfg, t)
  {
    FirstClaim(s, cfg, 0);
    ReachClaim(cfg, s, 0, t);
  }

  lemma ReachWorking()
    ensures Reachable(PLAIN_CONFIG, Working())
  {
    ReachOrdered();
    ReachWorkingFrom(PLAIN_CONFIG, Ordered(), Working());
  }

  lemma JoinWorks()
    ensures Linked(Working()) && Succeed(Working(), 0) == Joined()
  {
  }

  lemma AnswerIsSuccess(s: Store, cfg: Config, i: ItemId)
    requires Linked(s) && i < |s.items| && JobOf(s, i).action.Join?
    ensures Complete(s, cfg, i, Done) == Succeed(s, i)
  {
  }

  lemma ReachJoined()
    ensures Reachable(PLAIN_CONFIG, Joined())
  {
    ReachWorking();
    JoinWorks();
    AnswerIsSuccess(Working(), PLAIN_CONFIG, 0);
    assert StepOf(PLAIN_CONFIG, Working(), ItemAnswered(0, Done), Joined());
    ReachStep(PLAIN_CONFIG, Working(), ItemAnswered(0, Done), Joined());
  }

  lemma CountOne(x: Item, j: JobId, status: ItemStatus)
    ensures Count([x], j, status) == Bit(x.job == j && x.status == status)
  {
    assert [x][..0] == [];
  }

  /** A retained join whose single item succeeded settles as ACTIVE. */
  lemma SingleSuccessSettles(s: Store, cfg: Config)
    requires Linked(s) && |s.jobs| == 1 && |s.items| == 1 && s.items[0].job == 0 && s.items[0].status.Success?
    requires s.jobs[0] == RetainedJob(JobStatus.InProgress, 1)
    ensures Finalize(s, cfg, 0, {}).0 == s.(jobs := [RetainedJob(JobStatus.Active, 1)])
  {
    assert s.items == [s.items[0]];
    CountOne(s.items[0], 0, ItemStatus.Success);
    CountOne(s.items[0], 0, ItemStatus.Failed);
    CountOne(s.items[0], 0, ItemStatus.Skipped);
    CountOne(s.items[0], 0, ItemStatus.Pending);
    CountOne(s.items[0], 0, ItemStatus.Running);
    assert s.jobs[0 := s.jobs[0]] == s.jobs;
    assert RefreshCounts(s, 0) == s;
    assert Missing(s, 0) == 0;
    assert Refill(s, cfg, 0, {}) == (s, Some(0));
    assert Settle(s, 0).jobs == [RetainedJob(JobStatus.Active, 1)];
  }

  lemma ReachFinalize(cfg: Config, s: Store, j: JobId, t: Store)
    requires Reachable(cfg, s) && Linked(s) && j < |s.jobs| && t == Finalize(s, cfg, j, {}).0
    ensures Reachable(cfg, t)
  {
    assert StepOf(cfg, s, JobFinalized(j, {}), t);
    ReachStep(cfg, s, JobFinalized(j, {}), t);
  }

  lemma ReachWaitingFrom(cfg: Config, s: Store, t: Store)
    requires Reachable(cfg, s) && s == Joined() && t == Waiting()
    ensures Reachable(cfg, t)
  {
    SingleSuccessSettles(s, cfg);
    ReachFinalize(cfg, s, 0, t);
  }

  lemma ReachWaiting()
    ensures Reachable(PLAIN_CONFIG, Waiting())
  {
    ReachJoined();
    ReachWaitingFrom(PLAIN_CONFIG, Joined(), Waiting());
  }

  lemma ReachLeaving()
    ensures Reachable(PLAIN_CONFIG, Leaving())
  {
    ReachWaiting();
    var due := Waiting().(now := DAY);
    assert StepOf(PLAIN_CONFIG, Waiting(), Ticked(DAY), due);
    ReachStep(PLAIN_CONFIG, Waiting(), Ticked(DAY), due);
    assert StepOf(PLAIN_CONFIG, due, LeaveStarted(0), Leaving());
    ReachStep(PLAIN_CONFIG, due, LeaveStarted(0), Leaving());
  }

  /** A run in which the only leave fails ends with a job that no later step completes. */
  lemma StrandedIsReachable()
    ensures Reachable(PLAIN_CONFIG, LeaveFailed()) && Stranded(LeaveFailed(), 0)
  {
    ReachLeaving();
    assert StepOf(PLAIN_CONFIG, Leaving(), LeaveReturned(0, false), LeaveFailed());
    ReachStep(PLAIN_CONFIG, Leaving(), LeaveReturned(0, false), LeaveFailed());
  }

  // ── a delivered order that ends PARTIAL ────────────────────────────────────

  const GENEROUS := Config(0, 0, 0, 0, 0, 100.0)

  ghost predicate TwoAccounts(s: Store) {
    && s.accounts == [AccountStatus.Active, AccountStatus.Active] && s.jobs == [] && s.items == []
    && s.memberships == map[] && s.throttles == map[]
  }

  lemma ReachTwoAccounts(cfg: Config) returns (s: Store)
    ensures Reachable(cfg, s) && TwoAccounts(s)
  {
    var empty := EmptyStore(0);
    ReachEmpty(cfg, 0);
    var one := AddAccount(empty);
    assert StepOf(cfg, empty, AccountAdded, one);
    ReachStep(cfg, empty, AccountAdded, one);
    s := AddAccount(one);
    assert StepOf(cfg, one, AccountAdded, s);
    ReachStep(cfg, one, AccountAdded, s);
  }

  lemma TwoArePicked(pool: set<AccountId>)
    requires pool == {0, 1}
    ensures FirstOf(pool, 2, 0, 2) == [0, 1]
  {
    assert FirstOf(pool, 0, 2, 2) == [];
    assert FirstOf(pool, 1, 1, 2) == [1];
  }

  /** With the bonus at 100 percent an order for one join reserves both accounts. */
  lemma ReachBothReserved(cfg: Config, retention: Option<int>) returns (s: Store)
    requires cfg.bonus == 100.0
    ensures Reachable(cfg, s) && Linked(s) && s.throttles == map[] && |s.accounts| == 2
    ensures s.items == [NewItem(0, 0), NewItem(0, 1)] && |s.jobs| == 1
    ensures s.jobs[0].action.Join? && s.jobs[0].requested == 1 && s.jobs[0].success == 0 && s.jobs[0].status.InProgress?
    ensures s.jobs[0].retention == PositiveOrNone(retention)
  {
    var before := ReachTwoAccounts(cfg);
    var order := Order("k", Join, "t", 1, retention);
    var pool := Eligible(before, cfg, Join, "t", {});
    assert Free(before, cfg, Join, "t", 0) && Free(before, cfg, Join, "t", 1);
    assert pool == {0, 1};
    TwoArePicked(pool);
    assert TargetCount(cfg, order) == 2;
    assert NewItems(0, [0, 1]) == [NewItem(0, 0), NewItem(0, 1)];
    s := Create(before, cfg, order, {}, []).0;
    assert StepOf(cfg, before, OrderPlaced(order, {}, []), s);
    ReachStep(cfg, before, OrderPlaced(order, {}, []), s);
  }

  lemma ReachBothRunning(cfg: Config, retention: Option<int>) returns (s: Store)
    requires cfg.bonus == 100.0
    ensures Reachable(cfg, s) && Linked(s) && |s.items| == 2 && |s.jobs| == 1 && |s.accounts| == 2
    ensures s.items[0].status.Running? && s.items[1].status.Running? && s.items[0].job == 0 && s.items[1].job == 0
    ensures s.items[0].account == 0 && s.items[1].account == 1
    ensures s.jobs[0].action.Join? && s.jobs[0].requested == 1 && s.jobs[0].success == 0 && s.jobs[0].status.InProgress?
    ensures s.jobs[0].retention == PositiveOrNone(retention)
  {
    var before := ReachBothReserved(cfg, retention);
    FirstClaim(before, cfg, 0);
    var half := Claim(before, cfg, 0).0;
    ReachClaim(cfg, before, 0, half);
    FirstClaim(half, cfg, 1);
    s := Claim(half, cfg, 1).0;
    ReachClaim(cfg, half, 1, s);
  }

  /** One account joined; the other's worker is still at work. */
  lemma ReachDelivered(cfg: Config) returns (s: Store)
    requires cfg.bonus == 100.0
    ensures Reachable(cfg, s) && Linked(s) && |s.items| == 2 && |s.jobs| == 1
    ensures s.items[1].status.Running? && s.items[1].job == 0
    ensures s.jobs[0].action.Join? && s.jobs[0].requested == 1 && s.jobs[0].success == 1 && s.jobs[0].status.InProgress?
  {
    var before := ReachBothRunning(cfg, None);
    AnswerIsSuccess(before, cfg, 0);
    SucceedShape(before, 0);
    s := Complete(before, cfg, 0, Done);
    assert StepOf(cfg, before, ItemAnswered(0, Done), s);
    ReachStep(cfg, before, ItemAnswered(0, Done), s);
  }

  lemma ReachableIsValid(cfg: Config, s: Store)
    requires Reachable(cfg, s)
    ensures Inv(s, cfg)
  {
    hide Inv;
    var states, events :| IsRun(cfg, states, events) && states[|events|] == s;
    RunKeeps(cfg, states, events, |events|);
  }

  lemma ReachAnswer(cfg: Config, s: Store, i: ItemId, outcome: Outcome, t: Store)
    requires Reachable(cfg, s) && Linked(s) && i < |s.items| && s.items[i].status.Running?
    requires outcome == BadTarget(false) && t == Complete(s, cfg, i, outcome)
    ensures Reachable(cfg, t)
  {
    hide Complete, Reachable;
    assert StepOf(cfg, s, ItemAnswered(i, outcome), t);
    ReachStep(cfg, s, ItemAnswered(i, outcome), t);
  }

  lemma JoinCancels(s: Store, i: ItemId)
    requires Linked(s) && i < |s.items| && JobOf(s, i).action.Join?
    ensures Cancels(s, i, BadTarget(false))
  {
  }

  /** And such a cancellation is reachable: a worker that read no success finds the target invalid after another
      delivered the order in full. */
  lemma ShortchangedIsReachable() returns (s: Store)
    ensures Reachable(GENEROUS, s) && |s.jobs| == 1 && s.jobs[0].success >= s.jobs[0].requested && s.jobs[0].status.Partial?
  {
    s := ShortchangedIn(GENEROUS);
  }

  lemma ShortchangedIn(cfg: Config) returns (s: Store)
    requires cfg.bonus == 100.0
    ensures Reachable(cfg, s) && |s.jobs| == 1 && s.jobs[0].success >= s.jobs[0].requested && s.jobs[0].status.Partial?
  {
    hide Inv, Complete, Reachable, Cancels, CountInFlight;
    var before := ReachDelivered(cfg);
    ReachableIsValid(cfg, before);
    JoinCancels(before, 1);
    CancelShortchangesExactlyWhen(before, cfg, 1);
    AnswerStatus(before, cfg, 1, BadTarget(false), 0);
    s := Complete(before, cfg, 1, BadTarget(false));
    ReachAnswer(cfg, before, 1, BadTarget(false), s);
  }
}
