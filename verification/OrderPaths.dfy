/** Stretches of runs with one account, to build longer runs from. */
module OrderPaths {
  import opened Common
  import opened OrderStore
  import opened OrderSteps
  import opened OrderInvariant
  import opened OrderKeeps
  import opened OrderAppends
  import opened OrderRuns
  import opened OrderOutcomes
  import opened OrderWitness

  lemma ReachEvent(cfg: Config, s: Store, e: Event, t: Store)
    requires Reachable(cfg, s) && Linked(s) && Enabled(s, e) && t == Apply(s, cfg, e)
    ensures Reachable(cfg, t) && Linked(t)
  {
    hide Apply, Enabled, Inv;
    assert StepOf(cfg, s, e, t);
    ReachStep(cfg, s, e, t);
    ReachableIsValid(cfg, t);
    LinkedIn(t, cfg);
  }

  lemma NewKey(jobs: seq<Job>, key: string)
    requires forall j :: 0 <= j < |jobs| ==> jobs[j].idempotencyKey != key
    ensures FindJob(jobs, key) == |jobs|
  {
  }

  /** One active account and nothing for it to do. */
  ghost predicate AtRest(s: Store) {
    && Linked(s) && s.accounts == [AccountStatus.Active]
    && forall i :: 0 <= i < |s.items| ==> !InFlight(s.items[i].status)
  }

  lemma ReachAccount(cfg: Config) returns (s: Store)
    ensures Reachable(cfg, s) && s == OneAccount(0) && AtRest(s)
  {
    var empty := EmptyStore(0);
    ReachEmpty(cfg, 0);
    s := AddAccount(empty);
    ReachEvent(cfg, empty, AccountAdded, s);
  }

  lemma OnlyOneFree(s: Store, cfg: Config, action: Action, key: Key, count: nat)
    requires Linked(s) && s.accounts == [AccountStatus.Active] && Free(s, cfg, action, key, 0) && count >= 1
    ensures FirstFree(s, cfg, action, key, count, {}) == [0]
  {
    hide Free;
    var pool := Eligible(s, cfg, action, key, {});
    assert pool == {0};
    assert FirstOf(pool, count - 1, 1, 1) == [];
  }

  /** An order for one takes the one account when it is free. */
  lemma ReachOrder(cfg: Config, s: Store, o: Order) returns (t: Store)
    requires Reachable(cfg, s) && Linked(s) && s.accounts == [AccountStatus.Active] && !o.action.Leave? && o.count == 1
    requires FindJob(s.jobs, o.idempotencyKey) == |s.jobs| && Free(s, cfg, o.action, o.key, 0)
    ensures Reachable(cfg, t) && Linked(t)
    ensures t == s.(jobs := s.jobs + [NewJob(s, cfg, o, 1)], items := s.items + [NewItem(|s.jobs|, 0)])
  {
    hide Free, FindJob;
    OnlyOneFree(s, cfg, o.action, o.key, TargetCount(cfg, o));
    assert NewItems(|s.jobs|, [0]) == [NewItem(|s.jobs|, 0)];
    t := Create(s, cfg, o, {}, []).0;
    ReachEvent(cfg, s, OrderPlaced(o, {}, []), t);
  }

  function RunningItem(s: Store): Item {
    NewItem(|s.jobs|, 0).(status := ItemStatus.Running, attempts := 1, startedAt := Some(s.now))
  }

  lemma FreeToJoin(s: Store, cfg: Config, key: Key)
    requires AtRest(s) && !IsThrottled(s, 0) && !IsJoined(s, 0, key)
    ensures Free(s, cfg, Join, key, 0)
  {
  }

  /** A join is ordered and claimed. */
  lemma ReachRunning(cfg: Config, s: Store, o: Order) returns (t: Store)
    requires Reachable(cfg, s) && AtRest(s) && !IsThrottled(s, 0) && o.action.Join? && o.count == 1
    requires FindJob(s.jobs, o.idempotencyKey) == |s.jobs| && !IsJoined(s, 0, o.key)
    ensures Reachable(cfg, t) && Linked(t)
    ensures t == s.(jobs := s.jobs + [NewJob(s, cfg, o, 1)], items := s.items + [RunningItem(s)],
                    throttles := s.throttles[0 := Some(s.now + cfg.actionDelay)])
  {
    hide FindJob;
    FreeToJoin(s, cfg, o.key);
    hide Free;
    var ordered := ReachOrder(cfg, s, o);
    var n := |s.items|;
    FirstClaim(ordered, cfg, n);
    t := Claim(ordered, cfg, n).0;
    assert ordered.items[n := RunningItem(s)] == s.items + [RunningItem(s)];
    ReachEvent(cfg, ordered, ItemClaimed(n), t);
  }

  lemma ScheduledSoFar(s: Store, cfg: Config)
    requires Inv(s, cfg)
    ensures Linked(s) && forall i :: i in s.schedules ==> i < |s.items|
  {
    forall i | i in s.schedules
      ensures i < |s.items|
    {
      assert NeedsSchedule(s, i);
    }
  }

  function Retained(s: Store, o: Order): map<ItemId, Schedule> {
    if o.retention.Some? && o.retention.value > 0 then
      s.schedules[|s.items| := Schedule(|s.jobs|, 0, o.key, s.now + o.retention.value * DAY, ScheduleStatus.Pending, 0)]
    else s.schedules
  }

  /** The join of a running item succeeds. */
  lemma JoinSucceedsHere(s: Store, t: Store, cfg: Config, o: Order)
    requires Linked(s) && o.count == 1 && o.action.Join? && |s.items| !in s.schedules && Linked(t)
    requires t == s.(jobs := s.jobs + [NewJob(s, cfg, o, 1)], items := s.items + [RunningItem(s)],
                     throttles := s.throttles[0 := Some(s.now + cfg.actionDelay)])
    ensures var u := Complete(t, cfg, |s.items|, Done);
      && u.items == s.items + [RunningItem(s).(status := ItemStatus.Success, finishedAt := Some(s.now))]
      && |u.jobs| == |s.jobs| + 1 && u.jobs[..|s.jobs|] == s.jobs && u.jobs[|s.jobs|].idempotencyKey == o.idempotencyKey
      && u.memberships == s.memberships[(0, o.key) := Membership(true, Some(s.now), s.now)]
      && u.schedules == Retained(s, o)
      && u.throttles == t.throttles && u.now == s.now && u.views == s.views && u.accounts == s.accounts
  {
    AnswerIsSuccess(t, cfg, |s.items|);
    assert t.items[|s.items|] == RunningItem(s);
  }

  /** The action delay is waited out. */
  lemma ReachRest(cfg: Config, s: Store) returns (t: Store)
    requires Reachable(cfg, s) && AtRest(s) && 0 in s.throttles && s.throttles[0] == Some(s.now + cfg.actionDelay)
    ensures Reachable(cfg, t) && AtRest(t) && !IsThrottled(t, 0) && t == s.(now := s.now + Max(0, cfg.actionDelay))
  {
    t := Tick(s, Max(0, cfg.actionDelay));
    ReachEvent(cfg, s, Ticked(Max(0, cfg.actionDelay)), t);
  }

  /** A join is ordered, claimed and done, and the action delay is waited out. */
  lemma ReachJoin(cfg: Config, s: Store, o: Order) returns (t: Store)
    requires Reachable(cfg, s) && AtRest(s) && !IsThrottled(s, 0) && o.action.Join? && o.count == 1
    requires FindJob(s.jobs, o.idempotencyKey) == |s.jobs| && !IsJoined(s, 0, o.key)
    ensures Reachable(cfg, t) && AtRest(t) && !IsThrottled(t, 0) && t.now == s.now + Max(0, cfg.actionDelay)
    ensures t.items == s.items + [RunningItem(s).(status := ItemStatus.Success, finishedAt := Some(s.now))]
    ensures |t.jobs| == |s.jobs| + 1 && t.jobs[..|s.jobs|] == s.jobs && t.jobs[|s.jobs|].idempotencyKey == o.idempotencyKey
    ensures t.memberships == s.memberships[(0, o.key) := Membership(true, Some(s.now), s.now)]
    ensures t.schedules == Retained(s, o) && t.views == s.views
  {
    hide FindJob;
    ReachableIsValid(cfg, s);
    ScheduledSoFar(s, cfg);
    var running := ReachRunning(cfg, s, o);
    JoinSucceedsHere(s, running, cfg, o);
    hide Inv, Complete, Retained, Reachable;
    var joined := Complete(running, cfg, |s.items|, Done);
    ReachEvent(cfg, running, ItemAnswered(|s.items|, Done), joined);
    t := ReachRest(cfg, joined);
  }

  lemma ReachLeavePlaced(cfg: Config, s: Store, o: Order) returns (t: Store)
    requires Reachable(cfg, s) && AtRest(s) && o.action.Leave? && o.count == 1
    requires FindJob(s.jobs, o.idempotencyKey) == |s.jobs| && MayLeave(s, o.key, 0)
    ensures Reachable(cfg, t) && Linked(t)
    ensures t == s.(jobs := s.jobs + [NewJob(s, cfg, o, 1)], items := s.items + [NewItem(|s.jobs|, 0)])
  {
    hide FindJob;
    assert NewItems(|s.jobs|, [0]) == [NewItem(|s.jobs|, 0)];
    t := Create(s, cfg, o, {}, [0]).0;
    ReachEvent(cfg, s, OrderPlaced(o, {}, [0]), t);
  }

  /** A leave order takes the one account, and its item is claimed. */
  lemma ReachLeaveOrder(cfg: Config, s: Store, o: Order) returns (t: Store)
    requires Reachable(cfg, s) && AtRest(s) && !IsThrottled(s, 0) && o.action.Leave? && o.count == 1
    requires FindJob(s.jobs, o.idempotencyKey) == |s.jobs| && MayLeave(s, o.key, 0)
    ensures Reachable(cfg, t) && Linked(t)
    ensures t == s.(jobs := s.jobs + [NewJob(s, cfg, o, 1)], items := s.items + [RunningItem(s)],
                    throttles := s.throttles[0 := Some(s.now + cfg.actionDelay)])
  {
    hide FindJob;
    var n := |s.items|;
    var ordered := ReachLeavePlaced(cfg, s, o);
    FirstClaim(ordered, cfg, n);
    t := Claim(ordered, cfg, n).0;
    assert ordered.items[n := RunningItem(s)] == s.items + [RunningItem(s)];
    ReachEvent(cfg, ordered, ItemClaimed(n), t);
  }
}
