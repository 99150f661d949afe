/** The two ways a retained join ends early, as runs up to the lost membership. */
module OrderEarlyLeaves {
  import opened Common
  import opened OrderStore
  import opened OrderSteps
  import opened OrderInvariant
  import opened OrderRuns
  import opened OrderOutcomes
  import opened OrderWitness
  import opened OrderMembership
  import opened OrderPaths

  /** The step from `s` to `t` ends a membership for which the schedule of item `i` is not due yet. */
  ghost predicate EndsEarly(cfg: Config, s: Store, e: Event, t: Store, a: AccountId, key: Key, i: ItemId) {
    && StepOf(cfg, s, e, t) && IsJoined(s, a, key) && !IsJoined(t, a, key)
    && i in t.schedules && t.schedules[i].account == a && t.schedules[i].key == key
    && t.schedules[i].status.Pending? && t.now < t.schedules[i].dueAt
    && i < |t.items| && t.items[i].status.Success? && (a, key) in s.memberships
    && s.memberships[(a, key)].joinedAt == t.items[i].finishedAt
  }

  /** One join of target "t" with a retention period, done; the action delay is over. */
  lemma ReachFirst(cfg: Config, days: nat) returns (s: Store)
    requires days > 0
    ensures Reachable(cfg, s) && AtRest(s) && !IsThrottled(s, 0) && s.now == Max(0, cfg.actionDelay)
    ensures |s.jobs| == 1 && s.jobs[0].idempotencyKey == "k" && |s.items| == 1 && s.items[0].status.Success? && s.items[0].finishedAt == Some(0)
    ensures s.memberships == map[(0, "t") := Membership(true, Some(0), 0)]
    ensures s.schedules == map[0 := Schedule(0, 0, "t", days * DAY, ScheduleStatus.Pending, 0)]
  {
    var empty := ReachAccount(cfg);
    s := ReachJoin(cfg, empty, Order("k", Join, "t", 1, Some(days)));
  }

  /** A leave order for the target is placed and claimed. */
  lemma ReachSecond(cfg: Config, days: nat) returns (s: Store)
    requires days > 0
    ensures Reachable(cfg, s) && Linked(s) && s.accounts == [AccountStatus.Active] && s.now == Max(0, cfg.actionDelay)
    ensures |s.jobs| == 2 && s.jobs[0].idempotencyKey == "k" && s.jobs[1].idempotencyKey == "l"
    ensures s.jobs[1].action.Leave? && s.jobs[1].key == "t"
    ensures |s.items| == 2 && s.items[1].status.Running? && s.items[1].job == 1 && s.items[1].account == 0
    ensures s.items[0].status.Success? && s.items[0].finishedAt == Some(0)
    ensures s.memberships == map[(0, "t") := Membership(true, Some(0), 0)]
    ensures s.schedules == map[0 := Schedule(0, 0, "t", days * DAY, ScheduleStatus.Pending, 0)]
    ensures 0 in s.throttles && s.throttles[0] == Some(s.now + cfg.actionDelay)
  {
    var first := ReachFirst(cfg, days);
    assert "k" != "l";
    NewKey(first.jobs, "l");
    var o := Order("l", Leave, "t", 1, None);
    s := ReachLeaveOrder(cfg, first, o);
  }

  /** However long the period, a leave order ends the join that has just begun. */
  lemma EndedByLeaveOrder(cfg: Config) returns (s: Store, e: Event, t: Store)
    ensures Reachable(cfg, s) && Linked(s) && LeavesByOrder(s, e, 0, "t") && EndsEarly(cfg, s, e, t, 0, "t", 0)
    ensures Reachable(cfg, t)
  {
    var days := Max(0, cfg.actionDelay) / DAY + 1;
    s := ReachSecond(cfg, days);
    e := ItemAnswered(1, Done);
    t := Complete(s, cfg, 1, Done);
    LeaveDone(s, cfg);
    ReachEvent(cfg, s, e, t);
  }

  lemma LeaveDone(s: Store, cfg: Config)
    requires Linked(s) && |s.items| == 2 && s.items[1].job == 1 && s.items[1].account == 0 && |s.jobs| == 2
    requires s.jobs[1].action.Leave? && s.jobs[1].key == "t" && s.memberships == map[(0, "t") := Membership(true, Some(0), 0)]
    ensures var t := Complete(s, cfg, 1, Done);
      && t.memberships == map[(0, "t") := Membership(false, Some(0), s.now)] && t.schedules == s.schedules
      && t.items == s.items[1 := s.items[1].(status := ItemStatus.Success, message := Plain, finishedAt := Some(s.now))]
      && |t.jobs| == 2 && t.jobs[0] == s.jobs[0] && t.jobs[1].idempotencyKey == s.jobs[1].idempotencyKey
      && t.throttles == s.throttles && t.now == s.now && t.views == s.views && t.accounts == s.accounts
  {
  }

  // ── an older schedule ──────────────────────────────────────────────────────

  /** Joined for a day and taken out by a leave order at once; the action delay is over. */
  lemma ReachOut(cfg: Config) returns (s: Store)
    ensures Reachable(cfg, s) && AtRest(s) && !IsThrottled(s, 0) && s.now >= 0
    ensures |s.jobs| == 2 && FindJob(s.jobs, "m") == 2
    ensures |s.items| == 2 && s.memberships.Keys == {(0, "t")} && !s.memberships[(0, "t")].joined
    ensures s.schedules == map[0 := Schedule(0, 0, "t", DAY, ScheduleStatus.Pending, 0)]
  {
    var leaving := ReachSecond(cfg, 1);
    LeaveDone(leaving, cfg);
    hide Complete, Reachable;
    var left := Complete(leaving, cfg, 1, Done);
    ReachEvent(cfg, leaving, ItemAnswered(1, Done), left);
    s := ReachRest(cfg, left);
    assert "m" != "k" && "m" != "l";
    NewKey(s.jobs, "m");
  }

  /** Thirty days, or as many more as the action delay is long. */
  function Long(cfg: Config): (r: nat)
    ensures r >= 30 && (r - 29) * DAY > cfg.actionDelay
  {
    Max(0, cfg.actionDelay) / DAY + 30
  }

  /** And joined again for thirty days. */
  lemma ReachAgain(cfg: Config) returns (s: Store, joinedAt: Time)
    ensures Reachable(cfg, s) && AtRest(s) && |s.items| == 3 && |s.jobs| == 3
    ensures s.items[2].status.Success? && s.items[2].finishedAt == Some(joinedAt)
    ensures s.memberships.Keys == {(0, "t")} && s.memberships[(0, "t")] == Membership(true, Some(joinedAt), joinedAt)
    ensures s.schedules == map[0 := Schedule(0, 0, "t", DAY, ScheduleStatus.Pending, 0),
                               2 := Schedule(2, 0, "t", joinedAt + Long(cfg) * DAY, ScheduleStatus.Pending, 0)]
    ensures s.now == joinedAt + Max(0, cfg.actionDelay) && joinedAt >= 0
  {
    var out := ReachOut(cfg);
    joinedAt := out.now;
    hide Long, FindJob, Reachable;
    s := ReachJoin(cfg, out, Order("m", Join, "t", 1, Some(Long(cfg))));
  }

  /** A day later the first order's auto-leave is taken up. */
  lemma ReachTakenUp(cfg: Config) returns (s: Store)
    ensures Reachable(cfg, s) && Linked(s) && |s.items| == 3 && |s.jobs| == 3 && s.items[2].status.Success?
    ensures s.memberships.Keys == {(0, "t")} && s.memberships[(0, "t")].joined
    ensures s.memberships[(0, "t")].joinedAt == s.items[2].finishedAt
    ensures s.schedules.Keys == {0, 2} && s.schedules[0] == Schedule(0, 0, "t", DAY, ScheduleStatus.Processing, 1)
    ensures s.schedules[2].account == 0 && s.schedules[2].key == "t" && s.schedules[2].job == 2
    ensures s.schedules[2].status.Pending? && s.schedules[2].dueAt >= s.now + 29 * DAY
  {
    var again, joinedAt := ReachAgain(cfg);
    var wait := Max(0, DAY - Max(0, cfg.actionDelay));
    var later := Tick(again, wait);
    ReachEvent(cfg, again, Ticked(wait), later);
    s := StartLeave(later, 0);
    ReachEvent(cfg, later, LeaveStarted(0), s);
  }

  /** It comes back well and ends the second join, twenty-nine days before that one's own auto-leave is due. */
  lemma EndedByOlderSchedule(cfg: Config) returns (s: Store, e: Event, t: Store)
    ensures Reachable(cfg, s) && Linked(s) && LeavesBySchedule(s, e, 0, "t") && e.item != 2 && EndsEarly(cfg, s, e, t, 0, "t", 2)
    ensures Reachable(cfg, t) && t.schedules[2].dueAt >= t.now + 29 * DAY
  {
    s := ReachTakenUp(cfg);
    e := LeaveReturned(0, true);
    t := FinishLeave(s, 0, true);
    ReturnShape(s, 0, true);
    ReachEvent(cfg, s, e, t);
  }
}
