/** More runs: a job stranded by settling late, and an old join that is refilled. */
module OrderExamples {
  import opened Common
  import opened OrderStore
  import opened OrderSteps
  import opened OrderInvariant
  import opened OrderKeeps
  import opened OrderAppends
  import opened OrderRuns
  import opened OrderOutcomes
  import opened OrderWitness
  import opened OrderPaths

  // ── stranded by settling late ──────────────────────────────────────────────

  /** A retained join for one, with two items: the first has succeeded, the second is running. */
  ghost predicate HalfDone(s: Store) {
    && Linked(s) && |s.items| == 2 && |s.jobs| == 1 && |s.accounts| == 2
    && s.items[0].job == 0 && s.items[1].job == 0 && s.items[0].account == 0 && s.items[1].account == 1
    && s.items[0].status.Success? && s.items[1].status.Running?
    && s.jobs[0].action.Join? && s.jobs[0].requested == 1 && s.jobs[0].success == 1 && s.jobs[0].status.InProgress?
    && s.jobs[0].retention == Some(1)
  }

  lemma ReachHalfDone(cfg: Config) returns (s: Store)
    requires cfg.bonus == 100.0
    ensures Reachable(cfg, s) && HalfDone(s)
    ensures s.schedules.Keys == {0} && s.schedules[0].job == 0 && s.schedules[0].status.Pending?
    ensures s.schedules[0].dueAt == s.now + DAY
  {
    var before := ReachBothRunning(cfg, Some(1));
    ReachableIsValid(cfg, before);
    NothingScheduledYet(before, cfg);
    AnswerIsSuccess(before, cfg, 0);
    SucceedShape(before, 0);
    s := Complete(before, cfg, 0, Done);
    ReachEvent(cfg, before, ItemAnswered(0, Done), s);
  }

  lemma NothingScheduledYet(s: Store, cfg: Config)
    requires Inv(s, cfg) && |s.items| == 2 && !s.items[0].status.Success? && !s.items[1].status.Success?
    ensures s.schedules == map[]
  {
    forall i: nat
      ensures i !in s.schedules
    {
      assert i in s.schedules <==> NeedsSchedule(s, i);
    }
  }

  /** The leave comes back a day later, while the second item is still running. */
  lemma ReachLeftEarly(cfg: Config) returns (s: Store)
    requires cfg.bonus == 100.0
    ensures Reachable(cfg, s) && HalfDone(s) && !HasOpenSchedule(s, 0)
  {
    var joined := ReachHalfDone(cfg);
    var due := Tick(joined, DAY);
    ReachEvent(cfg, joined, Ticked(DAY), due);
    var leaving := StartLeave(due, 0);
    ReachEvent(cfg, due, LeaveStarted(0), leaving);
    s := FinishLeave(leaving, 0, true);
    ReturnShape(leaving, 0, true);
    ReachEvent(cfg, leaving, LeaveReturned(0, true), s);
  }

  /** Then the second item fails, and no account is left to replace it. */
  lemma ReachIdle(cfg: Config) returns (s: Store)
    requires cfg.bonus == 100.0
    ensures Reachable(cfg, s) && Linked(s) && |s.jobs| == 1 && SettlesLate(s, cfg, 0, {})
  {
    var before := ReachLeftEarly(cfg);
    s := Complete(before, cfg, 1, Broken);
    ReachEvent(cfg, before, ItemAnswered(1, Broken), s);
    SameOpen(before, s, 0);
    CountPositive(s.items, 0, ItemStatus.Pending);
    CountPositive(s.items, 0, ItemStatus.Running);
    NobodyLeft(s, cfg);
  }

  lemma NobodyLeft(s: Store, cfg: Config)
    requires Linked(s) && |s.items| == 2 && |s.jobs| == 1 && |s.accounts| == 2
    requires s.items[0].job == 0 && s.items[1].job == 0 && s.items[0].account == 0 && s.items[1].account == 1
    requires !s.items[0].status.Skipped? && !s.items[1].status.Skipped?
    ensures !CanRefill(s, cfg, 0, {}) && !MayWait(s, cfg, 0)
  {
    hide Free;
    assert 0 in Used(s, 0) by { assert !RetryableSkip(s.items[0]); }
    assert 1 in Used(s, 0) by { assert !RetryableSkip(s.items[1]); }
  }

  /** Finalizing it settles it as ACTIVE, and no later step completes it. */
  lemma StrandedBySettling() returns (s: Store)
    ensures Reachable(GENEROUS, s) && |s.jobs| == 1 && Stranded(s, 0)
  {
    s := StrandedBySettlingIn(GENEROUS);
  }

  lemma StrandedBySettlingIn(cfg: Config) returns (s: Store)
    requires cfg.bonus == 100.0
    ensures Reachable(cfg, s) && |s.jobs| == 1 && Stranded(s, 0)
  {
    hide Inv, Finalize, Settles;
    var before := ReachIdle(cfg);
    var e := JobFinalized(0, {});
    ReachableIsValid(cfg, before);
    StrandsExactlyWhen(before, cfg, e, 0);
    s := Finalize(before, cfg, 0, {}).0;
    FinalizeStatus(before, cfg, 0, {}, 0);
    ReachEvent(cfg, before, e, s);
  }

  // ── refilled however old ───────────────────────────────────────────────────

  /** The only item of a join was skipped for a lost connection, and more than the time it may wait has passed. */
  lemma ReachSkipped(cfg: Config) returns (s: Store)
    ensures Reachable(cfg, s) && Linked(s) && s.accounts == [AccountStatus.Active] && |s.jobs| == 1 && |s.items| == 1
    ensures s.memberships == map[] && !IsThrottled(s, 0)
    ensures s.items[0].job == 0 && s.items[0].account == 0 && RetryableSkip(s.items[0])
    ensures s.jobs[0].action.Join? && s.jobs[0].status.InProgress? && s.jobs[0].total >= 1 && s.jobs[0].success == 0
    ensures s.jobs[0].startedAt.Some? && s.now - s.jobs[0].startedAt.value > cfg.maxWait
  {
    var empty := ReachAccount(cfg);
    var o := Order("k", Join, "t", 1, None);
    var before := ReachRunning(cfg, empty, o);
    var skipped := Complete(before, cfg, 0, NoConnection);
    ReachEvent(cfg, before, ItemAnswered(0, NoConnection), skipped);
    var wait := Max(0, cfg.maxWait) + Max(0, cfg.connErrorPause) + 1;
    s := Tick(skipped, wait);
    ReachEvent(cfg, skipped, Ticked(wait), s);
  }

  /** A join whose only item was skipped for a lost connection is refilled, long after the time it may wait for
      an account: that limit does not bound the life of a join. */
  lemma OldJoinIsRefilled(cfg: Config) returns (s: Store)
    ensures Reachable(cfg, s) && Linked(s) && |s.jobs| == 1
    ensures s.jobs[0].startedAt.Some? && s.now - s.jobs[0].startedAt.value > cfg.maxWait
    ensures Finalize(s, cfg, 0, {}).1.Refilled?
  {
    s := ReachSkipped(cfg);
    ReachableIsValid(cfg, s);
    SkippedIsFree(s, cfg);
    FinalizeDecides(s, cfg, 0, {});
  }

  lemma SkippedIsFree(s: Store, cfg: Config)
    requires Linked(s) && s.accounts == [AccountStatus.Active] && |s.jobs| == 1 && |s.items| == 1
    requires s.memberships == map[] && !IsThrottled(s, 0)
    requires s.items[0].job == 0 && s.items[0].account == 0 && RetryableSkip(s.items[0])
    requires s.jobs[0].action.Join? && s.jobs[0].status.InProgress? && s.jobs[0].total >= 1 && s.jobs[0].success == 0
    ensures CountInFlight(s.items, 0) == 0 && CanRefill(s, cfg, 0, {})
  {
    CountPositive(s.items, 0, ItemStatus.Pending);
    CountPositive(s.items, 0, ItemStatus.Running);
    assert Used(s, 0) + {} == {};
    assert Free(s, cfg, Join, s.jobs[0].key, 0);
  }
}
