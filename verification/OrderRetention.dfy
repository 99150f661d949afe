/** No auto-leave is taken up before the retention period of its own join is over. Whether the account is still
    the member of that join then, or was taken out by something else, is another matter: see OrderMembership. */
module OrderRetention {
  import opened Common
  import opened OrderStore
  import opened OrderSteps
  import opened OrderInvariant
  import opened OrderKeeps
  import opened OrderAppends
  import opened OrderRuns
  import opened OrderOutcomes

  /** Schedule `i` is due a retention period after its item's success, and was not taken up sooner. */
  ghost predicate OnTime(s: Store, i: ItemId)
    requires Linked(s)
  {
    i in s.schedules ==>
      && i < |s.items| && s.items[i].finishedAt.Some? && NeedsLeave(JobOf(s, i))
      && s.schedules[i].dueAt == s.items[i].finishedAt.value + JobOf(s, i).retention.value * DAY
      && (!s.schedules[i].status.Pending? ==> s.schedules[i].dueAt <= s.now)
  }

  /** A pending schedule stays pending, unless it is due and taken up. */
  lemma TakenUpWhenDue(s: Store, cfg: Config, e: Event, i: ItemId)
    requires Inv(s, cfg) && Enabled(s, e) && i in s.schedules && s.schedules[i].status.Pending?
    ensures i in Apply(s, cfg, e).schedules
    ensures Apply(s, cfg, e).schedules[i].status.Pending? || s.schedules[i].dueAt <= s.now
  {
    hide Complete, Create, Claim, Finalize, RecoverStale, FinishLeave, Inv;
    match e
    case ItemAnswered(k, outcome) =>
      LinkedIn(s, cfg);
      CompleteShape(s, cfg, k, outcome);
    case LeaveReturned(k, left) => ReturnShape(s, k, left);
    case LeaveStarted(k) =>
    case _ => SchedulesUntouched(s, cfg, e);
  }

  /** A schedule appears only with the success of its item, a join. */
  lemma AppearsWithSuccess(s: Store, cfg: Config, e: Event, i: ItemId)
    requires Inv(s, cfg) && Enabled(s, e) && i !in s.schedules && i in Apply(s, cfg, e).schedules
    ensures e.ItemAnswered? && e.item == i && i < |s.items| && JobOf(s, i).action.Join?
    ensures var t := Apply(s, cfg, e);
      && i < |s.items| && |t.items| >= |s.items| && t.now == s.now
      && t.items[i].finishedAt == Some(s.now) && t.schedules[i].status.Pending?
      && NeedsLeave(JobOf(s, i)) && t.schedules[i].dueAt == s.now + JobOf(s, i).retention.value * DAY
  {
    hide Complete, Create, Claim, Finalize, RecoverStale, FinishLeave, Inv;
    match e
    case ItemAnswered(k, outcome) =>
      LinkedIn(s, cfg);
      CompleteShape(s, cfg, k, outcome);
      AnswerStampsItem(s, cfg, k, outcome);
    case LeaveReturned(k, left) => ReturnShape(s, k, left);
    case LeaveStarted(k) =>
    case _ => SchedulesUntouched(s, cfg, e);
  }

  lemma CancelStopsClock(s: Store, j: JobId)
    requires j < |s.jobs|
    ensures CancelInvalidTarget(s, j).now == s.now && |CancelInvalidTarget(s, j).items| == |s.items|
  {
  }

  /** An answer takes no time and adds no rows. */
  lemma AnswerStopsClock(s: Store, cfg: Config, i: ItemId, outcome: Outcome)
    requires Linked(s) && i < |s.items|
    ensures Complete(s, cfg, i, outcome).now == s.now && |Complete(s, cfg, i, outcome).items| == |s.items|
  {
    hide CancelInvalidTarget;
    CancelStopsClock(FinishItem(s, i, ItemStatus.Skipped, Message.InvalidTarget), s.items[i].job);
  }

  lemma CancelSchedulesNothing(s: Store, cfg: Config, i: ItemId, outcome: Outcome)
    requires Linked(s) && i < |s.items| && Cancels(s, i, outcome)
    ensures Complete(s, cfg, i, outcome).schedules == s.schedules
  {
    CancelShape(FinishItem(s, i, ItemStatus.Skipped, Message.InvalidTarget), s.items[i].job);
  }

  lemma AnswerStampsItem(s: Store, cfg: Config, i: ItemId, outcome: Outcome)
    requires Linked(s) && i < |s.items|
    ensures var t := Complete(s, cfg, i, outcome);
      t.now == s.now && |t.items| == |s.items| && (i !in s.schedules && i in t.schedules ==> t.items[i].finishedAt == Some(s.now))
  {
    hide Complete, Cancels;
    AnswerStopsClock(s, cfg, i, outcome);
    if Cancels(s, i, outcome) {
      CancelSchedulesNothing(s, cfg, i, outcome);
    } else {
      var status, message := AnswerFinishes(s, cfg, i, outcome);
    }
  }

  lemma StepOnTime(s: Store, cfg: Config, e: Event, i: ItemId)
    requires Inv(s, cfg) && Enabled(s, e) && OnTime(s, i)
    ensures Linked(Apply(s, cfg, e)) && OnTime(Apply(s, cfg, e), i)
  {
    StepKeeps(s, cfg, e);
    var t := Apply(s, cfg, e);
    StaysOnTime(s, t, cfg, i) by {
      if i in s.schedules {
        if s.schedules[i].status.Pending? {
          TakenUpWhenDue(s, cfg, e, i);
        }
      } else if i in t.schedules {
        AppearsWithSuccess(s, cfg, e, i);
      }
    }
  }

  lemma StaysOnTime(s: Store, t: Store, cfg: Config, i: ItemId)
    requires Inv(s, cfg) && Linked(t) && Progress(s, t) && OnTime(s, i)
    requires i in s.schedules && s.schedules[i].status.Pending? && i in t.schedules ==>
      t.schedules[i].status.Pending? || s.schedules[i].dueAt <= s.now
    requires i !in s.schedules && i in t.schedules ==>
      && i < |s.items| && |t.items| >= |s.items| && t.now == s.now
      && t.items[i].finishedAt == Some(s.now) && t.schedules[i].status.Pending?
      && NeedsLeave(JobOf(s, i)) && t.schedules[i].dueAt == s.now + JobOf(s, i).retention.value * DAY
    ensures OnTime(t, i)
  {
    if i in t.schedules && i < |s.items| {
      assert ItemStep(s.items[i], t.items[i]);
      assert JobStep(s.jobs[s.items[i].job], t.jobs[s.items[i].job]);
      if i in s.schedules {
        assert NeedsSchedule(s, i);
        assert ScheduleStep(s.schedules[i], t.schedules[i]);
      }
    }
  }

  lemma {:induction false} EveryScheduleOnTime(cfg: Config, states: seq<Store>, events: seq<Event>, n: nat, i: ItemId)
    requires IsRun(cfg, states, events) && n < |states|
    ensures Linked(states[n]) && OnTime(states[n], i)
  {
    hide Inv, Apply, Enabled, Progress, OnTime;
    if n == 0 {
      NothingScheduled(states[0]);
    } else {
      EveryScheduleOnTime(cfg, states, events, n - 1, i);
      RunStep(cfg, states, events, n - 1);
      StepOnTime(states[n - 1], cfg, events[n - 1], i);
    }
  }

  lemma NothingScheduled(s: Store)
    requires s == EmptyStore(s.now)
    ensures Linked(s) && forall i :: OnTime(s, i)
  {
  }

  /** In every state of every run: an auto-leave was taken up only after the whole retention period since the
      success of its own item. It may come back later than that, and then ends whatever membership there is. */
  lemma RetentionIsKept(cfg: Config, states: seq<Store>, events: seq<Event>, n: nat, i: ItemId)
    requires IsRun(cfg, states, events) && n < |states|
    requires i in states[n].schedules && !states[n].schedules[i].status.Pending?
    ensures var s := states[n];
      && Linked(s) && i < |s.items| && s.items[i].finishedAt.Some? && NeedsLeave(JobOf(s, i))
      && s.now - s.items[i].finishedAt.value >= JobOf(s, i).retention.value * DAY
  {
    hide IsRun;
    EveryScheduleOnTime(cfg, states, events, n, i);
  }
}
