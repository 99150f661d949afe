/** What every step writes, column by column and read off the rows before it. These tables do not use the functions
    that compute the steps. */
module OrderTables {
  import opened Common
  import opened OrderStore
  import opened OrderSteps
  import opened OrderInvariant
  import opened OrderKeeps
  import opened OrderAppends
  import opened OrderRuns
  import opened OrderOutcomes

  // ── answers ────────────────────────────────────────────────────────────────

  datatype Marked = AsBefore | In | Out

  /** What an answer leaves behind: the item's status and message, the membership, whether a view is recorded, how
      long the account is held back, and whether it is disabled. */
  datatype Effect = Effect(status: ItemStatus, message: Message, marked: Marked, viewed: bool, pause: Option<Time>, disabled: bool)

  /** The table of answers that concern one account; a bad target for everyone is a table of its own. */
  function EffectOf(action: Action, outcome: Outcome, member: bool, cfg: Config): Effect {
    if action == Leave && !member && outcome != Dead then Effect(ItemStatus.Skipped, Plain, AsBefore, false, None, false)
    else
      match outcome
      case Done =>
        Effect(ItemStatus.Success, Plain, if action == Join then In else if action == Leave then Out else AsBefore,
               action == View, None, false)
      case AlreadyDone =>
        if action == Join then Effect(ItemStatus.Success, Plain, In, false, None, false)
        else Effect(ItemStatus.Skipped, Plain, if action == Leave then Out else AsBefore, false, None, false)
      case BadTarget(_) => Effect(ItemStatus.Skipped, TransientTarget, AsBefore, false, None, false)
      case Dead => Effect(ItemStatus.Skipped, SessionDead, AsBefore, false, None, true)
      case TooMany(Some(wait)) =>
        Effect(ItemStatus.Skipped, Message.Throttled, AsBefore, false, Some(if wait == 0 then cfg.throttlePause else wait), false)
      case TooMany(None) => Effect(ItemStatus.Skipped, Message.Throttled, AsBefore, false, Some(cfg.throttlePause), false)
      case NoConnection => Effect(ItemStatus.Skipped, ConnError, AsBefore, false, Some(cfg.connErrorPause), false)
      case Broken => Effect(ItemStatus.Failed, Plain, AsBefore, false, None, false)
  }

  /** The answer says that the target is wrong for every account. */
  predicate ForEveryone(action: Action, outcome: Outcome, member: bool) {
    outcome == BadTarget(false) && !(action == Leave && !member)
  }

  predicate Member(s: Store, a: AccountId, key: Key) {
    (a, key) in s.memberships && s.memberships[(a, key)].joined
  }

  /** The store after an answer with this effect. */
  function Effected(s: Store, i: ItemId, e: Effect): Store
    requires i < |s.items| && s.items[i].job < |s.jobs| && s.items[i].account < |s.accounts|
  {
    var item := s.items[i];
    var job, a := s.jobs[item.job], item.account;
    var slot := (a, job.key);
    var joinedBefore := if slot in s.memberships then s.memberships[slot].joinedAt else None;
    s.(items := s.items[i := item.(status := e.status, message := e.message, finishedAt := Some(s.now))],
       jobs := s.jobs[item.job := job.(success := job.success + if e.status == ItemStatus.Success then 1 else 0,
                                       failed := job.failed + if e.status == ItemStatus.Failed then 1 else 0,
                                       skipped := job.skipped + if e.status == ItemStatus.Skipped then 1 else 0)],
       memberships := match e.marked
         case AsBefore => s.memberships
         case In => s.memberships[slot := Membership(true, Some(s.now), s.now)]
         case Out => s.memberships[slot := Membership(false, joinedBefore, s.now)],
       views := if e.viewed then s.views[slot := s.now] else s.views,
       schedules :=
         if e.marked == In && job.retention.Some? && job.retention.value > 0 then
           s.schedules[i := Schedule(item.job, a, job.key, s.now + job.retention.value * DAY, ScheduleStatus.Pending, 0)]
         else s.schedules,
       throttles := if e.pause.Some? then s.throttles[a := Some(s.now + e.pause.value)] else s.throttles,
       accounts := if e.disabled then s.accounts[a := AccountStatus.Disabled] else s.accounts)
  }

  /** For every action and every outcome: exactly the rows of the table change, as the table says. */
  lemma AnswerTable(s: Store, cfg: Config, i: ItemId, outcome: Outcome)
    requires Inv(s, cfg) && Enabled(s, ItemAnswered(i, outcome))
    ensures var item := s.items[i]; var job := s.jobs[item.job]; var member := Member(s, item.account, job.key);
      !ForEveryone(job.action, outcome, member) ==>
        Apply(s, cfg, ItemAnswered(i, outcome)) == Effected(s, i, EffectOf(job.action, outcome, member, cfg))
  {
    NoScheduleYet(s, cfg, i);
    hide Inv;
    var job := s.jobs[s.items[i].job];
    if outcome == Done || outcome == AlreadyDone {
      match job.action
      case Join => GoodJoin(s, cfg, i, outcome);
      case View => GoodView(s, cfg, i, outcome);
      case Leave => GoodLeave(s, cfg, i, outcome);
    } else if !ForEveryone(job.action, outcome, Member(s, s.items[i].account, job.key)) {
      OtherAnswer(s, cfg, i, outcome);
    }
  }

  lemma NoScheduleYet(s: Store, cfg: Config, i: ItemId)
    requires Inv(s, cfg) && i < |s.items| && s.items[i].status.Running?
    ensures Linked(s) && i !in s.schedules
  {
    assert !NeedsSchedule(s, i);
  }

  lemma GoodJoin(s: Store, cfg: Config, i: ItemId, outcome: Outcome)
    requires Linked(s) && i < |s.items| && i !in s.schedules && (outcome == Done || outcome == AlreadyDone)
    requires JobOf(s, i).action == Join
    ensures var item := s.items[i]; var job := s.jobs[item.job];
      Complete(s, cfg, i, outcome) == Effected(s, i, EffectOf(Join, outcome, Member(s, item.account, job.key), cfg))
  {
  }

  lemma GoodView(s: Store, cfg: Config, i: ItemId, outcome: Outcome)
    requires Linked(s) && i < |s.items| && i !in s.schedules && (outcome == Done || outcome == AlreadyDone)
    requires JobOf(s, i).action == View
    ensures var item := s.items[i]; var job := s.jobs[item.job];
      Complete(s, cfg, i, outcome) == Effected(s, i, EffectOf(View, outcome, Member(s, item.account, job.key), cfg))
  {
  }

  lemma GoodLeave(s: Store, cfg: Config, i: ItemId, outcome: Outcome)
    requires Linked(s) && i < |s.items| && i !in s.schedules && (outcome == Done || outcome == AlreadyDone)
    requires JobOf(s, i).action == Leave
    ensures var item := s.items[i]; var job := s.jobs[item.job];
      Complete(s, cfg, i, outcome) == Effected(s, i, EffectOf(Leave, outcome, Member(s, item.account, job.key), cfg))
  {
  }

  lemma OtherAnswer(s: Store, cfg: Config, i: ItemId, outcome: Outcome)
    requires Linked(s) && i < |s.items| && i !in s.schedules && outcome != Done && outcome != AlreadyDone
    requires !ForEveryone(JobOf(s, i).action, outcome, Member(s, s.items[i].account, JobOf(s, i).key))
    ensures var item := s.items[i]; var job := s.jobs[item.job];
      Complete(s, cfg, i, outcome) == Effected(s, i, EffectOf(job.action, outcome, Member(s, item.account, job.key), cfg))
  {
    hide EffectOf, Effected, Complete;
    if JobOf(s, i).action == Leave && !Member(s, s.items[i].account, JobOf(s, i).key) && outcome != Dead {
      AbsentAnswer(s, cfg, i, outcome);
    } else {
      BadAnswer(s, cfg, i, outcome);
    }
  }

  lemma AbsentAnswer(s: Store, cfg: Config, i: ItemId, outcome: Outcome)
    requires Linked(s) && i < |s.items| && outcome != Dead
    requires JobOf(s, i).action == Leave && !Member(s, s.items[i].account, JobOf(s, i).key)
    ensures var item := s.items[i]; var job := s.jobs[item.job];
      Complete(s, cfg, i, outcome) == Effected(s, i, EffectOf(job.action, outcome, Member(s, item.account, job.key), cfg))
  {
  }

  lemma BadAnswer(s: Store, cfg: Config, i: ItemId, outcome: Outcome)
    requires Linked(s) && i < |s.items| && outcome != Done && outcome != AlreadyDone && outcome != BadTarget(false)
    requires !(JobOf(s, i).action == Leave && !Member(s, s.items[i].account, JobOf(s, i).key) && outcome != Dead)
    ensures var item := s.items[i]; var job := s.jobs[item.job];
      Complete(s, cfg, i, outcome) == Effected(s, i, EffectOf(job.action, outcome, Member(s, item.account, job.key), cfg))
  {
    hide CancelInvalidTarget;
  }

  // ── a target that is wrong for everyone ────────────────────────────────────

  predicate Waits(status: ItemStatus) {
    status == ItemStatus.Pending || status == ItemStatus.Running
  }

  function Cancelled(item: Item, j: JobId, now: Time): Item {
    if item.job == j && Waits(item.status) then
      item.(status := ItemStatus.Skipped, message := Message.InvalidTarget, finishedAt := Some(now))
    else item
  }

  lemma CancelledRows(s: Store, j: JobId)
    requires j < |s.jobs| && JobCounters(s.jobs[j], s.items, j) && s.jobs[j].status.InProgress? && !s.jobs[j].invalidTarget
    ensures var t, job := CancelInvalidTarget(s, j), s.jobs[j];
      && t.items == SkipInFlight(s.items, j, s.now)
      && t == s.(items := t.items, jobs := s.jobs[j := job.(
            status := if job.success > 0 then JobStatus.Partial else JobStatus.Fail,
            invalidTarget := true, finishedAt := Some(s.now),
            skipped := Max(job.skipped, Max(0, job.total - job.accepted) + Count(t.items, j, ItemStatus.Skipped)))])
  {
    CountSkipInFlight(s.items, j, s.now, j);
  }

  /** Item `i` and all of its job that wait or run are skipped, and the job is over. */
  ghost predicate CalledOff(s: Store, i: ItemId, t: Store)
    requires Linked(s) && i < |s.items|
  {
    var j := s.items[i].job;
    var job := s.jobs[j];
    && |t.items| == |s.items|
    && (forall k :: 0 <= k < |s.items| ==> t.items[k] == Cancelled(s.items[k], j, s.now))
    && t == s.(items := t.items, jobs := s.jobs[j := job.(
          status := if job.success > 0 then JobStatus.Partial else JobStatus.Fail,
          invalidTarget := true, finishedAt := Some(s.now),
          skipped := Max(job.skipped + 1, Max(0, job.total - job.accepted) + |ItemsIn(t.items, j, ItemStatus.Skipped)|))])
  }

  /** What a target that is wrong for everyone does. */
  lemma CancelTable(s: Store, cfg: Config, i: ItemId)
    requires Inv(s, cfg) && i < |s.items| && s.items[i].status.Running?
    requires ForEveryone(JobOf(s, i).action, BadTarget(false), Member(s, s.items[i].account, JobOf(s, i).key))
    ensures CalledOff(s, i, Apply(s, cfg, ItemAnswered(i, BadTarget(false))))
  {
    BeforeCancel(s, cfg, i);
    CancelledStore(s, cfg, i);
  }

  lemma CancelledStore(s: Store, cfg: Config, i: ItemId)
    requires Linked(s) && i < |s.items| && s.items[i].status.Running?
    requires ForEveryone(JobOf(s, i).action, BadTarget(false), Member(s, s.items[i].account, JobOf(s, i).key))
    requires var j, f := s.items[i].job, FinishItem(s, i, ItemStatus.Skipped, Message.InvalidTarget);
      JobCounters(f.jobs[j], f.items, j) && f.jobs[j].status.InProgress? && !f.jobs[j].invalidTarget
    ensures CalledOff(s, i, Complete(s, cfg, i, BadTarget(false)))
  {
    IsCancelled(s, cfg, i);
    SkippedTwice(s, i);
    CancelledColumns(s, i);
    hide JobCounters, CancelInvalidTarget, Complete, CalledOff, SkipInFlight, FinishItem, Cancelled;
    ColumnsCalledOff(s, i, Complete(s, cfg, i, BadTarget(false)));
  }

  lemma ColumnsCalledOff(s: Store, i: ItemId, t: Store)
    requires Linked(s) && i < |s.items| && |t.items| == |s.items|
    requires forall k :: 0 <= k < |s.items| ==> t.items[k] == Cancelled(s.items[k], s.items[i].job, s.now)
    requires var j := s.items[i].job; var job := s.jobs[j];
      t == s.(items := t.items, jobs := s.jobs[j := job.(
        status := if job.success > 0 then JobStatus.Partial else JobStatus.Fail,
        invalidTarget := true, finishedAt := Some(s.now),
        skipped := Max(job.skipped + 1, Max(0, job.total - job.accepted) + Count(t.items, j, ItemStatus.Skipped)))])
    ensures CalledOff(s, i, t)
  {
    CountIsCardinality(t.items, s.items[i].job, ItemStatus.Skipped);
  }

  lemma IsCancelled(s: Store, cfg: Config, i: ItemId)
    requires Linked(s) && i < |s.items| && ForEveryone(JobOf(s, i).action, BadTarget(false), Member(s, s.items[i].account, JobOf(s, i).key))
    ensures Complete(s, cfg, i, BadTarget(false))
         == CancelInvalidTarget(FinishItem(s, i, ItemStatus.Skipped, Message.InvalidTarget), s.items[i].job)
  {
    hide CancelInvalidTarget;
  }

  lemma CancelledColumns(s: Store, i: ItemId)
    requires Linked(s) && i < |s.items|
    requires var j, f := s.items[i].job, FinishItem(s, i, ItemStatus.Skipped, Message.InvalidTarget);
      JobCounters(f.jobs[j], f.items, j) && f.jobs[j].status.InProgress? && !f.jobs[j].invalidTarget
    ensures var j, f := s.items[i].job, FinishItem(s, i, ItemStatus.Skipped, Message.InvalidTarget);
      var job, t := s.jobs[j], CancelInvalidTarget(f, j);
      t.items == SkipInFlight(f.items, j, s.now) && t == s.(items := t.items, jobs := s.jobs[j := job.(
        status := if job.success > 0 then JobStatus.Partial else JobStatus.Fail,
        invalidTarget := true, finishedAt := Some(s.now),
        skipped := Max(job.skipped + 1, Max(0, job.total - job.accepted) + Count(t.items, j, ItemStatus.Skipped)))])
  {
    CancelledRows(FinishItem(s, i, ItemStatus.Skipped, Message.InvalidTarget), s.items[i].job);
    hide JobCounters, CancelInvalidTarget, SkipInFlight;
  }

  lemma BeforeCancel(s: Store, cfg: Config, i: ItemId)
    requires Inv(s, cfg) && i < |s.items| && s.items[i].status.Running?
    ensures Linked(s)
    ensures var j, f := s.items[i].job, FinishItem(s, i, ItemStatus.Skipped, Message.InvalidTarget);
      JobCounters(f.jobs[j], f.items, j) && f.jobs[j].status.InProgress? && !f.jobs[j].invalidTarget
  {
    var j := s.items[i].job;
    FinishPlainly(s, cfg, i, ItemStatus.Skipped, Message.InvalidTarget);
    InFlightInProgress(s, i);
    assert StatusAgrees(s.jobs[j]);
  }

  lemma SkippedTwice(s: Store, i: ItemId)
    requires Linked(s) && i < |s.items| && s.items[i].status.Running?
    ensures var j := s.items[i].job; var r := SkipInFlight(FinishItem(s, i, ItemStatus.Skipped, Message.InvalidTarget).items, j, s.now);
      |r| == |s.items| && forall k :: 0 <= k < |s.items| ==> r[k] == Cancelled(s.items[k], j, s.now)
  {
  }

  // ── claims ─────────────────────────────────────────────────────────────────

  /** The item waits for a worker, or its worker has been running for more than five minutes. */
  predicate Claimable(s: Store, i: ItemId)
    requires i < |s.items|
  {
    var item := s.items[i];
    item.status == ItemStatus.Pending
    || (item.status == ItemStatus.Running && item.startedAt.Some? && item.startedAt.value < s.now - 300 * SECOND)
  }

  /** The account is held back from joining and leaving. */
  predicate HeldBack(s: Store, a: AccountId) {
    a in s.throttles && s.throttles[a].Some? && s.throttles[a].value > s.now
  }

  /** The three results of a claim. An item that may not go ahead yet is tried again in the whole seconds left, but
      not before one; a silent worker loses its item either way. */
  lemma ClaimTable(s: Store, cfg: Config, i: ItemId)
    requires Linked(s) && i < |s.items|
    ensures var (t, r) := Claim(s, cfg, i); var item := s.items[i]; var a, view := item.account, s.jobs[item.job].action == View;
      if !Claimable(s, i) then r == Drop && t == s
      else if !view && HeldBack(s, a) then
        var left := s.throttles[a].value - s.now;
        && r.RetryIn? && r.seconds >= 1 && (r.seconds == 1 || r.seconds * SECOND <= left) && left < (r.seconds + 1) * SECOND
        && t == s.(items := s.items[i := if item.status == ItemStatus.Running
                                         then item.(status := ItemStatus.Pending, startedAt := None) else item])
      else
        && r == Go
        && t == s.(items := s.items[i := item.(status := ItemStatus.Running, attempts := item.attempts + 1, startedAt := Some(s.now))],
                   throttles := if view then s.throttles else s.throttles[a := Some(s.now + cfg.actionDelay)])
  {
    if HeldBack(s, s.items[i].account) {
      WholeSeconds(s.throttles[s.items[i].account].value - s.now);
    }
  }

  lemma WholeSeconds(left: int)
    requires left > 0
    ensures var n := Max(1, left / SECOND); n >= 1 && (n == 1 || n * SECOND <= left) && left < (n + 1) * SECOND
  {
  }

  // ── dead workers ───────────────────────────────────────────────────────────

  /** The item has been running for more than a minute. */
  predicate Abandoned(s: Store, i: ItemId)
    requires i < |s.items|
  {
    var item := s.items[i];
    item.status == ItemStatus.Running && item.startedAt.Some? && item.startedAt.value < s.now - 60 * SECOND
  }

  /** Exactly the abandoned items wait again, and exactly their accounts are no longer held back. */
  lemma RecoverTable(s: Store, cfg: Config)
    requires Linked(s)
    ensures var t := Apply(s, cfg, WorkersRecovered);
      && |t.items| == |s.items| && t.throttles.Keys == s.throttles.Keys && t == s.(items := t.items, throttles := t.throttles)
      && (forall i :: 0 <= i < |s.items| ==>
            t.items[i] == if Abandoned(s, i) then s.items[i].(status := ItemStatus.Pending) else s.items[i])
      && (forall a :: a in s.throttles && (exists i :: 0 <= i < |s.items| && Abandoned(s, i) && s.items[i].account == a)
            ==> t.throttles[a] == None)
      && (forall a :: a in s.throttles && !(exists i :: 0 <= i < |s.items| && Abandoned(s, i) && s.items[i].account == a)
            ==> t.throttles[a] == s.throttles[a])
  {
    forall i | 0 <= i < |s.items|
      ensures Abandoned(s, i) <==> Stale(s, i)
    {
    }
  }

  // ── leaving by schedule ────────────────────────────────────────────────────

  /** Only a pending schedule that is due is taken up. */
  lemma TakeUpTable(s: Store, cfg: Config, i: ItemId)
    requires Linked(s)
    ensures Apply(s, cfg, LeaveStarted(i)) ==
      if i in s.schedules && s.schedules[i].status == ScheduleStatus.Pending && s.schedules[i].dueAt <= s.now then
        s.(schedules := s.schedules[i := s.schedules[i].(status := ScheduleStatus.Processing, attempts := s.schedules[i].attempts + 1)])
      else s
  {
  }

  predicate StillOpen(s: Store, k: ItemId, j: JobId) {
    && k in s.schedules && s.schedules[k].job == j
    && (s.schedules[k].status == ScheduleStatus.Pending || s.schedules[k].status == ScheduleStatus.Processing)
  }

  /** A failed leave ends its schedule. A good one ends its schedule and the membership, and completes the job when
      that is ACTIVE and has no other schedule that waits or is under way. */
  lemma ReturnTable(s: Store, cfg: Config, i: ItemId, left: bool)
    requires Linked(s) && Enabled(s, LeaveReturned(i, left))
    ensures var t, row := Apply(s, cfg, LeaveReturned(i, left)), s.schedules[i]; var slot, job := (row.account, row.key), s.jobs[row.job];
      var others := exists k :: k != i && StillOpen(s, k, row.job);
      if !left then t == s.(schedules := s.schedules[i := row.(status := ScheduleStatus.Fail)])
      else
        && t == s.(schedules := s.schedules[i := row.(status := ScheduleStatus.Completed)],
                   memberships := s.memberships[slot := Membership(false, if slot in s.memberships then s.memberships[slot].joinedAt else None, s.now)],
                   jobs := t.jobs)
        && t.jobs == if job.status == JobStatus.Active && !others
                     then s.jobs[row.job := job.(status := JobStatus.Completed, finishedAt := Some(s.now))] else s.jobs
  {
    if left {
      var row := s.schedules[i];
      var s1 := MarkMembership(s, row.account, row.key, false);
      var s2 := s1.(schedules := s1.schedules[i := row.(status := ScheduleStatus.Completed)]);
      OpenOthers(s, s2, i, row.job);
    }
  }

  lemma OpenOthers(s: Store, t: Store, i: ItemId, j: JobId)
    requires i in s.schedules && t.schedules == s.schedules[i := s.schedules[i].(status := ScheduleStatus.Completed)]
    ensures HasOpenSchedule(t, j) <==> exists k :: k != i && StillOpen(s, k, j)
  {
    if k :| k != i && StillOpen(s, k, j) {
      assert t.schedules[k] == s.schedules[k];
    }
    if HasOpenSchedule(t, j) {
      var k :| k in t.schedules && t.schedules[k].job == j && ScheduleOpen(t.schedules[k].status);
      assert StillOpen(s, k, j);
    }
  }

  // ── the rest ───────────────────────────────────────────────────────────────

  /** A recount writes what the items say, in any store; the shortfall of a job counts as skipped. */
  lemma RecountTable(s: Store, j: JobId)
    requires j < |s.jobs|
    ensures var job := s.jobs[j];
      RefreshCounts(s, j) == s.(jobs := s.jobs[j := job.(
        success := |ItemsIn(s.items, j, ItemStatus.Success)|, failed := |ItemsIn(s.items, j, ItemStatus.Failed)|,
        skipped := Max(job.skipped, Max(0, job.total - job.accepted) + |ItemsIn(s.items, j, ItemStatus.Skipped)|))])
  {
    CountIsCardinality(s.items, j, ItemStatus.Success);
    CountIsCardinality(s.items, j, ItemStatus.Failed);
    CountIsCardinality(s.items, j, ItemStatus.Skipped);
  }

  /** The clock and the operator's changes to accounts. */
  lemma OutsideTable(s: Store, cfg: Config, a: AccountId, status: AccountStatus, delta: nat)
    requires Linked(s)
    ensures a < |s.accounts| ==> Apply(s, cfg, AccountSet(a, status)) == s.(accounts := s.accounts[a := status])
    ensures Apply(s, cfg, AccountAdded) == s.(accounts := s.accounts + [AccountStatus.Active])
    ensures Apply(s, cfg, Ticked(delta)) == s.(now := s.now + delta)
  {
  }
}
