/**
 * The order engine as the worker runs it: tables that each operation updates in place.
 * Every operation is proved to do to the tables what `OrderSteps` says, and to keep `Valid()`.
 */
module OrderEngine {
  import opened Common
  import opened OrderStore
  import opened OrderSteps
  import opened OrderInvariant
  import opened OrderKeeps
  import opened OrderAppends
  import opened OrderRuns

  ghost function StaleItems(s: Store, n: nat): set<ItemId>
    requires n <= |s.items|
  {
    set i: ItemId | i < n && Stale(s, i)
  }

  ghost function StaleAccounts(s: Store, n: nat): set<AccountId>
    requires n <= |s.items|
  {
    set i: ItemId | i < n && Stale(s, i) :: s.items[i].account
  }

  /** One row of the recovery loop. */
  lemma StaleStep(s: Store, n: nat)
    requires n < |s.items|
    ensures Stale(s, n) <==> s.items[n].status.Running? && s.items[n].startedAt.Some? && s.items[n].startedAt.value < s.now - RECOVER_STALE
    ensures RecoverItem(s, n) == if Stale(s, n) then s.items[n].(status := ItemStatus.Pending) else s.items[n]
    ensures |StaleItems(s, n + 1)| == |StaleItems(s, n)| + (if Stale(s, n) then 1 else 0)
    ensures StaleItems(s, 0) == {} && StaleAccounts(s, 0) == {}
    ensures StaleAccounts(s, n + 1) == StaleAccounts(s, n) + (if Stale(s, n) then {s.items[n].account} else {})
  {
    assert StaleItems(s, n + 1) == StaleItems(s, n) + (if Stale(s, n) then {n} else {});
  }

  lemma StaleAccountsAreAll(s: Store)
    ensures RecoverStale(s).throttles == map a | a in s.throttles :: if a in StaleAccounts(s, |s.items|) then None else s.throttles[a]
    ensures |RecoverStale(s).items| == |s.items|
    ensures forall i :: 0 <= i < |s.items| ==> RecoverStale(s).items[i] == RecoverItem(s, i)
  {
    hide Stale;
    forall a
      ensures a in StaleAccounts(s, |s.items|) <==> HasStaleItem(s, a)
    {
    }
  }

  class Engine {
    const cfg: Config
    var accounts: seq<AccountStatus>
    var jobs: seq<Job>
    var items: seq<Item>
    var memberships: map<(AccountId, Key), Membership>
    var views: map<(AccountId, Key), Time>
    var throttles: map<AccountId, Option<Time>>
    var schedules: map<ItemId, Schedule>
    var now: Time

    function State(): Store
      reads this
    {
      Store(accounts, jobs, items, memberships, views, throttles, schedules, now)
    }

    ghost predicate Valid()
      reads this
    {
      Inv(State(), cfg)
    }

    constructor (cfg: Config, now: Time)
      ensures State() == EmptyStore(now) && this.cfg == cfg && Valid()
    {
      this.cfg := cfg;
      this.now := now;
      accounts, jobs, items := [], [], [];
      memberships, views, throttles, schedules := map[], map[], map[], map[];
    }

    // ── bookkeeping ──────────────────────────────────────────────────────────

    method FinishItem(i: ItemId, status: ItemStatus, message: Message)
      requires Linked(State()) && i < |items|
      modifies this`items, this`jobs
      ensures State() == OrderSteps.FinishItem(old(State()), i, status, message)
    {
      var item := items[i];
      items := items[i := item.(status := status, message := message, finishedAt := Some(now))];
      var job := jobs[item.job];
      match status {
        case Success => jobs := jobs[item.job := job.(success := job.success + 1)];
        case Failed => jobs := jobs[item.job := job.(failed := job.failed + 1)];
        case Skipped => jobs := jobs[item.job := job.(skipped := job.skipped + 1)];
        case _ => jobs := jobs[item.job := job];
      }
    }

    method MarkMembership(a: AccountId, key: Key, joined: bool)
      modifies this`memberships
      ensures State() == OrderSteps.MarkMembership(old(State()), a, key, joined)
    {
      var membership := if (a, key) in memberships then memberships[(a, key)] else Membership(false, None, now);
      membership := membership.(joined := joined, updatedAt := now);
      if joined {
        membership := membership.(joinedAt := Some(now));
      }
      memberships := memberships[(a, key) := membership];
    }

    method CreateAutoLeaveIfNeeded(i: ItemId)
      requires Linked(State()) && i < |items|
      modifies this`schedules
      ensures State() == OrderSteps.CreateAutoLeave(old(State()), i)
    {
      var job := jobs[items[i].job];
      if !NeedsLeave(job) {
        return;
      }
      if i !in schedules {
        var dueAt := now + job.retention.value * DAY;
        schedules := schedules[i := Schedule(items[i].job, items[i].account, job.key, dueAt, ScheduleStatus.Pending, 0)];
      }
    }

    /** The three tallies of a job's items, in one pass. */
    method TallyItems(j: JobId) returns (success: nat, failed: nat, skipped: nat)
      ensures success == Count(items, j, ItemStatus.Success)
      ensures failed == Count(items, j, ItemStatus.Failed)
      ensures skipped == Count(items, j, ItemStatus.Skipped)
    {
      success, failed, skipped := 0, 0, 0;
      for n := 0 to |items|
        invariant success == Count(items[..n], j, ItemStatus.Success)
        invariant failed == Count(items[..n], j, ItemStatus.Failed)
        invariant skipped == Count(items[..n], j, ItemStatus.Skipped)
      {
        assert items[..n + 1][..n] == items[..n];
        if items[n].job == j {
          match items[n].status {
            case Success => success := success + 1;
            case Failed => failed := failed + 1;
            case Skipped => skipped := skipped + 1;
            case _ =>
          }
        }
      }
      assert items[..|items|] == items;
    }

    method RefreshCounts(j: JobId)
      requires j < |jobs|
      modifies this`jobs
      ensures State() == OrderSteps.RefreshCounts(old(State()), j)
    {
      var success, failed, skipped := TallyItems(j);
      var job := jobs[j];
      var unavailable := Max(0, job.total - job.accepted);
      job := job.(success := success, failed := failed);
      job := job.(skipped := Max(job.skipped, unavailable + skipped));
      jobs := jobs[j := job];
    }

    method CancelJobInvalidTarget(j: JobId)
      requires j < |jobs|
      modifies this`items, this`jobs
      ensures State() == OrderSteps.CancelInvalidTarget(old(State()), j)
    {
      if Terminal(jobs[j].status) {
        return;
      }
      SkipReserved(j);
      var hadSuccesses := jobs[j].success > 0;
      var status := if hadSuccesses then JobStatus.Partial else JobStatus.Fail;
      jobs := jobs[j := jobs[j].(status := status, invalidTarget := true, finishedAt := Some(now))];
      RefreshCounts(j);
    }

    /** The bulk update behind a cancellation. */
    method SkipReserved(j: JobId)
      modifies this`items
      ensures items == SkipInFlight(old(items), j, now)
    {
      var n := 0;
      while n < |items|
        invariant n <= |items| == |old(items)|
        invariant forall i :: 0 <= i < n ==> items[i] == SkipItem(old(items)[i], j, now)
        invariant forall i :: n <= i < |items| ==> items[i] == old(items)[i]
      {
        if items[n].job == j && InFlight(items[n].status) {
          items := items[n := items[n].(status := ItemStatus.Skipped, message := Message.InvalidTarget, finishedAt := Some(now))];
        }
        n := n + 1;
      }
    }

    // ── creation ─────────────────────────────────────────────────────────────

    method CreateMembershipJob(o: Order, locked: set<AccountId>, leavers: seq<AccountId>) returns (r: CreateResult)
      requires Linked(State()) && (o.action.Leave? && o.count >= 1 ==> LeaveChoice(State(), o.key, o.count, leavers))
      modifies this`items, this`jobs
      ensures (State(), r) == OrderSteps.Create(old(State()), cfg, o, locked, leavers)
    {
      if o.count < 1 {
        return Rejected(BadCount);
      }
      var known := FindJob(jobs, o.idempotencyKey);
      if known < |jobs| {
        return Existing(known);
      }
      var chosen := SelectForOrder(State(), cfg, o, locked, leavers);
      var accepted := |chosen|;
      if !o.action.Leave? && accepted == 0 {
        var free := CountFree(State(), cfg, o.action, o.key);
        if free > 0 {
          return Rejected(PoolBusy(o.count, free));
        }
        return Rejected(InsufficientCapacity(o.count));
      }
      var j := |jobs|;
      jobs := jobs + [NewJob(State(), cfg, o, accepted)];
      AddRows(j, chosen);
      return Created(j);
    }

    /** One PENDING item per account. */
    method AddRows(j: JobId, chosen: seq<AccountId>)
      modifies this`items
      ensures items == old(items) + NewItems(j, chosen)
    {
      var n := 0;
      while n < |chosen|
        invariant n <= |chosen|
        invariant items == old(items) + NewItems(j, chosen[..n])
      {
        items := items + [NewItem(j, chosen[n])];
        assert NewItems(j, chosen[..n + 1]) == NewItems(j, chosen[..n]) + [NewItem(j, chosen[n])];
        n := n + 1;
      }
      assert chosen[..n] == chosen;
    }

    // ── items ────────────────────────────────────────────────────────────────

    method ClaimItemAndReserveThrottle(i: ItemId) returns (r: ClaimResult)
      requires Linked(State()) && i < |items|
      modifies this`items, this`throttles
      ensures (State(), r) == OrderSteps.Claim(old(State()), cfg, i)
    {
      if items[i].status.Running? {
        if items[i].startedAt.Some? && items[i].startedAt.value < now - CLAIM_STALE {
          items := items[i := items[i].(status := ItemStatus.Pending, startedAt := None)];
        } else {
          return Drop;
        }
      } else if !items[i].status.Pending? {
        return Drop;
      }
      var a := items[i].account;
      if !jobs[items[i].job].action.View? {
        if a in throttles && throttles[a].Some? && throttles[a].value > now {
          assert items == old(items)[i := items[i]];
          return RetryIn(Max(1, (throttles[a].value - now) / SECOND));
        }
        throttles := throttles[a := Some(now + cfg.actionDelay)];
      }
      items := items[i := items[i].(status := ItemStatus.Running, attempts := items[i].attempts + 1, startedAt := Some(now))];
      assert old(items)[i := old(items)[i]] == old(items);
      assert items == old(items)[i := items[i]];
      return Go;
    }

    /** The action worked: record it with the membership or view table, then finish the item. */
    method RunActionSucceeded(i: ItemId)
      requires Linked(State()) && i < |items|
      modifies this
      ensures State() == OrderSteps.Succeed(old(State()), i)
    {
      var job := jobs[items[i].job];
      var a := items[i].account;
      if job.action.Join? {
        MarkMembership(a, job.key, true);
        CreateAutoLeaveIfNeeded(i);
      } else if job.action.View? {
        views := views[(a, job.key) := now];
      } else {
        MarkMembership(a, job.key, false);
      }
      FinishItem(i, ItemStatus.Success, Plain);
    }

    method ProcessAnswer(i: ItemId, outcome: Outcome)
      requires Linked(State()) && i < |items| && items[i].status.Running?
      modifies this
      ensures State() == OrderSteps.Complete(old(State()), cfg, i, outcome)
    {
      var j := items[i].job;
      var action, key, a := jobs[j].action, jobs[j].key, items[i].account;
      if action.Leave? && !outcome.Dead? && !((a, key) in memberships && memberships[(a, key)].joined) {
        FinishItem(i, ItemStatus.Skipped, Plain);
        return;
      }
      match outcome {
        case Done =>
          RunActionSucceeded(i);
        case BadTarget(sawSuccess) =>
          if sawSuccess {
            FinishItem(i, ItemStatus.Skipped, TransientTarget);
          } else {
            FinishItem(i, ItemStatus.Skipped, Message.InvalidTarget);
            CancelJobInvalidTarget(j);
          }
        case AlreadyDone =>
          if action.Join? {
            MarkMembership(a, key, true);
            CreateAutoLeaveIfNeeded(i);
            FinishItem(i, ItemStatus.Success, Plain);
          } else {
            if action.Leave? {
              MarkMembership(a, key, false);
            }
            FinishItem(i, ItemStatus.Skipped, Plain);
          }
        case Dead =>
          FinishItem(i, ItemStatus.Skipped, SessionDead);
          accounts := accounts[a := AccountStatus.Disabled];
        case TooMany(retryAfter) =>
          FinishItem(i, ItemStatus.Skipped, Message.Throttled);
          var delay := if retryAfter.Some? && retryAfter.value != 0 then retryAfter.value else cfg.throttlePause;
          throttles := throttles[a := Some(now + delay)];
        case NoConnection =>
          FinishItem(i, ItemStatus.Skipped, ConnError);
          throttles := throttles[a := Some(now + cfg.connErrorPause)];
        case Broken =>
          FinishItem(i, ItemStatus.Failed, Plain);
      }
    }

    // ── recovery ─────────────────────────────────────────────────────────────

    /** Puts the items of dead workers back to PENDING and collects their accounts. */
    method ResetStaleItems() returns (count: nat, staleAccounts: set<AccountId>)
      modifies this`items
      ensures |items| == |old(items)| && forall i :: 0 <= i < |items| ==> items[i] == RecoverItem(old(State()), i)
      ensures count == |StaleItems(old(State()), |old(items)|)|
      ensures staleAccounts == StaleAccounts(old(State()), |old(items)|)
    {
      hide Stale, RecoverItem;
      ghost var s := State();
      count, staleAccounts := 0, {};
      var n := 0;
      while n < |items|
        invariant n <= |items| == |s.items|
        invariant count == |StaleItems(s, n)| && staleAccounts == StaleAccounts(s, n)
        invariant forall i :: 0 <= i < |items| ==> items[i] == if i < n then RecoverItem(s, i) else s.items[i]
      {
        StaleStep(s, n);
        if items[n].status.Running? && items[n].startedAt.Some? && items[n].startedAt.value < now - RECOVER_STALE {
          staleAccounts := staleAccounts + {items[n].account};
          items := items[n := items[n].(status := ItemStatus.Pending)];
          count := count + 1;
        }
        n := n + 1;
      }
    }

    method RecoverStaleRunningItems() returns (count: nat)
      modifies this`items, this`throttles
      ensures State() == OrderSteps.RecoverStale(old(State()))
      ensures count == |StaleItems(old(State()), |old(items)|)|
    {
      hide Stale, RecoverItem;
      StaleAccountsAreAll(State());
      var staleAccounts;
      count, staleAccounts := ResetStaleItems();
      throttles := map a | a in throttles :: if a in staleAccounts then None else throttles[a];
    }

    // ── refilling and settling ───────────────────────────────────────────────

    method EnqueueReplacementItemsIfNeeded(j: JobId, locked: set<AccountId>) returns (added: Option<nat>)
      requires Linked(State()) && j < |jobs|
      modifies this`items, this`jobs
      ensures (State(), added) == OrderSteps.Refill(old(State()), cfg, j, locked)
    {
      var job := jobs[j];
      if job.action.Leave? || !(job.status.Pending? || job.status.InProgress? || job.status.Error?) {
        return Some(0);
      }
      var chosen := Replacements(State(), cfg, j, locked);
      if chosen == [] {
        if job.action.Join? && Missing(State(), j) > 0 && Potential(State(), job.key, Used(State(), j)) {
          if job.startedAt.Some? && now - job.startedAt.value < cfg.maxWait {
            return None;
          }
        }
        return Some(0);
      }
      AddRows(j, chosen);
      jobs := jobs[j := job.(accepted := job.accepted + |chosen|, status := JobStatus.InProgress, finishedAt := None)];
      return Some(|chosen|);
    }

    method FinalizeJobIfDone(j: JobId, locked: set<AccountId>) returns (r: FinalizeResult)
      requires Linked(State()) && j < |jobs|
      modifies this`items, this`jobs
      ensures (State(), r) == OrderSteps.Finalize(old(State()), cfg, j, locked)
    {
      if CountInFlight(items, j) > 0 {
        return Busy;
      }
      RefreshCounts(j);
      var replacements := EnqueueReplacementItemsIfNeeded(j, locked);
      if replacements.None? {
        return Deferred;
      }
      if replacements.value > 0 {
        return Refilled(replacements.value);
      }
      var job := jobs[j];
      if Terminal(job.status) {
        return AlreadySettled;
      }
      if job.success >= job.requested && NeedsLeave(job) {
        job := job.(status := JobStatus.Active);
      } else if job.success >= job.requested {
        job := job.(status := JobStatus.Completed);
      } else if job.success > 0 {
        job := job.(status := JobStatus.Partial);
      } else {
        job := job.(status := JobStatus.Fail);
      }
      if !job.status.Active? {
        job := job.(finishedAt := Some(now));
      }
      jobs := jobs[j := job];
      return Settled(job.status);
    }

    // ── retention ────────────────────────────────────────────────────────────

    /** The first half of processing an auto-leave, up to the Rubika call. */
    method StartAutoLeave(i: ItemId)
      modifies this`schedules
      ensures State() == OrderSteps.StartLeave(old(State()), i)
    {
      if i in schedules && schedules[i].status.Pending? && schedules[i].dueAt <= now {
        schedules := schedules[i := schedules[i].(status := ScheduleStatus.Processing, attempts := schedules[i].attempts + 1)];
      }
    }

    /** The second half: `left` when the account left, or was no member any more. */
    method FinishAutoLeave(i: ItemId, left: bool)
      requires i in schedules && schedules[i].job < |jobs|
      modifies this`schedules, this`memberships, this`jobs
      ensures State() == OrderSteps.FinishLeave(old(State()), i, left)
    {
      var schedule := schedules[i];
      if !left {
        schedules := schedules[i := schedule.(status := ScheduleStatus.Fail)];
        return;
      }
      MarkMembership(schedule.account, schedule.key, false);
      schedules := schedules[i := schedule.(status := ScheduleStatus.Completed)];
      CompleteActiveJobIfAutoLeavesDone(schedule.job);
    }

    method CompleteActiveJobIfAutoLeavesDone(j: JobId)
      requires j < |jobs|
      modifies this`jobs
      ensures State() == OrderSteps.CompleteActiveJob(old(State()), j)
    {
      if HasOpenSchedule(State(), j) {
        return;
      }
      if !jobs[j].status.Active? {
        return;
      }
      jobs := jobs[j := jobs[j].(status := JobStatus.Completed, finishedAt := Some(now))];
    }

    // ── the steps of a run ───────────────────────────────────────────────────

    /** Any enabled event: the tables move as in a run, and stay valid. */
    method Perform(e: Event)
      requires Valid() && Enabled(State(), e)
      modifies this
      ensures State() == Apply(old(State()), cfg, e)
      ensures Valid() && Progress(old(State()), State())
    {
      StepKeeps(State(), cfg, e);
      Dispatch(e);
    }

    method Dispatch(e: Event)
      requires Linked(State()) && Enabled(State(), e)
      modifies this
      ensures State() == Apply(old(State()), cfg, e)
    {
      match e {
        case OrderPlaced(o, locked, leavers) =>
          var _ := CreateMembershipJob(o, locked, leavers);
        case ItemClaimed(i) =>
          var _ := ClaimItemAndReserveThrottle(i);
        case ItemAnswered(i, outcome) =>
          ProcessAnswer(i, outcome);
        case JobFinalized(j, locked) =>
          var _ := FinalizeJobIfDone(j, locked);
        case WorkersRecovered =>
          var _ := RecoverStaleRunningItems();
        case LeaveStarted(i) =>
          StartAutoLeave(i);
        case LeaveReturned(i, left) =>
          FinishAutoLeave(i, left);
        case AccountSet(a, status) =>
          accounts := accounts[a := status];
        case AccountAdded =>
          accounts := accounts + [AccountStatus.Active];
        case Ticked(delta) =>
          now := now + delta;
      }
    }
  }
}
