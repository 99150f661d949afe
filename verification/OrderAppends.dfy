/** Steps that hand accounts to a job: creation and slot refill. */
module OrderAppends {
  import opened Common
  import opened OrderStore
  import opened OrderSteps
  import opened OrderInvariant
  import opened OrderKeeps

  /** Account `a` may join the items of job `j`, whose row is `job`. */
  ghost predicate MayAppend(s: Store, cfg: Config, job: Job, j: JobId, a: AccountId)
    requires Linked(s)
  {
    && a < |s.accounts|
    && (!job.action.Leave? ==> !Reserved(s, job.action, job.key, a))
    && (job.action.Join? ==> !IsJoined(s, a, job.key))
    && (job.action.View? && (a, job.key) in s.views ==> s.views[(a, job.key)] <= s.now - cfg.viewCooldown)
    && (forall i :: 0 <= i < |s.items| && s.items[i].job == j && s.items[i].account == a ==> job.action.Join? && RetryableSkip(s.items[i]))
  }

  /** `t` is `s` with new items of job `j`; only that job's row may have changed. */
  ghost predicate Appends(s: Store, t: Store, cfg: Config, j: JobId, accounts: seq<AccountId>)
    requires Linked(s)
  {
    && j < |t.jobs| && |t.jobs| == (if j < |s.jobs| then |s.jobs| else |s.jobs| + 1)
    && t == s.(jobs := t.jobs, items := s.items + NewItems(j, accounts))
    && (forall k :: 0 <= k < |s.jobs| && k != j ==> t.jobs[k] == s.jobs[k])
    && (j < |s.jobs| ==> JobStep(s.jobs[j], t.jobs[j]))
    && (forall p :: 0 <= p < |accounts| ==> MayAppend(s, cfg, t.jobs[j], j, accounts[p]))
    && (forall p, q :: 0 <= p < q < |accounts| ==> accounts[p] != accounts[q])
    && t.jobs[j].status == (if accounts == [] then JobStatus.Fail else JobStatus.InProgress)
  }

  lemma AppendsProgress(s: Store, t: Store, cfg: Config, j: JobId, accounts: seq<AccountId>)
    requires Linked(s) && Appends(s, t, cfg, j, accounts)
    ensures Progress(s, t) && Linked(t)
  {
    forall i | 0 <= i < |t.items|
      ensures t.items[i].job < |t.jobs| && t.items[i].account < |t.accounts|
      ensures i < |s.items| ==> t.items[i] == s.items[i]
    {
      if i >= |s.items| {
        assert t.items[i] == NewItem(j, accounts[i - |s.items|]);
        assert MayAppend(s, cfg, t.jobs[j], j, accounts[i - |s.items|]);
      }
    }
  }

  /** An old row's order, or the new job's. */
  lemma OldRow(s: Store, t: Store, cfg: Config, j: JobId, accounts: seq<AccountId>, i: ItemId)
    requires Linked(s) && Linked(t) && Appends(s, t, cfg, j, accounts) && i < |s.items|
    ensures t.items[i] == s.items[i] && SameOrder(JobOf(s, i), JobOf(t, i)) && ViewSlot(t, i) == ViewSlot(s, i)
    ensures JobOf(s, i).status.InProgress? && (s.items[i].job == j ==> accounts != []) ==> JobOf(t, i).status.InProgress?
  {
    assert s.items[i].job < |s.jobs|;
  }

  lemma NewRow(s: Store, t: Store, cfg: Config, j: JobId, accounts: seq<AccountId>, i: ItemId)
    requires Linked(s) && Linked(t) && Appends(s, t, cfg, j, accounts) && |s.items| <= i < |t.items|
    ensures t.items[i] == NewItem(j, accounts[i - |s.items|]) && JobOf(t, i) == t.jobs[j]
    ensures MayAppend(s, cfg, t.jobs[j], j, accounts[i - |s.items|])
  {
  }

  lemma AppendsExclusive(s: Store, t: Store, cfg: Config, j: JobId, accounts: seq<AccountId>)
    requires Linked(s) && Linked(t) && Appends(s, t, cfg, j, accounts) && Exclusive(s) && OnlyInProgressWorks(s)
    ensures Exclusive(t)
  {
    forall i, k | 0 <= i < k < |t.items| && SameSlot(t, i, k) && !JobOf(t, i).action.Leave?
      ensures !InFlight(t.items[i].status)
    {
      if k < |s.items| {
        OldRow(s, t, cfg, j, accounts, i);
        OldRow(s, t, cfg, j, accounts, k);
        assert SameSlot(s, i, k);
      } else {
        NewRow(s, t, cfg, j, accounts, k);
        if i < |s.items| {
          OldRow(s, t, cfg, j, accounts, i);
          if InFlight(s.items[i].status) {
            assert JobOpen(JobOf(s, i).status);
            assert false;
          }
        } else {
          NewRow(s, t, cfg, j, accounts, i);
        }
      }
    }
  }

  lemma AppendsDistinct(s: Store, t: Store, cfg: Config, j: JobId, accounts: seq<AccountId>)
    requires Linked(s) && Linked(t) && Appends(s, t, cfg, j, accounts) && Distinct(s)
    ensures Distinct(t)
  {
    forall i, k | 0 <= i < k < |t.items| && t.items[i].job == t.items[k].job && t.items[i].account == t.items[k].account
      ensures JobOf(t, i).action.Join? && RetryableSkip(t.items[i])
    {
      if k < |s.items| {
        OldRow(s, t, cfg, j, accounts, i);
        OldRow(s, t, cfg, j, accounts, k);
      } else {
        NewRow(s, t, cfg, j, accounts, k);
        if i < |s.items| {
          OldRow(s, t, cfg, j, accounts, i);
        } else {
          NewRow(s, t, cfg, j, accounts, i);
        }
      }
    }
  }

  lemma AppendsNotJoined(s: Store, t: Store, cfg: Config, j: JobId, accounts: seq<AccountId>)
    requires Linked(s) && Linked(t) && Appends(s, t, cfg, j, accounts) && NotJoined(s)
    ensures NotJoined(t)
  {
    forall i | 0 <= i < |t.items| && InFlight(t.items[i].status) && JobOf(t, i).action.Join?
      ensures !IsJoined(t, t.items[i].account, JobOf(t, i).key)
    {
      if i < |s.items| {
        OldRow(s, t, cfg, j, accounts, i);
      } else {
        NewRow(s, t, cfg, j, accounts, i);
      }
    }
  }

  lemma AppendsViews(s: Store, t: Store, cfg: Config, j: JobId, accounts: seq<AccountId>)
    requires Linked(s) && Linked(t) && Appends(s, t, cfg, j, accounts)
    requires ViewRested(s, cfg) && ViewRecorded(s) && ViewGap(s, cfg)
    ensures ViewRested(t, cfg) && ViewRecorded(t) && ViewGap(t, cfg)
  {
    forall i | 0 <= i < |t.items|
      ensures i < |s.items| ==> ViewSlot(t, i) == ViewSlot(s, i) && t.items[i] == s.items[i] && JobOf(s, i).action == JobOf(t, i).action
      ensures i >= |s.items| ==> t.items[i].status.Pending?
    {
      if i < |s.items| {
        OldRow(s, t, cfg, j, accounts, i);
      } else {
        NewRow(s, t, cfg, j, accounts, i);
      }
    }
    forall i | 0 <= i < |t.items| && InFlight(t.items[i].status) && JobOf(t, i).action.View? && ViewSlot(t, i) in t.views
      ensures t.views[ViewSlot(t, i)] <= t.now - cfg.viewCooldown
    {
      if i >= |s.items| {
        NewRow(s, t, cfg, j, accounts, i);
      }
    }
    forall i, k | 0 <= i < k < |t.items| && ViewSuccess(t, i) && ViewSuccess(t, k) && SameSlot(t, i, k)
      ensures t.items[k].finishedAt.value - t.items[i].finishedAt.value >= cfg.viewCooldown
    {
      assert ViewSlot(s, i) == ViewSlot(s, k) && SameSlot(s, i, k) && ViewSuccess(s, i) && ViewSuccess(s, k);
    }
  }

  lemma AppendsCounts(s: Store, t: Store, cfg: Config, j: JobId, accounts: seq<AccountId>, k: JobId)
    requires Linked(s) && Appends(s, t, cfg, j, accounts) && k < |t.jobs|
    ensures Count(t.items, k, ItemStatus.Success) == Count(s.items, k, ItemStatus.Success)
    ensures Count(t.items, k, ItemStatus.Failed) == Count(s.items, k, ItemStatus.Failed)
    ensures Count(t.items, k, ItemStatus.Skipped) == Count(s.items, k, ItemStatus.Skipped)
    ensures CountAll(t.items, k) == CountAll(s.items, k) + (if k == j then |accounts| else 0)
    ensures CountInFlight(t.items, k) == CountInFlight(s.items, k) + (if k == j then |accounts| else 0)
  {
    var added := NewItems(j, accounts);
    forall status: ItemStatus
      ensures Count(t.items, k, status) == Count(s.items, k, status) + if k == j && status.Pending? then |accounts| else 0
    {
      CountConcat(s.items, added, k, status);
      CountUniform(added, j, ItemStatus.Pending, k, status);
    }
    CountConcat(s.items, added, k, ItemStatus.Pending);
    CountUniform(added, j, ItemStatus.Pending, k, ItemStatus.Pending);
  }

  lemma AppendsCounters(s: Store, t: Store, cfg: Config, j: JobId, accounts: seq<AccountId>)
    requires Linked(s) && Appends(s, t, cfg, j, accounts) && Counters(s) && Capacity(s)
    requires JobCounters(t.jobs[j], t.items, j) && JobCapacity(t.jobs[j], t.items, j)
    ensures Counters(t) && Capacity(t)
  {
    forall k | 0 <= k < |t.jobs|
      ensures JobCounters(t.jobs[k], t.items, k) && JobCapacity(t.jobs[k], t.items, k)
    {
      if k != j {
        AppendsCounts(s, t, cfg, j, accounts, k);
        assert JobCounters(s.jobs[k], s.items, k) && JobCapacity(s.jobs[k], s.items, k);
      }
    }
  }

  lemma AppendsSchedules(s: Store, t: Store, cfg: Config, j: JobId, accounts: seq<AccountId>)
    requires Linked(s) && Linked(t) && Appends(s, t, cfg, j, accounts) && Scheduled(s) && RetentionOver(s)
    ensures Scheduled(t) && RetentionOver(t)
  {
    forall i: nat
      ensures i in t.schedules <==> NeedsSchedule(t, i)
      ensures i in t.schedules ==> t.schedules[i].job == t.items[i].job && t.schedules[i].account == t.items[i].account
                                   && t.schedules[i].key == JobOf(t, i).key
    {
      assert i in s.schedules <==> NeedsSchedule(s, i);
      if i < |s.items| {
        OldRow(s, t, cfg, j, accounts, i);
      } else if i < |t.items| {
        NewRow(s, t, cfg, j, accounts, i);
      }
    }
    forall k | 0 <= k < |t.jobs| && NeedsLeave(t.jobs[k]) && t.jobs[k].status.Completed?
      ensures !HasOpenSchedule(t, k)
    {
      assert k != j && !HasOpenSchedule(s, k);
    }
  }

  lemma AppendsKeep(s: Store, t: Store, cfg: Config, j: JobId, accounts: seq<AccountId>)
    requires Inv(s, cfg) && Appends(s, t, cfg, j, accounts)
    requires JobCounters(t.jobs[j], t.items, j) && JobCapacity(t.jobs[j], t.items, j)
    requires StatusAgrees(t.jobs[j]) && t.jobs[j].requested > 0 && UniqueKeys(t)
    requires accounts == [] ==> j == |s.jobs|
    ensures Inv(t, cfg) && Progress(s, t)
  {
    AppendsProgress(s, t, cfg, j, accounts);
    AppendsExclusive(s, t, cfg, j, accounts);
    AppendsDistinct(s, t, cfg, j, accounts);
    AppendsNotJoined(s, t, cfg, j, accounts);
    AppendsViews(s, t, cfg, j, accounts);
    AppendsCounters(s, t, cfg, j, accounts);
    AppendsSchedules(s, t, cfg, j, accounts);
    forall i | 0 <= i < |t.items| && InFlight(t.items[i].status)
      ensures JobOf(t, i).status.InProgress?
    {
      if i < |s.items| {
        OldRow(s, t, cfg, j, accounts, i);
      } else {
        NewRow(s, t, cfg, j, accounts, i);
      }
    }
  }

  // ── who is chosen ──────────────────────────────────────────────────────────

  /** A free account that the job has not used up may be appended. */
  lemma FreeMayAppend(s: Store, cfg: Config, job: Job, j: JobId, a: AccountId)
    requires Linked(s) && a < |s.accounts| && Free(s, cfg, job.action, job.key, a)
    requires forall i :: 0 <= i < |s.items| && s.items[i].job == j && s.items[i].account == a ==> job.action.Join? && RetryableSkip(s.items[i])
    ensures MayAppend(s, cfg, job, j, a)
  {
  }

  /** A leaving account may be appended to a job that has no items yet. */
  lemma LeaverMayAppend(s: Store, cfg: Config, job: Job, j: JobId, a: AccountId)
    requires Linked(s) && job.action.Leave? && a < |s.accounts| && j >= |s.jobs|
    ensures MayAppend(s, cfg, job, j, a)
  {
  }

  lemma SelectForOrderMayAppend(s: Store, cfg: Config, o: Order, locked: set<AccountId>, leavers: seq<AccountId>)
    requires Linked(s) && o.count >= 1
    requires o.action.Leave? ==> LeaveChoice(s, o.key, o.count, leavers)
    ensures var accounts := SelectForOrder(s, cfg, o, locked, leavers);
      && |accounts| <= TargetCount(cfg, o)
      && (forall p :: 0 <= p < |accounts| ==> MayAppend(s, cfg, NewJob(s, cfg, o, |accounts|), |s.jobs|, accounts[p]))
      && (forall p, q :: 0 <= p < q < |accounts| ==> accounts[p] != accounts[q])
  {
    var accounts := SelectForOrder(s, cfg, o, locked, leavers);
    var job := NewJob(s, cfg, o, |accounts|);
    var pool := Eligible(s, cfg, o.action, o.key, locked);
    FirstOfSelects(pool, TargetCount(cfg, o), 0, |s.accounts|);
    forall p | 0 <= p < |accounts|
      ensures MayAppend(s, cfg, job, |s.jobs|, accounts[p])
    {
      if o.action.Leave? {
        LeaverMayAppend(s, cfg, job, |s.jobs|, accounts[p]);
      } else {
        assert accounts[p] in pool;
        FreeMayAppend(s, cfg, job, |s.jobs|, accounts[p]);
      }
    }
  }

  lemma ReplacementsMayAppend(s: Store, cfg: Config, j: JobId, locked: set<AccountId>, job: Job)
    requires Linked(s) && j < |s.jobs| && SameOrder(s.jobs[j], job) && !job.action.Leave?
    ensures var accounts := Replacements(s, cfg, j, locked);
      && |accounts| <= Missing(s, j)
      && (forall p :: 0 <= p < |accounts| ==> MayAppend(s, cfg, job, j, accounts[p]))
      && (forall p, q :: 0 <= p < q < |accounts| ==> accounts[p] != accounts[q])
  {
    var accounts := Replacements(s, cfg, j, locked);
    var pool := Eligible(s, cfg, job.action, job.key, Used(s, j) + locked);
    FirstOfSelects(pool, Missing(s, j), 0, |s.accounts|);
    forall p | 0 <= p < |accounts|
      ensures MayAppend(s, cfg, job, j, accounts[p])
    {
      assert accounts[p] in pool && accounts[p] !in Used(s, j);
      FreeMayAppend(s, cfg, job, j, accounts[p]);
    }
  }

  // ── the steps ──────────────────────────────────────────────────────────────

  lemma {:induction false} NoItems(items: seq<Item>, j: JobId)
    requires forall i :: 0 <= i < |items| ==> items[i].job != j
    ensures CountAll(items, j) == 0
    ensures forall status: ItemStatus :: Count(items, j, status) == 0
  {
    if items != [] {
      NoItems(items[..|items| - 1], j);
    }
  }

  lemma CreateKeeps(s: Store, cfg: Config, o: Order, locked: set<AccountId>, leavers: seq<AccountId>)
    requires Inv(s, cfg) && (o.action.Leave? && o.count >= 1 ==> LeaveChoice(s, o.key, o.count, leavers))
    ensures var t := Create(s, cfg, o, locked, leavers).0; Inv(t, cfg) && Progress(s, t)
  {
    var (t, r) := Create(s, cfg, o, locked, leavers);
    if r.Created? {
      CreatedKeeps(s, cfg, o, locked, leavers);
    } else {
      Rearranges(s, s, cfg);
    }
  }

  lemma CreatedKeeps(s: Store, cfg: Config, o: Order, locked: set<AccountId>, leavers: seq<AccountId>)
    requires Inv(s, cfg) && (o.action.Leave? && o.count >= 1 ==> LeaveChoice(s, o.key, o.count, leavers))
    requires Create(s, cfg, o, locked, leavers).1.Created?
    ensures var t := Create(s, cfg, o, locked, leavers).0; Inv(t, cfg) && Progress(s, t)
  {
    var t := Create(s, cfg, o, locked, leavers).0;
    var accounts := SelectForOrder(s, cfg, o, locked, leavers);
    var j := |s.jobs|;
    SelectForOrderMayAppend(s, cfg, o, locked, leavers);
    assert Appends(s, t, cfg, j, accounts);
    AppendsCounts(s, t, cfg, j, accounts, j);
    NoItems(s.items, j);
    AppendsKeep(s, t, cfg, j, accounts);
  }

  lemma AddItemsKeeps(s: Store, cfg: Config, j: JobId, locked: set<AccountId>)
    requires Inv(s, cfg) && j < |s.jobs| && s.jobs[j].status.InProgress? && !s.jobs[j].action.Leave?
    requires Replacements(s, cfg, j, locked) != []
    ensures var t := AddItems(s, j, Replacements(s, cfg, j, locked)); Inv(t, cfg) && Progress(s, t)
  {
    var accounts := Replacements(s, cfg, j, locked);
    var t := AddItems(s, j, accounts);
    ReplacementsMayAppend(s, cfg, j, locked, t.jobs[j]);
    assert Appends(s, t, cfg, j, accounts);
    AppendsCounts(s, t, cfg, j, accounts, j);
    assert JobCounters(s.jobs[j], s.items, j);
    AppendsKeep(s, t, cfg, j, accounts);
  }

  /** With the counters in agreement, finalizing is refilling, then settling what is left. */
  lemma FinalizeCases(s: Store, cfg: Config, j: JobId, locked: set<AccountId>)
    requires Inv(s, cfg) && j < |s.jobs|
    ensures var (t, r) := Finalize(s, cfg, j, locked);
      match r
      case Busy => t == s && CountInFlight(s.items, j) > 0
      case Deferred => t == s
      case Refilled(n) => CountInFlight(s.items, j) == 0 && s.jobs[j].status.InProgress? && !s.jobs[j].action.Leave?
        && n == |Replacements(s, cfg, j, locked)| > 0 && t == AddItems(s, j, Replacements(s, cfg, j, locked))
      case AlreadySettled => t == s && Terminal(s.jobs[j].status)
      case Settled(status) => CountInFlight(s.items, j) == 0 && !Terminal(s.jobs[j].status) && t == Settle(s, j) && status == Verdict(s.jobs[j])
  {
    assert JobCounters(s.jobs[j], s.items, j) && StatusAgrees(s.jobs[j]);
    RecountAgrees(s, j);
  }

  /** A slot of the job is open and some account could fill it now. */
  ghost predicate CanRefill(s: Store, cfg: Config, j: JobId, locked: set<AccountId>)
    requires Linked(s) && j < |s.jobs|
  {
    var job := s.jobs[j];
    job.status.InProgress? && !job.action.Leave? && Missing(s, j) > 0
    && SomeFree(s, cfg, job.action, job.key, Used(s, j) + locked)
  }

  /** A join is young enough to wait for an account that could fill its open slot later. */
  ghost predicate MayWait(s: Store, cfg: Config, j: JobId)
    requires j < |s.jobs|
  {
    var job := s.jobs[j];
    job.status.InProgress? && job.action.Join? && Missing(s, j) > 0 && Potential(s, job.key, Used(s, j))
    && job.startedAt.Some? && s.now - job.startedAt.value < cfg.maxWait
  }

  /** Finalizing settles the job: nothing is in flight, nothing fills its open slots, and it is not left waiting. */
  ghost predicate Settles(s: Store, cfg: Config, j: JobId, locked: set<AccountId>)
    requires Linked(s) && j < |s.jobs|
  {
    CountInFlight(s.items, j) == 0 && !Terminal(s.jobs[j].status) && !CanRefill(s, cfg, j, locked) && !MayWait(s, cfg, j)
  }

  /** Which case finalizing takes, read off the rows beforehand. */
  lemma FinalizeDecides(s: Store, cfg: Config, j: JobId, locked: set<AccountId>)
    requires Inv(s, cfg) && j < |s.jobs|
    ensures var r, idle := Finalize(s, cfg, j, locked).1, CountInFlight(s.items, j) == 0;
      && (r.Busy? <==> !idle)
      && (r.Refilled? <==> idle && CanRefill(s, cfg, j, locked))
      && (r.Deferred? <==> idle && !CanRefill(s, cfg, j, locked) && MayWait(s, cfg, j))
      && (r.AlreadySettled? <==> idle && Terminal(s.jobs[j].status))
      && (r.Settled? <==> Settles(s, cfg, j, locked))
  {
    hide FirstFree, SomeFree, Potential, Used;
    var job := s.jobs[j];
    assert JobCounters(job, s.items, j) && StatusAgrees(job);
    RecountAgrees(s, j);
    PicksUnlessNone(s, cfg, job.action, job.key, Missing(s, j), Used(s, j) + locked);
  }

  lemma FinalizeKeeps(s: Store, cfg: Config, j: JobId, locked: set<AccountId>)
    requires Inv(s, cfg) && j < |s.jobs|
    ensures var t := Finalize(s, cfg, j, locked).0; Inv(t, cfg) && Progress(s, t)
  {
    var (t, r) := Finalize(s, cfg, j, locked);
    FinalizeCases(s, cfg, j, locked);
    if r.Refilled? {
      AddItemsKeeps(s, cfg, j, locked);
    } else if r.Settled? {
      SettleKeeps(s, cfg, j);
    } else {
      Rearranges(s, s, cfg);
    }
  }
}
