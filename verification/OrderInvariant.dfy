/** What holds of the rows in every reachable state, and the order in which rows may change. */
module OrderInvariant {
  import opened Common
  import opened OrderStore
  import opened OrderSteps

  // ── the invariant ──────────────────────────────────────────────────────────

  /** The denormalised counters of a job row against the item ledger. */
  ghost predicate JobCounters(job: Job, items: seq<Item>, j: JobId) {
    && job.success == Count(items, j, ItemStatus.Success)
    && job.failed == Count(items, j, ItemStatus.Failed)
    && job.accepted == CountAll(items, j)
    && job.skipped >= Max(0, job.total - job.accepted) + Count(items, j, ItemStatus.Skipped)
  }

  ghost predicate Counters(s: Store) {
    forall j :: 0 <= j < |s.jobs| ==> JobCounters(s.jobs[j], s.items, j)
  }

  ghost predicate JobCapacity(job: Job, items: seq<Item>, j: JobId) {
    Count(items, j, ItemStatus.Success) + CountInFlight(items, j) <= job.total
  }

  /** No job ever delivers or attempts more than it was sized for. */
  ghost predicate Capacity(s: Store) {
    forall j :: 0 <= j < |s.jobs| ==> JobCapacity(s.jobs[j], s.items, j)
  }

  /** Two items compete for one account on one target. */
  ghost predicate SameSlot(s: Store, i: ItemId, k: ItemId)
    requires Linked(s) && i < |s.items| && k < |s.items|
  {
    s.items[i].account == s.items[k].account
    && JobOf(s, i).action == JobOf(s, k).action && JobOf(s, i).key == JobOf(s, k).key
  }

  /** A join or view slot is handed out again only after its earlier item is over. */
  ghost predicate Exclusive(s: Store)
    requires Linked(s)
  {
    forall i, k :: 0 <= i < k < |s.items| && SameSlot(s, i, k) && !JobOf(s, i).action.Leave?
      ==> !InFlight(s.items[i].status)
  }

  ghost predicate NotJoined(s: Store)
    requires Linked(s)
  {
    forall i :: 0 <= i < |s.items| && InFlight(s.items[i].status) && JobOf(s, i).action.Join?
      ==> !IsJoined(s, s.items[i].account, JobOf(s, i).key)
  }

  /** Within one job an account returns only in a join, and only after a retryable skip. */
  ghost predicate Distinct(s: Store)
    requires Linked(s)
  {
    forall i, k :: 0 <= i < k < |s.items| && s.items[i].job == s.items[k].job && s.items[i].account == s.items[k].account
      ==> JobOf(s, i).action.Join? && RetryableSkip(s.items[i])
  }

  function ViewSlot(s: Store, i: ItemId): (AccountId, Key)
    requires Linked(s) && i < |s.items|
  {
    (s.items[i].account, JobOf(s, i).key)
  }

  /** An account in flight on a view was off that target for the whole cooldown. */
  ghost predicate ViewRested(s: Store, cfg: Config)
    requires Linked(s)
  {
    forall i :: 0 <= i < |s.items| && InFlight(s.items[i].status) && JobOf(s, i).action.View? && ViewSlot(s, i) in s.views
      ==> s.views[ViewSlot(s, i)] <= s.now - cfg.viewCooldown
  }

  ghost predicate ViewRecorded(s: Store)
    requires Linked(s)
  {
    forall i :: 0 <= i < |s.items| && s.items[i].status.Success? && JobOf(s, i).action.View?
      ==> s.items[i].finishedAt.Some? && ViewSlot(s, i) in s.views && s.items[i].finishedAt.value <= s.views[ViewSlot(s, i)]
  }

  ghost predicate ViewsPast(s: Store) {
    forall slot :: slot in s.views ==> s.views[slot] <= s.now
  }

  ghost predicate ViewSuccess(s: Store, i: ItemId)
    requires Linked(s) && i < |s.items|
  {
    s.items[i].status.Success? && JobOf(s, i).action.View? && s.items[i].finishedAt.Some?
  }

  /** Two delivered views of one target by one account lie a cooldown apart, whatever jobs they belong to. */
  ghost predicate ViewGap(s: Store, cfg: Config)
    requires Linked(s)
  {
    forall i, k :: 0 <= i < k < |s.items| && ViewSuccess(s, i) && ViewSuccess(s, k) && SameSlot(s, i, k)
      ==> s.items[k].finishedAt.value - s.items[i].finishedAt.value >= cfg.viewCooldown
  }

  ghost predicate OnlyInProgressWorks(s: Store)
    requires Linked(s)
  {
    forall i :: 0 <= i < |s.items| && InFlight(s.items[i].status) ==> JobOf(s, i).status.InProgress?
  }

  /** What a job's status says about its success count. */
  ghost predicate StatusAgrees(job: Job) {
    match job.status
    case InProgress => !job.invalidTarget
    case Active => NeedsLeave(job) && job.success >= job.requested && !job.invalidTarget
    case Completed => job.success >= job.requested && !job.invalidTarget
    case Partial => job.success > 0 && (job.success < job.requested || job.invalidTarget)
    case Fail => job.success == 0
    case _ => false
  }

  ghost predicate Statuses(s: Store) {
    forall j :: 0 <= j < |s.jobs| ==> StatusAgrees(s.jobs[j]) && s.jobs[j].requested > 0
  }

  ghost predicate NeedsSchedule(s: Store, i: ItemId)
    requires Linked(s)
  {
    i < |s.items| && s.items[i].status.Success? && NeedsLeave(JobOf(s, i))
  }

  /** Schedules are in bijection with the successes that must be undone. */
  ghost predicate Scheduled(s: Store)
    requires Linked(s)
  {
    && (forall i: nat :: i in s.schedules <==> NeedsSchedule(s, i))
    && (forall i: nat :: i in s.schedules ==>
          && s.schedules[i].job == s.items[i].job
          && s.schedules[i].account == s.items[i].account
          && s.schedules[i].key == JobOf(s, i).key)
  }

  /** A retained job is completed only when all its schedules are over. */
  ghost predicate RetentionOver(s: Store) {
    forall j :: 0 <= j < |s.jobs| && NeedsLeave(s.jobs[j]) && s.jobs[j].status.Completed? ==> !HasOpenSchedule(s, j)
  }

  ghost predicate UniqueKeys(s: Store) {
    forall i, j :: 0 <= i < j < |s.jobs| ==> s.jobs[i].idempotencyKey != s.jobs[j].idempotencyKey
  }

  ghost predicate Inv(s: Store, cfg: Config) {
    && Linked(s)
    && Counters(s) && Capacity(s)
    && Exclusive(s) && NotJoined(s) && Distinct(s)
    && ViewRested(s, cfg) && ViewRecorded(s) && ViewsPast(s) && ViewGap(s, cfg)
    && OnlyInProgressWorks(s) && Statuses(s)
    && Scheduled(s) && RetentionOver(s) && UniqueKeys(s)
  }

  lemma LinkedIn(s: Store, cfg: Config)
    requires Inv(s, cfg)
    ensures Linked(s)
  {
  }

  // ── how rows may change ────────────────────────────────────────────────────

  ghost predicate SameOrder(a: Job, b: Job) {
    && a.idempotencyKey == b.idempotencyKey && a.action == b.action && a.key == b.key
    && a.requested == b.requested && a.total == b.total && a.retention == b.retention
  }

  ghost predicate JoinedOnlyFrom(s: Store, t: Store) {
    forall a: AccountId, key: Key :: IsJoined(t, a, key) ==> IsJoined(s, a, key)
  }

  ghost predicate StatusStep(a: JobStatus, b: JobStatus) {
    || a == b
    || (a.InProgress? && (b.Active? || b.Completed? || b.Partial? || b.Fail?))
    || (a.Active? && b.Completed?)
  }

  /** A job row keeps its order; counters only grow, and only in progress; a terminal row is frozen. */
  ghost predicate JobStep(a: Job, b: Job) {
    && SameOrder(a, b)
    && a.accepted <= b.accepted && a.success <= b.success && a.failed <= b.failed && a.skipped <= b.skipped
    && StatusStep(a.status, b.status)
    && (!a.status.InProgress? ==> b == a.(status := b.status, finishedAt := b.finishedAt))
    && (Terminal(a.status) ==> b == a)
  }

  /** An item keeps its job and account; a finished item is frozen. */
  ghost predicate ItemStep(a: Item, b: Item) {
    && a.job == b.job && a.account == b.account
    && (!InFlight(a.status) ==> b == a)
  }

  ghost predicate ScheduleStep(a: Schedule, b: Schedule) {
    && a.job == b.job && a.account == b.account && a.key == b.key && a.dueAt == b.dueAt
    && (!ScheduleOpen(a.status) ==> b == a)
  }

  ghost predicate Progress(s: Store, t: Store) {
    && |s.jobs| <= |t.jobs| && |s.items| <= |t.items| && |s.accounts| <= |t.accounts| && s.now <= t.now
    && (forall j :: 0 <= j < |s.jobs| ==> JobStep(s.jobs[j], t.jobs[j]))
    && (forall i :: 0 <= i < |s.items| ==> ItemStep(s.items[i], t.items[i]))
    && (forall i :: i in s.schedules ==> i in t.schedules && ScheduleStep(s.schedules[i], t.schedules[i]))
  }

  lemma ProgressTrans(s: Store, t: Store, u: Store)
    requires Progress(s, t) && Progress(t, u)
    ensures Progress(s, u)
  {
    forall j | 0 <= j < |s.jobs|
      ensures JobStep(s.jobs[j], u.jobs[j])
    {
      assert JobStep(s.jobs[j], t.jobs[j]) && JobStep(t.jobs[j], u.jobs[j]);
    }
    forall i | 0 <= i < |s.items|
      ensures ItemStep(s.items[i], u.items[i])
    {
      assert ItemStep(s.items[i], t.items[i]) && ItemStep(t.items[i], u.items[i]);
    }
  }

  /** No row was added: only statuses, counters and times moved. */
  ghost predicate Moves(s: Store, t: Store) {
    Progress(s, t) && |t.jobs| == |s.jobs| && |t.items| == |s.items|
  }

  lemma MovesLinked(s: Store, t: Store)
    requires Linked(s) && Moves(s, t)
    ensures Linked(t)
  {
    forall i | 0 <= i < |t.items|
      ensures t.items[i].job < |t.jobs| && t.items[i].account < |t.accounts|
    {
      assert ItemStep(s.items[i], t.items[i]);
    }
  }

  lemma MovesRow(s: Store, t: Store, i: ItemId)
    requires Linked(s) && Linked(t) && Moves(s, t) && i < |s.items|
    ensures ItemStep(s.items[i], t.items[i]) && SameOrder(JobOf(s, i), JobOf(t, i)) && JobStep(JobOf(s, i), JobOf(t, i))
    ensures ViewSlot(s, i) == ViewSlot(t, i)
    ensures InFlight(t.items[i].status) ==> InFlight(s.items[i].status)
  {
    assert ItemStep(s.items[i], t.items[i]);
    assert JobStep(s.jobs[s.items[i].job], t.jobs[s.items[i].job]);
  }

  lemma MovesExclusive(s: Store, t: Store)
    requires Linked(s) && Linked(t) && Moves(s, t) && Exclusive(s)
    ensures Exclusive(t)
  {
    forall i, k | 0 <= i < k < |t.items| && SameSlot(t, i, k) && !JobOf(t, i).action.Leave?
      ensures !InFlight(t.items[i].status)
    {
      MovesRow(s, t, i);
      MovesRow(s, t, k);
      assert SameSlot(s, i, k);
    }
  }

  lemma MovesDistinct(s: Store, t: Store)
    requires Linked(s) && Linked(t) && Moves(s, t) && Distinct(s)
    ensures Distinct(t)
  {
    forall i, k | 0 <= i < k < |t.items| && t.items[i].job == t.items[k].job && t.items[i].account == t.items[k].account
      ensures JobOf(t, i).action.Join? && RetryableSkip(t.items[i])
    {
      MovesRow(s, t, i);
      MovesRow(s, t, k);
    }
  }

  lemma MovesKeys(s: Store, t: Store)
    requires Moves(s, t) && UniqueKeys(s)
    ensures UniqueKeys(t)
  {
    forall i, j | 0 <= i < j < |t.jobs|
      ensures t.jobs[i].idempotencyKey != t.jobs[j].idempotencyKey
    {
      assert JobStep(s.jobs[i], t.jobs[i]) && JobStep(s.jobs[j], t.jobs[j]);
    }
  }

  lemma MovesNotJoined(s: Store, t: Store)
    requires Linked(s) && Linked(t) && Moves(s, t) && NotJoined(s)
    requires forall i :: 0 <= i < |t.items| && InFlight(t.items[i].status) && JobOf(t, i).action.Join?
               ==> (IsJoined(t, t.items[i].account, JobOf(t, i).key) ==> IsJoined(s, t.items[i].account, JobOf(t, i).key))
    ensures NotJoined(t)
  {
    forall i | 0 <= i < |t.items| && InFlight(t.items[i].status) && JobOf(t, i).action.Join?
      ensures !IsJoined(t, t.items[i].account, JobOf(t, i).key)
    {
      MovesRow(s, t, i);
    }
  }

  /** The view ledger did not change and no view succeeded. */
  lemma MovesViews(s: Store, t: Store, cfg: Config)
    requires Linked(s) && Linked(t) && Moves(s, t) && t.views == s.views
    requires ViewRested(s, cfg) && ViewRecorded(s) && ViewGap(s, cfg)
    requires forall i :: 0 <= i < |t.items| && t.items[i].status.Success? && JobOf(t, i).action.View? ==> s.items[i].status.Success?
    ensures ViewRested(t, cfg) && ViewRecorded(t) && ViewGap(t, cfg)
  {
    forall i | 0 <= i < |t.items| && InFlight(t.items[i].status) && JobOf(t, i).action.View? && ViewSlot(t, i) in t.views
      ensures t.views[ViewSlot(t, i)] <= t.now - cfg.viewCooldown
    {
      MovesRow(s, t, i);
    }
    forall i | 0 <= i < |t.items| && t.items[i].status.Success? && JobOf(t, i).action.View?
      ensures t.items[i].finishedAt.Some? && ViewSlot(t, i) in t.views && t.items[i].finishedAt.value <= t.views[ViewSlot(t, i)]
    {
      MovesRow(s, t, i);
    }
    forall i, k | 0 <= i < k < |t.items| && ViewSuccess(t, i) && ViewSuccess(t, k) && SameSlot(t, i, k)
      ensures t.items[k].finishedAt.value - t.items[i].finishedAt.value >= cfg.viewCooldown
    {
      MovesRow(s, t, i);
      MovesRow(s, t, k);
      assert SameSlot(s, i, k) && ViewSuccess(s, i) && ViewSuccess(s, k);
    }
  }

  /** Schedules kept their rows and nothing that needs one was won. */
  lemma MovesScheduled(s: Store, t: Store)
    requires Linked(s) && Linked(t) && Moves(s, t) && Scheduled(s)
    requires t.schedules.Keys == s.schedules.Keys
    requires forall i :: 0 <= i < |t.items| && t.items[i].status.Success? && NeedsLeave(JobOf(t, i)) ==> s.items[i].status.Success?
    ensures Scheduled(t)
  {
    forall i: nat
      ensures i in t.schedules <==> NeedsSchedule(t, i)
      ensures i in t.schedules ==> t.schedules[i].job == t.items[i].job && t.schedules[i].account == t.items[i].account
                                   && t.schedules[i].key == JobOf(t, i).key
    {
      assert i in t.schedules <==> i in s.schedules;
      assert i in s.schedules <==> NeedsSchedule(s, i);
      if i < |s.items| {
        MovesRow(s, t, i);
      }
      if i in s.schedules {
        assert ScheduleStep(s.schedules[i], t.schedules[i]);
      }
    }
  }

  /** A completed retained job was completed before, or has no open schedule now. */
  lemma MovesRetention(s: Store, t: Store)
    requires Moves(s, t) && RetentionOver(s)
    requires forall i :: i in t.schedules && i !in s.schedules ==> t.schedules[i].job < |t.jobs| && !t.jobs[t.schedules[i].job].status.Completed?
    requires forall j :: 0 <= j < |t.jobs| && NeedsLeave(t.jobs[j]) && t.jobs[j].status.Completed? && !s.jobs[j].status.Completed?
               ==> !HasOpenSchedule(t, j)
    ensures RetentionOver(t)
  {
    forall j | 0 <= j < |t.jobs| && NeedsLeave(t.jobs[j]) && t.jobs[j].status.Completed?
      ensures !HasOpenSchedule(t, j)
    {
      assert JobStep(s.jobs[j], t.jobs[j]);
      if s.jobs[j].status.Completed? && HasOpenSchedule(t, j) {
        var i :| i in t.schedules && t.schedules[i].job == j && ScheduleOpen(t.schedules[i].status);
        assert i in s.schedules ==> ScheduleStep(s.schedules[i], t.schedules[i]);
        assert HasOpenSchedule(s, j);
      }
    }
  }

  // ── counting through a step ────────────────────────────────────────────────

  /** Both items count the same way: equal status, or both still in flight. */
  ghost predicate SameTally(a: Item, b: Item) {
    a.job == b.job && (a.status == b.status || (InFlight(a.status) && InFlight(b.status)))
  }

  lemma {:induction false} CountSameTally(a: seq<Item>, b: seq<Item>, j: JobId)
    requires |a| == |b| && forall i :: 0 <= i < |a| ==> SameTally(a[i], b[i])
    ensures CountInFlight(a, j) == CountInFlight(b, j) && CountAll(a, j) == CountAll(b, j)
    ensures Count(a, j, ItemStatus.Success) == Count(b, j, ItemStatus.Success)
    ensures Count(a, j, ItemStatus.Failed) == Count(b, j, ItemStatus.Failed)
    ensures Count(a, j, ItemStatus.Skipped) == Count(b, j, ItemStatus.Skipped)
  {
    if a != [] {
      var n := |a| - 1;
      assert SameTally(a[n], b[n]);
      CountSameTally(a[..n], b[..n], j);
    }
  }

  lemma {:induction false} CountSkipInFlight(items: seq<Item>, owner: JobId, now: Time, j: JobId)
    ensures var r := SkipInFlight(items, owner, now);
      && Count(r, j, ItemStatus.Success) == Count(items, j, ItemStatus.Success)
      && Count(r, j, ItemStatus.Failed) == Count(items, j, ItemStatus.Failed)
      && CountAll(r, j) == CountAll(items, j)
      && CountInFlight(r, j) == (if j == owner then 0 else CountInFlight(items, j))
      && Count(r, j, ItemStatus.Skipped) == Count(items, j, ItemStatus.Skipped) + (if j == owner then CountInFlight(items, j) else 0)
  {
    if items != [] {
      var n := |items| - 1;
      CountSkipInFlight(items[..n], owner, now, j);
      assert SkipInFlight(items, owner, now)[..n] == SkipInFlight(items[..n], owner, now);
    }
  }

  /** Moving items about without finishing any keeps counters and capacity. */
  lemma TallyKeepsCounts(s: Store, t: Store)
    requires Counters(s) && Capacity(s) && t.jobs == s.jobs && |t.items| == |s.items|
    requires forall i :: 0 <= i < |s.items| ==> SameTally(s.items[i], t.items[i])
    ensures Counters(t) && Capacity(t)
  {
    forall j | 0 <= j < |t.jobs|
      ensures JobCounters(t.jobs[j], t.items, j) && JobCapacity(t.jobs[j], t.items, j)
    {
      assert JobCounters(s.jobs[j], s.items, j) && JobCapacity(s.jobs[j], s.items, j);
      CountSameTally(s.items, t.items, j);
    }
  }
}
