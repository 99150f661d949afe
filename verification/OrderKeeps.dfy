/** Every step of the order engine keeps the invariant and only makes progress. */
module OrderKeeps {
  import opened Common
  import opened OrderStore
  import opened OrderSteps
  import opened OrderInvariant

  // ── steps that finish nothing ──────────────────────────────────────────────

  lemma Rearranges(s: Store, t: Store, cfg: Config)
    requires Inv(s, cfg)
    requires t.jobs == s.jobs && |t.items| == |s.items| && |s.accounts| <= |t.accounts| && s.now <= t.now && t.views == s.views
    requires forall i :: 0 <= i < |s.items| ==> ItemStep(s.items[i], t.items[i]) && SameTally(s.items[i], t.items[i])
    requires t.schedules.Keys == s.schedules.Keys
    requires forall i :: i in s.schedules ==> ScheduleStep(s.schedules[i], t.schedules[i])
    requires JoinedOnlyFrom(s, t)
    ensures Inv(t, cfg) && Progress(s, t)
  {
    assert Moves(s, t);
    MovesLinked(s, t);
    TallyKeepsCounts(s, t);
    MovesExclusive(s, t);
    MovesDistinct(s, t);
    MovesKeys(s, t);
    MovesNotJoined(s, t);
    assert forall i :: 0 <= i < |t.items| && t.items[i].status.Success? ==> SameTally(s.items[i], t.items[i]);
    MovesViews(s, t, cfg);
    MovesScheduled(s, t);
    MovesRetention(s, t);
    forall i | 0 <= i < |t.items| && InFlight(t.items[i].status)
      ensures JobOf(t, i).status.InProgress?
    {
      MovesRow(s, t, i);
    }
  }

  lemma ClaimShape(s: Store, cfg: Config, i: ItemId)
    requires Linked(s) && i < |s.items|
    ensures var t := Claim(s, cfg, i).0;
      && t == s.(items := t.items, throttles := t.throttles) && |t.items| == |s.items|
      && (forall k :: 0 <= k < |s.items| && k != i ==> t.items[k] == s.items[k])
      && ItemStep(s.items[i], t.items[i]) && SameTally(s.items[i], t.items[i])
  {
  }

  lemma ClaimKeeps(s: Store, cfg: Config, i: ItemId)
    requires Inv(s, cfg) && i < |s.items|
    ensures Inv(Claim(s, cfg, i).0, cfg) && Progress(s, Claim(s, cfg, i).0)
  {
    ClaimShape(s, cfg, i);
    var items, throttles := Claim(s, cfg, i).0.items, Claim(s, cfg, i).0.throttles;
    assert Claim(s, cfg, i).0 == s.(items := items, throttles := throttles);
    RowsKeep(s, cfg, items, throttles);
  }

  lemma RowsKeep(s: Store, cfg: Config, items: seq<Item>, throttles: map<AccountId, Option<Time>>)
    requires Inv(s, cfg) && |items| == |s.items|
    requires forall i :: 0 <= i < |s.items| ==> ItemStep(s.items[i], items[i]) && SameTally(s.items[i], items[i])
    ensures var t := s.(items := items, throttles := throttles); Inv(t, cfg) && Progress(s, t)
  {
    Rearranges(s, s.(items := items, throttles := throttles), cfg);
  }

  lemma RecoverStaleKeeps(s: Store, cfg: Config)
    requires Inv(s, cfg)
    ensures Inv(RecoverStale(s), cfg) && Progress(s, RecoverStale(s))
  {
    Rearranges(s, RecoverStale(s), cfg);
  }

  lemma TickKeeps(s: Store, cfg: Config, delta: nat)
    requires Inv(s, cfg)
    ensures Inv(Tick(s, delta), cfg) && Progress(s, Tick(s, delta))
  {
    Rearranges(s, Tick(s, delta), cfg);
  }

  lemma AccountsKeep(s: Store, cfg: Config, accounts: seq<AccountStatus>, throttles: map<AccountId, Option<Time>>)
    requires Inv(s, cfg) && |s.accounts| <= |accounts|
    ensures var t := s.(accounts := accounts, throttles := throttles); Inv(t, cfg) && Progress(s, t)
  {
    Rearranges(s, s.(accounts := accounts, throttles := throttles), cfg);
  }

  lemma SchedulesKeep(s: Store, cfg: Config, i: ItemId, schedule: Schedule)
    requires Inv(s, cfg) && i in s.schedules && ScheduleStep(s.schedules[i], schedule)
    ensures var t := s.(schedules := s.schedules[i := schedule]); Inv(t, cfg) && Progress(s, t)
  {
    var t := s.(schedules := s.schedules[i := schedule]);
    assert t.schedules.Keys == s.schedules.Keys;
    Rearranges(s, t, cfg);
  }

  lemma StartLeaveKeeps(s: Store, cfg: Config, i: ItemId)
    requires Inv(s, cfg)
    ensures Inv(StartLeave(s, i), cfg) && Progress(s, StartLeave(s, i))
  {
    if Due(s, i) {
      SchedulesKeep(s, cfg, i, StartLeave(s, i).schedules[i]);
    } else {
      Rearranges(s, s, cfg);
    }
  }

  // ── finishing an item ──────────────────────────────────────────────────────

  predicate Finished(status: ItemStatus) {
    !InFlight(status)
  }

  lemma FinishCounts(s: Store, i: ItemId, status: ItemStatus, message: Message)
    requires Linked(s) && i < |s.items| && InFlight(s.items[i].status) && Finished(status)
    requires Counters(s) && Capacity(s)
    ensures Counters(FinishItem(s, i, status, message)) && Capacity(FinishItem(s, i, status, message))
  {
    var t := FinishItem(s, i, status, message);
    forall j | 0 <= j < |t.jobs|
      ensures JobCounters(t.jobs[j], t.items, j) && JobCapacity(t.jobs[j], t.items, j)
    {
      assert JobCounters(s.jobs[j], s.items, j) && JobCapacity(s.jobs[j], s.items, j);
      CountAllUpdate(s.items, i, t.items[i], j);
      CountUpdate(s.items, i, t.items[i], j, ItemStatus.Success);
      CountUpdate(s.items, i, t.items[i], j, ItemStatus.Failed);
      CountUpdate(s.items, i, t.items[i], j, ItemStatus.Skipped);
      CountUpdate(s.items, i, t.items[i], j, ItemStatus.Pending);
      CountUpdate(s.items, i, t.items[i], j, ItemStatus.Running);
    }
  }

  /** What finishing an item does to the item and job rows, other tables aside. */
  ghost predicate Finishes(s: Store, t: Store, i: ItemId, status: ItemStatus, message: Message)
    requires Linked(s)
  {
    && i < |s.items| && InFlight(s.items[i].status) && Finished(status)
    && t.items == FinishItem(s, i, status, message).items && t.jobs == FinishItem(s, i, status, message).jobs
    && t.accounts == s.accounts && t.now == s.now
    && (forall k :: k in s.schedules ==> k in t.schedules && t.schedules[k] == s.schedules[k])
  }

  lemma FinishProgress(s: Store, t: Store, i: ItemId, status: ItemStatus, message: Message)
    requires Linked(s) && OnlyInProgressWorks(s) && Finishes(s, t, i, status, message)
    ensures Moves(s, t) && Linked(t)
  {
    assert JobStep(JobOf(s, i), BumpJob(JobOf(s, i), status));
  }

  lemma FinishMoves(s: Store, t: Store, cfg: Config, i: ItemId, status: ItemStatus, message: Message)
    requires Inv(s, cfg) && Finishes(s, t, i, status, message)
    ensures Moves(s, t) && Linked(t)
    ensures Exclusive(t) && Distinct(t) && UniqueKeys(t)
  {
    FinishProgress(s, t, i, status, message);
    MovesExclusive(s, t);
    MovesDistinct(s, t);
    MovesKeys(s, t);
  }

  lemma FinishCore(s: Store, t: Store, cfg: Config, i: ItemId, status: ItemStatus, message: Message)
    requires Inv(s, cfg) && Finishes(s, t, i, status, message)
    ensures Linked(t) && Counters(t) && Capacity(t)
    ensures Statuses(t) && OnlyInProgressWorks(t)
  {
    FinishMoves(s, t, cfg, i, status, message);
    FinishCounts(s, i, status, message);
    var j := s.items[i].job;
    assert s.jobs[j].status.InProgress?;
    forall k | 0 <= k < |t.items| && InFlight(t.items[k].status)
      ensures JobOf(t, k).status.InProgress?
    {
      MovesRow(s, t, k);
      assert t.jobs[t.items[k].job].status == s.jobs[s.items[k].job].status;
    }
  }

  lemma FinishPlainly(s: Store, cfg: Config, i: ItemId, status: ItemStatus, message: Message)
    requires Inv(s, cfg) && i < |s.items| && InFlight(s.items[i].status)
    requires status.Skipped? || status.Failed? || (status.Success? && JobOf(s, i).action.Leave?)
    ensures Inv(FinishItem(s, i, status, message), cfg) && Progress(s, FinishItem(s, i, status, message))
  {
    var t := FinishItem(s, i, status, message);
    assert Finishes(s, t, i, status, message);
    FinishMoves(s, t, cfg, i, status, message);
    FinishCore(s, t, cfg, i, status, message);
    MovesNotJoined(s, t);
    MovesViews(s, t, cfg);
    MovesScheduled(s, t);
    MovesRetention(s, t);
  }

  /** Recording that an account left never hurts. */
  lemma LeftKeeps(s: Store, cfg: Config, a: AccountId, key: Key)
    requires Inv(s, cfg)
    ensures Inv(MarkMembership(s, a, key, false), cfg) && Progress(s, MarkMembership(s, a, key, false))
  {
    Rearranges(s, MarkMembership(s, a, key, false), cfg);
  }

  lemma JoinSchedules(s: Store, t: Store, i: ItemId)
    requires Linked(s) && Linked(t) && Moves(s, t) && Scheduled(s)
    requires i < |s.items| && InFlight(s.items[i].status) && t.items[i].status.Success?
    requires forall k :: 0 <= k < |t.items| && k != i ==> t.items[k] == s.items[k]
    requires t.schedules == CreateAutoLeave(s, i).schedules
    ensures Scheduled(t)
  {
    assert !NeedsSchedule(s, i) && i !in s.schedules;
    forall k: nat
      ensures k in t.schedules <==> NeedsSchedule(t, k)
      ensures k in t.schedules ==> t.schedules[k].job == t.items[k].job && t.schedules[k].account == t.items[k].account
                                   && t.schedules[k].key == JobOf(t, k).key
    {
      assert k in s.schedules <==> NeedsSchedule(s, k);
      if k < |s.items| {
        MovesRow(s, t, k);
      }
    }
  }

  lemma JoinExcludes(s: Store, t: Store, i: ItemId)
    requires Linked(s) && Linked(t) && Moves(s, t) && Exclusive(s) && NotJoined(s)
    requires i < |s.items| && InFlight(s.items[i].status) && JobOf(s, i).action.Join? && !InFlight(t.items[i].status)
    requires t.memberships == MarkMembership(s, s.items[i].account, JobOf(s, i).key, true).memberships
    ensures NotJoined(t)
  {
    forall k | 0 <= k < |t.items| && InFlight(t.items[k].status) && JobOf(t, k).action.Join?
      ensures !IsJoined(t, t.items[k].account, JobOf(t, k).key)
    {
      MovesRow(s, t, k);
      JoinSlotOthers(s, i, k);
    }
  }

  /** No other join in flight shares the slot of item `i`. */
  lemma JoinSlotOthers(s: Store, i: ItemId, k: ItemId)
    requires Linked(s) && Exclusive(s) && i < |s.items| && k < |s.items| && i != k
    requires InFlight(s.items[i].status) && InFlight(s.items[k].status) && JobOf(s, i).action.Join? && JobOf(s, k).action.Join?
    ensures ViewSlot(s, k) != ViewSlot(s, i)
  {
    if ViewSlot(s, k) == ViewSlot(s, i) {
      assert SameSlot(s, i, k) && SameSlot(s, k, i);
      assert false;
    }
  }

  lemma JoinRows(s: Store, i: ItemId)
    requires Linked(s) && i < |s.items| && JobOf(s, i).action.Join?
    ensures var t, f := Succeed(s, i), FinishItem(s, i, ItemStatus.Success, Plain);
      && t.items == f.items && t.jobs == f.jobs && t.accounts == s.accounts && t.now == s.now && t.views == s.views
      && t.schedules == CreateAutoLeave(s, i).schedules
      && t.memberships == MarkMembership(s, s.items[i].account, JobOf(s, i).key, true).memberships
  {
  }

  lemma JoinShape(s: Store, i: ItemId)
    requires Linked(s) && Scheduled(s) && i < |s.items| && InFlight(s.items[i].status) && JobOf(s, i).action.Join?
    ensures Finishes(s, Succeed(s, i), i, ItemStatus.Success, Plain)
  {
    JoinRows(s, i);
    assert !NeedsSchedule(s, i) && i !in s.schedules;
  }

  lemma JoinSucceeds(s: Store, cfg: Config, i: ItemId)
    requires Inv(s, cfg) && i < |s.items| && InFlight(s.items[i].status) && JobOf(s, i).action.Join?
    ensures Inv(Succeed(s, i), cfg) && Progress(s, Succeed(s, i))
  {
    var t := Succeed(s, i);
    JoinRows(s, i);
    JoinShape(s, i);
    JoinSucceedsAs(s, t, cfg, i);
  }

  lemma JoinSucceedsAs(s: Store, t: Store, cfg: Config, i: ItemId)
    requires Inv(s, cfg) && i < |s.items| && InFlight(s.items[i].status) && JobOf(s, i).action.Join?
    requires Finishes(s, t, i, ItemStatus.Success, Plain) && t.views == s.views
    requires t.schedules == CreateAutoLeave(s, i).schedules
    requires t.memberships == MarkMembership(s, s.items[i].account, JobOf(s, i).key, true).memberships
    ensures Inv(t, cfg) && Progress(s, t)
  {
    FinishMoves(s, t, cfg, i, ItemStatus.Success, Plain);
    FinishCore(s, t, cfg, i, ItemStatus.Success, Plain);
    JoinExcludes(s, t, i);
    MovesViews(s, t, cfg);
    JoinSchedules(s, t, i);
    assert JobOf(s, i).status.InProgress?;
    MovesRetention(s, t);
  }

  lemma ViewSucceeds(s: Store, cfg: Config, i: ItemId)
    requires Inv(s, cfg) && i < |s.items| && InFlight(s.items[i].status) && JobOf(s, i).action.View?
    ensures Inv(Succeed(s, i), cfg) && Progress(s, Succeed(s, i))
  {
    var t := Succeed(s, i);
    assert Finishes(s, t, i, ItemStatus.Success, Plain);
    FinishMoves(s, t, cfg, i, ItemStatus.Success, Plain);
    FinishCore(s, t, cfg, i, ItemStatus.Success, Plain);
    MovesNotJoined(s, t);
    ViewLedger(s, t, cfg, i);
    MovesScheduled(s, t);
    MovesRetention(s, t);
  }

  /** One view of slot (account, key) succeeded now. */
  ghost predicate ViewWon(s: Store, t: Store, i: ItemId)
    requires Linked(s)
  {
    && i < |s.items| && i < |t.items| && InFlight(s.items[i].status) && JobOf(s, i).action.View?
    && t.items[i].status.Success? && t.items[i].finishedAt == Some(s.now) && t.now == s.now
    && (forall k :: 0 <= k < |t.items| && k < |s.items| && k != i ==> t.items[k] == s.items[k])
    && t.views == s.views[ViewSlot(s, i) := s.now]
  }

  lemma SlotOthers(s: Store, i: ItemId, k: ItemId)
    requires Linked(s) && Exclusive(s) && i < |s.items| && k < |s.items| && i != k
    requires InFlight(s.items[i].status) && JobOf(s, i).action.View? && JobOf(s, k).action.View? && ViewSlot(s, k) == ViewSlot(s, i)
    ensures k < i && !InFlight(s.items[k].status)
  {
    assert SameSlot(s, i, k) && SameSlot(s, k, i);
  }

  lemma ViewLedger(s: Store, t: Store, cfg: Config, i: ItemId)
    requires Linked(s) && Linked(t) && Moves(s, t) && ViewWon(s, t, i) && Exclusive(s)
    requires ViewRested(s, cfg) && ViewRecorded(s) && ViewGap(s, cfg)
    requires ViewsPast(s)
    ensures ViewRested(t, cfg) && ViewRecorded(t) && ViewGap(t, cfg) && ViewsPast(t)
  {
    forall k | 0 <= k < |t.items| && InFlight(t.items[k].status) && JobOf(t, k).action.View? && ViewSlot(t, k) in t.views
      ensures t.views[ViewSlot(t, k)] <= t.now - cfg.viewCooldown
    {
      MovesRow(s, t, k);
      if ViewSlot(s, k) == ViewSlot(s, i) {
        SlotOthers(s, i, k);
      }
    }
    forall k | 0 <= k < |t.items| && t.items[k].status.Success? && JobOf(t, k).action.View?
      ensures t.items[k].finishedAt.Some? && ViewSlot(t, k) in t.views && t.items[k].finishedAt.value <= t.views[ViewSlot(t, k)]
    {
      MovesRow(s, t, k);
    }
    forall h, k | 0 <= h < k < |t.items| && ViewSuccess(t, h) && ViewSuccess(t, k) && SameSlot(t, h, k)
      ensures t.items[k].finishedAt.value - t.items[h].finishedAt.value >= cfg.viewCooldown
    {
      MovesRow(s, t, h);
      MovesRow(s, t, k);
      assert SameSlot(s, h, k);
      if h == i {
        SlotOthers(s, i, k);
      } else if k == i {
        assert s.items[h].finishedAt.value <= s.views[ViewSlot(s, i)] <= s.now - cfg.viewCooldown;
      } else {
        assert ViewSuccess(s, h) && ViewSuccess(s, k);
      }
    }
  }

  lemma LeaveSucceeds(s: Store, cfg: Config, i: ItemId)
    requires Inv(s, cfg) && i < |s.items| && InFlight(s.items[i].status) && JobOf(s, i).action.Leave?
    ensures Inv(Succeed(s, i), cfg) && Progress(s, Succeed(s, i))
  {
    LeftThenFinish(s, cfg, i, ItemStatus.Success);
  }

  lemma LeftThenFinish(s: Store, cfg: Config, i: ItemId, status: ItemStatus)
    requires Inv(s, cfg) && i < |s.items| && InFlight(s.items[i].status) && JobOf(s, i).action.Leave?
    requires status.Success? || status.Skipped?
    ensures var t := FinishItem(MarkMembership(s, s.items[i].account, JobOf(s, i).key, false), i, status, Plain);
      Inv(t, cfg) && Progress(s, t)
  {
    var a, key := s.items[i].account, JobOf(s, i).key;
    LeftKeeps(s, cfg, a, key);
    var s1 := MarkMembership(s, a, key, false);
    FinishPlainly(s1, cfg, i, status, Plain);
    ProgressTrans(s, s1, FinishItem(s1, i, status, Plain));
  }

  // ── cancelling a job ───────────────────────────────────────────────────────

  lemma CancelCounts(s: Store, j: JobId)
    requires Linked(s) && j < |s.jobs| && Counters(s) && Capacity(s)
    ensures Counters(CancelInvalidTarget(s, j)) && Capacity(CancelInvalidTarget(s, j))
  {
    var t := CancelInvalidTarget(s, j);
    forall k | 0 <= k < |t.jobs|
      ensures JobCounters(t.jobs[k], t.items, k) && JobCapacity(t.jobs[k], t.items, k)
    {
      assert JobCounters(s.jobs[k], s.items, k) && JobCapacity(s.jobs[k], s.items, k);
      CountSkipInFlight(s.items, j, s.now, k);
    }
  }

  lemma CancelRow(s: Store, j: JobId)
    requires j < |s.jobs| && JobCounters(s.jobs[j], s.items, j) && s.jobs[j].status.InProgress? && !s.jobs[j].invalidTarget
    ensures var t := CancelInvalidTarget(s, j);
      && t == s.(jobs := s.jobs[j := t.jobs[j]], items := SkipInFlight(s.items, j, s.now))
      && JobStep(s.jobs[j], t.jobs[j])
      && t.jobs[j].success == s.jobs[j].success && t.jobs[j].invalidTarget
      && t.jobs[j].status == (if s.jobs[j].success > 0 then JobStatus.Partial else JobStatus.Fail)
  {
    CountSkipInFlight(s.items, j, s.now, j);
  }

  lemma CancelMoves(s: Store, j: JobId)
    requires j < |s.jobs| && JobCounters(s.jobs[j], s.items, j) && s.jobs[j].status.InProgress? && !s.jobs[j].invalidTarget
    ensures Moves(s, CancelInvalidTarget(s, j))
  {
    CancelRow(s, j);
  }

  lemma CancelKeeps(s: Store, cfg: Config, j: JobId)
    requires Inv(s, cfg) && j < |s.jobs| && s.jobs[j].status.InProgress?
    ensures Inv(CancelInvalidTarget(s, j), cfg) && Progress(s, CancelInvalidTarget(s, j))
  {
    var t := CancelInvalidTarget(s, j);
    CancelCounts(s, j);
    assert JobCounters(s.jobs[j], s.items, j) && StatusAgrees(s.jobs[j]);
    CancelRow(s, j);
    CancelMoves(s, j);
    CancelKeepsAs(s, t, cfg, j);
  }

  lemma CancelKeepsAs(s: Store, t: Store, cfg: Config, j: JobId)
    requires Inv(s, cfg) && j < |s.jobs| && Moves(s, t) && Counters(t) && Capacity(t)
    requires t == s.(jobs := s.jobs[j := t.jobs[j]], items := SkipInFlight(s.items, j, s.now))
    requires StatusAgrees(t.jobs[j]) && !t.jobs[j].status.Completed?
    ensures Inv(t, cfg)
  {
    MovesLinked(s, t);
    MovesExclusive(s, t);
    MovesDistinct(s, t);
    MovesKeys(s, t);
    MovesNotJoined(s, t);
    MovesViews(s, t, cfg);
    MovesScheduled(s, t);
    MovesRetention(s, t);
    OthersWorkOn(s, t, j);
    assert JobStep(s.jobs[j], t.jobs[j]);
  }

  lemma OthersWorkOn(s: Store, t: Store, j: JobId)
    requires Linked(s) && OnlyInProgressWorks(s) && j < |s.jobs| && Moves(s, t)
    requires t == s.(jobs := s.jobs[j := t.jobs[j]], items := SkipInFlight(s.items, j, s.now))
    ensures Linked(t) && OnlyInProgressWorks(t)
  {
    MovesLinked(s, t);
    forall k | 0 <= k < |t.items| && InFlight(t.items[k].status)
      ensures JobOf(t, k).status.InProgress?
    {
      MovesRow(s, t, k);
      assert t.items[k] == SkipItem(s.items[k], j, s.now);
    }
  }

  // ── completing an item ─────────────────────────────────────────────────────

  lemma SucceedKeeps(s: Store, cfg: Config, i: ItemId)
    requires Inv(s, cfg) && i < |s.items| && InFlight(s.items[i].status)
    ensures Inv(Succeed(s, i), cfg) && Progress(s, Succeed(s, i))
  {
    match JobOf(s, i).action
    case Join => JoinSucceeds(s, cfg, i);
    case View => ViewSucceeds(s, cfg, i);
    case Leave => LeaveSucceeds(s, cfg, i);
  }

  lemma FinishThenAccount(s: Store, cfg: Config, i: ItemId, message: Message, accounts: seq<AccountStatus>, throttles: map<AccountId, Option<Time>>)
    requires Inv(s, cfg) && i < |s.items| && InFlight(s.items[i].status) && |accounts| == |s.accounts|
    ensures var t := FinishItem(s, i, ItemStatus.Skipped, message).(accounts := accounts, throttles := throttles);
      Inv(t, cfg) && Progress(s, t)
  {
    var s1 := FinishItem(s, i, ItemStatus.Skipped, message);
    FinishPlainly(s, cfg, i, ItemStatus.Skipped, message);
    AccountsKeep(s1, cfg, accounts, throttles);
    ProgressTrans(s, s1, s1.(accounts := accounts, throttles := throttles));
  }

  lemma FinishThenCancel(s: Store, cfg: Config, i: ItemId)
    requires Inv(s, cfg) && i < |s.items| && InFlight(s.items[i].status)
    ensures var t := CancelInvalidTarget(FinishItem(s, i, ItemStatus.Skipped, Message.InvalidTarget), s.items[i].job);
      Inv(t, cfg) && Progress(s, t)
  {
    var s1 := FinishItem(s, i, ItemStatus.Skipped, Message.InvalidTarget);
    FinishPlainly(s, cfg, i, ItemStatus.Skipped, Message.InvalidTarget);
    assert s1.jobs[s.items[i].job].status.InProgress? by {
      assert JobOf(s, i).status.InProgress?;
    }
    CancelKeeps(s1, cfg, s.items[i].job);
    ProgressTrans(s, s1, CancelInvalidTarget(s1, s.items[i].job));
  }

  /** The worker finds a leave item's account outside the target. */
  ghost predicate NotThere(s: Store, i: ItemId, outcome: Outcome)
    requires Linked(s) && i < |s.items|
  {
    JobOf(s, i).action.Leave? && !outcome.Dead? && !IsJoined(s, s.items[i].account, JobOf(s, i).key)
  }

  lemma AnswerKeeps(s: Store, cfg: Config, i: ItemId, outcome: Outcome)
    requires Inv(s, cfg) && i < |s.items| && InFlight(s.items[i].status) && !NotThere(s, i, outcome)
    requires outcome.Done? || outcome.AlreadyDone?
    ensures Inv(Complete(s, cfg, i, outcome), cfg) && Progress(s, Complete(s, cfg, i, outcome))
  {
    if outcome.Done? || JobOf(s, i).action.Join? {
      SucceedKeeps(s, cfg, i);
    } else if JobOf(s, i).action.Leave? {
      LeftThenFinish(s, cfg, i, ItemStatus.Skipped);
    } else {
      FinishPlainly(s, cfg, i, ItemStatus.Skipped, Plain);
    }
  }

  lemma BadTargetKeeps(s: Store, cfg: Config, i: ItemId, sawSuccess: bool)
    requires Inv(s, cfg) && i < |s.items| && InFlight(s.items[i].status) && !NotThere(s, i, BadTarget(sawSuccess))
    ensures var t := Complete(s, cfg, i, BadTarget(sawSuccess)); Inv(t, cfg) && Progress(s, t)
  {
    if sawSuccess {
      FinishPlainly(s, cfg, i, ItemStatus.Skipped, TransientTarget);
    } else {
      FinishThenCancel(s, cfg, i);
    }
  }

  lemma AccountTroubleKeeps(s: Store, cfg: Config, i: ItemId, outcome: Outcome)
    requires Inv(s, cfg) && i < |s.items| && InFlight(s.items[i].status) && !NotThere(s, i, outcome)
    requires outcome.Dead? || outcome.TooMany? || outcome.NoConnection?
    ensures var t := Complete(s, cfg, i, outcome); Inv(t, cfg) && Progress(s, t)
  {
    var t := Complete(s, cfg, i, outcome);
    var message := if outcome.Dead? then SessionDead else if outcome.TooMany? then Message.Throttled else ConnError;
    assert t == FinishItem(s, i, ItemStatus.Skipped, message).(accounts := t.accounts, throttles := t.throttles);
    FinishThenAccount(s, cfg, i, message, t.accounts, t.throttles);
  }

  lemma CompleteKeeps(s: Store, cfg: Config, i: ItemId, outcome: Outcome)
    requires Inv(s, cfg) && i < |s.items| && InFlight(s.items[i].status)
    ensures Inv(Complete(s, cfg, i, outcome), cfg) && Progress(s, Complete(s, cfg, i, outcome))
  {
    if NotThere(s, i, outcome) {
      FinishPlainly(s, cfg, i, ItemStatus.Skipped, Plain);
    } else if outcome.Done? || outcome.AlreadyDone? {
      AnswerKeeps(s, cfg, i, outcome);
    } else if outcome.BadTarget? {
      BadTargetKeeps(s, cfg, i, outcome.sawSuccess);
    } else if outcome.Broken? {
      FinishPlainly(s, cfg, i, ItemStatus.Failed, Plain);
    } else {
      AccountTroubleKeeps(s, cfg, i, outcome);
    }
  }

  // ── job rows on their own ──────────────────────────────────────────────────

  lemma JobRowMoves(s: Store, j: JobId, job: Job)
    requires Linked(s) && j < |s.jobs| && JobStep(s.jobs[j], job)
    ensures var t := s.(jobs := s.jobs[j := job]); Moves(s, t) && Linked(t)
  {
  }

  lemma JobRowKeeps(s: Store, cfg: Config, j: JobId, job: Job)
    requires Inv(s, cfg) && j < |s.jobs| && JobStep(s.jobs[j], job) && StatusAgrees(job)
    requires job.success == s.jobs[j].success && job.failed == s.jobs[j].failed && job.accepted == s.jobs[j].accepted
    requires CountInFlight(s.items, j) == 0
    requires NeedsLeave(job) && job.status.Completed? ==> !HasOpenSchedule(s, j)
    ensures var t := s.(jobs := s.jobs[j := job]); Inv(t, cfg) && Progress(s, t)
  {
    var t := s.(jobs := s.jobs[j := job]);
    JobRowMoves(s, j, job);
    MovesExclusive(s, t);
    MovesDistinct(s, t);
    MovesKeys(s, t);
    MovesNotJoined(s, t);
    MovesViews(s, t, cfg);
    MovesScheduled(s, t);
    JobRowRetention(s, t, j);
    JobRowCounts(s, t, j);
    JobRowIdle(s, t, j);
  }

  lemma JobRowRetention(s: Store, t: Store, j: JobId)
    requires Moves(s, t) && RetentionOver(s) && j < |s.jobs| && t == s.(jobs := s.jobs[j := t.jobs[j]])
    requires NeedsLeave(t.jobs[j]) && t.jobs[j].status.Completed? ==> !HasOpenSchedule(s, j)
    ensures RetentionOver(t)
  {
    assert HasOpenSchedule(t, j) ==> HasOpenSchedule(s, j);
    MovesRetention(s, t);
  }

  lemma JobRowCounts(s: Store, t: Store, j: JobId)
    requires Counters(s) && Capacity(s) && j < |s.jobs| && t.items == s.items && |t.jobs| == |s.jobs|
    requires t.jobs == s.jobs[j := t.jobs[j]] && JobStep(s.jobs[j], t.jobs[j])
    requires t.jobs[j].success == s.jobs[j].success && t.jobs[j].failed == s.jobs[j].failed && t.jobs[j].accepted == s.jobs[j].accepted
    ensures Counters(t) && Capacity(t)
  {
    assert JobCounters(s.jobs[j], s.items, j) && JobCapacity(s.jobs[j], s.items, j);
  }

  lemma JobRowIdle(s: Store, t: Store, j: JobId)
    requires Linked(s) && Linked(t) && OnlyInProgressWorks(s) && j < |s.jobs| && t.items == s.items && |t.jobs| == |s.jobs|
    requires t.jobs == s.jobs[j := t.jobs[j]] && CountInFlight(s.items, j) == 0
    ensures OnlyInProgressWorks(t)
  {
    forall k | 0 <= k < |t.items| && InFlight(t.items[k].status)
      ensures JobOf(t, k).status.InProgress?
    {
      CountPositive(s.items, j, t.items[k].status);
      assert s.items[k].job != j;
    }
  }

  /** The recount never moves a counter: the incremental counters were right all along. */
  lemma RecountAgrees(s: Store, j: JobId)
    requires j < |s.jobs| && JobCounters(s.jobs[j], s.items, j)
    ensures RefreshCounts(s, j) == s
  {
    assert RefreshJob(s.jobs[j], s.items, j) == s.jobs[j];
    assert s.jobs[j := s.jobs[j]] == s.jobs;
  }

  lemma SettleKeeps(s: Store, cfg: Config, j: JobId)
    requires Inv(s, cfg) && j < |s.jobs| && CountInFlight(s.items, j) == 0 && !Terminal(s.jobs[j].status)
    ensures Inv(Settle(s, j), cfg) && Progress(s, Settle(s, j))
  {
    assert StatusAgrees(s.jobs[j]);
    JobRowKeeps(s, cfg, j, Settle(s, j).jobs[j]);
  }

  lemma CompleteActiveKeeps(s: Store, cfg: Config, j: JobId)
    requires Inv(s, cfg) && j < |s.jobs|
    ensures Inv(CompleteActiveJob(s, j), cfg) && Progress(s, CompleteActiveJob(s, j))
  {
    if !HasOpenSchedule(s, j) && s.jobs[j].status.Active? {
      assert StatusAgrees(s.jobs[j]);
      CountPositive(s.items, j, ItemStatus.Pending);
      CountPositive(s.items, j, ItemStatus.Running);
      JobRowKeeps(s, cfg, j, CompleteActiveJob(s, j).jobs[j]);
    } else {
      Rearranges(s, s, cfg);
    }
  }

  /** A leave came back well: the membership and the schedule row are written. */
  lemma ScheduleDoneKeeps(s: Store, cfg: Config, i: ItemId)
    requires Inv(s, cfg) && i in s.schedules && ScheduleOpen(s.schedules[i].status)
    ensures var schedule := s.schedules[i];
      var s1 := MarkMembership(s, schedule.account, schedule.key, false);
      var t := s1.(schedules := s1.schedules[i := schedule.(status := ScheduleStatus.Completed)]);
      Inv(t, cfg) && Progress(s, t)
  {
    var schedule := s.schedules[i];
    LeftKeeps(s, cfg, schedule.account, schedule.key);
    var s1 := MarkMembership(s, schedule.account, schedule.key, false);
    SchedulesKeep(s1, cfg, i, schedule.(status := ScheduleStatus.Completed));
    ProgressTrans(s, s1, s1.(schedules := s1.schedules[i := schedule.(status := ScheduleStatus.Completed)]));
  }

  lemma FinishLeaveKeeps(s: Store, cfg: Config, i: ItemId, left: bool)
    requires Inv(s, cfg) && i in s.schedules && s.schedules[i].status.Processing?
    ensures s.schedules[i].job < |s.jobs|
    ensures Inv(FinishLeave(s, i, left), cfg) && Progress(s, FinishLeave(s, i, left))
  {
    assert NeedsSchedule(s, i);
    if left {
      var schedule := s.schedules[i];
      ScheduleDoneKeeps(s, cfg, i);
      var s1 := MarkMembership(s, schedule.account, schedule.key, false);
      var s2 := s1.(schedules := s1.schedules[i := schedule.(status := ScheduleStatus.Completed)]);
      CompleteActiveKeeps(s2, cfg, schedule.job);
      ProgressTrans(s, s2, CompleteActiveJob(s2, schedule.job));
    } else {
      SchedulesKeep(s, cfg, i, s.schedules[i].(status := ScheduleStatus.Fail));
    }
  }
}
