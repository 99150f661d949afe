/** How jobs end: the transition table of job statuses, retention, and the two ways the promise of an outcome fails. */
module OrderOutcomes {
  import opened Common
  import opened OrderStore
  import opened OrderSteps
  import opened OrderInvariant
  import opened OrderKeeps
  import opened OrderAppends
  import opened OrderRuns

  // ── the transition table ───────────────────────────────────────────────────

  /** The schedule of item `i` is the only one of job `j` still open. */
  ghost predicate LastOpen(s: Store, j: JobId, i: ItemId) {
    i in s.schedules && s.schedules[i].job == j
    && forall k :: k in s.schedules && k != i && s.schedules[k].job == j ==> !ScheduleOpen(s.schedules[k].status)
  }

  /** The answer cancels the whole job. */
  ghost predicate Cancels(s: Store, i: ItemId, outcome: Outcome)
    requires Linked(s) && i < |s.items|
  {
    outcome.BadTarget? && !outcome.sawSuccess && !NotThere(s, i, outcome)
  }

  /** The status of job `j` after event `e`, in terms of the rows before it. */
  ghost function StatusAfter(s: Store, cfg: Config, e: Event, j: JobId): JobStatus
    requires Linked(s) && Enabled(s, e) && j < |s.jobs|
  {
    match e
    case ItemAnswered(i, outcome) =>
      if s.items[i].job == j && Cancels(s, i, outcome) then (if s.jobs[j].success > 0 then JobStatus.Partial else JobStatus.Fail)
      else s.jobs[j].status
    case JobFinalized(k, locked) =>
      if k == j && Settles(s, cfg, j, locked) then Verdict(s.jobs[j]) else s.jobs[j].status
    case LeaveReturned(i, left) =>
      if left && s.jobs[j].status.Active? && LastOpen(s, j, i) then JobStatus.Completed else s.jobs[j].status
    case _ => s.jobs[j].status
  }

  /** The cancellation rewrites one job row. */
  lemma CancelShape(s: Store, j: JobId)
    requires j < |s.jobs|
    ensures var t := CancelInvalidTarget(s, j);
      && |t.jobs| == |s.jobs| && t.schedules == s.schedules
      && (forall k :: 0 <= k < |s.jobs| && k != j ==> t.jobs[k] == s.jobs[k])
      && (!Terminal(s.jobs[j].status) ==> t.jobs[j].status == if s.jobs[j].success > 0 then JobStatus.Partial else JobStatus.Fail)
  {
  }

  lemma SucceedShape(s: Store, i: ItemId)
    requires Linked(s) && i < |s.items|
    ensures var t := Succeed(s, i);
      && t.jobs == FinishItem(s, i, ItemStatus.Success, Plain).jobs
      && t.items == FinishItem(s, i, ItemStatus.Success, Plain).items && t.accounts == s.accounts
      && t.schedules == (if JobOf(s, i).action.Join? then CreateAutoLeave(s, i).schedules else s.schedules)
  {
    match JobOf(s, i).action
    case Join => JoinShape(s, i);
    case View =>
    case Leave =>
  }

  lemma JoinShape(s: Store, i: ItemId)
    requires Linked(s) && i < |s.items| && JobOf(s, i).action.Join?
    ensures var t := Succeed(s, i);
      && t.jobs == FinishItem(s, i, ItemStatus.Success, Plain).jobs
      && t.items == FinishItem(s, i, ItemStatus.Success, Plain).items && t.accounts == s.accounts
      && t.schedules == CreateAutoLeave(s, i).schedules
  {
    MarkedShape(s, s.items[i].account, JobOf(s, i).key, true);
    hide MarkMembership, Linked;
  }

  lemma MarkedShape(s: Store, a: AccountId, key: Key, joined: bool)
    ensures MarkMembership(s, a, key, joined) == s.(memberships := MarkMembership(s, a, key, joined).memberships)
  {
  }

  /** An answer that does not cancel finishes the item; it keeps every status and at most adds the item's schedule. */
  lemma AnswerFinishes(s: Store, cfg: Config, i: ItemId, outcome: Outcome) returns (status: ItemStatus, message: Message)
    requires Linked(s) && i < |s.items| && !Cancels(s, i, outcome)
    ensures !InFlight(status)
    ensures var t, f := Complete(s, cfg, i, outcome), FinishItem(s, i, status, message);
      t.items == f.items && t.jobs == f.jobs && |t.accounts| == |s.accounts|
      && (t.schedules == s.schedules || t.schedules == CreateAutoLeave(s, i).schedules)
  {
    if NotThere(s, i, outcome) {
      status, message := ItemStatus.Skipped, Plain;
    } else if outcome.Done? || outcome.AlreadyDone? {
      status, message := PositiveAnswer(s, cfg, i, outcome);
    } else {
      status := if outcome.Broken? then ItemStatus.Failed else ItemStatus.Skipped;
      message := match outcome
        case BadTarget(_) => TransientTarget
        case Dead => SessionDead
        case TooMany(_) => Message.Throttled
        case NoConnection => ConnError
        case _ => Plain;
    }
  }

  lemma PositiveAnswer(s: Store, cfg: Config, i: ItemId, outcome: Outcome) returns (status: ItemStatus, message: Message)
    requires Linked(s) && i < |s.items| && !NotThere(s, i, outcome) && (outcome.Done? || outcome.AlreadyDone?)
    ensures !InFlight(status)
    ensures var t, f := Complete(s, cfg, i, outcome), FinishItem(s, i, status, message);
      t.items == f.items && t.jobs == f.jobs && |t.accounts| == |s.accounts|
      && (t.schedules == s.schedules || t.schedules == CreateAutoLeave(s, i).schedules)
  {
    message := Plain;
    if outcome.Done? || JobOf(s, i).action.Join? {
      status := ItemStatus.Success;
      SucceedShape(s, i);
    } else {
      status := ItemStatus.Skipped;
    }
  }

  /** An answer touches only its own job's row, and its status only by cancelling. */
  lemma CompleteShape(s: Store, cfg: Config, i: ItemId, outcome: Outcome)
    requires Linked(s) && i < |s.items|
    ensures var t := Complete(s, cfg, i, outcome);
      && |t.jobs| == |s.jobs|
      && (forall k :: 0 <= k < |s.jobs| && k != s.items[i].job ==> t.jobs[k] == s.jobs[k])
      && (t.schedules == s.schedules || t.schedules == CreateAutoLeave(s, i).schedules)
      && (!Cancels(s, i, outcome) ==> t.jobs[s.items[i].job].status == JobOf(s, i).status)
      && (Cancels(s, i, outcome) && !Terminal(JobOf(s, i).status) ==>
            t.jobs[s.items[i].job].status == if JobOf(s, i).success > 0 then JobStatus.Partial else JobStatus.Fail)
  {
    if Cancels(s, i, outcome) {
      CancelShape(FinishItem(s, i, ItemStatus.Skipped, Message.InvalidTarget), s.items[i].job);
    } else {
      var status, message := AnswerFinishes(s, cfg, i, outcome);
    }
  }

  lemma AnswerStatus(s: Store, cfg: Config, i: ItemId, outcome: Outcome, j: JobId)
    requires Inv(s, cfg) && i < |s.items| && s.items[i].status.Running? && j < |s.jobs|
    ensures |Complete(s, cfg, i, outcome).jobs| == |s.jobs|
    ensures Complete(s, cfg, i, outcome).jobs[j].status ==
      if s.items[i].job == j && Cancels(s, i, outcome) then (if s.jobs[j].success > 0 then JobStatus.Partial else JobStatus.Fail)
      else s.jobs[j].status
  {
    CompleteShape(s, cfg, i, outcome);
    InFlightInProgress(s, i);
  }

  lemma InFlightInProgress(s: Store, i: ItemId)
    requires Linked(s) && OnlyInProgressWorks(s) && i < |s.items| && InFlight(s.items[i].status)
    ensures JobOf(s, i).status.InProgress?
  {
  }

  lemma LeaveStatus(s: Store, cfg: Config, i: ItemId, left: bool, j: JobId)
    requires Inv(s, cfg) && i in s.schedules && s.schedules[i].status.Processing? && s.schedules[i].job < |s.jobs| && j < |s.jobs|
    ensures var t := FinishLeave(s, i, left);
      |t.jobs| == |s.jobs| && t.jobs[j].status ==
        if left && s.jobs[j].status.Active? && LastOpen(s, j, i) then JobStatus.Completed else s.jobs[j].status
  {
    hide Inv;
    if left && s.schedules[i].job == j {
      var schedule := s.schedules[i];
      var s1 := MarkMembership(s, schedule.account, schedule.key, false);
      var s2 := s1.(schedules := s1.schedules[i := schedule.(status := ScheduleStatus.Completed)]);
      if !LastOpen(s, j, i) {
        var k :| k in s.schedules && k != i && s.schedules[k].job == j && ScheduleOpen(s.schedules[k].status);
        assert s2.schedules[k] == s.schedules[k];
        assert HasOpenSchedule(s2, j);
      }
    }
  }

  lemma FinalizeStatus(s: Store, cfg: Config, k: JobId, locked: set<AccountId>, j: JobId)
    requires Inv(s, cfg) && k < |s.jobs| && j < |s.jobs|
    ensures var (t, r) := Finalize(s, cfg, k, locked);
      |t.jobs| == |s.jobs| && t.schedules == s.schedules
      && t.jobs[j].status == if k == j && Settles(s, cfg, k, locked) then Verdict(s.jobs[j]) else s.jobs[j].status
  {
    hide Settles, Replacements;
    FinalizeCases(s, cfg, k, locked);
    FinalizeDecides(s, cfg, k, locked);
  }

  /** The other events change no status. */
  lemma OthersKeepStatus(s: Store, cfg: Config, e: Event, j: JobId)
    requires Linked(s) && Enabled(s, e) && !e.ItemAnswered? && !e.JobFinalized? && !e.LeaveReturned? && j < |s.jobs|
    ensures j < |Apply(s, cfg, e).jobs| && Apply(s, cfg, e).jobs[j].status == StatusAfter(s, cfg, e, j)
  {
    if e.ItemClaimed? {
      ClaimShape(s, cfg, e.item);
    }
  }

  /** The table is right, for every event and every job. */
  lemma StatusTable(s: Store, cfg: Config, e: Event, j: JobId)
    requires Inv(s, cfg) && Enabled(s, e) && j < |s.jobs|
    ensures j < |Apply(s, cfg, e).jobs| && Apply(s, cfg, e).jobs[j].status == StatusAfter(s, cfg, e, j)
  {
    LinkedIn(s, cfg);
    match e
    case ItemAnswered(i, outcome) => AnswerStatus(s, cfg, i, outcome, j);
    case JobFinalized(k, locked) => FinalizeStatus(s, cfg, k, locked, j);
    case LeaveReturned(i, left) => LeaveStatus(s, cfg, i, left, j);
    case _ => OthersKeepStatus(s, cfg, e, j);
  }

  // ── retention ──────────────────────────────────────────────────────────────

  /** Items of a job in one status. */
  function ItemsIn(items: seq<Item>, j: JobId, status: ItemStatus): set<ItemId> {
    set i: ItemId | i < |items| && items[i].job == j && items[i].status == status
  }

  lemma ItemsInLast(items: seq<Item>, j: JobId, status: ItemStatus)
    requires items != []
    ensures var n := |items| - 1; var rest := ItemsIn(items[..n], j, status);
      ItemsIn(items, j, status) == if Belongs(items[n], j, status) then rest + {n} else rest
  {
  }

  lemma {:induction false} CountIsCardinality(items: seq<Item>, j: JobId, status: ItemStatus)
    ensures Count(items, j, status) == |ItemsIn(items, j, status)|
  {
    if items != [] {
      var n := |items| - 1;
      CountIsCardinality(items[..n], j, status);
      ItemsInLast(items, j, status);
    }
  }

  /** In every run: one schedule per success of a retained join and no other, each naming its item's job and account. */
  lemma SchedulesAreSuccesses(cfg: Config, states: seq<Store>, events: seq<Event>, n: nat, j: JobId)
    requires IsRun(cfg, states, events) && n < |states| && j < |states[n].jobs|
    ensures var s := states[n]; var mine := set i | i in s.schedules && s.schedules[i].job == j;
      && mine == (if NeedsLeave(s.jobs[j]) then ItemsIn(s.items, j, ItemStatus.Success) else {})
      && |mine| == (if NeedsLeave(s.jobs[j]) then s.jobs[j].success else 0)
      && forall i :: i in mine ==> s.schedules[i].account == s.items[i].account && s.schedules[i].key == s.jobs[j].key
  {
    RunKeeps(cfg, states, events, n);
    var s := states[n];
    var mine := set i | i in s.schedules && s.schedules[i].job == j;
    forall i: nat
      ensures i in mine <==> NeedsLeave(s.jobs[j]) && i in ItemsIn(s.items, j, ItemStatus.Success)
    {
      assert i in s.schedules <==> NeedsSchedule(s, i);
    }
    assert mine == if NeedsLeave(s.jobs[j]) then ItemsIn(s.items, j, ItemStatus.Success) else {};
    assert JobCounters(s.jobs[j], s.items, j);
    CountIsCardinality(s.items, j, ItemStatus.Success);
  }

  /** A retained job reaches COMPLETED only from ACTIVE, when its last open schedule comes back well. */
  lemma CompletedFromActive(s: Store, cfg: Config, e: Event, j: JobId)
    requires Inv(s, cfg) && Enabled(s, e) && j < |s.jobs| && NeedsLeave(s.jobs[j])
    requires !s.jobs[j].status.Completed? && StatusAfter(s, cfg, e, j).Completed?
    ensures s.jobs[j].status.Active? && e.LeaveReturned? && e.left && LastOpen(s, j, e.item)
  {
  }

  lemma CreatedNotCompleted(s: Store, cfg: Config, e: Event, j: JobId)
    requires Inv(s, cfg) && Enabled(s, e) && |s.jobs| <= j < |Apply(s, cfg, e).jobs|
    ensures !Apply(s, cfg, e).jobs[j].status.Completed?
  {
    StatusTableNew(s, cfg, e);
  }

  lemma StatusTableNew(s: Store, cfg: Config, e: Event)
    requires Inv(s, cfg) && Enabled(s, e)
    ensures !e.OrderPlaced? ==> |Apply(s, cfg, e).jobs| == |s.jobs|
  {
    match e
    case ItemAnswered(i, outcome) => CompleteShape(s, cfg, i, outcome);
    case JobFinalized(k, locked) => FinalizeStatus(s, cfg, k, locked, k);
    case ItemClaimed(i) => ClaimShape(s, cfg, i);
    case LeaveReturned(i, left) => LeaveStatus(s, cfg, i, left, s.schedules[i].job);
    case _ =>
  }

  /** Where a completed retained job stood one step earlier. */
  ghost predicate CompletesLate(s: Store, t: Store, j: JobId) {
    j < |t.jobs| && NeedsLeave(t.jobs[j]) && t.jobs[j].status.Completed?
    ==> j < |s.jobs| && NeedsLeave(s.jobs[j]) && (s.jobs[j].status.Completed? || s.jobs[j].status.Active?)
  }

  lemma StepCompletesLate(s: Store, cfg: Config, e: Event, j: JobId)
    requires Inv(s, cfg) && Enabled(s, e)
    ensures CompletesLate(s, Apply(s, cfg, e), j)
  {
    StepKeeps(s, cfg, e);
    var t := Apply(s, cfg, e);
    if j < |t.jobs| && NeedsLeave(t.jobs[j]) && t.jobs[j].status.Completed? {
      if j < |s.jobs| {
        assert JobStep(s.jobs[j], t.jobs[j]);
        StatusTable(s, cfg, e, j);
        if !s.jobs[j].status.Completed? {
          CompletedFromActive(s, cfg, e, j);
        }
      } else {
        CreatedNotCompleted(s, cfg, e, j);
      }
    }
  }

  lemma {:induction false} WasActive(states: seq<Store>, n: nat, j: JobId) returns (m: nat)
    requires n < |states| && |states[0].jobs| == 0
    requires forall k :: 0 <= k < n ==> CompletesLate(states[k], states[k + 1], j)
    requires j < |states[n].jobs| && NeedsLeave(states[n].jobs[j]) && states[n].jobs[j].status.Completed?
    ensures m < n && j < |states[m].jobs| && states[m].jobs[j].status.Active?
  {
    assert CompletesLate(states[n - 1], states[n - 1 + 1], j);
    if states[n - 1].jobs[j].status.Completed? {
      m := WasActive(states, n - 1, j);
    } else {
      m := n - 1;
    }
  }

  /** Over a run: a completed retained job was ACTIVE before, and all its schedules are over. */
  lemma CompletedViaActive(cfg: Config, states: seq<Store>, events: seq<Event>, n: nat, j: JobId) returns (m: nat)
    requires IsRun(cfg, states, events) && n < |states| && j < |states[n].jobs|
    requires NeedsLeave(states[n].jobs[j]) && states[n].jobs[j].status.Completed?
    ensures m < n && j < |states[m].jobs| && states[m].jobs[j].status.Active?
    ensures forall i :: i in states[n].schedules && states[n].schedules[i].job == j
              ==> states[n].schedules[i].status.Completed? || states[n].schedules[i].status.Fail?
  {
    RunKeeps(cfg, states, events, n);
    assert !HasOpenSchedule(states[n], j);
    forall i | i in states[n].schedules && states[n].schedules[i].job == j
      ensures !ScheduleOpen(states[n].schedules[i].status)
    {
    }
    forall k | 0 <= k < n
      ensures CompletesLate(states[k], states[k + 1], j)
    {
      RunStep(cfg, states, events, k);
      StepCompletesLate(states[k], cfg, events[k], j);
    }
    m := WasActive(states, n, j);
  }

  // ── ACTIVE for ever ────────────────────────────────────────────────────────

  /** The job waits for its retention period, but nothing is scheduled any more. */
  ghost predicate Stranded(s: Store, j: JobId)
    requires j < |s.jobs|
  {
    s.jobs[j].status.Active? && !HasOpenSchedule(s, j)
  }

  lemma StartOpen(s: Store, i: ItemId, j: JobId)
    ensures HasOpenSchedule(StartLeave(s, i), j) <==> HasOpenSchedule(s, j)
  {
    var t := StartLeave(s, i);
    if k :| k in s.schedules && s.schedules[k].job == j && ScheduleOpen(s.schedules[k].status) {
      assert t.schedules[k].job == j && ScheduleOpen(t.schedules[k].status);
    }
    if k :| k in t.schedules && t.schedules[k].job == j && ScheduleOpen(t.schedules[k].status) {
      assert s.schedules[k].job == j && ScheduleOpen(s.schedules[k].status);
    }
  }

  /** Another job's new schedule. */
  lemma AnswerOpen(s: Store, cfg: Config, i: ItemId, outcome: Outcome, j: JobId)
    requires Linked(s) && i < |s.items| && i !in s.schedules && s.items[i].job != j
    ensures HasOpenSchedule(Complete(s, cfg, i, outcome), j) <==> HasOpenSchedule(s, j)
  {
    CompleteShape(s, cfg, i, outcome);
    OtherOpen(s, Complete(s, cfg, i, outcome), i, j);
  }

  lemma OtherOpen(s: Store, t: Store, i: ItemId, j: JobId)
    requires Linked(s) && i < |s.items| && i !in s.schedules && s.items[i].job != j
    requires t.schedules == s.schedules || t.schedules == CreateAutoLeave(s, i).schedules
    ensures HasOpenSchedule(t, j) <==> HasOpenSchedule(s, j)
  {
    if k :| k in s.schedules && s.schedules[k].job == j && ScheduleOpen(s.schedules[k].status) {
      assert t.schedules[k] == s.schedules[k];
    }
  }

  lemma ReturnShape(s: Store, i: ItemId, left: bool)
    requires i in s.schedules && s.schedules[i].job < |s.jobs|
    ensures FinishLeave(s, i, left).schedules == s.schedules[i := s.schedules[i].(status := if left then ScheduleStatus.Completed else ScheduleStatus.Fail)]
  {
  }

  lemma ReturnOpen(s: Store, t: Store, i: ItemId, left: bool, j: JobId)
    requires i in s.schedules && s.schedules[i].status.Processing?
    requires t.schedules == s.schedules[i := s.schedules[i].(status := if left then ScheduleStatus.Completed else ScheduleStatus.Fail)]
    ensures HasOpenSchedule(t, j) <==> HasOpenSchedule(s, j) && !LastOpen(s, j, i)
  {
    if k :| k in s.schedules && k != i && s.schedules[k].job == j && ScheduleOpen(s.schedules[k].status) {
      assert t.schedules[k].job == j && ScheduleOpen(t.schedules[k].status);
    }
    if k :| k in t.schedules && t.schedules[k].job == j && ScheduleOpen(t.schedules[k].status) {
      assert k != i && s.schedules[k] == t.schedules[k];
    }
    if HasOpenSchedule(s, j) && !LastOpen(s, j, i) && s.schedules[i].job == j {
      var k :| k in s.schedules && k != i && s.schedules[k].job == j && ScheduleOpen(s.schedules[k].status);
      assert t.schedules[k].job == j && ScheduleOpen(t.schedules[k].status);
    }
  }

  lemma IdleHasNoRunning(s: Store, i: ItemId, j: JobId)
    requires i < |s.items| && s.items[i].status.Running? && CountInFlight(s.items, j) == 0
    ensures s.items[i].job != j
  {
    CountPositive(s.items, j, ItemStatus.Running);
  }

  lemma SameOpen(s: Store, t: Store, j: JobId)
    requires t.schedules == s.schedules
    ensures HasOpenSchedule(t, j) <==> HasOpenSchedule(s, j)
  {
  }

  /** How the open schedules of a job that has no work in flight move. */
  lemma OpenAfter(s: Store, cfg: Config, e: Event, j: JobId)
    requires Inv(s, cfg) && Enabled(s, e) && j < |s.jobs| && CountInFlight(s.items, j) == 0
    ensures HasOpenSchedule(Apply(s, cfg, e), j)
      <==> HasOpenSchedule(s, j) && !(e.LeaveReturned? && LastOpen(s, j, e.item))
  {
    match e
    case ItemAnswered(i, outcome) =>
      IdleHasNoRunning(s, i, j);
      assert !NeedsSchedule(s, i);
      AnswerOpen(s, cfg, i, outcome, j);
    case LeaveReturned(i, left) =>
      ReturnShape(s, i, left);
      ReturnOpen(s, FinishLeave(s, i, left), i, left, j);
    case LeaveStarted(i) => StartOpen(s, i, j);
    case _ =>
      SchedulesUntouched(s, cfg, e);
      SameOpen(s, Apply(s, cfg, e), j);
  }

  lemma SchedulesUntouched(s: Store, cfg: Config, e: Event)
    requires Inv(s, cfg) && Enabled(s, e) && !e.ItemAnswered? && !e.LeaveReturned? && !e.LeaveStarted?
    ensures Apply(s, cfg, e).schedules == s.schedules
  {
    match e
    case JobFinalized(k, locked) => FinalizeStatus(s, cfg, k, locked, k);
    case ItemClaimed(i) => ClaimShape(s, cfg, i);
    case _ =>
  }

  lemma ActiveIsIdle(s: Store, cfg: Config, j: JobId)
    requires Inv(s, cfg) && j < |s.jobs| && !s.jobs[j].status.InProgress?
    ensures CountInFlight(s.items, j) == 0
  {
    CountPositive(s.items, j, ItemStatus.Pending);
    CountPositive(s.items, j, ItemStatus.Running);
  }

  /** At every moment of every run a job that is no longer in progress has nothing in flight, and its status says
      what it delivered: all that was asked, some of it (or all, when its target was found invalid), or nothing. */
  lemma SettledStatusesAgree(cfg: Config, states: seq<Store>, events: seq<Event>, n: nat, j: JobId)
    requires IsRun(cfg, states, events) && n < |states| && j < |states[n].jobs|
    ensures var job := states[n].jobs[j];
      && (!job.status.InProgress? ==> CountInFlight(states[n].items, j) == 0)
      && (job.status.Completed? ==> job.success >= job.requested && !job.invalidTarget)
      && (job.status.Active? ==> job.success >= job.requested && !job.invalidTarget && NeedsLeave(job))
      && (job.status.Partial? ==> job.success > 0 && (job.success < job.requested || job.invalidTarget))
      && (job.status.Fail? ==> job.success == 0)
      && !job.status.Pending? && !job.status.Error?
  {
    RunKeeps(cfg, states, events, n);
    assert StatusAgrees(states[n].jobs[j]);
    if !states[n].jobs[j].status.InProgress? {
      ActiveIsIdle(states[n], cfg, j);
    }
  }

  /** A stranded job stays stranded whatever happens. */
  lemma StrandedStays(s: Store, cfg: Config, e: Event, j: JobId)
    requires Inv(s, cfg) && Enabled(s, e) && j < |s.jobs| && Stranded(s, j)
    ensures j < |Apply(s, cfg, e).jobs| && Stranded(Apply(s, cfg, e), j)
  {
    ActiveIsIdle(s, cfg, j);
    OpenAfter(s, cfg, e, j);
    StatusTable(s, cfg, e, j);
    assert StatusAgrees(s.jobs[j]);
    if e.ItemAnswered? {
      IdleHasNoRunning(s, e.item, j);
    }
    if e.LeaveReturned? && s.schedules[e.item].job == j {
      ProcessingIsOpen(s, e.item);
      assert false;
    }
  }

  lemma ProcessingIsOpen(s: Store, i: ItemId)
    requires i in s.schedules && s.schedules[i].status.Processing?
    ensures HasOpenSchedule(s, s.schedules[i].job)
  {
  }

  ghost predicate StaysStranded(s: Store, t: Store, j: JobId) {
    j < |s.jobs| && Stranded(s, j) ==> j < |t.jobs| && Stranded(t, j)
  }

  lemma {:induction false} StrandedChain(states: seq<Store>, m: nat, n: nat, j: JobId)
    requires m <= n < |states| && j < |states[m].jobs| && Stranded(states[m], j)
    requires forall k :: m <= k < n ==> StaysStranded(states[k], states[k + 1], j)
    ensures j < |states[n].jobs| && Stranded(states[n], j)
    decreases n - m
  {
    if m < n {
      StrandedChain(states, m, n - 1, j);
      assert StaysStranded(states[n - 1], states[n - 1 + 1], j);
    }
  }

  /** No later state of the run completes it. */
  lemma StrandedForEver(cfg: Config, states: seq<Store>, events: seq<Event>, m: nat, n: nat, j: JobId)
    requires IsRun(cfg, states, events) && m <= n < |states| && j < |states[m].jobs| && Stranded(states[m], j)
    ensures j < |states[n].jobs| && states[n].jobs[j].status.Active? && !HasOpenSchedule(states[n], j)
  {
    forall k | m <= k < n
      ensures StaysStranded(states[k], states[k + 1], j)
    {
      RunStep(cfg, states, events, k);
      if j < |states[k].jobs| && Stranded(states[k], j) {
        StrandedStays(states[k], cfg, events[k], j);
      }
    }
    StrandedChain(states, m, n, j);
  }

  // ── a leave that never comes back ──────────────────────────────────────────

  /** The event brings the auto-leave of item `i` back, well or not. */
  predicate Returns(e: Event, i: ItemId) {
    e.LeaveReturned? && e.item == i
  }

  ghost predicate UnderWay(s: Store, i: ItemId) {
    i in s.schedules && s.schedules[i].status.Processing?
  }

  lemma UnderWayStays(s: Store, cfg: Config, e: Event, i: ItemId)
    requires Inv(s, cfg) && Enabled(s, e) && UnderWay(s, i) && !Returns(e, i)
    ensures UnderWay(Apply(s, cfg, e), i)
  {
    hide Complete, Create, Claim, Finalize, RecoverStale, FinishLeave, Inv;
    match e
    case ItemAnswered(k, outcome) =>
      LinkedIn(s, cfg);
      CompleteShape(s, cfg, k, outcome);
    case LeaveReturned(k, left) => ReturnShape(s, k, left);
    case LeaveStarted(k) =>
    case _ => SchedulesUntouched(s, cfg, e);
  }

  lemma {:induction false} UnderWayUntilItReturns(cfg: Config, states: seq<Store>, events: seq<Event>, m: nat, n: nat, i: ItemId)
    requires IsRun(cfg, states, events) && m <= n < |states| && UnderWay(states[m], i)
    requires forall k :: m <= k < n ==> !Returns(events[k], i)
    ensures UnderWay(states[n], i)
    decreases n
  {
    hide Inv, Progress, Apply, Enabled;
    if m < n {
      UnderWayUntilItReturns(cfg, states, events, m, n - 1, i);
      RunStep(cfg, states, events, n - 1);
      UnderWayStays(states[n - 1], cfg, events[n - 1], i);
    }
  }

  lemma NotCompletedUnderWay(s: Store, cfg: Config, i: ItemId)
    requires Inv(s, cfg) && UnderWay(s, i)
    ensures s.schedules[i].job < |s.jobs| && !s.jobs[s.schedules[i].job].status.Completed?
  {
    assert NeedsSchedule(s, i);
    var j := s.schedules[i].job;
    assert HasOpenSchedule(s, j);
  }

  /** Nothing recovers an auto-leave whose worker died: until that very leave comes back, well or not, its job is
      not completed, and an ACTIVE job stays ACTIVE. */
  lemma NotCompletedUntilItReturns(cfg: Config, states: seq<Store>, events: seq<Event>, m: nat, n: nat, i: ItemId)
    requires IsRun(cfg, states, events) && m <= n < |states| && UnderWay(states[m], i)
    requires forall k :: m <= k < n ==> !Returns(events[k], i)
    ensures UnderWay(states[n], i) && states[n].schedules[i].job == states[m].schedules[i].job
    ensures var j := states[m].schedules[i].job;
      && j < |states[m].jobs| && j < |states[n].jobs| && !states[n].jobs[j].status.Completed?
      && (states[m].jobs[j].status.Active? ==> states[n].jobs[j].status.Active?)
  {
    hide Inv;
    UnderWayUntilItReturns(cfg, states, events, m, n, i);
    RunProgress(cfg, states, events, m, n);
    assert ScheduleStep(states[m].schedules[i], states[n].schedules[i]);
    RunKeeps(cfg, states, events, m);
    RunKeeps(cfg, states, events, n);
    NotCompletedUnderWay(states[m], cfg, i);
    NotCompletedUnderWay(states[n], cfg, i);
    assert JobStep(states[m].jobs[states[m].schedules[i].job], states[n].jobs[states[m].schedules[i].job]);
  }

  /** A job in progress that delivered what must be undone later settles, and its leaves are over already. */
  ghost predicate SettlesLate(s: Store, cfg: Config, j: JobId, locked: set<AccountId>)
    requires Linked(s) && j < |s.jobs|
  {
    var job := s.jobs[j];
    && Settles(s, cfg, j, locked) && job.status.InProgress?
    && NeedsLeave(job) && job.success >= job.requested && !HasOpenSchedule(s, j)
  }

  /**
   * Exactly when a step strands a job: its last leave fails, or it settles as ACTIVE
   * after all its leaves are already over.
   */
  lemma StrandsExactlyWhen(s: Store, cfg: Config, e: Event, j: JobId)
    requires Inv(s, cfg) && Enabled(s, e) && j < |s.jobs| && !Stranded(s, j)
    ensures j < |Apply(s, cfg, e).jobs|
    ensures Stranded(Apply(s, cfg, e), j) <==>
      || (e.LeaveReturned? && !e.left && s.jobs[j].status.Active? && LastOpen(s, j, e.item))
      || (e.JobFinalized? && e.job == j && SettlesLate(s, cfg, j, e.locked))
  {
    StatusTable(s, cfg, e, j);
    if s.jobs[j].status.Active? {
      ActiveIsIdle(s, cfg, j);
      OpenAfter(s, cfg, e, j);
      if e.ItemAnswered? {
        IdleHasNoRunning(s, e.item, j);
      }
    } else if e.JobFinalized? {
      FinalizeStatus(s, cfg, e.job, e.locked, j);
    }
  }
}
