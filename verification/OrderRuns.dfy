/** Whole runs of the order engine: any interleaving of its steps from an empty store. */
module OrderRuns {
  import opened Common
  import opened OrderStore
  import opened OrderSteps
  import opened OrderInvariant
  import opened OrderKeeps
  import opened OrderAppends

  datatype Event =
    | OrderPlaced(order: Order, locked: set<AccountId>, leavers: seq<AccountId>)
    | ItemClaimed(item: ItemId)
    | ItemAnswered(item: ItemId, outcome: Outcome)
    | JobFinalized(job: JobId, locked: set<AccountId>)
    | WorkersRecovered
    | LeaveStarted(item: ItemId)
    | LeaveReturned(item: ItemId, left: bool)
    | AccountSet(account: AccountId, status: AccountStatus)
    | AccountAdded
    | Ticked(delta: nat)

  /** What the environment may do next. Only the worker that claimed an item answers it. */
  ghost predicate Enabled(s: Store, e: Event)
    requires Linked(s)
  {
    match e
    case OrderPlaced(o, locked, leavers) => o.action.Leave? && o.count >= 1 ==> LeaveChoice(s, o.key, o.count, leavers)
    case ItemClaimed(i) => i < |s.items|
    case ItemAnswered(i, outcome) =>
      && i < |s.items| && s.items[i].status.Running?
      // a success read earlier is still there; one that was not there may have arrived since
      && (outcome.BadTarget? && outcome.sawSuccess ==> JobOf(s, i).success > 0)
    case JobFinalized(j, locked) => j < |s.jobs|
    case LeaveReturned(i, left) => i in s.schedules && s.schedules[i].status.Processing? && s.schedules[i].job < |s.jobs|
    case AccountSet(a, status) => a < |s.accounts|
    case _ => true
  }

  ghost function Apply(s: Store, cfg: Config, e: Event): Store
    requires Linked(s) && Enabled(s, e)
  {
    match e
    case OrderPlaced(o, locked, leavers) => Create(s, cfg, o, locked, leavers).0
    case ItemClaimed(i) => Claim(s, cfg, i).0
    case ItemAnswered(i, outcome) => Complete(s, cfg, i, outcome)
    case JobFinalized(j, locked) => Finalize(s, cfg, j, locked).0
    case WorkersRecovered => RecoverStale(s)
    case LeaveStarted(i) => StartLeave(s, i)
    case LeaveReturned(i, left) => FinishLeave(s, i, left)
    case AccountSet(a, status) => SetAccount(s, a, status)
    case AccountAdded => AddAccount(s)
    case Ticked(delta) => Tick(s, delta)
  }

  /** One step keeps the invariant and makes progress. */
  lemma StepKeeps(s: Store, cfg: Config, e: Event)
    requires Inv(s, cfg) && Enabled(s, e)
    ensures Inv(Apply(s, cfg, e), cfg) && Progress(s, Apply(s, cfg, e))
  {
    match e
    case OrderPlaced(o, locked, leavers) => CreateKeeps(s, cfg, o, locked, leavers);
    case ItemClaimed(i) => ClaimKeeps(s, cfg, i);
    case ItemAnswered(i, outcome) => CompleteKeeps(s, cfg, i, outcome);
    case JobFinalized(j, locked) => FinalizeKeeps(s, cfg, j, locked);
    case WorkersRecovered => RecoverStaleKeeps(s, cfg);
    case LeaveStarted(i) => StartLeaveKeeps(s, cfg, i);
    case LeaveReturned(i, left) => FinishLeaveKeeps(s, cfg, i, left);
    case AccountSet(a, status) => AccountsKeep(s, cfg, s.accounts[a := status], s.throttles);
    case AccountAdded => AccountsKeep(s, cfg, s.accounts + [AccountStatus.Active], s.throttles);
    case Ticked(delta) => TickKeeps(s, cfg, delta);
  }

  function EmptyStore(now: Time): Store {
    Store([], [], [], map[], map[], map[], map[], now)
  }

  ghost predicate StepOf(cfg: Config, s: Store, e: Event, t: Store) {
    Linked(s) && Enabled(s, e) && t == Apply(s, cfg, e)
  }

  ghost predicate StepAt(cfg: Config, states: seq<Store>, events: seq<Event>, n: nat)
    requires |states| == |events| + 1 && n < |events|
  {
    StepOf(cfg, states[n], events[n], states[n + 1])
  }

  /** `states` is the history of a run and `events` what led from each state to the next. */
  ghost predicate IsRun(cfg: Config, states: seq<Store>, events: seq<Event>) {
    && |states| == |events| + 1
    && states[0] == EmptyStore(states[0].now)
    && forall n :: 0 <= n < |events| ==> StepAt(cfg, states, events, n)
  }

  lemma {:induction false} RunKeeps(cfg: Config, states: seq<Store>, events: seq<Event>, n: nat)
    requires IsRun(cfg, states, events) && n < |states|
    ensures Inv(states[n], cfg)
  {
    hide Inv, Apply, Enabled, Progress;
    if n == 0 {
      EmptyIsValid(cfg, states[0]);
    } else {
      RunKeeps(cfg, states, events, n - 1);
      assert StepAt(cfg, states, events, n - 1);
      StepKeeps(states[n - 1], cfg, events[n - 1]);
    }
  }

  lemma EmptyIsValid(cfg: Config, s: Store)
    requires s == EmptyStore(s.now)
    ensures Inv(s, cfg)
  {
  }

  lemma RunStep(cfg: Config, states: seq<Store>, events: seq<Event>, n: nat)
    requires IsRun(cfg, states, events) && n < |events|
    ensures Inv(states[n], cfg) && Enabled(states[n], events[n]) && states[n + 1] == Apply(states[n], cfg, events[n])
    ensures Progress(states[n], states[n + 1])
  {
    RunKeeps(cfg, states, events, n);
    assert StepAt(cfg, states, events, n);
    StepKeeps(states[n], cfg, events[n]);
  }

  lemma {:induction false} ChainProgress(states: seq<Store>, m: nat, n: nat)
    requires m <= n < |states|
    requires forall k :: m <= k < n ==> Progress(states[k], states[k + 1])
    ensures Progress(states[m], states[n])
    decreases n - m
  {
    if m < n {
      ChainProgress(states, m, n - 1);
      assert Progress(states[n - 1], states[n - 1 + 1]);
      ProgressTrans(states[m], states[n - 1], states[n]);
    }
  }

  lemma RunProgress(cfg: Config, states: seq<Store>, events: seq<Event>, m: nat, n: nat)
    requires IsRun(cfg, states, events) && m <= n < |states|
    ensures Progress(states[m], states[n])
  {
    forall k | m <= k < n
      ensures Progress(states[k], states[k + 1])
    {
      RunStep(cfg, states, events, k);
    }
    ChainProgress(states, m, n);
  }

  // ── what every run keeps ───────────────────────────────────────────────────

  /** Delivered and attempted items together never exceed the size of the order. */
  lemma NeverOverDelivers(cfg: Config, states: seq<Store>, events: seq<Event>, n: nat, j: JobId)
    requires IsRun(cfg, states, events) && n < |states| && j < |states[n].jobs|
    ensures Count(states[n].items, j, ItemStatus.Success) + CountInFlight(states[n].items, j) <= states[n].jobs[j].total
  {
    RunKeeps(cfg, states, events, n);
    assert JobCapacity(states[n].jobs[j], states[n].items, j);
  }

  /** The counters of every job row are the tallies of its items, and the three kinds add up. */
  lemma CountersAgree(cfg: Config, states: seq<Store>, events: seq<Event>, n: nat, j: JobId)
    requires IsRun(cfg, states, events) && n < |states| && j < |states[n].jobs|
    ensures var job, items := states[n].jobs[j], states[n].items;
      && job.success == Count(items, j, ItemStatus.Success)
      && job.failed == Count(items, j, ItemStatus.Failed)
      && job.accepted == CountAll(items, j)
      && job.accepted == job.success + job.failed + Count(items, j, ItemStatus.Skipped) + CountInFlight(items, j)
      && job.skipped >= Max(0, job.total - job.accepted) + Count(items, j, ItemStatus.Skipped)
  {
    RunKeeps(cfg, states, events, n);
    assert JobCounters(states[n].jobs[j], states[n].items, j);
    CountTotal(states[n].items, j);
  }

  /** A recount at any moment of any run changes nothing. */
  lemma RecountIsIdle(cfg: Config, states: seq<Store>, events: seq<Event>, n: nat, j: JobId)
    requires IsRun(cfg, states, events) && n < |states| && j < |states[n].jobs|
    ensures RefreshCounts(states[n], j) == states[n]
  {
    RunKeeps(cfg, states, events, n);
    RecountAgrees(states[n], j);
  }

  /** Over all jobs, one account has at most one join of a target under way, and none where it is a member. */
  lemma JoinsExclude(cfg: Config, states: seq<Store>, events: seq<Event>, n: nat, i: ItemId, k: ItemId)
    requires IsRun(cfg, states, events) && n < |states|
    requires Linked(states[n]) && i < |states[n].items| && k < |states[n].items|
    requires InFlight(states[n].items[i].status) && InFlight(states[n].items[k].status)
    requires JobOf(states[n], i).action.Join? && SameSlot(states[n], i, k)
    ensures i == k && !IsJoined(states[n], states[n].items[i].account, JobOf(states[n], i).key)
  {
    RunKeeps(cfg, states, events, n);
    assert SameSlot(states[n], k, i);
  }

  /** Two delivered views of one target by one account are a cooldown apart, in the order the items were created. */
  lemma ViewsCoolDown(cfg: Config, states: seq<Store>, events: seq<Event>, n: nat, i: ItemId, k: ItemId)
    requires IsRun(cfg, states, events) && n < |states| && Linked(states[n]) && i < k < |states[n].items|
    requires states[n].items[i].status.Success? && states[n].items[k].status.Success?
    requires JobOf(states[n], i).action.View? && SameSlot(states[n], i, k)
    ensures states[n].items[i].finishedAt.Some? && states[n].items[k].finishedAt.Some?
    ensures states[n].items[k].finishedAt.value - states[n].items[i].finishedAt.value >= cfg.viewCooldown
  {
    RunKeeps(cfg, states, events, n);
    assert ViewSuccess(states[n], i) && ViewSuccess(states[n], k);
  }

  /** The accounts behind a job's items in one status. */
  function AccountsIn(items: seq<Item>, j: JobId, status: ItemStatus): set<AccountId> {
    set i | 0 <= i < |items| && items[i].job == j && items[i].status == status :: items[i].account
  }

  ghost predicate Belongs(item: Item, j: JobId, status: ItemStatus) {
    item.job == j && item.status == status
  }

  lemma AccountsInLast(items: seq<Item>, j: JobId, status: ItemStatus)
    requires items != []
    ensures var last := items[|items| - 1]; var rest := AccountsIn(items[..|items| - 1], j, status);
      AccountsIn(items, j, status) == if Belongs(last, j, status) then rest + {last.account} else rest
  {
    var n := |items| - 1;
    forall a
      ensures a in AccountsIn(items, j, status)
        <==> a in AccountsIn(items[..n], j, status) || (Belongs(items[n], j, status) && a == items[n].account)
    {
      if a in AccountsIn(items, j, status) {
        var i :| 0 <= i < |items| && Belongs(items[i], j, status) && items[i].account == a;
        if i < n {
          assert items[..n][i] == items[i];
        }
      }
    }
  }

  ghost predicate DifferentAccounts(items: seq<Item>, j: JobId, status: ItemStatus) {
    forall i, k :: 0 <= i < k < |items| && Belongs(items[i], j, status) && Belongs(items[k], j, status)
      ==> items[i].account != items[k].account
  }

  lemma {:induction false} CountDistinct(items: seq<Item>, j: JobId, status: ItemStatus)
    requires DifferentAccounts(items, j, status)
    ensures Count(items, j, status) == |AccountsIn(items, j, status)|
  {
    if items != [] {
      var n := |items| - 1;
      CountDistinct(items[..n], j, status);
      AccountsInLast(items, j, status);
    }
  }

  /** A job's success count is a number of different accounts. */
  lemma DeliveryCountsAccounts(cfg: Config, states: seq<Store>, events: seq<Event>, n: nat, j: JobId)
    requires IsRun(cfg, states, events) && n < |states| && j < |states[n].jobs|
    ensures states[n].jobs[j].success == |AccountsIn(states[n].items, j, ItemStatus.Success)|
  {
    RunKeeps(cfg, states, events, n);
    assert JobCounters(states[n].jobs[j], states[n].items, j);
    assert DifferentAccounts(states[n].items, j, ItemStatus.Success);
    CountDistinct(states[n].items, j, ItemStatus.Success);
  }

  /** A job draws an account twice only in a join, after a connection error or a throttle. */
  lemma AccountsReturnOnlyAfterRetryableSkips(cfg: Config, states: seq<Store>, events: seq<Event>, n: nat, i: ItemId, k: ItemId)
    requires IsRun(cfg, states, events) && n < |states| && Linked(states[n]) && i < k < |states[n].items|
    requires states[n].items[i].job == states[n].items[k].job && states[n].items[i].account == states[n].items[k].account
    ensures JobOf(states[n], i).action.Join? && states[n].items[i].status.Skipped?
    ensures states[n].items[i].message.ConnError? || states[n].items[i].message.Throttled?
  {
    RunKeeps(cfg, states, events, n);
  }

  // ── job lifecycle ──────────────────────────────────────────────────────────

  /** Between any two moments a job's status moves forward only; a settled row never changes again. */
  lemma LifecycleMovesForward(cfg: Config, states: seq<Store>, events: seq<Event>, m: nat, n: nat, j: JobId)
    requires IsRun(cfg, states, events) && m <= n < |states| && j < |states[m].jobs|
    ensures j < |states[n].jobs|
    ensures var a, b := states[m].jobs[j], states[n].jobs[j];
      && SameOrder(a, b) && StatusStep(a.status, b.status)
      && a.accepted <= b.accepted && a.success <= b.success && a.failed <= b.failed && a.skipped <= b.skipped
      && (Terminal(a.status) ==> b == a)
      && (a.status.Active? ==> b.success == a.success && (b.status.Active? || b.status.Completed?))
      && !b.status.Pending? && !b.status.Error?
  {
    RunProgress(cfg, states, events, m, n);
    RunKeeps(cfg, states, events, m);
    RunKeeps(cfg, states, events, n);
    assert JobStep(states[m].jobs[j], states[n].jobs[j]);
    assert StatusAgrees(states[n].jobs[j]);
  }
}
