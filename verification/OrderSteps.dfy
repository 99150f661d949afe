/**
 * What each step of the order engine does to the store, as functions.
 * `OrderEngine` performs the same steps by assigning fields; `OrderInvariant` and
 * `OrderRuns` prove what every step and every run keeps.
 */
module OrderSteps {
  import opened Common
  import opened OrderStore

  // ── account selection ──────────────────────────────────────────────────────

  /** Account `a` could take the action on the target right now, row locks aside. */
  predicate Free(s: Store, cfg: Config, action: Action, key: Key, a: AccountId)
    requires Linked(s) && a < |s.accounts|
  {
    && s.accounts[a].Active?
    && !Reserved(s, action, key, a)
    && (action.Join? ==> !IsThrottled(s, a) && !IsJoined(s, a, key))
    && (action.View? ==> !ViewedRecently(s, cfg, a, key))
  }

  /** The accounts a query returns before its limit applies. */
  function Eligible(s: Store, cfg: Config, action: Action, key: Key, barred: set<AccountId>): set<AccountId>
    requires Linked(s)
  {
    set a | 0 <= a < |s.accounts| && a !in barred && Free(s, cfg, action, key, a)
  }

  /** The first `count` members of `pool` in id order, from `from` up to `limit`. */
  function FirstOf(pool: set<AccountId>, count: nat, from: nat, limit: nat): (r: seq<AccountId>)
    requires from <= limit
    decreases limit - from
  {
    if from == limit || count == 0 then []
    else if from in pool then [from] + FirstOf(pool, count - 1, from + 1, limit)
    else FirstOf(pool, count, from + 1, limit)
  }

  /** What a selection promises: members in strict id order, at most `count`, and all of them when short. */
  predicate Selects(pool: set<AccountId>, count: nat, from: nat, limit: nat, r: seq<AccountId>) {
    && |r| <= count
    && (forall p :: 0 <= p < |r| ==> from <= r[p] < limit && r[p] in pool)
    && (forall p, q :: 0 <= p < q < |r| ==> r[p] < r[q])
    && (|r| < count ==> forall a :: a in pool && from <= a < limit ==> a in r)
  }

  lemma {:induction false} FirstOfSelects(pool: set<AccountId>, count: nat, from: nat, limit: nat)
    requires from <= limit
    ensures Selects(pool, count, from, limit, FirstOf(pool, count, from, limit))
    decreases limit - from
  {
    if from < limit && count > 0 {
      if from in pool {
        FirstOfSelects(pool, count - 1, from + 1, limit);
      } else {
        FirstOfSelects(pool, count, from + 1, limit);
      }
    }
  }

  function FirstFree(s: Store, cfg: Config, action: Action, key: Key, count: nat, barred: set<AccountId>): seq<AccountId>
    requires Linked(s)
  {
    FirstOf(Eligible(s, cfg, action, key, barred), count, 0, |s.accounts|)
  }

  /** `a` would be listed strictly before `b` by "latest joined, then latest updated, first". */
  predicate ListedBefore(a: Membership, b: Membership)
    requires a.joinedAt.Some? && b.joinedAt.Some?
  {
    a.joinedAt.value > b.joinedAt.value || (a.joinedAt == b.joinedAt && a.updatedAt > b.updatedAt)
  }

  predicate MayLeave(s: Store, key: Key, a: AccountId) {
    a < |s.accounts| && s.accounts[a].Active? && IsJoined(s, a, key) && s.memberships[(a, key)].joinedAt.Some?
  }

  /** `picked` is an answer of the leave query: its first `count` rows, ties in any order. */
  ghost predicate LeaveChoice(s: Store, key: Key, count: nat, picked: seq<AccountId>) {
    && |picked| <= count
    && (forall p :: 0 <= p < |picked| ==> MayLeave(s, key, picked[p]))
    && (forall p, q :: 0 <= p < q < |picked| ==> picked[p] != picked[q])
    && (forall p, q :: 0 <= p < q < |picked| ==> !ListedBefore(s.memberships[(picked[q], key)], s.memberships[(picked[p], key)]))
    && (forall a :: MayLeave(s, key, a) && a !in picked ==>
          && |picked| == count
          && forall p :: 0 <= p < |picked| ==> !ListedBefore(s.memberships[(a, key)], s.memberships[(picked[p], key)]))
  }

  // ── creation ───────────────────────────────────────────────────────────────

  datatype Order = Order(idempotencyKey: string, action: Action, key: Key, count: int, retention: Option<int>)

  datatype CreateError =
    | BadCount
    | PoolBusy(requested: nat, available: nat)
    | InsufficientCapacity(requested: nat)

  datatype CreateResult = Created(job: JobId) | Existing(job: JobId) | Rejected(error: CreateError)

  /** The least integer that is not below `x`. */
  function Ceil(x: real): (r: int)
    ensures (r - 1) as real < x <= r as real
  {
    -((-x).Floor)
  }

  /** The bonus in accounts, before rounding up. */
  function Bonus(cfg: Config, count: nat): real {
    (count as real) * cfg.bonus / 100.0
  }

  /** The bonus is the percentage rounded up; nothing is added when it is not positive. */
  function ApplyBonus(cfg: Config, count: nat): (r: nat)
    ensures cfg.bonus > 0.0 ==> (r - count - 1) as real < Bonus(cfg, count) <= (r - count) as real
    ensures cfg.bonus <= 0.0 ==> r == count
    ensures r >= count
  {
    if cfg.bonus > 0.0 then
      assert Bonus(cfg, count) >= 0.0;
      count + Ceil(Bonus(cfg, count))
    else count
  }

  function PositiveOrNone(value: Option<int>): Option<nat> {
    if value.Some? && value.value > 0 then Some(value.value) else None
  }

  /** Position of the job with this idempotency key, or |jobs|. */
  function FindJob(jobs: seq<Job>, idempotencyKey: string): (j: nat)
    ensures j <= |jobs|
    ensures j < |jobs| ==> jobs[j].idempotencyKey == idempotencyKey
    ensures forall i :: 0 <= i < j ==> jobs[i].idempotencyKey != idempotencyKey
  {
    if jobs == [] then 0
    else
      var j := FindJob(jobs[..|jobs| - 1], idempotencyKey);
      if j < |jobs| - 1 then j
      else if jobs[|jobs| - 1].idempotencyKey == idempotencyKey then |jobs| - 1
      else |jobs|
  }

  function NewItem(j: JobId, a: AccountId): Item {
    Item(j, a, ItemStatus.Pending, Plain, 0, None, None)
  }

  function NewItems(j: JobId, accounts: seq<AccountId>): (r: seq<Item>)
    ensures |r| == |accounts|
    ensures forall p :: 0 <= p < |r| ==> r[p] == NewItem(j, accounts[p])
  {
    seq(|accounts|, p requires 0 <= p < |accounts| => NewItem(j, accounts[p]))
  }

  function TargetCount(cfg: Config, o: Order): nat
    requires o.count >= 1
  {
    if o.action.Join? then ApplyBonus(cfg, o.count) else o.count
  }

  function NewJob(s: Store, cfg: Config, o: Order, accepted: nat): Job
    requires o.count >= 1
  {
    var total := TargetCount(cfg, o);
    Job(o.idempotencyKey, o.action, o.key, o.count, total, accepted, 0, 0, Max(0, total - accepted),
        if accepted > 0 then JobStatus.InProgress else JobStatus.Fail,
        PositiveOrNone(o.retention), false,
        if accepted > 0 then Some(s.now) else None,
        if accepted > 0 then None else Some(s.now))
  }

  /** The accounts an order reserves; rows in `locked` are held by other transactions. */
  function SelectForOrder(s: Store, cfg: Config, o: Order, locked: set<AccountId>, leavers: seq<AccountId>): seq<AccountId>
    requires Linked(s) && o.count >= 1
  {
    if o.action.Leave? then leavers
    else FirstFree(s, cfg, o.action, o.key, TargetCount(cfg, o), locked)
  }

  function CountFree(s: Store, cfg: Config, action: Action, key: Key): nat
    requires Linked(s)
  {
    |FirstFree(s, cfg, action, key, |s.accounts|, {})|
  }

  function Create(s: Store, cfg: Config, o: Order, locked: set<AccountId>, leavers: seq<AccountId>): (Store, CreateResult)
    requires Linked(s)
  {
    if o.count < 1 then (s, Rejected(BadCount))
    else
      var known := FindJob(s.jobs, o.idempotencyKey);
      if known < |s.jobs| then (s, Existing(known))
      else
        var accounts := SelectForOrder(s, cfg, o, locked, leavers);
        if !o.action.Leave? && accounts == [] then
          var free := CountFree(s, cfg, o.action, o.key);
          (s, Rejected(if free > 0 then PoolBusy(o.count, free) else InsufficientCapacity(o.count)))
        else
          (s.(jobs := s.jobs + [NewJob(s, cfg, o, |accounts|)],
              items := s.items + NewItems(|s.jobs|, accounts)),
           Created(|s.jobs|))
  }

  /** Some account could take the action right now, outside `barred`. */
  ghost predicate SomeFree(s: Store, cfg: Config, action: Action, key: Key, barred: set<AccountId>)
    requires Linked(s)
  {
    exists a :: 0 <= a < |s.accounts| && a !in barred && Free(s, cfg, action, key, a)
  }

  lemma PicksUnlessNone(s: Store, cfg: Config, action: Action, key: Key, count: nat, barred: set<AccountId>)
    requires Linked(s)
    ensures FirstFree(s, cfg, action, key, count, barred) == [] <==> count == 0 || !SomeFree(s, cfg, action, key, barred)
  {
    hide Free, FirstOf;
    var pool := Eligible(s, cfg, action, key, barred);
    var r := FirstOf(pool, count, 0, |s.accounts|);
    FirstOfSelects(pool, count, 0, |s.accounts|);
    if r != [] {
      assert r[0] in pool;
    }
    assert forall a :: 0 <= a < |s.accounts| && a !in barred && Free(s, cfg, action, key, a) ==> a in pool;
  }

  /** A new join or view order is refused for want of capacity exactly when no account is free at all, and as
      busy exactly when the free ones are all held by other transactions. */
  lemma RefusedExactlyWhen(s: Store, cfg: Config, o: Order, locked: set<AccountId>, leavers: seq<AccountId>)
    requires Linked(s) && o.count >= 1 && !o.action.Leave? && FindJob(s.jobs, o.idempotencyKey) == |s.jobs|
    ensures var r := Create(s, cfg, o, locked, leavers).1;
      && (r == Rejected(InsufficientCapacity(o.count)) <==> !SomeFree(s, cfg, o.action, o.key, {}))
      && (r.Rejected? && r.error.PoolBusy? <==> SomeFree(s, cfg, o.action, o.key, {}) && !SomeFree(s, cfg, o.action, o.key, locked))
      && (r.Created? <==> SomeFree(s, cfg, o.action, o.key, locked))
  {
    hide Free, FirstFree, SomeFree, FindJob, ApplyBonus;
    PicksUnlessNone(s, cfg, o.action, o.key, TargetCount(cfg, o), locked);
    FewerAreFree(s, cfg, o.action, o.key, locked);
    PicksUnlessNone(s, cfg, o.action, o.key, |s.accounts|, {});
    NobodyIsFree(s, cfg, o.action, o.key);
  }

  lemma FewerAreFree(s: Store, cfg: Config, action: Action, key: Key, locked: set<AccountId>)
    requires Linked(s)
    ensures SomeFree(s, cfg, action, key, locked) ==> SomeFree(s, cfg, action, key, {})
  {
    hide Free;
  }

  lemma NobodyIsFree(s: Store, cfg: Config, action: Action, key: Key)
    requires Linked(s)
    ensures SomeFree(s, cfg, action, key, {}) ==> |s.accounts| > 0
  {
    hide Free;
  }

  // ── claiming ───────────────────────────────────────────────────────────────

  datatype ClaimResult = Go | Drop | RetryIn(seconds: int)

  predicate StaleFor(s: Store, i: ItemId, age: Time)
    requires i < |s.items|
  {
    s.items[i].startedAt.Some? && s.items[i].startedAt.value < s.now - age
  }

  function StartItem(s: Store, i: ItemId): Store
    requires i < |s.items|
  {
    var item := s.items[i];
    s.(items := s.items[i := item.(status := ItemStatus.Running, attempts := item.attempts + 1, startedAt := Some(s.now))])
  }

  function Claim(s: Store, cfg: Config, i: ItemId): (Store, ClaimResult)
    requires Linked(s) && i < |s.items|
  {
    var item := s.items[i];
    if !InFlight(item.status) || (item.status.Running? && !StaleFor(s, i, CLAIM_STALE)) then (s, Drop)
    else
      var reset := if item.status.Running? then item.(status := ItemStatus.Pending, startedAt := None) else item;
      var s1 := s.(items := s.items[i := reset]);
      if JobOf(s, i).action.View? then (StartItem(s1, i), Go)
      else if IsThrottled(s, item.account) then
        // the throttle row is created on first use; a row that throttles already exists
        (s1, RetryIn(Max(1, (s.throttles[item.account].value - s.now) / SECOND)))
      else
        (StartItem(s1.(throttles := s.throttles[item.account := Some(s.now + cfg.actionDelay)]), i), Go)
  }

  /** Items whose worker died go back to PENDING; their accounts lose the throttle. */
  predicate Stale(s: Store, i: ItemId)
    requires i < |s.items|
  {
    s.items[i].status.Running? && StaleFor(s, i, RECOVER_STALE)
  }

  function RecoverItem(s: Store, i: ItemId): Item
    requires i < |s.items|
  {
    if Stale(s, i) then s.items[i].(status := ItemStatus.Pending) else s.items[i]
  }

  predicate HasStaleItem(s: Store, a: AccountId) {
    exists i :: 0 <= i < |s.items| && s.items[i].account == a && Stale(s, i)
  }

  function RecoverStale(s: Store): Store {
    s.(items := seq(|s.items|, i requires 0 <= i < |s.items| => RecoverItem(s, i)),
       throttles := map a | a in s.throttles :: if HasStaleItem(s, a) then None else s.throttles[a])
  }

  // ── finishing an item ──────────────────────────────────────────────────────

  /** What the Rubika call of an item came to. */
  datatype Outcome =
    | Done
    | AlreadyDone
    | BadTarget(sawSuccess: bool)  // `job.success_count > 0` as the worker read it when it loaded the item
    | Dead
    | TooMany(retryAfter: Option<Time>)
    | NoConnection
    | Broken

  function BumpJob(job: Job, status: ItemStatus): Job {
    match status
    case Success => job.(success := job.success + 1)
    case Failed => job.(failed := job.failed + 1)
    case Skipped => job.(skipped := job.skipped + 1)
    case _ => job
  }

  function FinishItem(s: Store, i: ItemId, status: ItemStatus, message: Message): Store
    requires Linked(s) && i < |s.items|
  {
    var item := s.items[i];
    s.(items := s.items[i := item.(status := status, message := message, finishedAt := Some(s.now))],
       jobs := s.jobs[item.job := BumpJob(s.jobs[item.job], status)])
  }

  function MarkMembership(s: Store, a: AccountId, key: Key, joined: bool): Store {
    var before := if (a, key) in s.memberships then s.memberships[(a, key)].joinedAt else None;
    s.(memberships := s.memberships[(a, key) := Membership(joined, if joined then Some(s.now) else before, s.now)])
  }

  function CreateAutoLeave(s: Store, i: ItemId): Store
    requires Linked(s) && i < |s.items|
  {
    var job := JobOf(s, i);
    if !NeedsLeave(job) || i in s.schedules then s
    else
      s.(schedules := s.schedules[i := Schedule(s.items[i].job, s.items[i].account, job.key,
           s.now + job.retention.value * DAY, ScheduleStatus.Pending, 0)])
  }

  function RecordView(s: Store, a: AccountId, key: Key): Store {
    s.(views := s.views[(a, key) := s.now])
  }

  function Pause(s: Store, a: AccountId, delay: Time): Store {
    s.(throttles := s.throttles[a := Some(s.now + delay)])
  }

  function SetAccount(s: Store, a: AccountId, status: AccountStatus): Store
    requires a < |s.accounts|
  {
    s.(accounts := s.accounts[a := status])
  }

  function RefreshJob(job: Job, items: seq<Item>, j: JobId): Job {
    job.(success := Count(items, j, ItemStatus.Success),
         failed := Count(items, j, ItemStatus.Failed),
         skipped := Max(job.skipped, Max(0, job.total - job.accepted) + Count(items, j, ItemStatus.Skipped)))
  }

  function RefreshCounts(s: Store, j: JobId): Store
    requires j < |s.jobs|
  {
    s.(jobs := s.jobs[j := RefreshJob(s.jobs[j], s.items, j)])
  }

  /** The bulk update of a cancelled job's items. */
  function SkipItem(item: Item, j: JobId, now: Time): Item {
    if item.job == j && InFlight(item.status) then
      item.(status := ItemStatus.Skipped, message := Message.InvalidTarget, finishedAt := Some(now))
    else item
  }

  function SkipInFlight(items: seq<Item>, j: JobId, now: Time): (r: seq<Item>)
    ensures |r| == |items|
    ensures forall i :: 0 <= i < |items| ==> r[i] == SkipItem(items[i], j, now)
  {
    seq(|items|, i requires 0 <= i < |items| => SkipItem(items[i], j, now))
  }

  function CancelInvalidTarget(s: Store, j: JobId): Store
    requires j < |s.jobs|
  {
    var job := s.jobs[j];
    if Terminal(job.status) then s
    else
      var status := if job.success > 0 then JobStatus.Partial else JobStatus.Fail;
      RefreshCounts(
        s.(items := SkipInFlight(s.items, j, s.now),
           jobs := s.jobs[j := job.(status := status, invalidTarget := true, finishedAt := Some(s.now))]),
        j)
  }

  /** The action worked. */
  function Succeed(s: Store, i: ItemId): Store
    requires Linked(s) && i < |s.items|
  {
    var job := JobOf(s, i);
    var a := s.items[i].account;
    match job.action
    case Join => FinishItem(CreateAutoLeave(MarkMembership(s, a, job.key, true), i), i, ItemStatus.Success, Plain)
    case View => FinishItem(RecordView(s, a, job.key), i, ItemStatus.Success, Plain)
    case Leave => FinishItem(MarkMembership(s, a, job.key, false), i, ItemStatus.Success, Plain)
  }

  /** The worker handles the outcome of a RUNNING item. */
  function Complete(s: Store, cfg: Config, i: ItemId, outcome: Outcome): Store
    requires Linked(s) && i < |s.items|
  {
    var job := JobOf(s, i);
    var a := s.items[i].account;
    if job.action.Leave? && !outcome.Dead? && !IsJoined(s, a, job.key) then
      FinishItem(s, i, ItemStatus.Skipped, Plain)
    else
      match outcome
      case Done => Succeed(s, i)
      case AlreadyDone =>
        if job.action.Join? then Succeed(s, i)
        else
          FinishItem(if job.action.Leave? then MarkMembership(s, a, job.key, false) else s, i, ItemStatus.Skipped, Plain)
      case BadTarget(sawSuccess) =>
        if sawSuccess then FinishItem(s, i, ItemStatus.Skipped, TransientTarget)
        else CancelInvalidTarget(FinishItem(s, i, ItemStatus.Skipped, Message.InvalidTarget), s.items[i].job)
      case Dead => SetAccount(FinishItem(s, i, ItemStatus.Skipped, SessionDead), a, AccountStatus.Disabled)
      case TooMany(retryAfter) =>
        var delay := if retryAfter.Some? && retryAfter.value != 0 then retryAfter.value else cfg.throttlePause;
        Pause(FinishItem(s, i, ItemStatus.Skipped, Message.Throttled), a, delay)
      case NoConnection => Pause(FinishItem(s, i, ItemStatus.Skipped, ConnError), a, cfg.connErrorPause)
      case Broken => FinishItem(s, i, ItemStatus.Failed, Plain)
  }

  // ── refilling and settling ─────────────────────────────────────────────────

  /** Accounts the job may not draw again. */
  function Used(s: Store, j: JobId): set<AccountId>
    requires j < |s.jobs|
  {
    set i | 0 <= i < |s.items| && s.items[i].job == j && (s.jobs[j].action.View? || !RetryableSkip(s.items[i])) :: s.items[i].account
  }

  /** Someone outside `used` could still join later, throttled or reserved as it may be now. */
  predicate Potential(s: Store, key: Key, used: set<AccountId>) {
    exists a :: 0 <= a < |s.accounts| && s.accounts[a].Active? && !IsJoined(s, a, key) && a !in used
  }

  function AddItems(s: Store, j: JobId, accounts: seq<AccountId>): Store
    requires j < |s.jobs|
  {
    var job := s.jobs[j];
    s.(items := s.items + NewItems(j, accounts),
       jobs := s.jobs[j := job.(accepted := job.accepted + |accounts|, status := JobStatus.InProgress, finishedAt := None)])
  }

  /** Number of slots the job still lacks. */
  function Missing(s: Store, j: JobId): nat
    requires j < |s.jobs|
  {
    Max(0, s.jobs[j].total - s.jobs[j].success - CountInFlight(s.items, j))
  }

  function Replacements(s: Store, cfg: Config, j: JobId, locked: set<AccountId>): seq<AccountId>
    requires Linked(s) && j < |s.jobs|
  {
    FirstFree(s, cfg, s.jobs[j].action, s.jobs[j].key, Missing(s, j), Used(s, j) + locked)
  }

  /** `None`: deferred; `Some(n)`: n new items were added. */
  function Refill(s: Store, cfg: Config, j: JobId, locked: set<AccountId>): (Store, Option<nat>)
    requires Linked(s) && j < |s.jobs|
  {
    var job := s.jobs[j];
    if job.action.Leave? || !(job.status.Pending? || job.status.InProgress? || job.status.Error?) then (s, Some(0))
    else
      var accounts := Replacements(s, cfg, j, locked);
      if accounts != [] then (AddItems(s, j, accounts), Some(|accounts|))
      else if job.action.Join? && Missing(s, j) > 0 && Potential(s, job.key, Used(s, j))
              && job.startedAt.Some? && s.now - job.startedAt.value < cfg.maxWait then (s, None)
      else (s, Some(0))
  }

  function Verdict(job: Job): JobStatus {
    if job.success >= job.requested && NeedsLeave(job) then JobStatus.Active
    else if job.success >= job.requested then JobStatus.Completed
    else if job.success > 0 then JobStatus.Partial
    else JobStatus.Fail
  }

  function Settle(s: Store, j: JobId): Store
    requires j < |s.jobs|
  {
    var job := s.jobs[j];
    var status := Verdict(job);
    s.(jobs := s.jobs[j := job.(status := status, finishedAt := if status.Active? then job.finishedAt else Some(s.now))])
  }

  datatype FinalizeResult = Busy | Deferred | Refilled(added: nat) | AlreadySettled | Settled(status: JobStatus)

  function Finalize(s: Store, cfg: Config, j: JobId, locked: set<AccountId>): (Store, FinalizeResult)
    requires Linked(s) && j < |s.jobs|
  {
    if CountInFlight(s.items, j) > 0 then (s, Busy)
    else
      var s1 := RefreshCounts(s, j);
      var (s2, added) := Refill(s1, cfg, j, locked);
      if added.None? then (s2, Deferred)
      else if added.value > 0 then (s2, Refilled(added.value))
      else if Terminal(s2.jobs[j].status) then (s2, AlreadySettled)
      else (Settle(s2, j), Settled(Verdict(s2.jobs[j])))
  }

  // ── retention ──────────────────────────────────────────────────────────────

  predicate Due(s: Store, i: ItemId) {
    i in s.schedules && s.schedules[i].status.Pending? && s.schedules[i].dueAt <= s.now
  }

  function StartLeave(s: Store, i: ItemId): Store {
    if Due(s, i) then
      s.(schedules := s.schedules[i := s.schedules[i].(status := ScheduleStatus.Processing, attempts := s.schedules[i].attempts + 1)])
    else s
  }

  predicate ScheduleOpen(status: ScheduleStatus) {
    status.Pending? || status.Processing?
  }

  predicate HasOpenSchedule(s: Store, j: JobId) {
    exists i :: i in s.schedules && s.schedules[i].job == j && ScheduleOpen(s.schedules[i].status)
  }

  function CompleteActiveJob(s: Store, j: JobId): Store
    requires j < |s.jobs|
  {
    if HasOpenSchedule(s, j) || !s.jobs[j].status.Active? then s
    else s.(jobs := s.jobs[j := s.jobs[j].(status := JobStatus.Completed, finishedAt := Some(s.now))])
  }

  /** The leave of a PROCESSING schedule came back; `left` covers "was no member any more". */
  function FinishLeave(s: Store, i: ItemId, left: bool): Store
    requires i in s.schedules && s.schedules[i].job < |s.jobs|
  {
    var schedule := s.schedules[i];
    if !left then s.(schedules := s.schedules[i := schedule.(status := ScheduleStatus.Fail)])
    else
      var s1 := MarkMembership(s, schedule.account, schedule.key, false);
      CompleteActiveJob(s1.(schedules := s1.schedules[i := schedule.(status := ScheduleStatus.Completed)]), schedule.job)
  }

  // ── clock and accounts ─────────────────────────────────────────────────────

  function Tick(s: Store, delta: nat): Store {
    s.(now := s.now + delta)
  }

  function AddAccount(s: Store): Store {
    s.(accounts := s.accounts + [AccountStatus.Active])
  }
}
