/**
 * The rows the membership worker keeps: accounts, orders ("jobs"), their items,
 * memberships, views, throttles and auto-leave schedules, plus an explicit clock.
 *
 * Row ids are positions in the sequences: rows are only ever appended.
 */
module OrderStore {
  import opened Common

  type AccountId = nat
  type JobId = nat
  type ItemId = nat
  type Key = string
  type Time = int  // microseconds

  const SECOND: Time := 1_000_000
  const DAY: Time := 86_400 * SECOND
  const CLAIM_STALE: Time := 300 * SECOND
  const RECOVER_STALE: Time := 60 * SECOND

  datatype AccountStatus = Active | Disabled | Error

  datatype Action = Join | Leave | View

  datatype JobStatus = Pending | InProgress | Active | Completed | Partial | Fail | Error

  datatype ItemStatus = Pending | Running | Success | Failed | Skipped

  datatype ScheduleStatus = Pending | Processing | Completed | Fail

  /** The prefix of an item's message; `Plain` is any text without one of the prefixes. */
  datatype Message = Plain | ConnError | Throttled | SessionDead | InvalidTarget | TransientTarget

  datatype Item = Item(
    job: JobId,
    account: AccountId,
    status: ItemStatus,
    message: Message,
    attempts: nat,
    startedAt: Option<Time>,
    finishedAt: Option<Time>)

  datatype Job = Job(
    idempotencyKey: string,
    action: Action,
    key: Key,
    requested: nat,
    total: nat,
    accepted: nat,
    success: nat,
    failed: nat,
    skipped: nat,
    status: JobStatus,
    retention: Option<nat>,
    invalidTarget: bool,
    startedAt: Option<Time>,
    finishedAt: Option<Time>)

  datatype Membership = Membership(joined: bool, joinedAt: Option<Time>, updatedAt: Time)

  datatype Schedule = Schedule(job: JobId, account: AccountId, key: Key, dueAt: Time, status: ScheduleStatus, attempts: nat)

  datatype Config = Config(
    actionDelay: Time,
    viewCooldown: Time,
    connErrorPause: Time,
    throttlePause: Time,
    maxWait: Time,
    bonus: real)

  datatype Store = Store(
    accounts: seq<AccountStatus>,
    jobs: seq<Job>,
    items: seq<Item>,
    memberships: map<(AccountId, Key), Membership>,
    views: map<(AccountId, Key), Time>,
    throttles: map<AccountId, Option<Time>>,
    schedules: map<ItemId, Schedule>,
    now: Time)

  predicate InFlight(status: ItemStatus) {
    status.Pending? || status.Running?
  }

  predicate JobOpen(status: JobStatus) {
    status.Active? || status.InProgress? || status.Pending?
  }

  predicate Terminal(status: JobStatus) {
    status.Fail? || status.Partial? || status.Completed? || status.Error?
  }

  /** The account of such an item stays usable for the same join job. */
  predicate RetryableSkip(item: Item) {
    item.status.Skipped? && (item.message.ConnError? || item.message.Throttled?)
  }

  /** Every foreign key points at a row. */
  predicate Linked(s: Store) {
    forall i :: 0 <= i < |s.items| ==> s.items[i].job < |s.jobs| && s.items[i].account < |s.accounts|
  }

  function JobOf(s: Store, i: ItemId): Job
    requires Linked(s) && i < |s.items|
  {
    s.jobs[s.items[i].job]
  }

  predicate IsJoined(s: Store, a: AccountId, key: Key) {
    (a, key) in s.memberships && s.memberships[(a, key)].joined
  }

  predicate IsThrottled(s: Store, a: AccountId) {
    a in s.throttles && s.throttles[a].Some? && s.throttles[a].value > s.now
  }

  predicate ViewedRecently(s: Store, cfg: Config, a: AccountId, key: Key) {
    (a, key) in s.views && s.views[(a, key)] > s.now - cfg.viewCooldown
  }

  /** Some open job of this action and target already holds the account in flight. */
  predicate Reserved(s: Store, action: Action, key: Key, a: AccountId)
    requires Linked(s)
  {
    exists i :: 0 <= i < |s.items| && InFlight(s.items[i].status) && s.items[i].account == a
      && JobOf(s, i).action == action && JobOf(s, i).key == key && JobOpen(JobOf(s, i).status)
  }

  /** A success of such a job must be undone after the retention period. */
  predicate NeedsLeave(job: Job) {
    job.action.Join? && job.retention.Some? && job.retention.value > 0
  }

  /** Number of items of job `j` in status `status`. */
  function Count(items: seq<Item>, j: JobId, status: ItemStatus): nat {
    if items == [] then 0
    else
      var last := items[|items| - 1];
      Count(items[..|items| - 1], j, status) + Bit(last.job == j && last.status == status)
  }

  /** Number of items of job `j`. */
  function CountAll(items: seq<Item>, j: JobId): nat {
    if items == [] then 0
    else CountAll(items[..|items| - 1], j) + Bit(items[|items| - 1].job == j)
  }

  function CountInFlight(items: seq<Item>, j: JobId): nat {
    Count(items, j, ItemStatus.Pending) + Count(items, j, ItemStatus.Running)
  }

  function Bit(b: bool): nat {
    if b then 1 else 0
  }

  // ── counting lemmas ────────────────────────────────────────────────────────

  lemma {:induction false} CountUpdate(items: seq<Item>, k: ItemId, x: Item, j: JobId, status: ItemStatus)
    requires k < |items| && x.job == items[k].job
    ensures Count(items[k := x], j, status) + Bit(items[k].job == j && items[k].status == status)
         == Count(items, j, status) + Bit(x.job == j && x.status == status)
  {
    var last := |items| - 1;
    if k == last {
      assert items[k := x][..last] == items[..last];
    } else {
      assert items[k := x][..last] == items[..last][k := x];
      CountUpdate(items[..last], k, x, j, status);
    }
  }

  lemma {:induction false} CountAllUpdate(items: seq<Item>, k: ItemId, x: Item, j: JobId)
    requires k < |items| && x.job == items[k].job
    ensures CountAll(items[k := x], j) == CountAll(items, j)
  {
    var last := |items| - 1;
    if k == last {
      assert items[k := x][..last] == items[..last];
    } else {
      assert items[k := x][..last] == items[..last][k := x];
      CountAllUpdate(items[..last], k, x, j);
    }
  }

  lemma {:induction false} CountConcat(a: seq<Item>, b: seq<Item>, j: JobId, status: ItemStatus)
    ensures Count(a + b, j, status) == Count(a, j, status) + Count(b, j, status)
    ensures CountAll(a + b, j) == CountAll(a, j) + CountAll(b, j)
  {
    if b == [] {
      assert a + b == a;
    } else {
      var last := |b| - 1;
      assert (a + b)[..|a + b| - 1] == a + b[..last];
      CountConcat(a, b[..last], j, status);
    }
  }

  lemma {:induction false} CountUniform(items: seq<Item>, owner: JobId, initial: ItemStatus, j: JobId, status: ItemStatus)
    requires forall i :: 0 <= i < |items| ==> items[i].job == owner && items[i].status == initial
    ensures Count(items, j, status) == if j == owner && status == initial then |items| else 0
    ensures CountAll(items, j) == if j == owner then |items| else 0
  {
    if items != [] {
      CountUniform(items[..|items| - 1], owner, initial, j, status);
    }
  }

  lemma {:induction false} CountPositive(items: seq<Item>, j: JobId, status: ItemStatus)
    ensures Count(items, j, status) > 0 <==> exists i :: 0 <= i < |items| && items[i].job == j && items[i].status == status
  {
    if items != [] {
      var last := |items| - 1;
      CountPositive(items[..last], j, status);
      if Count(items[..last], j, status) > 0 {
        var i :| 0 <= i < last && items[..last][i].job == j && items[..last][i].status == status;
        assert items[i].job == j && items[i].status == status;
      }
      if i :| 0 <= i < |items| && items[i].job == j && items[i].status == status {
        if i < last {
          assert items[..last][i] == items[i];
        }
      }
    }
  }

  lemma {:induction false} CountTotal(items: seq<Item>, j: JobId)
    ensures CountAll(items, j) == CountInFlight(items, j) + Count(items, j, ItemStatus.Success)
                                + Count(items, j, ItemStatus.Failed) + Count(items, j, ItemStatus.Skipped)
  {
    if items != [] {
      CountTotal(items[..|items| - 1], j);
    }
  }
}
