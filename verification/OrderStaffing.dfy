/** Which accounts an order and a refill take, how many, and what rows they write; read off the rows before, without
    the functions that compute them. */
module OrderStaffing {
  import opened Common
  import opened OrderStore
  import opened OrderSteps
  import opened OrderInvariant
  import opened OrderKeeps
  import opened OrderAppends
  import opened OrderRuns
  import opened OrderOutcomes
  import opened OrderTermination

  // ── who may be taken ───────────────────────────────────────────────────────

  /** Item `i` waits or runs, and its job is not over. */
  predicate AtWork(s: Store, i: ItemId)
    requires Linked(s) && i < |s.items|
  {
    var item, job := s.items[i], s.jobs[s.items[i].job];
    && (item.status == ItemStatus.Pending || item.status == ItemStatus.Running)
    && (job.status == JobStatus.Active || job.status == JobStatus.InProgress || job.status == JobStatus.Pending)
  }

  /** The account is active and not busy with the same action on the same target; to join it must not be held back
      or a member, and to view it must not have viewed the target within the cooldown. */
  ghost predicate Takes(s: Store, cfg: Config, action: Action, key: Key, a: AccountId)
    requires Linked(s)
  {
    && a < |s.accounts| && s.accounts[a] == AccountStatus.Active
    && (forall i :: 0 <= i < |s.items| && s.items[i].account == a && AtWork(s, i)
          ==> s.jobs[s.items[i].job].action != action || s.jobs[s.items[i].job].key != key)
    && (action == Join && a in s.throttles && s.throttles[a].Some? ==> s.throttles[a].value <= s.now)
    && (action == Join && (a, key) in s.memberships ==> !s.memberships[(a, key)].joined)
    && (action == View && (a, key) in s.views ==> s.now - s.views[(a, key)] >= cfg.viewCooldown)
  }

  lemma FreeTakes(s: Store, cfg: Config, action: Action, key: Key, a: AccountId)
    requires Linked(s) && a < |s.accounts|
    ensures Free(s, cfg, action, key, a) <==> Takes(s, cfg, action, key, a)
  {
    if Reserved(s, action, key, a) {
      var i :| 0 <= i < |s.items| && InFlight(s.items[i].status) && s.items[i].account == a
        && JobOf(s, i).action == action && JobOf(s, i).key == key && JobOpen(JobOf(s, i).status);
      assert AtWork(s, i);
    } else {
      assert forall i :: 0 <= i < |s.items| && s.items[i].account == a && AtWork(s, i) ==> InFlight(s.items[i].status) && JobOpen(JobOf(s, i).status);
    }
  }

  /** `chosen` are the `n` lowest-numbered of the pool, or all of it. */
  ghost predicate Lowest(pool: set<AccountId>, n: nat, chosen: seq<AccountId>) {
    && |chosen| == Min(n, |pool|)
    && (forall p, q :: 0 <= p < q < |chosen| ==> chosen[p] < chosen[q])
    && (forall p :: 0 <= p < |chosen| ==> chosen[p] in pool)
    && (forall a, x :: a in pool && a !in chosen && x in chosen ==> x < a)
  }

  /** Whoever is left out is numbered behind all that were chosen. */
  ghost predicate LeavesHigher(pool: set<AccountId>, from: nat, limit: nat, chosen: seq<AccountId>) {
    forall a, x :: a in pool && from <= a < limit && a !in chosen && x in chosen ==> x < a
  }

  lemma {:induction false} FirstOfIsLow(pool: set<AccountId>, count: nat, from: nat, limit: nat)
    requires from <= limit
    ensures LeavesHigher(pool, from, limit, FirstOf(pool, count, from, limit))
    decreases limit - from
  {
    if from < limit && count > 0 {
      if from in pool {
        FirstOfIsLow(pool, count - 1, from + 1, limit);
        var rest := FirstOf(pool, count - 1, from + 1, limit);
        assert forall a :: a in [from] + rest <==> a == from || a in rest;
      } else {
        FirstOfIsLow(pool, count, from + 1, limit);
        assert forall a :: a in pool && from <= a ==> from + 1 <= a;
      }
    }
  }

  function SetOf(chosen: seq<AccountId>): set<AccountId> {
    set a | a in chosen
  }

  lemma {:induction false} SizeOfSorted(chosen: seq<AccountId>)
    requires forall p, q :: 0 <= p < q < |chosen| ==> chosen[p] < chosen[q]
    ensures |SetOf(chosen)| == |chosen|
  {
    hide SetOf;
    if chosen == [] {
      SetOfNone();
    } else {
      var n := |chosen| - 1;
      SizeOfSorted(chosen[..n]);
      SetOfMore(chosen[..n], chosen[n]);
      assert chosen == chosen[..n] + [chosen[n]];
    }
  }

  lemma SetOfNone()
    ensures |SetOf([])| == 0
  {
    assert SetOf([]) == {};
  }

  lemma SetOfMore(before: seq<AccountId>, last: AccountId)
    requires last !in before
    ensures |SetOf(before + [last])| == |SetOf(before)| + 1
  {
    assert SetOf(before + [last]) == SetOf(before) + {last};
  }

  lemma SubsetIsSmaller(small: set<AccountId>, large: set<AccountId>)
    requires small <= large
    ensures |small| <= |large|
  {
    assert large == small + (large - small);
    assert |large| == |small| + |large - small|;
  }

  lemma FirstOfIsLowest(pool: set<AccountId>, count: nat, limit: nat)
    requires forall a :: a in pool ==> a < limit
    ensures Lowest(pool, count, FirstOf(pool, count, 0, limit))
  {
    var r := FirstOf(pool, count, 0, limit);
    FirstOfSelects(pool, count, 0, limit);
    FirstOfIsLow(pool, count, 0, limit);
    SizeOfSorted(r);
    SubsetIsSmaller(SetOf(r), pool);
    if |r| < count {
      assert SetOf(r) == pool;
    }
  }

  // ── a new order ────────────────────────────────────────────────────────────

  /** Those the order may take, except rows that others hold. */
  ghost function Pool(s: Store, cfg: Config, action: Action, key: Key, locked: set<AccountId>): set<AccountId>
    requires Linked(s)
  {
    set a | 0 <= a < |s.accounts| && a !in locked && Takes(s, cfg, action, key, a)
  }

  lemma EligibleIsPool(s: Store, cfg: Config, action: Action, key: Key, locked: set<AccountId>)
    requires Linked(s)
    ensures Eligible(s, cfg, action, key, locked) == Pool(s, cfg, action, key, locked)
  {
    hide Free, Takes;
    forall a: AccountId | a < |s.accounts|
      ensures Free(s, cfg, action, key, a) <==> Takes(s, cfg, action, key, a)
    {
      FreeTakes(s, cfg, action, key, a);
    }
  }

  lemma FirstFreeIsLowest(s: Store, cfg: Config, action: Action, key: Key, count: nat, locked: set<AccountId>)
    requires Linked(s)
    ensures Lowest(Pool(s, cfg, action, key, locked), count, FirstFree(s, cfg, action, key, count, locked))
  {
    hide Takes, Free;
    EligibleIsPool(s, cfg, action, key, locked);
    FirstOfIsLowest(Pool(s, cfg, action, key, locked), count, |s.accounts|);
  }

  /** How many accounts the order is staffed with at best: a join gets the bonus percentage on top, rounded up. */
  ghost predicate StaffedFor(cfg: Config, o: Order, total: nat) {
    if o.action == Join && cfg.bonus > 0.0 then
      (total - o.count - 1) as real < o.count as real * cfg.bonus / 100.0 <= (total - o.count) as real
    else total == o.count
  }

  function AccountsFrom(items: seq<Item>, n: nat): (r: seq<AccountId>)
    requires n <= |items|
    ensures |r| == |items| - n && forall p :: 0 <= p < |r| ==> r[p] == items[n + p].account
  {
    seq<AccountId>(|items| - n, p requires 0 <= p < |items| - n => items[n + p].account)
  }

  /** The items from `n` on are new and wait for a worker of job `j`. */
  ghost predicate NewAndPending(items: seq<Item>, n: nat, j: JobId) {
    forall k :: n <= k < |items| ==> items[k] == Item(j, items[k].account, ItemStatus.Pending, Plain, 0, None, None)
  }

  /** The row of a new order with `n` items. */
  ghost predicate RowOf(s: Store, cfg: Config, o: Order, job: Job, n: nat) {
    && StaffedFor(cfg, o, job.total) && n <= job.total
    && job.idempotencyKey == o.idempotencyKey && job.action == o.action && job.key == o.key && job.requested == o.count
    && job.accepted == n && job.success == 0 && job.failed == 0 && job.skipped == job.total - n && !job.invalidTarget
    && job.retention == (if o.retention.Some? && o.retention.value > 0 then Some(o.retention.value) else None)
    && (if n > 0 then job.status == JobStatus.InProgress && job.startedAt == Some(s.now) && job.finishedAt == None
        else job.status == JobStatus.Fail && job.startedAt == None && job.finishedAt == Some(s.now))
  }

  /** The order was written: one row, and one waiting item for each account it takes. */
  ghost predicate Opened(s: Store, cfg: Config, o: Order, locked: set<AccountId>, leavers: seq<AccountId>, t: Store)
    requires Linked(s)
  {
    && |t.jobs| == |s.jobs| + 1 && t.jobs[..|s.jobs|] == s.jobs
    && |t.items| >= |s.items| && t.items[..|s.items|] == s.items && NewAndPending(t.items, |s.items|, |s.jobs|)
    && t == s.(jobs := t.jobs, items := t.items)
    && RowOf(s, cfg, o, t.jobs[|s.jobs|], |t.items| - |s.items|)
    && (if o.action == Leave then AccountsFrom(t.items, |s.items|) == leavers
        else Lowest(Pool(s, cfg, o.action, o.key, locked), t.jobs[|s.jobs|].total, AccountsFrom(t.items, |s.items|)))
  }

  lemma BonusIsStaffed(cfg: Config, o: Order)
    requires o.count >= 1
    ensures StaffedFor(cfg, o, TargetCount(cfg, o)) && TargetCount(cfg, o) >= 1
  {
  }

  lemma PoolIsBounded(s: Store, cfg: Config, action: Action, key: Key)
    requires Linked(s)
    ensures var all := Pool(s, cfg, action, key, {}); |FirstFree(s, cfg, action, key, |s.accounts|, {})| == |all|
  {
    hide Takes;
    FirstFreeIsLowest(s, cfg, action, key, |s.accounts|, {});
    SmallIds(Pool(s, cfg, action, key, {}), |s.accounts|);
  }

  lemma WrittenIsOpened(s: Store, cfg: Config, o: Order, locked: set<AccountId>, leavers: seq<AccountId>, accounts: seq<AccountId>, t: Store)
    requires Linked(s) && o.count >= 1 && |accounts| <= TargetCount(cfg, o)
    requires t == s.(jobs := s.jobs + [NewJob(s, cfg, o, |accounts|)], items := s.items + NewItems(|s.jobs|, accounts))
    requires if o.action == Leave then accounts == leavers
      else Lowest(Pool(s, cfg, o.action, o.key, locked), TargetCount(cfg, o), accounts)
    ensures Opened(s, cfg, o, locked, leavers, t)
  {
    hide Takes, Pool, Lowest;
    BonusIsStaffed(cfg, o);
    assert AccountsFrom(t.items, |s.items|) == accounts;
  }

  lemma NewOrder(s: Store, cfg: Config, o: Order, locked: set<AccountId>, leavers: seq<AccountId>)
    requires Linked(s) && Enabled(s, OrderPlaced(o, locked, leavers)) && o.count >= 1
    requires FindJob(s.jobs, o.idempotencyKey) == |s.jobs|
    ensures var (t, r) := Create(s, cfg, o, locked, leavers); var pool := Pool(s, cfg, o.action, o.key, locked);
      if o.action != Leave && pool == {} then
        var all := Pool(s, cfg, o.action, o.key, {});
        t == s && r == Rejected(if all == {} then InsufficientCapacity(o.count) else PoolBusy(o.count, |all|))
      else r == Created(|s.jobs|) && Opened(s, cfg, o, locked, leavers, t)
  {
    hide Takes, Free, FindJob, FirstOf, Pool, StaffedFor;
    var total, accounts := TargetCount(cfg, o), SelectForOrder(s, cfg, o, locked, leavers);
    BonusIsStaffed(cfg, o);
    PoolIsBounded(s, cfg, o.action, o.key);
    if o.action != Leave {
      FirstFreeIsLowest(s, cfg, o.action, o.key, total, locked);
      assert accounts == [] <==> Pool(s, cfg, o.action, o.key, locked) == {};
    }
    if o.action == Leave || accounts != [] {
      WrittenIsOpened(s, cfg, o, locked, leavers, accounts, Create(s, cfg, o, locked, leavers).0);
    }
  }

  /** What becomes of every order, and what a new one writes. */
  lemma CreateTable(s: Store, cfg: Config, o: Order, locked: set<AccountId>, leavers: seq<AccountId>)
    requires Linked(s) && Enabled(s, OrderPlaced(o, locked, leavers))
    ensures var (t, r) := Create(s, cfg, o, locked, leavers); var pool := Pool(s, cfg, o.action, o.key, locked);
      var known := exists j :: 0 <= j < |s.jobs| && s.jobs[j].idempotencyKey == o.idempotencyKey;
      if o.count < 1 then t == s && r == Rejected(BadCount)
      else if known then t == s && r.Existing? && r.job < |s.jobs| && s.jobs[r.job].idempotencyKey == o.idempotencyKey
      else if o.action != Leave && pool == {} then
        var all := Pool(s, cfg, o.action, o.key, {});
        t == s && r == Rejected(if all == {} then InsufficientCapacity(o.count) else PoolBusy(o.count, |all|))
      else r == Created(|s.jobs|) && Opened(s, cfg, o, locked, leavers, t)
  {
    hide Takes, Free, FindJob, FirstOf, Pool, Lowest;
    if o.count >= 1 && FindJob(s.jobs, o.idempotencyKey) == |s.jobs| {
      NewOrder(s, cfg, o, locked, leavers);
    }
  }

  /** Over every run: a job keeps the order it was created for, and when it is over its status says how many items
      of the order succeeded, against the number ordered. */
  lemma OrderIsAnswered(cfg: Config, states: seq<Store>, events: seq<Event>, m: nat, n: nat)
    requires IsRun(cfg, states, events) && m < n < |states| && events[m].OrderPlaced? && |states[m + 1].jobs| > |states[m].jobs|
    ensures var o, j := events[m].order, |states[m].jobs|;
      && j < |states[n].jobs|
      && var job, done := states[n].jobs[j], |ItemsIn(states[n].items, j, ItemStatus.Success)|;
      && job.idempotencyKey == o.idempotencyKey && job.action == o.action && job.key == o.key && job.requested == o.count
      && StaffedFor(cfg, o, job.total) && done <= job.total
      && (job.status == JobStatus.Completed || job.status == JobStatus.Active ==> done >= o.count)
      && (job.status == JobStatus.Partial ==> 0 < done && (done < o.count || job.invalidTarget))
      && (job.status == JobStatus.Fail ==> done == 0)
  {
    hide Inv, Progress, Opened, Pool, ItemsIn, StaffedFor;
    var s, o, j := states[m], events[m].order, |states[m].jobs|;
    RunStep(cfg, states, events, m);
    LinkedIn(s, cfg);
    CreateTable(s, cfg, o, events[m].locked, events[m].leavers);
    RowIsOrders(s, cfg, o, events[m].locked, events[m].leavers, states[m + 1]);
    RunProgress(cfg, states, events, m + 1, n);
    KeepsOrder(states[m + 1], states[n], j);
    RunKeeps(cfg, states, events, n);
    StatusSays(states[n], cfg, j);
  }

  lemma RowIsOrders(s: Store, cfg: Config, o: Order, locked: set<AccountId>, leavers: seq<AccountId>, t: Store)
    requires Linked(s) && Opened(s, cfg, o, locked, leavers, t)
    ensures var job := t.jobs[|s.jobs|];
      && job.idempotencyKey == o.idempotencyKey && job.action == o.action && job.key == o.key && job.requested == o.count
      && StaffedFor(cfg, o, job.total)
  {
  }

  lemma KeepsOrder(s: Store, t: Store, j: JobId)
    requires Progress(s, t) && j < |s.jobs|
    ensures j < |t.jobs| && SameOrder(s.jobs[j], t.jobs[j])
  {
    assert JobStep(s.jobs[j], t.jobs[j]);
  }

  lemma StatusSays(s: Store, cfg: Config, j: JobId)
    requires Inv(s, cfg) && j < |s.jobs|
    ensures var job, done := s.jobs[j], |ItemsIn(s.items, j, ItemStatus.Success)|;
      && job.success == done <= job.total
      && (job.status == JobStatus.Completed || job.status == JobStatus.Active ==> done >= job.requested)
      && (job.status == JobStatus.Partial ==> 0 < done && (done < job.requested || job.invalidTarget))
      && (job.status == JobStatus.Fail ==> done == 0)
  {
    CountIsCardinality(s.items, j, ItemStatus.Success);
    assert JobCounters(s.jobs[j], s.items, j) && JobCapacity(s.jobs[j], s.items, j) && StatusAgrees(s.jobs[j]);
  }

  // ── a refill ───────────────────────────────────────────────────────────────

  /** The job has an item of the account that rules it out: any item of a view, and of a join any but one skipped
      for a lost connection or a throttle. */
  ghost predicate UsedUp(s: Store, j: JobId, a: AccountId)
    requires j < |s.jobs|
  {
    exists i :: 0 <= i < |s.items| && s.items[i].job == j && s.items[i].account == a
      && (s.jobs[j].action == View || s.items[i].status != ItemStatus.Skipped
          || (s.items[i].message != ConnError && s.items[i].message != Message.Throttled))
  }

  ghost function Spare(s: Store, cfg: Config, j: JobId, locked: set<AccountId>): set<AccountId>
    requires Linked(s) && j < |s.jobs|
  {
    set a | 0 <= a < |s.accounts| && a !in locked && !UsedUp(s, j, a) && Takes(s, cfg, s.jobs[j].action, s.jobs[j].key, a)
  }

  /** How many slots of the job are neither filled nor about to be. */
  function OpenSlots(s: Store, j: JobId): nat
    requires j < |s.jobs|
  {
    Max(0, s.jobs[j].total - |ItemsIn(s.items, j, ItemStatus.Success)|
           - |ItemsIn(s.items, j, ItemStatus.Pending)| - |ItemsIn(s.items, j, ItemStatus.Running)|)
  }

  /** `n` open slots were filled, with the lowest-numbered spare accounts. */
  ghost predicate FilledWith(s: Store, cfg: Config, j: JobId, locked: set<AccountId>, t: Store, n: nat)
    requires Linked(s) && j < |s.jobs|
  {
    && n == Min(OpenSlots(s, j), |Spare(s, cfg, j, locked)|) && |t.items| == |s.items| + n
    && t.items[..|s.items|] == s.items && NewAndPending(t.items, |s.items|, j)
    && Lowest(Spare(s, cfg, j, locked), OpenSlots(s, j), AccountsFrom(t.items, |s.items|))
    && t == s.(items := t.items, jobs := s.jobs[j := s.jobs[j].(accepted := s.jobs[j].accepted + n, finishedAt := None)])
  }

  /** Someone may become spare for a join later, and the job is young enough to wait for that. */
  ghost predicate MayHope(s: Store, cfg: Config, j: JobId)
    requires j < |s.jobs|
  {
    && s.jobs[j].action == Join && OpenSlots(s, j) > 0
    && (exists a :: 0 <= a < |s.accounts| && s.accounts[a] == AccountStatus.Active && !UsedUp(s, j, a)
          && ((a, s.jobs[j].key) in s.memberships ==> !s.memberships[(a, s.jobs[j].key)].joined))
    && s.jobs[j].startedAt.Some? && s.now - s.jobs[j].startedAt.value < cfg.maxWait
  }

  lemma OpenIsMissing(s: Store, j: JobId)
    requires j < |s.jobs| && s.jobs[j].success == Count(s.items, j, ItemStatus.Success)
    ensures OpenSlots(s, j) == Missing(s, j)
  {
    CountIsCardinality(s.items, j, ItemStatus.Success);
    CountIsCardinality(s.items, j, ItemStatus.Pending);
    CountIsCardinality(s.items, j, ItemStatus.Running);
  }

  lemma UsedIsUsedUp(s: Store, j: JobId, a: AccountId)
    requires j < |s.jobs|
    ensures a in Used(s, j) <==> UsedUp(s, j, a)
  {
  }

  lemma SpareIsEligible(s: Store, cfg: Config, j: JobId, locked: set<AccountId>)
    requires Linked(s) && j < |s.jobs|
    ensures Eligible(s, cfg, s.jobs[j].action, s.jobs[j].key, Used(s, j) + locked) == Spare(s, cfg, j, locked)
  {
    hide Free, Takes, Used, UsedUp;
    forall a: AccountId | a < |s.accounts|
      ensures Free(s, cfg, s.jobs[j].action, s.jobs[j].key, a) <==> Takes(s, cfg, s.jobs[j].action, s.jobs[j].key, a)
      ensures a in Used(s, j) <==> UsedUp(s, j, a)
    {
      FreeTakes(s, cfg, s.jobs[j].action, s.jobs[j].key, a);
      UsedIsUsedUp(s, j, a);
    }
  }

  lemma HopeIsPotential(s: Store, cfg: Config, j: JobId)
    requires Linked(s) && j < |s.jobs| && OpenSlots(s, j) == Missing(s, j)
    ensures MayHope(s, cfg, j) <==>
      && s.jobs[j].action.Join? && Missing(s, j) > 0 && Potential(s, s.jobs[j].key, Used(s, j))
      && s.jobs[j].startedAt.Some? && s.now - s.jobs[j].startedAt.value < cfg.maxWait
  {
    hide Used, UsedUp, OpenSlots, Missing;
    forall a: AccountId
      ensures a in Used(s, j) <==> UsedUp(s, j, a)
    {
      UsedIsUsedUp(s, j, a);
    }
  }

  /** What a refill does: it fills as many open slots as there are spare accounts, waits, or gives up. */
  lemma RefillTable(s: Store, cfg: Config, j: JobId, locked: set<AccountId>)
    requires Inv(s, cfg) && j < |s.jobs|
    ensures Linked(s)
    ensures var (t, r) := Refill(s, cfg, j, locked);
      if s.jobs[j].action == Leave || s.jobs[j].status != JobStatus.InProgress then t == s && r == Some(0)
      else if OpenSlots(s, j) > 0 && Spare(s, cfg, j, locked) != {} then
        r.Some? && r.value > 0 && FilledWith(s, cfg, j, locked, t, r.value)
      else t == s && r == if MayHope(s, cfg, j) then None else Some(0)
  {
    LinkedIn(s, cfg);
    assert JobCounters(s.jobs[j], s.items, j) && StatusAgrees(s.jobs[j]);
    hide Inv, Used, Potential, FirstOf, Spare, Lowest, OpenSlots, Missing, MayHope;
    OpenIsMissing(s, j);
    SpareIsEligible(s, cfg, j, locked);
    HopeIsPotential(s, cfg, j);
    SpareAreLowest(s, cfg, j, locked);
    AddedIsFilled(s, cfg, j, locked);
  }

  lemma SpareAreLowest(s: Store, cfg: Config, j: JobId, locked: set<AccountId>)
    requires Linked(s) && j < |s.jobs| && OpenSlots(s, j) == Missing(s, j)
    ensures Lowest(Spare(s, cfg, j, locked), OpenSlots(s, j), Replacements(s, cfg, j, locked))
    ensures Replacements(s, cfg, j, locked) == [] <==> OpenSlots(s, j) == 0 || Spare(s, cfg, j, locked) == {}
  {
    hide Takes, UsedUp, OpenSlots, Missing;
    SpareIsEligible(s, cfg, j, locked);
    FirstOfIsLowest(Spare(s, cfg, j, locked), OpenSlots(s, j), |s.accounts|);
  }

  lemma AddedIsFilled(s: Store, cfg: Config, j: JobId, locked: set<AccountId>)
    requires Linked(s) && j < |s.jobs|
    requires Lowest(Spare(s, cfg, j, locked), OpenSlots(s, j), Replacements(s, cfg, j, locked))
    ensures s.jobs[j].status.InProgress? ==>
      FilledWith(s, cfg, j, locked, AddItems(s, j, Replacements(s, cfg, j, locked)), |Replacements(s, cfg, j, locked)|)
  {
    hide Spare, OpenSlots, Replacements;
    var accounts := Replacements(s, cfg, j, locked);
    var t := AddItems(s, j, accounts);
    assert AccountsFrom(t.items, |s.items|) == accounts;
  }

  /** How a job with so many successes ends. */
  function Ending(job: Job, done: nat): JobStatus {
    if done < job.requested then (if done == 0 then JobStatus.Fail else JobStatus.Partial)
    else if job.action == Join && job.retention.Some? && job.retention.value > 0 then JobStatus.Active
    else JobStatus.Completed
  }

  /** What finalizing a job does. */
  lemma FinalizeTable(s: Store, cfg: Config, j: JobId, locked: set<AccountId>)
    requires Inv(s, cfg) && j < |s.jobs|
    ensures Linked(s)
    ensures var (t, r) := Finalize(s, cfg, j, locked); var job, done := s.jobs[j], |ItemsIn(s.items, j, ItemStatus.Success)|;
      var fillable := job.status == JobStatus.InProgress && job.action != Leave;
      if ItemsIn(s.items, j, ItemStatus.Pending) != {} || ItemsIn(s.items, j, ItemStatus.Running) != {} then t == s && r == Busy
      else if fillable && OpenSlots(s, j) > 0 && Spare(s, cfg, j, locked) != {} then
        r.Refilled? && r.added > 0 && FilledWith(s, cfg, j, locked, t, r.added)
      else if fillable && MayHope(s, cfg, j) then t == s && r == Deferred
      else if job.status in {JobStatus.Fail, JobStatus.Partial, JobStatus.Completed, JobStatus.Error} then t == s && r == AlreadySettled
      else
        && r == Settled(Ending(job, done))
        && t == s.(jobs := s.jobs[j := job.(status := Ending(job, done),
                                            finishedAt := if Ending(job, done) == JobStatus.Active then job.finishedAt else Some(s.now))])
  {
    LinkedIn(s, cfg);
    RefillTable(s, cfg, j, locked);
    RequestIsPositive(s, cfg, j);
    CountIsCardinality(s.items, j, ItemStatus.Pending);
    CountIsCardinality(s.items, j, ItemStatus.Running);
    CountIsCardinality(s.items, j, ItemStatus.Success);
    RecountAgrees(s, j);
    hide Inv, Refill, JobCounters, OpenSlots, Spare, MayHope, FilledWith, ItemsIn;
  }

  lemma RequestIsPositive(s: Store, cfg: Config, j: JobId)
    requires Inv(s, cfg) && j < |s.jobs|
    ensures JobCounters(s.jobs[j], s.items, j) && s.jobs[j].requested > 0 && s.jobs[j].success == Count(s.items, j, ItemStatus.Success)
  {
    assert StatusAgrees(s.jobs[j]) && JobCounters(s.jobs[j], s.items, j);
  }
}
