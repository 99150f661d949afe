/** Refilling a view job comes to an end: every claim, answer and refill uses up a bounded budget. */
module OrderTermination {
  import opened Common
  import opened OrderStore
  import opened OrderSteps
  import opened OrderInvariant
  import opened OrderKeeps
  import opened OrderAppends
  import opened OrderRuns
  import opened OrderOutcomes

  // ── a view job has at most one item per account ────────────────────────────

  function AccountsOf(items: seq<Item>, j: JobId): set<AccountId> {
    set i | 0 <= i < |items| && items[i].job == j :: items[i].account
  }

  ghost predicate AllDifferent(items: seq<Item>, j: JobId) {
    forall i, k :: 0 <= i < k < |items| && items[i].job == j && items[k].job == j ==> items[i].account != items[k].account
  }

  lemma AccountsOfLast(items: seq<Item>, j: JobId)
    requires items != []
    ensures var last := items[|items| - 1]; var rest := AccountsOf(items[..|items| - 1], j);
      AccountsOf(items, j) == if last.job == j then rest + {last.account} else rest
  {
    var n := |items| - 1;
    forall a
      ensures a in AccountsOf(items, j) <==> a in AccountsOf(items[..n], j) || (items[n].job == j && a == items[n].account)
    {
      if a in AccountsOf(items, j) {
        var i :| 0 <= i < |items| && items[i].job == j && items[i].account == a;
        if i < n {
          assert items[..n][i] == items[i];
        }
      }
    }
  }

  lemma {:induction false} CountAllDistinct(items: seq<Item>, j: JobId)
    requires AllDifferent(items, j)
    ensures CountAll(items, j) == |AccountsOf(items, j)|
  {
    if items != [] {
      CountAllDistinct(items[..|items| - 1], j);
      AccountsOfLast(items, j);
    }
  }

  lemma {:induction false} SmallIds(ids: set<nat>, n: nat)
    requires forall a :: a in ids ==> a < n
    ensures |ids| <= n
  {
    if n > 0 {
      SmallIds(ids - {n - 1}, n - 1);
      if n - 1 in ids {
        assert ids == (ids - {n - 1}) + {n - 1};
      } else {
        assert ids == ids - {n - 1};
      }
    } else {
      assert ids == {};
    }
  }

  ghost predicate IsView(s: Store, j: JobId) {
    j < |s.jobs| && s.jobs[j].action.View?
  }

  /** A view job settles after at most one item per account. */
  lemma ViewItemsBounded(s: Store, cfg: Config, j: JobId)
    requires Inv(s, cfg) && IsView(s, j)
    ensures CountAll(s.items, j) <= |s.accounts|
  {
    assert AllDifferent(s.items, j) by {
      forall i, k | 0 <= i < k < |s.items| && s.items[i].job == j && s.items[k].job == j
        ensures s.items[i].account != s.items[k].account
      {
      }
    }
    CountAllDistinct(s.items, j);
    SmallIds(AccountsOf(s.items, j), |s.accounts|);
  }

  // ── the budget ─────────────────────────────────────────────────────────────

  /** Three per account the job has not drawn, two per pending item, one per running item. */
  function Budget(s: Store, j: JobId): int {
    3 * (|s.accounts| - CountAll(s.items, j)) + 2 * Count(s.items, j, ItemStatus.Pending) + Count(s.items, j, ItemStatus.Running)
  }

  /** The event advances job `j`: a claim, an answer or a refill. */
  ghost predicate Works(s: Store, cfg: Config, e: Event, j: JobId) {
    match e
    case ItemClaimed(i) => i < |s.items| && s.items[i].job == j && s.items[i].status.Pending?
    case ItemAnswered(i, outcome) => i < |s.items| && s.items[i].job == j
    case JobFinalized(k, locked) => k == j && Linked(s) && j < |s.jobs| && Finalize(s, cfg, j, locked).1.Refilled?
    case _ => false
  }

  /** What the environment adds to the budget: new accounts, and workers found dead. */
  ghost function Windfall(s: Store, e: Event, j: JobId): nat {
    match e
    case AccountAdded => 3
    case WorkersRecovered => Count(s.items, j, ItemStatus.Running)
    case _ => 0
  }

  lemma ClaimBudget(s: Store, cfg: Config, i: ItemId, j: JobId)
    requires Inv(s, cfg) && i < |s.items| && IsView(s, j)
    ensures Budget(Claim(s, cfg, i).0, j) + Bit(s.items[i].job == j && s.items[i].status.Pending?) <= Budget(s, j)
  {
    var t := Claim(s, cfg, i).0;
    ClaimShape(s, cfg, i);
    assert t.items == s.items[i := t.items[i]];
    CountAllUpdate(s.items, i, t.items[i], j);
    CountUpdate(s.items, i, t.items[i], j, ItemStatus.Pending);
    CountUpdate(s.items, i, t.items[i], j, ItemStatus.Running);
  }

  lemma FinishBudget(s: Store, i: ItemId, status: ItemStatus, message: Message, j: JobId)
    requires Linked(s) && i < |s.items| && s.items[i].status.Running? && !InFlight(status)
    ensures Budget(FinishItem(s, i, status, message), j) + Bit(s.items[i].job == j) == Budget(s, j)
  {
    var t := FinishItem(s, i, status, message);
    CountAllUpdate(s.items, i, t.items[i], j);
    CountUpdate(s.items, i, t.items[i], j, ItemStatus.Pending);
    CountUpdate(s.items, i, t.items[i], j, ItemStatus.Running);
  }

  lemma CancelBudget(s: Store, k: JobId, j: JobId)
    requires k < |s.jobs|
    ensures Budget(CancelInvalidTarget(s, k), j) <= Budget(s, j)
  {
    if !Terminal(s.jobs[k].status) {
      CountSkipInFlight(s.items, k, s.now, j);
      CountSkipNoMore(s.items, k, s.now, j);
    }
  }

  lemma {:induction false} CountSkipNoMore(items: seq<Item>, owner: JobId, now: Time, j: JobId)
    ensures Count(SkipInFlight(items, owner, now), j, ItemStatus.Pending) <= Count(items, j, ItemStatus.Pending)
    ensures Count(SkipInFlight(items, owner, now), j, ItemStatus.Running) <= Count(items, j, ItemStatus.Running)
  {
    if items != [] {
      var n := |items| - 1;
      CountSkipNoMore(items[..n], owner, now, j);
      assert SkipInFlight(items, owner, now)[..n] == SkipInFlight(items[..n], owner, now);
    }
  }

  lemma AnswerBudget(s: Store, cfg: Config, i: ItemId, outcome: Outcome, j: JobId)
    requires Linked(s) && i < |s.items| && s.items[i].status.Running?
    ensures Budget(Complete(s, cfg, i, outcome), j) + Bit(s.items[i].job == j) <= Budget(s, j)
  {
    if Cancels(s, i, outcome) {
      FinishBudget(s, i, ItemStatus.Skipped, Message.InvalidTarget, j);
      CancelBudget(FinishItem(s, i, ItemStatus.Skipped, Message.InvalidTarget), s.items[i].job, j);
    } else {
      var status, message := AnswerFinishes(s, cfg, i, outcome);
      FinishBudget(s, i, status, message, j);
    }
  }

  lemma {:induction false} RecoverBudget(s: Store, j: JobId, n: nat)
    requires n <= |s.items|
    ensures var t := RecoverStale(s);
      && CountAll(t.items[..n], j) == CountAll(s.items[..n], j)
      && 2 * Count(t.items[..n], j, ItemStatus.Pending) + Count(t.items[..n], j, ItemStatus.Running)
         <= 2 * Count(s.items[..n], j, ItemStatus.Pending) + 2 * Count(s.items[..n], j, ItemStatus.Running)
  {
    if n > 0 {
      RecoverBudget(s, j, n - 1);
      var t := RecoverStale(s);
      assert t.items[..n][..n - 1] == t.items[..n - 1] && s.items[..n][..n - 1] == s.items[..n - 1];
    }
  }

  lemma AddedBudget(s: Store, t: Store, cfg: Config, k: JobId, accounts: seq<AccountId>, j: JobId)
    requires Linked(s) && j < |s.jobs| && k <= |s.jobs| && t.accounts == s.accounts && t.items == s.items + NewItems(k, accounts)
    ensures Budget(t, j) + (if k == j then |accounts| else 0) == Budget(s, j)
  {
    var added := NewItems(k, accounts);
    CountConcat(s.items, added, j, ItemStatus.Pending);
    CountConcat(s.items, added, j, ItemStatus.Running);
    CountUniform(added, k, ItemStatus.Pending, j, ItemStatus.Pending);
    CountUniform(added, k, ItemStatus.Pending, j, ItemStatus.Running);
  }

  lemma FinalizeBudget(s: Store, cfg: Config, k: JobId, locked: set<AccountId>, j: JobId)
    requires Inv(s, cfg) && k < |s.jobs| && j < |s.jobs|
    ensures Budget(Finalize(s, cfg, k, locked).0, j) + Bit(k == j && Finalize(s, cfg, j, locked).1.Refilled?) <= Budget(s, j)
  {
    FinalizeCases(s, cfg, k, locked);
    if Finalize(s, cfg, k, locked).1.Refilled? {
      AddedBudget(s, Finalize(s, cfg, k, locked).0, cfg, k, Replacements(s, cfg, k, locked), j);
    }
  }

  lemma CreateBudget(s: Store, cfg: Config, o: Order, locked: set<AccountId>, leavers: seq<AccountId>, j: JobId)
    requires Linked(s) && j < |s.jobs|
    ensures Budget(Create(s, cfg, o, locked, leavers).0, j) == Budget(s, j)
  {
    if Create(s, cfg, o, locked, leavers).1.Created? {
      AddedBudget(s, Create(s, cfg, o, locked, leavers).0, cfg, |s.jobs|, SelectForOrder(s, cfg, o, locked, leavers), j);
    }
  }

  lemma RecoverAllBudget(s: Store, j: JobId)
    ensures Budget(RecoverStale(s), j) <= Budget(s, j) + Count(s.items, j, ItemStatus.Running)
  {
    RecoverBudget(s, j, |s.items|);
    var t := RecoverStale(s);
    assert t.items[..|s.items|] == t.items && s.items[..|s.items|] == s.items;
  }

  /** Every working step costs at least one, and nothing but a windfall pays in. */
  lemma StepBudget(s: Store, cfg: Config, e: Event, j: JobId)
    requires Inv(s, cfg) && Enabled(s, e) && IsView(s, j)
    ensures Budget(Apply(s, cfg, e), j) + Bit(Works(s, cfg, e, j)) <= Budget(s, j) + Windfall(s, e, j)
  {
    match e
    case ItemClaimed(i) => ClaimBudget(s, cfg, i, j);
    case ItemAnswered(i, outcome) => AnswerBudget(s, cfg, i, outcome, j);
    case JobFinalized(k, locked) => FinalizeBudget(s, cfg, k, locked, j);
    case OrderPlaced(o, locked, leavers) => CreateBudget(s, cfg, o, locked, leavers, j);
    case WorkersRecovered => RecoverAllBudget(s, j);
    case LeaveReturned(i, left) => ReturnRows(s, i, left);
    case _ =>
  }

  lemma ReturnRows(s: Store, i: ItemId, left: bool)
    requires i in s.schedules && s.schedules[i].job < |s.jobs|
    ensures FinishLeave(s, i, left).items == s.items && FinishLeave(s, i, left).accounts == s.accounts
  {
  }

  // ── over a run ─────────────────────────────────────────────────────────────

  /** One step of a run as far as the budget goes. */
  datatype Bill = Bill(before: int, after: int, work: nat, windfall: nat)

  ghost predicate Fair(b: Bill) {
    b.after + b.work <= b.before + b.windfall && b.after >= 0
  }

  function TotalWork(bills: seq<Bill>): nat {
    if bills == [] then 0 else TotalWork(bills[..|bills| - 1]) + bills[|bills| - 1].work
  }

  function TotalWindfall(bills: seq<Bill>): nat {
    if bills == [] then 0 else TotalWindfall(bills[..|bills| - 1]) + bills[|bills| - 1].windfall
  }

  lemma {:induction false} BillsAddUp(bills: seq<Bill>)
    requires forall k :: 0 <= k < |bills| ==> Fair(bills[k])
    requires forall k :: 0 < k < |bills| ==> bills[k].before == bills[k - 1].after
    ensures bills != [] ==> bills[|bills| - 1].after + TotalWork(bills) <= bills[0].before + TotalWindfall(bills)
  {
    if |bills| > 1 {
      var n := |bills| - 1;
      BillsAddUp(bills[..n]);
      assert bills[n].before == bills[n - 1].after && Fair(bills[n]);
    } else if |bills| == 1 {
      assert bills[..0] == [] && Fair(bills[0]);
    }
  }

  /** The bill of event `k` of a run for job `j`. */
  ghost function BillAt(cfg: Config, states: seq<Store>, events: seq<Event>, j: JobId, k: nat): Bill
    requires |states| == |events| + 1 && k < |events|
  {
    Bill(Budget(states[k], j), Budget(states[k + 1], j), Bit(Works(states[k], cfg, events[k], j)), Windfall(states[k], events[k], j))
  }

  /** The bills of the events from `m` up to `n`. */
  ghost function Bills(cfg: Config, states: seq<Store>, events: seq<Event>, j: JobId, m: nat, n: nat): (r: seq<Bill>)
    requires |states| == |events| + 1 && m <= n <= |events|
    ensures |r| == n - m
    ensures forall k :: 0 <= k < n - m ==> r[k] == BillAt(cfg, states, events, j, m + k)
    decreases n - m
  {
    if m == n then [] else Bills(cfg, states, events, j, m, n - 1) + [BillAt(cfg, states, events, j, n - 1)]
  }

  lemma RunBill(cfg: Config, states: seq<Store>, events: seq<Event>, j: JobId, k: nat)
    requires IsRun(cfg, states, events) && k < |events| && IsView(states[k], j)
    ensures Fair(BillAt(cfg, states, events, j, k)) && IsView(states[k + 1], j)
  {
    RunStep(cfg, states, events, k);
    StepBudget(states[k], cfg, events[k], j);
    assert JobStep(states[k].jobs[j], states[k + 1].jobs[j]);
    RunKeeps(cfg, states, events, k + 1);
    ViewItemsBounded(states[k + 1], cfg, j);
  }

  lemma {:induction false} StaysView(states: seq<Store>, m: nat, n: nat, j: JobId)
    requires m <= n < |states| && IsView(states[m], j)
    requires forall k :: m <= k < n ==> Progress(states[k], states[k + 1])
    ensures IsView(states[n], j)
    decreases n - m
  {
    if m < n {
      StaysView(states, m, n - 1, j);
      assert Progress(states[n - 1], states[n - 1 + 1]);
      assert JobStep(states[n - 1].jobs[j], states[n].jobs[j]);
    }
  }

  lemma RunBills(cfg: Config, states: seq<Store>, events: seq<Event>, j: JobId, m: nat, n: nat, k: nat)
    requires IsRun(cfg, states, events) && m <= k < n < |states| && IsView(states[m], j)
    ensures Fair(BillAt(cfg, states, events, j, k))
  {
    forall i | m <= i < k
      ensures Progress(states[i], states[i + 1])
    {
      RunStep(cfg, states, events, i);
    }
    StaysView(states, m, k, j);
    RunBill(cfg, states, events, j, k);
  }

  lemma BudgetBounded(s: Store, cfg: Config, j: JobId)
    requires Inv(s, cfg) && IsView(s, j)
    ensures 0 <= Budget(s, j) <= 3 * |s.accounts|
  {
    ViewItemsBounded(s, cfg, j);
    CountTotal(s.items, j);
  }

  lemma BillsChain(cfg: Config, states: seq<Store>, events: seq<Event>, j: JobId, m: nat, n: nat)
    requires IsRun(cfg, states, events) && m < n < |states|
    ensures var bills := Bills(cfg, states, events, j, m, n);
      && bills[0].before == Budget(states[m], j)
      && forall k :: 0 < k < |bills| ==> bills[k].before == bills[k - 1].after
  {
  }

  /**
   * From any moment of any run, the claims, answers and refills of a view job number at most
   * its budget then, plus what new accounts and dead workers add; with a fixed account set and
   * no stale reset, at most three per account.
   */
  lemma ViewWorkIsBounded(cfg: Config, states: seq<Store>, events: seq<Event>, j: JobId, m: nat, n: nat)
    requires IsRun(cfg, states, events) && m < n < |states| && IsView(states[m], j)
    ensures var bills := Bills(cfg, states, events, j, m, n);
      TotalWork(bills) <= Budget(states[m], j) + TotalWindfall(bills) <= 3 * |states[m].accounts| + TotalWindfall(bills)
  {
    var bills := Bills(cfg, states, events, j, m, n);
    forall k | 0 <= k < |bills|
      ensures Fair(bills[k])
    {
      RunBills(cfg, states, events, j, m, n, m + k);
    }
    BillsChain(cfg, states, events, j, m, n);
    BillsAddUp(bills);
    RunKeeps(cfg, states, events, m);
    BudgetBounded(states[m], cfg, j);
  }

  /** With nothing in flight, finalizing a view job hands out new accounts or leaves it settled; it never waits. */
  lemma ViewFinalizeDecides(s: Store, cfg: Config, j: JobId, locked: set<AccountId>)
    requires Inv(s, cfg) && IsView(s, j) && CountInFlight(s.items, j) == 0
    ensures var (t, r) := Finalize(s, cfg, j, locked);
      && (r.Refilled? || (j < |t.jobs| && Terminal(t.jobs[j].status)))
      && (r.Refilled? ==> s.jobs[j].status.InProgress? && Budget(t, j) < Budget(s, j))
      && (Budget(s, j) == 0 ==> !r.Refilled?)
  {
    var (t, r) := Finalize(s, cfg, j, locked);
    FinalizeCases(s, cfg, j, locked);
    assert StatusAgrees(s.jobs[j]);
    RecountAgrees(s, j) by {
      assert JobCounters(s.jobs[j], s.items, j);
    }
    if r.Refilled? {
      AddedBudget(s, t, cfg, j, Replacements(s, cfg, j, locked), j);
      FinalizeKeeps(s, cfg, j, locked);
      ViewItemsBounded(t, cfg, j);
    }
  }
}
