/** What ends a membership, and exactly when an account stays for the whole retention period of its join. */
module OrderMembership {
  import opened Common
  import opened OrderStore
  import opened OrderSteps
  import opened OrderInvariant
  import opened OrderKeeps
  import opened OrderAppends
  import opened OrderRuns
  import opened OrderOutcomes
  import opened OrderRetention

  // ── one step ───────────────────────────────────────────────────────────────

  /** A leave order's item of this account and target is answered: it left, or was out already. */
  ghost predicate LeavesByOrder(s: Store, e: Event, a: AccountId, key: Key)
    requires Linked(s)
  {
    && e.ItemAnswered? && e.item < |s.items| && s.items[e.item].account == a
    && JobOf(s, e.item).action.Leave? && JobOf(s, e.item).key == key && (e.outcome.Done? || e.outcome.AlreadyDone?)
  }

  /** An auto-leave of this account and target comes back well. */
  ghost predicate LeavesBySchedule(s: Store, e: Event, a: AccountId, key: Key) {
    && e.LeaveReturned? && e.left && e.item in s.schedules
    && s.schedules[e.item].account == a && s.schedules[e.item].key == key
  }

  lemma FinalizeMemberships(s: Store, cfg: Config, j: JobId, locked: set<AccountId>)
    requires Linked(s) && j < |s.jobs|
    ensures Finalize(s, cfg, j, locked).0.memberships == s.memberships
  {
  }

  lemma CancelMemberships(s: Store, j: JobId)
    requires j < |s.jobs|
    ensures CancelInvalidTarget(s, j).memberships == s.memberships
  {
  }

  lemma AnswerEnds(s: Store, cfg: Config, i: ItemId, outcome: Outcome, a: AccountId, key: Key)
    requires Linked(s) && i < |s.items| && IsJoined(s, a, key)
    ensures !IsJoined(Complete(s, cfg, i, outcome), a, key) <==> LeavesByOrder(s, ItemAnswered(i, outcome), a, key)
  {
    hide CancelInvalidTarget;
    CancelMemberships(FinishItem(s, i, ItemStatus.Skipped, Message.InvalidTarget), s.items[i].job);
  }

  lemma ReturnEnds(s: Store, i: ItemId, left: bool, a: AccountId, key: Key)
    requires i in s.schedules && s.schedules[i].job < |s.jobs| && IsJoined(s, a, key)
    ensures !IsJoined(FinishLeave(s, i, left), a, key) <==> LeavesBySchedule(s, LeaveReturned(i, left), a, key)
  {
  }

  /** A step ends a membership exactly when it is one of these two. */
  lemma EndsExactlyWhen(s: Store, cfg: Config, e: Event, a: AccountId, key: Key)
    requires Linked(s) && Enabled(s, e) && IsJoined(s, a, key)
    ensures !IsJoined(Apply(s, cfg, e), a, key) <==> LeavesByOrder(s, e, a, key) || LeavesBySchedule(s, e, a, key)
  {
    match e
    case ItemAnswered(i, outcome) => AnswerEnds(s, cfg, i, outcome, a, key);
    case JobFinalized(j, locked) => FinalizeMemberships(s, cfg, j, locked);
    case LeaveReturned(i, left) => ReturnEnds(s, i, left, a, key);
    case _ =>
  }

  // ── a whole retention period ───────────────────────────────────────────────

  /** At event `m` item `i` of a retained join succeeds. */
  ghost predicate JoinsAt(cfg: Config, states: seq<Store>, events: seq<Event>, m: nat, i: ItemId)
    requires |states| == |events| + 1 && m < |events|
  {
    && Linked(states[m]) && events[m].ItemAnswered? && events[m].item == i && i < |states[m].items|
    && JobOf(states[m], i).action.Join? && NeedsLeave(JobOf(states[m], i))
    && (events[m].outcome.Done? || events[m].outcome.AlreadyDone?)
  }

  /** The account is a member from state `m` to state `n`. */
  ghost predicate Stays(states: seq<Store>, m: nat, n: nat, a: AccountId, key: Key)
    requires n < |states|
  {
    forall k :: m <= k <= n ==> IsJoined(states[k], a, key)
  }

  /** At event `k` a leave order takes the account out, or the auto-leave of a join older than the one at `m`. */
  ghost predicate TakenOutAt(states: seq<Store>, events: seq<Event>, m: nat, k: nat, a: AccountId, key: Key)
    requires |states| == |events| + 1 && m <= k < |events|
  {
    && Linked(states[k])
    && (|| LeavesByOrder(states[k], events[k], a, key)
        || (LeavesBySchedule(states[k], events[k], a, key) && events[k].item in states[m].schedules))
  }

  lemma SuccessJoins(s: Store, cfg: Config, i: ItemId, outcome: Outcome)
    requires Inv(s, cfg) && i < |s.items| && s.items[i].status.Running? && (outcome.Done? || outcome.AlreadyDone?)
    requires JobOf(s, i).action.Join? && NeedsLeave(JobOf(s, i))
    ensures var t := Complete(s, cfg, i, outcome);
      && IsJoined(t, s.items[i].account, JobOf(s, i).key)
      && i !in s.schedules && i in t.schedules && t.schedules.Keys == s.schedules.Keys + {i}
      && t.schedules[i].dueAt == s.now + JobOf(s, i).retention.value * DAY
  {
    assert !NeedsSchedule(s, i);
  }

  /** After the join the account is a member, with a schedule that is due when the period is over. */
  lemma JoinBegins(cfg: Config, states: seq<Store>, events: seq<Event>, m: nat, i: ItemId)
    requires IsRun(cfg, states, events) && m < |events| && JoinsAt(cfg, states, events, m, i)
    ensures var s, t := states[m], states[m + 1];
      && IsJoined(t, s.items[i].account, JobOf(s, i).key)
      && i !in s.schedules && i in t.schedules && t.schedules.Keys == s.schedules.Keys + {i}
      && t.schedules[i].dueAt == s.now + JobOf(s, i).retention.value * DAY
  {
    hide Inv, Progress, Complete;
    RunStep(cfg, states, events, m);
    SuccessJoins(states[m], cfg, i, events[m].outcome);
  }

  /** No new schedule of the account and target appears while the account is a member. */
  lemma NoneAppears(s: Store, cfg: Config, e: Event, i: ItemId, a: AccountId, key: Key)
    requires Inv(s, cfg) && Enabled(s, e) && IsJoined(s, a, key) && i !in s.schedules && i in Apply(s, cfg, e).schedules
    ensures !(Apply(s, cfg, e).schedules[i].account == a && Apply(s, cfg, e).schedules[i].key == key)
  {
    AppearsWithSuccess(s, cfg, e, i);
    StepKeeps(s, cfg, e);
    SameSlotLater(s, Apply(s, cfg, e), cfg, i);
    assert s.items[i].status.Running?;
  }

  lemma SameSlotLater(s: Store, t: Store, cfg: Config, i: ItemId)
    requires Inv(s, cfg) && Inv(t, cfg) && Progress(s, t) && i < |s.items| && i in t.schedules
    ensures t.schedules[i].account == s.items[i].account && t.schedules[i].key == JobOf(s, i).key
  {
    assert ItemStep(s.items[i], t.items[i]);
    assert JobStep(s.jobs[s.items[i].job], t.jobs[s.items[i].job]);
  }

  /** So while it stays, every other schedule for it was there before the join. */
  lemma {:induction false} OthersAreOlder(cfg: Config, states: seq<Store>, events: seq<Event>, m: nat, n: nat, i: ItemId, k: ItemId)
    requires IsRun(cfg, states, events) && m < n < |states| && JoinsAt(cfg, states, events, m, i)
    requires Stays(states, m + 1, n, states[m].items[i].account, JobOf(states[m], i).key)
    requires k in states[n].schedules && k != i && states[n].schedules[k].account == states[m].items[i].account
    requires states[n].schedules[k].key == JobOf(states[m], i).key
    ensures k in states[m].schedules
    decreases n
  {
    hide Inv, Progress, Apply, Enabled;
    JoinBegins(cfg, states, events, m, i);
    if m + 1 < n {
      RunStep(cfg, states, events, n - 1);
      var s, e := states[n - 1], events[n - 1];
      LinkedIn(s, cfg);
      if k !in s.schedules {
        NoneAppears(s, cfg, e, k, states[m].items[i].account, JobOf(states[m], i).key);
      } else {
        KeepsSlot(s, states[n], k);
        OthersAreOlder(cfg, states, events, m, n - 1, i, k);
      }
    }
  }

  lemma KeepsSlot(s: Store, t: Store, k: ItemId)
    requires Progress(s, t) && k in s.schedules
    ensures k in t.schedules && t.schedules[k].account == s.schedules[k].account && t.schedules[k].key == s.schedules[k].key
    ensures t.schedules[k].dueAt == s.schedules[k].dueAt
  {
    assert ScheduleStep(s.schedules[k], t.schedules[k]);
  }

  /** Its own auto-leave does not come back before it is due. */
  lemma OwnLeaveIsLate(cfg: Config, states: seq<Store>, events: seq<Event>, m: nat, n: nat, i: ItemId)
    requires IsRun(cfg, states, events) && m < n < |events| && JoinsAt(cfg, states, events, m, i)
    requires events[n].LeaveReturned? && events[n].item == i
    ensures states[n].now >= states[m].now + JobOf(states[m], i).retention.value * DAY
  {
    hide Inv, Progress, Apply;
    JoinBegins(cfg, states, events, m, i);
    RunProgress(cfg, states, events, m + 1, n);
    KeepsSlot(states[m + 1], states[n], i);
    RunStep(cfg, states, events, n);
    EveryScheduleOnTime(cfg, states, events, n, i);
  }

  lemma {:induction false} StaysUntilTaken(cfg: Config, states: seq<Store>, events: seq<Event>, m: nat, n: nat, i: ItemId)
    requires IsRun(cfg, states, events) && m < n < |states| && JoinsAt(cfg, states, events, m, i)
    requires states[n].now < states[m].now + JobOf(states[m], i).retention.value * DAY
    requires forall k :: m < k < n ==> !TakenOutAt(states, events, m, k, states[m].items[i].account, JobOf(states[m], i).key)
    ensures Stays(states, m + 1, n, states[m].items[i].account, JobOf(states[m], i).key)
    decreases n
  {
    hide Inv, Progress, Apply, Enabled, LeavesByOrder;
    JoinBegins(cfg, states, events, m, i);
    if m + 1 < n {
      var a, key, s, e := states[m].items[i].account, JobOf(states[m], i).key, states[n - 1], events[n - 1];
      RunStep(cfg, states, events, n - 1);
      LinkedIn(s, cfg);
      NoEarlierNow(s, states[n]);
      StaysUntilTaken(cfg, states, events, m, n - 1, i);
      EndsExactlyWhen(s, cfg, e, a, key);
      assert !TakenOutAt(states, events, m, n - 1, a, key);
      if LeavesBySchedule(s, e, a, key) {
        if e.item == i {
          OwnLeaveIsLate(cfg, states, events, m, n - 1, i);
        } else {
          OthersAreOlder(cfg, states, events, m, n - 1, i, e.item);
        }
        assert false;
      }
    }
  }

  lemma NoEarlierNow(s: Store, t: Store)
    requires Progress(s, t)
    ensures s.now <= t.now
  {
  }

  /** In every run, up to any moment before the retention period of a join is over: the account has stayed since
      the join exactly when neither a leave order nor the auto-leave of an older join took it out in between. */
  lemma RetentionHoldsExactlyWhen(cfg: Config, states: seq<Store>, events: seq<Event>, m: nat, n: nat, i: ItemId)
    requires IsRun(cfg, states, events) && m < n < |states| && JoinsAt(cfg, states, events, m, i)
    requires states[n].now < states[m].now + JobOf(states[m], i).retention.value * DAY
    ensures var a, key := states[m].items[i].account, JobOf(states[m], i).key;
      Stays(states, m + 1, n, a, key) <==> forall k :: m < k < n ==> !TakenOutAt(states, events, m, k, a, key)
  {
    hide Inv, Progress, Apply, Enabled, LeavesByOrder, LeavesBySchedule;
    var a, key := states[m].items[i].account, JobOf(states[m], i).key;
    if forall k :: m < k < n ==> !TakenOutAt(states, events, m, k, a, key) {
      StaysUntilTaken(cfg, states, events, m, n, i);
    } else {
      var k :| m < k < n && TakenOutAt(states, events, m, k, a, key);
      RunStep(cfg, states, events, k);
      if Stays(states, m + 1, n, a, key) {
        assert IsJoined(states[k], a, key) && IsJoined(states[k + 1], a, key);
        EndsExactlyWhen(states[k], cfg, events[k], a, key);
        assert false;
      }
    }
  }
}
