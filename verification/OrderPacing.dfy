/** How the claims of an account's join and leave items are paced over a run. Auto-leaves are not claims of items
    and take no part in this. */
module OrderPacing {
  import opened Common
  import opened OrderStore
  import opened OrderSteps
  import opened OrderInvariant
  import opened OrderKeeps
  import opened OrderAppends
  import opened OrderRuns

  /** A worker of account `a` goes ahead with the item of a join or leave order. */
  ghost predicate Proceeds(s: Store, cfg: Config, e: Event, a: AccountId)
    requires Linked(s)
  {
    && e.ItemClaimed? && e.item < |s.items| && s.items[e.item].account == a && !JobOf(s, e.item).action.View?
    && Claim(s, cfg, e.item).1.Go?
  }

  /** The account's throttle is rewritten: Rubika refused or was not reached, or the account's worker died. */
  ghost predicate Resets(s: Store, e: Event, a: AccountId) {
    || (e.ItemAnswered? && e.item < |s.items| && s.items[e.item].account == a
        && (e.outcome.TooMany? || e.outcome.NoConnection?))
    || (e.WorkersRecovered? && HasStaleItem(s, a))
  }

  lemma CancelKeepsThrottles(s: Store, j: JobId)
    requires j < |s.jobs|
    ensures CancelInvalidTarget(s, j).throttles == s.throttles
  {
  }

  lemma AnswerThrottles(s: Store, cfg: Config, i: ItemId, outcome: Outcome, a: AccountId)
    requires Linked(s) && i < |s.items| && a in s.throttles
    requires !(s.items[i].account == a && (outcome.TooMany? || outcome.NoConnection?))
    ensures a in Complete(s, cfg, i, outcome).throttles && Complete(s, cfg, i, outcome).throttles[a] == s.throttles[a]
  {
    hide CancelInvalidTarget;
    CancelKeepsThrottles(FinishItem(s, i, ItemStatus.Skipped, Message.InvalidTarget), s.items[i].job);
  }

  lemma FinalizeThrottles(s: Store, cfg: Config, j: JobId, locked: set<AccountId>)
    requires Linked(s) && j < |s.jobs|
    ensures Finalize(s, cfg, j, locked).0.throttles == s.throttles
  {
  }

  lemma ClaimThrottles(s: Store, cfg: Config, i: ItemId, a: AccountId)
    requires Linked(s) && i < |s.items|
    ensures Proceeds(s, cfg, ItemClaimed(i), a) ==>
      !IsThrottled(s, a) && a in Claim(s, cfg, i).0.throttles && Claim(s, cfg, i).0.throttles[a] == Some(s.now + cfg.actionDelay)
    ensures !Proceeds(s, cfg, ItemClaimed(i), a) && a in s.throttles ==>
      a in Claim(s, cfg, i).0.throttles && Claim(s, cfg, i).0.throttles[a] == s.throttles[a]
  {
  }

  /** Nothing else touches an account's throttle. */
  lemma ThrottleStays(s: Store, cfg: Config, e: Event, a: AccountId)
    requires Linked(s) && Enabled(s, e) && a in s.throttles && !Proceeds(s, cfg, e, a) && !Resets(s, e, a)
    ensures a in Apply(s, cfg, e).throttles && Apply(s, cfg, e).throttles[a] == s.throttles[a]
  {
    match e
    case ItemClaimed(i) => ClaimThrottles(s, cfg, i, a);
    case ItemAnswered(i, outcome) => AnswerThrottles(s, cfg, i, outcome, a);
    case JobFinalized(j, locked) => FinalizeThrottles(s, cfg, j, locked);
    case _ =>
  }

  ghost predicate ProceedsAt(cfg: Config, states: seq<Store>, events: seq<Event>, k: nat, a: AccountId)
    requires |states| == |events| + 1 && k < |events|
  {
    Linked(states[k]) && Proceeds(states[k], cfg, events[k], a)
  }

  ghost predicate ResetsAt(states: seq<Store>, events: seq<Event>, k: nat, a: AccountId)
    requires |states| == |events| + 1 && k < |events|
  {
    Resets(states[k], events[k], a)
  }

  /** The account is held back until `until`, or later. */
  ghost predicate HeldUntil(s: Store, a: AccountId, until: Time) {
    a in s.throttles && s.throttles[a].Some? && s.throttles[a].value >= until
  }

  lemma {:induction false} HeldBack(cfg: Config, states: seq<Store>, events: seq<Event>, m: nat, k: nat, a: AccountId)
    requires IsRun(cfg, states, events) && m < k < |states| && ProceedsAt(cfg, states, events, m, a)
    requires forall i :: m < i < k ==> !ResetsAt(states, events, i, a)
    ensures HeldUntil(states[k], a, states[m].now + cfg.actionDelay)
    decreases k
  {
    hide Inv, Progress, Apply, Enabled, Proceeds, Resets, StepAt;
    RunStep(cfg, states, events, k - 1);
    var s, e := states[k - 1], events[k - 1];
    LinkedIn(s, cfg);
    Proceeding(s, cfg, e, a);
    if m < k - 1 {
      HeldBack(cfg, states, events, m, k - 1, a);
      RunProgress(cfg, states, events, m, k - 1);
      TimeMoves(states[m], s);
      assert !ResetsAt(states, events, k - 1, a);
      if !Proceeds(s, cfg, e, a) {
        ThrottleStays(s, cfg, e, a);
      }
    }
  }

  lemma Proceeding(s: Store, cfg: Config, e: Event, a: AccountId)
    requires Inv(s, cfg) && Enabled(s, e)
    ensures Proceeds(s, cfg, e, a) ==> !IsThrottled(s, a) && HeldUntil(Apply(s, cfg, e), a, s.now + cfg.actionDelay)
  {
    if e.ItemClaimed? {
      ClaimThrottles(s, cfg, e.item, a);
    }
  }

  lemma TimeMoves(s: Store, t: Store)
    requires Progress(s, t)
    ensures s.now <= t.now
  {
  }

  /** Between two claims of join or leave items of one account that go ahead the action delay passes, unless the
      account's throttle was rewritten in between: no two workers, jobs or retries get past it. */
  lemma ClaimsArePaced(cfg: Config, states: seq<Store>, events: seq<Event>, m: nat, n: nat, a: AccountId)
    requires IsRun(cfg, states, events) && m < n < |events|
    requires ProceedsAt(cfg, states, events, m, a) && ProceedsAt(cfg, states, events, n, a)
    requires forall i :: m < i < n ==> !ResetsAt(states, events, i, a)
    ensures states[n].now - states[m].now >= cfg.actionDelay
  {
    hide Inv, Progress, Apply, Enabled, Proceeds, Resets, StepAt;
    RunStep(cfg, states, events, n);
    HeldBack(cfg, states, events, m, n, a);
    Proceeding(states[n], cfg, events[n], a);
  }
}
