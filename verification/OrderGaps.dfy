/** Between which actions of an account the action delay lies: exactly between two claims of join or leave items. */
module OrderGaps {
  import opened Common
  import opened OrderStore
  import opened OrderSteps
  import opened OrderInvariant
  import opened OrderKeeps
  import opened OrderRuns
  import opened OrderWitness
  import opened OrderPacing
  import OrderTables
  import opened OrderPaths

  /** What an account does: joining or leaving for an order, viewing for one, or leaving by schedule. */
  datatype Kind = Moving | Viewing | AutoLeaving

  /** Event `e` starts an action of account `a`. */
  ghost predicate Acts(s: Store, cfg: Config, e: Event, a: AccountId, kind: Kind)
    requires Linked(s)
  {
    match kind
    case Moving => Proceeds(s, cfg, e, a)
    case Viewing =>
      && e.ItemClaimed? && e.item < |s.items| && s.items[e.item].account == a && JobOf(s, e.item).action.View?
      && Claim(s, cfg, e.item).1.Go?
    case AutoLeaving => e.LeaveStarted? && Due(s, e.item) && s.schedules[e.item].account == a
  }

  /** An action starts exactly with the claim of a claimable item, which must be a view while the account is held
      back, or with a due auto-leave, held back or not. */
  lemma ActsExactlyWhen(s: Store, cfg: Config, e: Event, a: AccountId)
    requires Linked(s)
    ensures (exists kind :: Acts(s, cfg, e, a, kind)) <==>
      || (e.ItemClaimed? && e.item < |s.items| && s.items[e.item].account == a && OrderTables.Claimable(s, e.item)
          && (JobOf(s, e.item).action.View? || !IsThrottled(s, a)))
      || (e.LeaveStarted? && Due(s, e.item) && s.schedules[e.item].account == a)
  {
    assert (exists kind :: Acts(s, cfg, e, a, kind)) <==>
      Acts(s, cfg, e, a, Moving) || Acts(s, cfg, e, a, Viewing) || Acts(s, cfg, e, a, AutoLeaving);
  }

  // ── over runs ──────────────────────────────────────────────────────────────

  ghost predicate ActsAt(cfg: Config, states: seq<Store>, events: seq<Event>, k: nat, a: AccountId, kind: Kind)
    requires |states| == |events| + 1 && k < |events|
  {
    Linked(states[k]) && Acts(states[k], cfg, events[k], a, kind)
  }

  /** Events `m` and `n` start actions of these kinds, and in between nothing rewrites the account's throttle. */
  ghost predicate Follows(cfg: Config, states: seq<Store>, events: seq<Event>, m: nat, n: nat, a: AccountId, x: Kind, y: Kind) {
    && |states| == |events| + 1 && m < n < |events|
    && ActsAt(cfg, states, events, m, a, x) && ActsAt(cfg, states, events, n, a, y)
    && forall i :: m < i < n ==> !ResetsAt(states, events, i, a)
  }

  ghost predicate GapKept(cfg: Config, x: Kind, y: Kind) {
    forall states: seq<Store>, events: seq<Event>, m: nat, n: nat, a: AccountId ::
      IsRun(cfg, states, events) && Follows(cfg, states, events, m, n, a, x, y)
      ==> states[n].now - states[m].now >= cfg.actionDelay
  }

  // ── an account that could do everything at once ────────────────────────────

  /** Two retained joins are due, two views and a join wait for their workers, and the account is not held back. */
  ghost predicate AllAtOnce(s: Store) {
    && Linked(s) && |s.items| == 5 && !IsThrottled(s, 0)
    && (forall i :: 0 <= i < 5 ==> s.items[i].account == 0) && (forall i :: 2 <= i < 5 ==> s.items[i].status.Pending?)
    && JobOf(s, 2).action.View? && JobOf(s, 3).action.View? && JobOf(s, 4).action.Join?
    && Due(s, 0) && Due(s, 1) && s.schedules[0].account == 0 && s.schedules[1].account == 0
  }

  /** The first, or for a second time the other, event that starts an action of this kind. */
  function EventOf(kind: Kind, again: bool): Event {
    match kind
    case Moving => ItemClaimed(4)
    case Viewing => ItemClaimed(if again then 3 else 2)
    case AutoLeaving => LeaveStarted(if again then 1 else 0)
  }

  lemma BothAct(s: Store, cfg: Config, x: Kind, y: Kind)
    requires AllAtOnce(s) && !(x.Moving? && y.Moving?)
    ensures Linked(s) && Enabled(s, EventOf(x, false)) && Acts(s, cfg, EventOf(x, false), 0, x)
    ensures var t := Apply(s, cfg, EventOf(x, false));
      t.now == s.now && Linked(t) && Enabled(t, EventOf(y, true)) && Acts(t, cfg, EventOf(y, true), 0, y)
  {
  }

  /** Two retained joins are done and due. */
  lemma ReachBothDue(cfg: Config) returns (s: Store)
    ensures Reachable(cfg, s) && AtRest(s) && !IsThrottled(s, 0) && |s.jobs| == 2 && |s.items| == 2 && s.views == map[]
    ensures s.jobs[0].idempotencyKey == "a" && s.jobs[1].idempotencyKey == "b"
    ensures s.memberships.Keys == {(0, "t"), (0, "u")}
    ensures Due(s, 0) && Due(s, 1) && s.schedules[0].account == 0 && s.schedules[1].account == 0
  {
    var empty := ReachAccount(cfg);
    var one := ReachJoin(cfg, empty, Order("a", Join, "t", 1, Some(1)));
    var two := ReachSecondJoin(cfg, one);
    s := Tick(two, DAY);
    ReachEvent(cfg, two, Ticked(DAY), s);
  }

  lemma ReachSecondJoin(cfg: Config, one: Store) returns (two: Store)
    requires Reachable(cfg, one) && AtRest(one) && !IsThrottled(one, 0) && |one.jobs| == 1 && |one.items| == 1 && one.views == map[]
    requires one.jobs[0].idempotencyKey == "a" && one.memberships.Keys == {(0, "t")} && one.now >= 0
    requires one.schedules == map[0 := Schedule(0, 0, "t", DAY, ScheduleStatus.Pending, 0)]
    ensures Reachable(cfg, two) && AtRest(two) && !IsThrottled(two, 0) && |two.jobs| == 2 && |two.items| == 2 && two.views == map[]
    ensures two.jobs[0].idempotencyKey == "a" && two.jobs[1].idempotencyKey == "b"
    ensures two.memberships.Keys == {(0, "t"), (0, "u")} && two.now >= one.now
    ensures two.schedules == one.schedules[1 := Schedule(1, 0, "u", one.now + DAY, ScheduleStatus.Pending, 0)]
  {
    assert "a" != "b" && "t" != "u";
    NewKey(one.jobs, "b");
    two := ReachJoin(cfg, one, Order("b", Join, "u", 1, Some(1)));
    assert two.jobs[0] == two.jobs[..1][0];
  }

  ghost predicate BothDue(s: Store) {
    && Linked(s) && s.accounts == [AccountStatus.Active] && !IsThrottled(s, 0)
    && s.views == map[] && s.memberships.Keys == {(0, "t"), (0, "u")}
    && Due(s, 0) && Due(s, 1) && s.schedules[0].account == 0 && s.schedules[1].account == 0
    && |s.jobs| >= 2 && |s.items| == |s.jobs|
    && s.items[0].account == 0 && s.items[1].account == 0 && !InFlight(s.items[0].status) && !InFlight(s.items[1].status)
  }

  /** An order without retention waits for its worker behind `s`. */
  ghost predicate Queued(s: Store, t: Store, idempotencyKey: string, action: Action, key: Key) {
    && t == s.(jobs := t.jobs, items := s.items + [NewItem(|s.jobs|, 0)])
    && |t.jobs| == |s.jobs| + 1 && t.jobs[..|s.jobs|] == s.jobs
    && t.jobs[|s.jobs|].idempotencyKey == idempotencyKey && t.jobs[|s.jobs|].action == action && t.jobs[|s.jobs|].key == key
  }

  lemma QueuedIsDue(s: Store, t: Store, idempotencyKey: string, action: Action, key: Key)
    requires BothDue(s) && Queued(s, t, idempotencyKey, action, key)
    ensures BothDue(t) && |t.jobs| == |s.jobs| + 1 && t.items[|s.items|] == NewItem(|s.jobs|, 0) && t.jobs[|s.jobs|].idempotencyKey == idempotencyKey
    ensures JobOf(t, |s.items|).action == action && JobOf(t, |s.items|).key == key
    ensures forall i :: 0 <= i < |s.items| ==> t.items[i] == s.items[i] && JobOf(t, i) == JobOf(s, i)
    ensures forall j :: 0 <= j < |s.jobs| ==> t.jobs[j] == s.jobs[j]
  {
    assert forall j :: 0 <= j < |s.jobs| ==> t.jobs[j] == t.jobs[..|s.jobs|][j];
  }

  lemma ReachQueued(cfg: Config, s: Store, idempotencyKey: string, action: Action, key: Key) returns (t: Store)
    requires Reachable(cfg, s) && BothDue(s) && !action.Leave? && FindJob(s.jobs, idempotencyKey) == |s.jobs|
    requires (0, key) !in s.memberships && !Reserved(s, action, key, 0)
    ensures Reachable(cfg, t) && Queued(s, t, idempotencyKey, action, key)
  {
    assert Free(s, cfg, action, key, 0);
    hide Free, FindJob, Reserved;
    t := ReachOrder(cfg, s, Order(idempotencyKey, action, key, 1, None));
  }

  /** The items behind the two joins are views that wait for their workers. */
  ghost predicate ViewsWait(s: Store) {
    BothDue(s) && forall i :: 2 <= i < |s.items| ==> s.items[i].status.Pending? && s.items[i].account == 0 && JobOf(s, i).action.View?
  }

  ghost predicate FreshKey(s: Store, idempotencyKey: string) {
    forall j :: 0 <= j < |s.jobs| ==> s.jobs[j].idempotencyKey != idempotencyKey
  }

  lemma ReachView(cfg: Config, s: Store, idempotencyKey: string, key: Key) returns (t: Store)
    requires Reachable(cfg, s) && ViewsWait(s) && FreshKey(s, idempotencyKey)
    requires (0, key) !in s.memberships && forall i :: 2 <= i < |s.items| ==> JobOf(s, i).key != key
    ensures Reachable(cfg, t) && ViewsWait(t) && |t.items| == |s.items| + 1
    ensures JobOf(t, |s.items|).key == key && forall j :: 0 <= j < |s.jobs| ==> t.jobs[j] == s.jobs[j]
    ensures forall other :: FreshKey(s, other) && other != idempotencyKey ==> FreshKey(t, other)
  {
    hide Reachable, Queued, FindJob;
    NewKey(s.jobs, idempotencyKey);
    t := ReachQueued(cfg, s, idempotencyKey, View, key);
    QueuedIsDue(s, t, idempotencyKey, View, key);
  }

  lemma ReachAllAtOnce(cfg: Config) returns (s: Store)
    ensures Reachable(cfg, s) && AllAtOnce(s)
  {
    hide Reachable, Queued, FindJob;
    var due := ReachBothDue(cfg);
    assert FreshKey(due, "c") && FreshKey(due, "d") && FreshKey(due, "e") by {
      assert "a" != "c" && "b" != "c" && "a" != "d" && "b" != "d" && "a" != "e" && "b" != "e";
    }
    assert "c" != "d" && "c" != "e" && "d" != "e" && "v" != "t" && "v" != "u" && "v" != "w" && "w" != "t" && "w" != "u";
    hide FreshKey;
    var one := ReachView(cfg, due, "c", "v");
    var two := ReachView(cfg, one, "d", "w");
    s := ReachJoinToo(cfg, two, "e", "v");
  }

  lemma ReachJoinToo(cfg: Config, s: Store, idempotencyKey: string, key: Key) returns (t: Store)
    requires Reachable(cfg, s) && ViewsWait(s) && |s.items| == 4 && FreshKey(s, idempotencyKey) && (0, key) !in s.memberships
    ensures Reachable(cfg, t) && AllAtOnce(t)
  {
    hide Reachable, Queued, FindJob;
    NewKey(s.jobs, idempotencyKey);
    t := ReachQueued(cfg, s, idempotencyKey, Join, key);
    QueuedIsDue(s, t, idempotencyKey, Join, key);
  }

  /** For any other pair of kinds: a run in which one follows the other at the same time. */
  lemma AtTheSameTime(cfg: Config, x: Kind, y: Kind) returns (states: seq<Store>, events: seq<Event>, m: nat)
    requires !(x.Moving? && y.Moving?)
    ensures IsRun(cfg, states, events) && Follows(cfg, states, events, m, m + 1, 0, x, y)
    ensures states[m + 1].now == states[m].now
  {
    hide Acts, Apply, Enabled, AllAtOnce;
    var s := ReachAllAtOnce(cfg);
    BothAct(s, cfg, x, y);
    var before, past :| IsRun(cfg, before, past) && before[|past|] == s;
    m := |past|;
    var e, f := EventOf(x, false), EventOf(y, true);
    var t := Apply(s, cfg, e);
    var u := Apply(t, cfg, f);
    RunExtends(cfg, before, past, e, t);
    RunExtends(cfg, before + [t], past + [e], f, u);
    states, events := before + [t] + [u], past + [e] + [f];
  }

  /** Over all runs the action delay lies between an action of one kind and a later one of another, with nothing
      rewriting the throttle in between, exactly when both are claims of join or leave items, or there is no delay. */
  lemma GapKeptExactlyWhen(cfg: Config, x: Kind, y: Kind)
    ensures GapKept(cfg, x, y) <==> cfg.actionDelay <= 0 || (x.Moving? && y.Moving?)
  {
    hide Acts, Apply, Enabled, IsRun;
    if x.Moving? && y.Moving? {
      forall states: seq<Store>, events: seq<Event>, m: nat, n: nat, a: AccountId
        | IsRun(cfg, states, events) && Follows(cfg, states, events, m, n, a, x, y)
        ensures states[n].now - states[m].now >= cfg.actionDelay
      {
        MovingIsClaiming(cfg, states, events, m, a);
        MovingIsClaiming(cfg, states, events, n, a);
        ClaimsArePaced(cfg, states, events, m, n, a);
      }
    } else if cfg.actionDelay <= 0 {
      forall states: seq<Store>, events: seq<Event>, m: nat, n: nat, a: AccountId
        | IsRun(cfg, states, events) && Follows(cfg, states, events, m, n, a, x, y)
        ensures states[n].now - states[m].now >= cfg.actionDelay
      {
        RunProgress(cfg, states, events, m, n);
        TimeMoves(states[m], states[n]);
      }
    } else {
      var states, events, m := AtTheSameTime(cfg, x, y);
    }
  }

  lemma MovingIsClaiming(cfg: Config, states: seq<Store>, events: seq<Event>, k: nat, a: AccountId)
    requires |states| == |events| + 1 && k < |events| && ActsAt(cfg, states, events, k, a, Moving)
    ensures ProceedsAt(cfg, states, events, k, a)
  {
  }
}
