/** One HTTP call: the retry ladder over the rotating pool, with a single refresh of the URL list. */
module HttpSend {
  import opened Common
  import opened UrlPool

  datatype RetryPolicy = RetryPolicy(delays: seq<Time>, maxRetries: Option<int>) {
    function Retries(): nat {
      if maxRetries.None? then |delays|
      else Max(0, if delays != [] then Min(maxRetries.value, |delays|) else maxRetries.value)
    }

    function DelayFor(retry: nat): Time {
      if delays == [] then 0 else delays[Min(retry, |delays| - 1)]
    }

    function WithRetries(retries: Option<int>): RetryPolicy {
      if retries.Some? then this.(maxRetries := Some(Max(0, retries.value))) else this
    }
  }

  const WEB_RETRY_DELAYS: seq<Time> := [0, 2, 3, 5, 10]

  /** How an attempt ends; only `Retryable` failures are tried again. */
  datatype Attempt = Answered | Retryable | Fatal

  /** The optional refresh callback; `Gives([])` covers a refresh that fails or finds nothing. */
  datatype Refresh = NoRefresh | Gives(urls: seq<Url>)

  datatype SendResult = Delivered | Failed | NoUrls

  // ── the ladder as a sequence of pool states ────────────────────────────────

  datatype Rung = Rung(urls: seq<Url>, current: nat, refreshed: bool)

  ghost predicate OnPool(r: Rung) {
    NoDuplicates(r.urls) && if r.urls == [] then r.current == 0 else r.current < |r.urls|
  }

  function Replaced(r: Rung, given: seq<Url>): Rung
    requires r.current < |r.urls|
  {
    if given == [] then r
    else
      var deduped := Dedup(given);
      if deduped == [] then r.(urls := [], current := 0)
      else r.(urls := deduped, current := if r.urls[r.current] in deduped then IndexOf(deduped, r.urls[r.current]) else 0)
  }

  /** What happens between the failure of attempt `k` and the next attempt. */
  function AfterRetry(r: Rung, k: nat, refresh: Refresh): Rung
    requires r.current < |r.urls|
  {
    var moved := r.(current := Next(r.current, |r.urls|));
    if !moved.refreshed && k + 1 >= |moved.urls| && refresh.Gives? then Replaced(moved, refresh.urls).(refreshed := true)
    else moved
  }

  /** The pool before attempt `k`. */
  ghost function LadderAt(start: Rung, refresh: Refresh, k: nat): Rung {
    if k == 0 then start
    else
      var before := LadderAt(start, refresh, k - 1);
      if before.current >= |before.urls| then before else AfterRetry(before, k - 1, refresh)
  }

  /** `rungs` records the ladder from `start`, one state per retry. */
  ghost predicate IsLadder(start: Rung, refresh: Refresh, rungs: seq<Rung>) {
    && rungs != [] && rungs[0] == start
    && forall k :: 0 <= k < |rungs| - 1 ==> IsRetry(rungs[k], k, refresh, rungs[k + 1])
  }

  ghost predicate IsRetry(a: Rung, k: nat, refresh: Refresh, b: Rung) {
    a.current < |a.urls| && b == AfterRetry(a, k, refresh)
  }

  lemma {:induction false} LadderRecords(start: Rung, refresh: Refresh, rungs: seq<Rung>, k: nat)
    requires IsLadder(start, refresh, rungs) && k < |rungs|
    ensures rungs[k] == LadderAt(start, refresh, k)
  {
    if k > 0 {
      LadderRecords(start, refresh, rungs, k - 1);
      assert IsRetry(rungs[k - 1], k - 1, refresh, rungs[k - 1 + 1]);
    }
  }

  /** The attempts went to the current URLs of the ladder, one after the other. */
  ghost predicate Climbs(rungs: seq<Rung>, tried: seq<Url>) {
    |tried| <= |rungs| && forall k :: 0 <= k < |tried| ==> IsCurrent(rungs[k], tried[k])
  }

  ghost predicate IsCurrent(r: Rung, u: Url) {
    r.current < |r.urls| && u == r.urls[r.current]
  }

  /** The list as a refresh after a full round leaves it: rotated back to where the call began. */
  ghost function Refreshed(start: Rung, refresh: Refresh): Rung
    requires OnPool(start) && start.urls != []
  {
    if refresh.Gives? then Replaced(start, refresh.urls).(refreshed := true) else start
  }

  lemma {:induction false} BeforeRefresh(start: Rung, refresh: Refresh, k: nat)
    requires OnPool(start) && !start.refreshed && k < |start.urls|
    ensures LadderAt(start, refresh, k) == start.(current := Rotated(start.current, k, |start.urls|))
  {
    if k > 0 {
      BeforeRefresh(start, refresh, k - 1);
    }
  }

  lemma AtRefresh(start: Rung, refresh: Refresh)
    requires OnPool(start) && !start.refreshed && start.urls != []
    ensures LadderAt(start, refresh, |start.urls|) == Refreshed(start, refresh)
  {
    var n := |start.urls|;
    BeforeRefresh(start, refresh, n - 1);
    RotatedInRound(start.current, n, n);
    assert Rotated(start.current, n, n) == start.current;
  }

  /**
   * The ladder in closed form: one round over the given list from its current URL; then, if there is
   * a refresh, it happens exactly once, with the pool back at that URL; then rounds over the new list.
   */
  lemma {:induction false} LadderClosed(start: Rung, refresh: Refresh, k: nat)
    requires OnPool(start) && start.urls != [] && !start.refreshed
    ensures var n := |start.urls|; var r := LadderAt(start, refresh, k);
      && (k < n ==> r == start.(current := Rotated(start.current, k, n)))
      && (k >= n ==> var b := Refreshed(start, refresh);
            r == if b.urls == [] then b else b.(current := Rotated(b.current, k - n, |b.urls|)))
  {
    var n := |start.urls|;
    if k < n {
      BeforeRefresh(start, refresh, k);
    } else if k == n {
      AtRefresh(start, refresh);
    } else {
      LadderClosed(start, refresh, k - 1);
    }
  }

  /** The URLs of the first `n` attempts: each of the pool's URLs once, in list order. */
  lemma FirstRound(start: Rung, refresh: Refresh, rungs: seq<Rung>, tried: seq<Url>)
    requires OnPool(start) && start.urls != [] && !start.refreshed && |tried| <= |start.urls|
    requires IsLadder(start, refresh, rungs) && Climbs(rungs, tried)
    ensures tried == From(start.urls, start.current)[..|tried|]
  {
    forall k | 0 <= k < |tried|
      ensures tried[k] == From(start.urls, start.current)[k]
    {
      assert IsCurrent(rungs[k], tried[k]);
      LadderRecords(start, refresh, rungs, k);
      LadderClosed(start, refresh, k);
      RoundVisits(start.urls, start.current, k);
    }
  }

  /** The URL that was current when the call began stays current over a refresh that keeps it. */
  lemma RefreshKeepsSurvivor(start: Rung, given: seq<Url>)
    requires OnPool(start) && start.urls != [] && start.urls[start.current] in given && start.urls[start.current] != ""
    ensures var r := Refreshed(start, Gives(given));
      r.urls == Dedup(given) && r.current < |r.urls| && r.urls[r.current] == start.urls[start.current]
  {
  }

  // ── the call ───────────────────────────────────────────────────────────────

  /** What a refresh does to the pool object; `Gives([])` leaves it alone. */
  method ApplyRefresh(pool: Pool, given: seq<Url>)
    requires pool.Valid() && pool.urls != []
    modifies pool`urls, pool`current
    ensures pool.Valid()
    ensures var r := Replaced(old(Rung(pool.urls, pool.current, false)), given); pool.urls == r.urls && pool.current == r.current
  {
    if given != [] {
      DedupKeepsEachOnce(given);
      var _ := pool.Replace(given, false);
      if pool.urls != [] {
        IndexOfUnique(pool.urls, pool.current);
      }
    }
  }

  /** Before a retry: move on, and after a full round of failures ask once for a new list. */
  method OnRetry(pool: Pool, index: nat, refreshed: bool, refresh: Refresh, now: Time) returns (called: bool)
    requires pool.Valid() && pool.urls != []
    modifies pool`urls, pool`current, pool`lastRotation
    ensures pool.Valid() && (refreshed ==> !called)
    ensures IsRetry(old(Rung(pool.urls, pool.current, refreshed)), index, refresh, Rung(pool.urls, pool.current, refreshed || called))
  {
    var _ := pool.ForceRotate(now);
    called := !refreshed && index + 1 >= |pool.urls| && refresh.Gives?;
    if called {
      ApplyRefresh(pool, refresh.urls);
    }
  }

  /** What every call promises about its attempts: `outcomes(k)` is how attempt `k` ends, `retries` how many went before. */
  ghost predicate Ladder(policy: RetryPolicy, outcomes: nat -> Attempt, r: SendResult, tried: seq<Url>, waits: seq<Time>) {
    var retries := |waits|;
    && retries <= policy.Retries()
    && |tried| == (if r.NoUrls? then retries else retries + 1)
    && (forall k :: 0 <= k < retries ==> waits[k] == policy.DelayFor(k) && outcomes(k).Retryable?)
    && (r.Delivered? ==> outcomes(retries).Answered?)
    && (r.Failed? ==> outcomes(retries).Fatal? || (outcomes(retries).Retryable? && retries == policy.Retries()))
  }

  /** A call over the pool. The pool ends on the last of the `rungs` climbed; `refreshes` counts the refresh calls. */
  method SendOverPool(pool: Pool, policy: RetryPolicy, outcomes: nat -> Attempt, refresh: Refresh, now: Time)
    returns (r: SendResult, tried: seq<Url>, waits: seq<Time>, refreshes: nat, ghost rungs: seq<Rung>)
    requires pool.Valid()
    modifies pool`urls, pool`current, pool`lastRotation
    ensures pool.Valid() && Ladder(policy, outcomes, r, tried, waits)
    ensures IsLadder(old(Rung(pool.urls, pool.current, false)), refresh, rungs) && |rungs| == |waits| + 1
    ensures Climbs(rungs, tried) && refreshes <= 1
    ensures rungs[|waits|] == Rung(pool.urls, pool.current, refreshes == 1)
    ensures r.NoUrls? <==> pool.urls == []
  {
    rungs := [Rung(pool.urls, pool.current, false)];
    var refreshed := false;
    tried, waits, refreshes := [], [], 0;
    var index := 0;
    while true
      invariant pool.Valid() && index <= policy.Retries() && |tried| == |waits| == index
      invariant forall k :: 0 <= k < index ==> waits[k] == policy.DelayFor(k) && outcomes(k).Retryable?
      invariant refreshes == if refreshed then 1 else 0
      invariant IsLadder(old(Rung(pool.urls, pool.current, false)), refresh, rungs) && |rungs| == index + 1
      invariant rungs[index] == Rung(pool.urls, pool.current, refreshed)
      invariant Climbs(rungs, tried)
      decreases policy.Retries() - index
    {
      var target := pool.GetCurrent();
      if target.None? {
        return SendResult.NoUrls, tried, waits, refreshes, rungs;
      }
      tried := tried + [target.value];
      if outcomes(index).Answered? {
        return Delivered, tried, waits, refreshes, rungs;
      }
      if index >= policy.Retries() || !outcomes(index).Retryable? {
        return SendResult.Failed, tried, waits, refreshes, rungs;
      }
      var called := OnRetry(pool, index, refreshed, refresh, now);
      if called {
        refreshed, refreshes := true, refreshes + 1;
      }
      rungs := rungs + [Rung(pool.urls, pool.current, refreshed)];
      waits := waits + [policy.DelayFor(index)];
      index := index + 1;
    }
  }

  /** A call to a fixed URL never touches the pool. */
  method SendTo(url: Url, policy: RetryPolicy, outcomes: nat -> Attempt) returns (r: SendResult, tried: seq<Url>, waits: seq<Time>)
    ensures Ladder(policy, outcomes, r, tried, waits) && !r.NoUrls?
    ensures forall k :: 0 <= k < |tried| ==> tried[k] == url
  {
    tried, waits := [], [];
    var index := 0;
    while true
      invariant index <= policy.Retries() && |tried| == |waits| == index
      invariant forall k :: 0 <= k < index ==> waits[k] == policy.DelayFor(k) && outcomes(k).Retryable?
      invariant forall k :: 0 <= k < index ==> tried[k] == url
      decreases policy.Retries() - index
    {
      tried := tried + [url];
      if outcomes(index).Answered? {
        return Delivered, tried, waits;
      }
      if index >= policy.Retries() || !outcomes(index).Retryable? {
        return SendResult.Failed, tried, waits;
      }
      waits := waits + [policy.DelayFor(index)];
      index := index + 1;
    }
  }

  /** The refresh is called at most once, and exactly when as many attempts failed as the pool had URLs. */
  lemma RefreshOnce(start: Rung, refresh: Refresh, k: nat)
    requires OnPool(start) && start.urls != [] && !start.refreshed
    ensures LadderAt(start, refresh, k).refreshed <==> refresh.Gives? && k >= |start.urls|
  {
    LadderClosed(start, refresh, k);
  }

  /** What any policy allows and waits: as many retries as there are delays, unless the limit is lower or there are no
      delays; the delays in order, the last one again when they run out, none when there are none. */
  lemma PolicyTable(policy: RetryPolicy, k: nat)
    ensures policy.maxRetries.None? ==> policy.Retries() == |policy.delays|
    ensures policy.maxRetries.Some? && policy.maxRetries.value < 0 ==> policy.Retries() == 0
    ensures policy.maxRetries.Some? && 0 <= policy.maxRetries.value && (policy.delays == [] || policy.maxRetries.value <= |policy.delays|)
      ==> policy.Retries() == policy.maxRetries.value
    ensures policy.maxRetries.Some? && policy.delays != [] && policy.maxRetries.value > |policy.delays| ==> policy.Retries() == |policy.delays|
    ensures k < |policy.delays| ==> policy.DelayFor(k) == policy.delays[k]
    ensures policy.delays != [] && k >= |policy.delays| ==> policy.DelayFor(k) == policy.delays[|policy.delays| - 1]
    ensures policy.delays == [] ==> policy.DelayFor(k) == 0
  {
  }

  /** The web client's ladder: five retries, waiting 0, 2, 3, 5 and 10 seconds. */
  lemma WebLadder(retries: int)
    ensures var web := RetryPolicy(WEB_RETRY_DELAYS, None);
      && web.Retries() == 5 && web.WithRetries(Some(retries)).Retries() == Max(0, Min(retries, 5))
      && web.DelayFor(0) == 0 && web.DelayFor(1) == 2 && web.DelayFor(2) == 3 && web.DelayFor(3) == 5 && web.DelayFor(4) == 10
  {
  }
}
