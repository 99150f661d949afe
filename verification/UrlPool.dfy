/** The rotating pool of equivalent URLs, and the walk of it that a fully failed connect makes. */
module UrlPool {
  import opened Common

  type Url = string
  type Time = int

  // ── sequences of URLs ──────────────────────────────────────────────────────

  ghost predicate NoDuplicates(urls: seq<Url>) {
    forall i, j :: 0 <= i < j < |urls| ==> urls[i] != urls[j]
  }

  /** Non-empty URLs in order of first appearance. */
  function Dedup(urls: seq<Url>): seq<Url> {
    if urls == [] then []
    else
      var rest := Dedup(urls[..|urls| - 1]);
      var last := urls[|urls| - 1];
      if last == "" || last in rest then rest else rest + [last]
  }

  /** Exactly the non-empty URLs, each once. */
  lemma {:induction false} DedupKeepsEachOnce(urls: seq<Url>)
    ensures NoDuplicates(Dedup(urls))
    ensures forall u :: u in Dedup(urls) <==> u in urls && u != ""
  {
    if urls != [] {
      var n := |urls| - 1;
      DedupKeepsEachOnce(urls[..n]);
      assert urls == urls[..n] + [urls[n]];
    }
  }

  /** First position of `u`. */
  function IndexOf(urls: seq<Url>, u: Url): (i: nat)
    requires u in urls
    ensures i < |urls| && urls[i] == u
    ensures forall j :: 0 <= j < i ==> urls[j] != u
  {
    if urls[0] == u then 0 else 1 + IndexOf(urls[1..], u)
  }

  lemma IndexOfUnique(urls: seq<Url>, i: nat)
    requires NoDuplicates(urls) && i < |urls|
    ensures IndexOf(urls, urls[i]) == i
  {
  }

  /** The list read round from position `c`. */
  function From(urls: seq<Url>, c: nat): seq<Url>
    requires c <= |urls|
  {
    urls[c..] + urls[..c]
  }

  /** The next position of a list of `n`, wrapping. */
  function Next(c: nat, n: nat): (r: nat)
    requires c < n
    ensures r < n
  {
    if c + 1 < n then c + 1 else 0
  }

  lemma NextIsModulo(c: nat, n: nat)
    requires c < n
    ensures (c + 1) % n == Next(c, n)
  {
  }

  /** The position after `k` rotations of a list of `n`. */
  function Rotated(c: nat, k: nat, n: nat): (r: nat)
    requires c < n
    ensures r < n
  {
    if k == 0 then c else Next(Rotated(c, k - 1, n), n)
  }

  /** In one round, rotating is counting on and wrapping once; a whole round comes back. */
  lemma {:induction false} RotatedInRound(c: nat, k: nat, n: nat)
    requires c < n && k <= n
    ensures Rotated(c, k, n) == if c + k < n then c + k else c + k - n
  {
    if k > 0 {
      RotatedInRound(c, k - 1, n);
    }
  }

  lemma RoundVisits(urls: seq<Url>, c: nat, k: nat)
    requires c < |urls| && k < |urls|
    ensures urls[Rotated(c, k, |urls|)] == From(urls, c)[k]
  {
    RotatedInRound(c, k, |urls|);
  }

  /** One round visits every URL exactly once. */
  lemma RoundIsPermutation(urls: seq<Url>, c: nat)
    requires c <= |urls|
    ensures multiset(From(urls, c)) == multiset(urls) && |From(urls, c)| == |urls|
    ensures NoDuplicates(urls) ==> NoDuplicates(From(urls, c))
  {
    assert urls == urls[..c] + urls[c..];
  }

  // ── the pool ───────────────────────────────────────────────────────────────

  class Pool {
    var urls: seq<Url>
    var current: nat
    var lastRotation: Option<Time>
    const switchLock: Time

    ghost predicate Valid()
      reads this
    {
      && NoDuplicates(urls) && "" !in urls
      && (if urls == [] then current == 0 else current < |urls|)
    }

    constructor (given: seq<Url>, switchLock: Time)
      ensures Valid() && urls == Dedup(given) && current == 0 && lastRotation == None && this.switchLock == switchLock
    {
      this.switchLock := switchLock;
      urls, current, lastRotation := [], 0, None;
      new;
      var _ := Replace(given, false);
    }

    method GetCurrent() returns (r: Option<Url>)
      requires Valid()
      ensures r == if urls == [] then None else Some(urls[current])
    {
      if urls == [] {
        return None;
      }
      return Some(urls[current]);
    }

    method SetCurrent(u: Url) returns (done: bool)
      requires Valid()
      modifies this`current
      ensures Valid() && done == (u in urls)
      ensures if done then urls[current] == u else current == old(current)
    {
      if u in urls {
        current := IndexOf(urls, u);
        return true;
      }
      return false;
    }

    method ForceRotate(now: Time) returns (r: Option<Url>)
      requires Valid()
      modifies this`current, this`lastRotation
      ensures Valid()
      ensures urls == [] ==> r == None && current == old(current) && lastRotation == old(lastRotation)
      ensures urls != [] ==> current == Next(old(current), |urls|) && r == Some(urls[current]) && lastRotation == Some(now)
    {
      if urls == [] {
        return None;
      }
      NextIsModulo(current, |urls|);
      current := (current + 1) % |urls|;
      lastRotation := Some(now);
      return Some(urls[current]);
    }

    method Rotate(now: Time) returns (r: Option<Url>)
      requires Valid()
      modifies this`current, this`lastRotation
      ensures Valid() && r == (if urls == [] then None else Some(urls[current]))
      ensures var moves := urls != [] && (old(lastRotation).None? || now - old(lastRotation).value >= switchLock);
        && current == (if moves then Next(old(current), |urls|) else old(current))
        && lastRotation == (if moves then Some(now) else old(lastRotation))
    {
      if lastRotation.Some? && now - lastRotation.value < switchLock {
        r := GetCurrent();
      } else {
        r := ForceRotate(now);
      }
    }

    /** Replaces the list; the current URL stays current when it survives. Fails, changing nothing, on an empty strict list. */
    method Replace(given: seq<Url>, strict: bool) returns (ok: bool)
      requires Valid()
      modifies this`urls, this`current
      ensures Valid()
      ensures ok == (Dedup(given) != [] || !strict)
      ensures !ok ==> urls == old(urls) && current == old(current)
      ensures ok ==> urls == Dedup(given)
      ensures ok && urls != [] && old(urls) != [] && old(urls[current]) in given ==> urls[current] == old(urls[current])
      ensures ok && !(old(urls) != [] && old(urls[current]) in given) ==> current == 0
    {
      var deduped: seq<Url> := [];
      for n := 0 to |given|
        invariant deduped == Dedup(given[..n])
      {
        assert given[..n + 1][..n] == given[..n];
        if given[n] != "" && given[n] !in deduped {
          deduped := deduped + [given[n]];
        }
      }
      assert given[..|given|] == given;
      DedupKeepsEachOnce(given);
      if deduped == [] {
        if strict {
          return false;
        }
        urls, current := [], 0;
        return true;
      }
      var before := if urls != [] then Some(urls[current]) else None;
      urls := deduped;
      current := if before.Some? && before.value in deduped then IndexOf(deduped, before.value) else 0;
      return true;
    }
  }

  // ── the rotation lock ──────────────────────────────────────────────────────

  predicate RotationAllowed(last: Option<Time>, switchLock: Time, now: Time) {
    !(last.Some? && now - last.value < switchLock)
  }

  /** Which of the rotation requests at `times` move the pool. */
  function Accepted(last: Option<Time>, switchLock: Time, times: seq<Time>): seq<Time>
    decreases |times|
  {
    if times == [] then []
    else if RotationAllowed(last, switchLock, times[0]) then [times[0]] + Accepted(Some(times[0]), switchLock, times[1..])
    else Accepted(last, switchLock, times[1..])
  }

  /** However dense a burst of requests, the moves are a lock window apart. */
  lemma {:induction false} MovesAreSpaced(last: Option<Time>, switchLock: Time, times: seq<Time>)
    ensures var moves := Accepted(last, switchLock, times);
      && (forall i :: 0 < i < |moves| ==> moves[i] - moves[i - 1] >= switchLock)
      && (moves != [] && last.Some? ==> moves[0] - last.value >= switchLock)
    decreases |times|
  {
    if times != [] {
      if RotationAllowed(last, switchLock, times[0]) {
        MovesAreSpaced(Some(times[0]), switchLock, times[1..]);
      } else {
        MovesAreSpaced(last, switchLock, times[1..]);
      }
    }
  }

  /** A burst that fits in one window moves the pool at most once. */
  lemma BurstMovesOnce(last: Option<Time>, switchLock: Time, times: seq<Time>)
    requires forall i, j :: 0 <= i < |times| && 0 <= j < |times| ==> times[i] - times[j] < switchLock
    ensures |Accepted(last, switchLock, times)| <= 1
  {
    MovesAreSpaced(last, switchLock, times);
    AcceptedAreRequests(last, switchLock, times);
    var moves := Accepted(last, switchLock, times);
    if |moves| > 1 {
      CloseTogether(switchLock, times, moves[0], moves[1]);
    }
  }

  lemma CloseTogether(switchLock: Time, times: seq<Time>, a: Time, b: Time)
    requires forall i, j :: 0 <= i < |times| && 0 <= j < |times| ==> times[i] - times[j] < switchLock
    requires a in times && b in times
    ensures b - a < switchLock
  {
  }

  lemma {:induction false} AcceptedAreRequests(last: Option<Time>, switchLock: Time, times: seq<Time>)
    ensures forall t :: t in Accepted(last, switchLock, times) ==> t in times
    decreases |times|
  {
    if times != [] {
      AcceptedAreRequests(if RotationAllowed(last, switchLock, times[0]) then Some(times[0]) else last, switchLock, times[1..]);
    }
  }

  /** Where the index stands after so many moves. */
  function Turned(c: nat, moves: nat, n: nat): (r: nat)
    requires c < n
    ensures r < n
  {
    if moves == 0 then c else Next(Turned(c, moves - 1, n), n)
  }

  lemma TurnedOn(c: nat, moves: nat, n: nat)
    requires c < n
    ensures Turned(c, moves + 1, n) == Next(Turned(c, moves, n), n)
  {
  }

  lemma TurnedNot(c: nat, n: nat)
    ensures c < n ==> Turned(c, 0, n) == c
  {
  }

  /** After `n` requests the pool has moved at `moves`, last at `last`. */
  ghost predicate MovedSoFar(first: Option<Time>, switchLock: Time, times: seq<Time>, n: nat, moves: seq<Time>, last: Option<Time>) {
    && n <= |times| && Accepted(first, switchLock, times) == moves + Accepted(last, switchLock, times[n..])
    && last == if moves == [] then first else Some(moves[|moves| - 1])
  }

  lemma NoMoveYet(first: Option<Time>, switchLock: Time, times: seq<Time>)
    ensures MovedSoFar(first, switchLock, times, 0, [], first)
  {
    assert times[0..] == times;
  }

  lemma MoreMoves(first: Option<Time>, switchLock: Time, times: seq<Time>, n: nat, moves: seq<Time>, last: Option<Time>)
    requires n < |times| && MovedSoFar(first, switchLock, times, n, moves, last)
    ensures if RotationAllowed(last, switchLock, times[n])
      then MovedSoFar(first, switchLock, times, n + 1, moves + [times[n]], Some(times[n]))
      else MovedSoFar(first, switchLock, times, n + 1, moves, last)
  {
    var rest := Accepted(last, switchLock, times[n..]);
    assert times[n..][0] == times[n] && times[n..][1..] == times[n + 1..];
    assert RotationAllowed(last, switchLock, times[n]) ==> moves + rest == moves + [times[n]] + rest[1..];
  }

  lemma AllMoves(first: Option<Time>, switchLock: Time, times: seq<Time>, moves: seq<Time>, last: Option<Time>)
    requires MovedSoFar(first, switchLock, times, |times|, moves, last)
    ensures moves == Accepted(first, switchLock, times) && last == if moves == [] then first else Some(moves[|moves| - 1])
  {
  }

  /** Rotation requests on one pool, one after another: it moves at exactly the accepted ones, which lie a lock
      window apart, one URL on at each. */
  method RotateEach(pool: Pool, times: seq<Time>) returns (moves: seq<Time>)
    requires pool.Valid()
    modifies pool`current, pool`lastRotation
    ensures pool.Valid()
    ensures moves == if pool.urls == [] then [] else Accepted(old(pool.lastRotation), pool.switchLock, times)
    ensures pool.current == if pool.urls == [] then 0 else Turned(old(pool.current), |moves|, |pool.urls|)
    ensures pool.lastRotation == if moves == [] then old(pool.lastRotation) else Some(moves[|moves| - 1])
  {
    moves := [];
    ghost var first := pool.lastRotation;
    NoMoveYet(first, pool.switchLock, times);
    hide Accepted, NoDuplicates, RotationAllowed, Turned, MovedSoFar;
    TurnedNot(pool.current, |pool.urls|);
    for n := 0 to |times|
      invariant pool.Valid() && pool.urls == old(pool.urls)
      invariant pool.urls == [] ==> moves == []
      invariant pool.urls != [] ==> MovedSoFar(first, pool.switchLock, times, n, moves, pool.lastRotation)
      invariant pool.urls == [] ==> pool.lastRotation == first
      invariant pool.current == if pool.urls == [] then 0 else Turned(old(pool.current), |moves|, |pool.urls|)
    {
      if pool.urls != [] {
        MoreMoves(first, pool.switchLock, times, n, moves, pool.lastRotation);
      }
      if pool.urls != [] && RotationAllowed(pool.lastRotation, pool.switchLock, times[n]) {
        TurnedOn(old(pool.current), |moves|, |pool.urls|);
        moves := moves + [times[n]];
      }
      var _ := pool.Rotate(times[n]);
    }
    if pool.urls != [] {
      AllMoves(first, pool.switchLock, times, moves, pool.lastRotation);
    }
  }

  // ── connecting to any URL ──────────────────────────────────────────────────

  /** How one connection attempt ends. */
  datatype Connect = Connected | Refused | Failed  // `Refused`: the server answered with an error status

  datatype ConnectResult = Open(url: Url) | Rejected(url: Url) | AllFailed | NoUrls

  /**
   * Tries the pool's URLs in turn until one connects or is refused outright. `tries(k)` is the
   * outcome of attempt `k`. A full failure tries every URL once and leaves the pool where it was.
   */
  method ConnectAny(pool: Pool, tries: nat -> Connect, now: Time) returns (r: ConnectResult, tried: seq<Url>)
    requires pool.Valid()
    modifies pool`current, pool`lastRotation
    ensures pool.Valid()
    ensures pool.urls == [] ==> r == NoUrls && tried == [] && pool.current == old(pool.current)
    ensures pool.urls != [] ==> !r.NoUrls? && 1 <= |tried| <= |pool.urls|
    ensures pool.urls != [] ==> tried == From(pool.urls, old(pool.current))[..|tried|]
    ensures forall k :: 0 <= k < |tried| - 1 ==> tries(k).Failed?
    ensures r.AllFailed? ==> |tried| == |pool.urls| && tries(|tried| - 1).Failed? && pool.current == old(pool.current)
    ensures r.Open? || r.Rejected? ==> r.url == tried[|tried| - 1] == pool.urls[pool.current]
    ensures r.Open? ==> tries(|tried| - 1).Connected?
    ensures r.Rejected? ==> tries(|tried| - 1).Refused?
  {
    tried := [];
    var rounds := Max(1, |pool.urls|);
    for k := 0 to rounds
      invariant pool.Valid() && |tried| == k
      invariant pool.urls == [] ==> k == 0 && pool.current == old(pool.current)
      invariant pool.urls != [] ==> k <= |pool.urls| && tried == From(pool.urls, old(pool.current))[..k]
      invariant pool.urls != [] ==> pool.current == Rotated(old(pool.current), k, |pool.urls|)
      invariant forall i :: 0 <= i < k ==> tries(i).Failed?
    {
      var url := pool.GetCurrent();
      if url.None? {
        return NoUrls, [];
      }
      RoundVisits(pool.urls, old(pool.current), k);
      tried := tried + [url.value];
      match tries(k) {
        case Connected => return Open(url.value), tried;
        case Refused => return Rejected(url.value), tried;
        case Failed =>
          var _ := pool.ForceRotate(now);
      }
    }
    RotatedInRound(old(pool.current), rounds, |pool.urls|);
    r := AllFailed;
  }
}
