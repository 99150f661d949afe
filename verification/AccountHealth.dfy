/** What probes say about accounts: the recorded verdict as a function of the whole probe history. */
module AccountHealth {
  import opened Common

  type AccountId = nat

  datatype Outcome = Alive | AuthFail | Transient

  datatype Availability = Unknown | Available | AtCapacity | Dead

  datatype Status = Active | Disabled | Error

  /** One probe: its outcome, and the account row as read before it (`full`: its last error names a capacity refusal). */
  datatype Probe = Probe(outcome: Outcome, full: bool, status: Status)

  datatype Health = Health(availability: Availability, outcome: Option<Outcome>, failures: nat)

  const DEAD_THRESHOLD := 2

  // ── one verdict ────────────────────────────────────────────────────────────

  /** `None`: no news, the old verdict stands. */
  function AvailabilityFor(probe: Probe, failures: nat): Option<Availability> {
    match probe.outcome
    case Alive => Some(if probe.full then AtCapacity else Available)
    case AuthFail => Some(if failures >= DEAD_THRESHOLD then Dead else Unknown)
    case Transient => None
  }

  function Fresh(): Health {
    Health(Unknown, None, 0)
  }

  function Next(health: Health, probe: Probe): Health {
    var failures := if probe.outcome.AuthFail? then health.failures + 1 else 0;
    var news := AvailabilityFor(probe, failures);
    Health(if news.Some? then news.value else health.availability, Some(probe.outcome), failures)
  }

  function Replay(history: seq<Probe>): Health {
    if history == [] then Fresh() else Next(Replay(history[..|history| - 1]), history[|history| - 1])
  }

  /** A history and one more probe. */
  lemma ReplayMore(history: seq<Probe>, probe: Probe)
    ensures Replay([]) == Fresh() && Replay(history + [probe]) == Next(Replay(history), probe)
  {
    assert (history + [probe])[..|history|] == history;
  }

  // ── what the record means ──────────────────────────────────────────────────

  /** The probes from `m` on were refused, the one before was not. */
  ghost predicate RefusedSince(history: seq<Probe>, m: nat) {
    && m <= |history|
    && (forall i :: m <= i < |history| ==> history[i].outcome.AuthFail?)
    && (m > 0 ==> !history[m - 1].outcome.AuthFail?)
  }

  /** Probe `k` is the last one that was not transient. */
  ghost predicate LastNews(history: seq<Probe>, k: nat) {
    k < |history| && !history[k].outcome.Transient? && forall i :: k < i < |history| ==> history[i].outcome.Transient?
  }

  /** What the probe at `k` says, given the one before it. */
  ghost function VerdictAt(history: seq<Probe>, k: nat): Availability
    requires k < |history| && !history[k].outcome.Transient?
  {
    if history[k].outcome.Alive? then (if history[k].full then AtCapacity else Available)
    else if k > 0 && history[k - 1].outcome.AuthFail? then Dead
    else Unknown
  }

  lemma {:induction false} FailuresAreTheRefusedSuffix(history: seq<Probe>)
    ensures Replay(history).failures <= |history| && RefusedSince(history, |history| - Replay(history).failures)
  {
    if history != [] {
      var n := |history| - 1;
      FailuresAreTheRefusedSuffix(history[..n]);
      var m := n - Replay(history[..n]).failures;
      assert RefusedSince(history[..n], m);
      if history[n].outcome.AuthFail? {
        assert forall i :: m <= i < n ==> history[..n][i].outcome.AuthFail?;
        assert m > 0 ==> !history[..n][m - 1].outcome.AuthFail?;
      }
    }
  }

  /** Availability is the verdict of the last probe that brought news, whatever came after or long before. */
  lemma {:induction false} AvailabilityIsTheLastNews(history: seq<Probe>)
    ensures forall k :: LastNews(history, k) ==> Replay(history).availability == VerdictAt(history, k)
    ensures (forall i :: 0 <= i < |history| ==> history[i].outcome.Transient?) ==> Replay(history).availability.Unknown?
  {
    if history != [] {
      var n := |history| - 1;
      var before := history[..n];
      AvailabilityIsTheLastNews(before);
      if history[n].outcome.Transient? {
        forall k | LastNews(history, k)
          ensures Replay(history).availability == VerdictAt(history, k)
        {
          assert LastNews(before, k) && VerdictAt(before, k) == VerdictAt(history, k);
        }
      } else {
        FailuresAreTheRefusedSuffix(before);
        assert forall k :: LastNews(history, k) ==> k == n;
        assert Replay(before).failures > 0 <==> n > 0 && history[n - 1].outcome.AuthFail? by {
          if n > 0 {
            assert before[n - 1] == history[n - 1];
          }
        }
      }
    }
  }

  /** DEAD means exactly that the last news and the probe right before it were both refusals. */
  lemma {:induction false} DeadExactlyWhen(history: seq<Probe>)
    ensures Replay(history).availability.Dead?
      <==> exists k: nat :: LastNews(history, k) && k > 0 && history[k].outcome.AuthFail? && history[k - 1].outcome.AuthFail?
  {
    AvailabilityIsTheLastNews(history);
    if exists i :: 0 <= i < |history| && !history[i].outcome.Transient? {
      var k := LastNewsExists(history);
    }
  }

  lemma {:induction false} LastNewsExists(history: seq<Probe>) returns (k: nat)
    requires exists i :: 0 <= i < |history| && !history[i].outcome.Transient?
    ensures LastNews(history, k)
  {
    var n := |history| - 1;
    if !history[n].outcome.Transient? {
      k := n;
    } else {
      var i :| 0 <= i < |history| && !history[i].outcome.Transient?;
      assert !history[..n][i].outcome.Transient?;
      k := LastNewsExists(history[..n]);
      assert history[..n][k] == history[k];
      assert forall i :: k < i < n ==> history[..n][i] == history[i];
    }
  }

  // ── the tables ─────────────────────────────────────────────────────────────

  datatype Account = Account(status: Status, full: bool)

  /** The account row after a probe; `detailFull` says whether the probe's own message names a capacity refusal. */
  function AccountAfter(account: Account, probe: Probe, verdict: Availability, detailFull: bool): Account {
    if probe.outcome.Alive? && !probe.status.Active? then Account(Active, false)
    else if probe.outcome.AuthFail? && verdict.Dead? && probe.status.Active? then Account(Disabled, detailFull)
    else account
  }

  /** Transient probes condemn nobody: neither the verdict nor the account row moves. */
  lemma {:induction false} TransientIsNoNews(history: seq<Probe>, probe: Probe, account: Account, detailFull: bool)
    requires probe.outcome.Transient?
    ensures Replay(history + [probe]).availability == Replay(history).availability
    ensures AccountAfter(account, probe, Replay(history + [probe]).availability, detailFull) == account
  {
    assert (history + [probe])[..|history|] == history;
  }

  /** The row is disabled after a probe exactly when that probe disables it (it and the one before were refused,
      and the account was active when it was loaded), or when it is disabled already, whoever did that in the
      meantime, and the probe does not bring it back. */
  lemma {:induction false} DisabledExactlyWhen(history: seq<Probe>, probe: Probe, account: Account, detailFull: bool)
    ensures AccountAfter(account, probe, Replay(history + [probe]).availability, detailFull).status.Disabled?
      <==> || (probe.status.Active? && probe.outcome.AuthFail? && history != [] && history[|history| - 1].outcome.AuthFail?)
           || (account.status.Disabled? && (probe.outcome.Alive? ==> probe.status.Active?))
  {
    var longer := history + [probe];
    assert longer[..|history|] == history;
    if probe.outcome.AuthFail? {
      AvailabilityIsTheLastNews(longer);
      assert LastNews(longer, |history|);
    }
  }

  /** The whole account row after each kind of probe, by the probes themselves: a session that authenticates brings
      an account back that was not active and clears its capacity refusal; a second refusal in a row disables an
      active one; anything else leaves the row alone. */
  lemma {:induction false} AccountTable(history: seq<Probe>, probe: Probe, account: Account, detailFull: bool)
    ensures Replay(history + [probe]).outcome == Some(probe.outcome)
    ensures AccountAfter(account, probe, Replay(history + [probe]).availability, detailFull) ==
      match probe.outcome
      case Alive => if probe.status == Active then account else Account(Active, false)
      case AuthFail =>
        if probe.status == Active && history != [] && history[|history| - 1].outcome == AuthFail
        then Account(Disabled, detailFull) else account
      case Transient => account
  {
    ReplayMore(history, probe);
    var longer := history + [probe];
    assert longer[..|history|] == history;
    if probe.outcome == AuthFail {
      AvailabilityIsTheLastNews(longer);
      assert LastNews(longer, |history|);
    }
  }

  function Holders(health: map<AccountId, Health>, availability: Availability, within: set<AccountId>): set<AccountId> {
    set a | a in within && a in health && health[a].availability == availability
  }

  lemma HoldersStep(health: map<AccountId, Health>, availability: Availability, within: set<AccountId>, a: AccountId)
    requires a in health && a !in within
    ensures var before, after := Holders(health, availability, within), Holders(health, availability, within + {a});
      after == (if health[a].availability == availability then before + {a} else before)
      && |after| == |before| + (if health[a].availability == availability then 1 else 0)
  {
    var before, after := Holders(health, availability, within), Holders(health, availability, within + {a});
    assert after == if health[a].availability == availability then before + {a} else before;
  }

  /** Accounts nobody has a verdict on: never probed, or recorded as unknown. */
  function Silent(accounts: set<AccountId>, health: map<AccountId, Health>): set<AccountId> {
    set a | a in accounts && (a in health ==> health[a].availability.Unknown?)
  }

  lemma {:induction false} FourBucketsCover(accounts: set<AccountId>, health: map<AccountId, Health>)
    requires health.Keys <= accounts
    ensures |Holders(health, Available, health.Keys)| + |Holders(health, AtCapacity, health.Keys)|
          + |Holders(health, Dead, health.Keys)| + |Silent(accounts, health)| == |accounts|
  {
    var available, atCapacity := Holders(health, Available, health.Keys), Holders(health, AtCapacity, health.Keys);
    var dead, silent := Holders(health, Dead, health.Keys), Silent(accounts, health);
    assert |available + atCapacity| == |available| + |atCapacity|;
    assert |available + atCapacity + dead| == |available + atCapacity| + |dead|;
    assert |available + atCapacity + dead + silent| == |available + atCapacity + dead| + |silent|;
    assert available + atCapacity + dead + silent == accounts;
  }

  /** Every row is what its account's probes amount to. */
  ghost predicate Agree(health: map<AccountId, Health>, probes: map<AccountId, seq<Probe>>) {
    health.Keys == probes.Keys && forall a :: a in health ==> health[a] == Replay(probes[a])
  }

  lemma AgreeMore(health: map<AccountId, Health>, probes: map<AccountId, seq<Probe>>, a: AccountId, history: seq<Probe>)
    requires Agree(health, probes)
    ensures Agree(health[a := Replay(history)], probes[a := history])
  {
  }

  class Monitor {
    var accounts: map<AccountId, Account>
    var health: map<AccountId, Health>
    ghost var probes: map<AccountId, seq<Probe>>

    /** Every health row belongs to an account and is what that account's probes amount to. */
    ghost predicate Valid()
      reads this
    {
      health.Keys <= accounts.Keys && Agree(health, probes)
    }

    constructor (accounts: map<AccountId, Account>)
      ensures Valid() && this.accounts == accounts && health == map[] && probes == map[]
    {
      this.accounts := accounts;
      health := map[];
      probes := map[];
    }

    ghost function HistoryOf(a: AccountId): seq<Probe>
      reads this
    {
      if a in probes then probes[a] else []
    }

    method Record(a: AccountId, probe: Probe, detailFull: bool)
      requires Valid() && a in accounts
      modifies this
      ensures Valid()
      ensures probes == old(probes)[a := old(HistoryOf(a)) + [probe]]
      ensures health == old(health)[a := Replay(old(HistoryOf(a)) + [probe])]
      ensures accounts == old(accounts)[a :=
        AccountAfter(old(accounts)[a], probe, Replay(old(HistoryOf(a)) + [probe]).availability, detailFull)]
    {
      var row := if a in health then health[a] else Fresh();
      ghost var before := HistoryOf(a);
      assert row == Replay(before);
      ReplayMore(before, probe);
      AgreeMore(health, probes, a, before + [probe]);
      hide Replay, AvailabilityFor, AccountAfter, Agree;
      var failures := if probe.outcome.AuthFail? then row.failures + 1 else 0;
      var news := AvailabilityFor(probe, failures);
      var availability := if news.Some? then news.value else row.availability;
      row := row.(outcome := Some(probe.outcome), failures := failures, availability := availability);
      health := health[a := row];
      probes := probes[a := before + [probe]];
      ReviseAccount(a, probe, availability, detailFull);
    }

    /** A session that authenticates now is reactivated; one refused twice is disabled. */
    method ReviseAccount(a: AccountId, probe: Probe, availability: Availability, detailFull: bool)
      requires a in accounts
      modifies this`accounts
      ensures accounts == old(accounts)[a := AccountAfter(old(accounts)[a], probe, availability, detailFull)]
    {
      if probe.outcome.Alive? && !probe.status.Active? {
        accounts := accounts[a := accounts[a].(status := Active, full := false)];
      } else if probe.outcome.AuthFail? && availability.Dead? && probe.status.Active? {
        accounts := accounts[a := accounts[a].(status := Disabled, full := detailFull)];
      }
    }

    /** The dashboard's four counts. */
    method AvailabilitySnapshot() returns (total: nat, available: nat, atCapacity: nat, dead: nat, unknown: nat)
      requires Valid()
      ensures available == |Holders(health, Available, health.Keys)|
      ensures atCapacity == |Holders(health, AtCapacity, health.Keys)|
      ensures dead == |Holders(health, Dead, health.Keys)|
      ensures unknown == |Silent(accounts.Keys, health)|
      ensures available + atCapacity + dead + unknown == total == |accounts.Keys|
    {
      available := CountRows(Available);
      atCapacity := CountRows(AtCapacity);
      dead := CountRows(Dead);
      FourBucketsCover(accounts.Keys, health);
      total := |accounts.Keys|;
      unknown := Max(0, total - (available + atCapacity + dead));
    }

    /** Health rows with this verdict. */
    method CountRows(availability: Availability) returns (n: nat)
      ensures n == |Holders(health, availability, health.Keys)|
    {
      n := 0;
      var left, done := health.Keys, {};
      while left != {}
        invariant left + done == health.Keys && left !! done
        invariant n == |Holders(health, availability, done)|
        decreases |left|
      {
        var a :| a in left;
        HoldersStep(health, availability, done, a);
        if health[a].availability == availability {
          n := n + 1;
        }
        left, done := left - {a}, done + {a};
      }
      assert done == health.Keys;
    }
  }
}
