/**
 The counting loop of Collect in internal/observability/metrics.go: for every registry, how
 many target namespaces are in which state, and the earliest observed expiration.
 */
module Metrics {
  import opened Wrappers
  import opened ConfigTypes
  import opened CredentialTypes
  import opened SecretTypes
  import opened NameLists
  import I = Inspection

  datatype Namespace = Namespace(name: string, deleting: bool, terminating: bool)

  /** What one collection reads. */
  datatype Reading = Reading(snapshot: ConfigurationSnapshot, secrets: map<string, Secret>, expected: I.Inspection, now: Time) {
    predicate IsTarget(n: Namespace) {
      !n.deleting && !n.terminating && MatchesNamespace(snapshot, n.name)
    }

    /** State and expiration of one registry in one namespace. */
    ghost function At(n: Namespace, registry: RegistryConfig): (I.Status, Time) {
      I.StatusOf(I.Inspect(Find(secrets, n.name)), registry, expected, now)
    }

    ghost function One(n: Namespace, registry: RegistryConfig, status: I.Status): nat {
      if IsTarget(n) && At(n, registry).0 == status then 1 else 0
    }

    /** How many target namespaces have the registry in that state. */
    ghost function Tally(ns: seq<Namespace>, registry: RegistryConfig, status: I.Status): nat {
      if ns == [] then 0 else Tally(ns[..|ns| - 1], registry, status) + One(ns[|ns| - 1], registry, status)
    }

    ghost function Targets(ns: seq<Namespace>): nat {
      if ns == [] then 0 else Targets(ns[..|ns| - 1]) + if IsTarget(ns[|ns| - 1]) then 1 else 0
    }

    /** The earliest expiration observed in a target namespace, or the zero time. */
    ghost function Oldest(ns: seq<Namespace>, registry: RegistryConfig): Time {
      if ns == [] then ZeroTime
      else
        var n := ns[|ns| - 1];
        var rest := Oldest(ns[..|ns| - 1], registry);
        if IsTarget(n) then Earlier(rest, At(n, registry).1) else rest
    }
  }

  function Earlier(oldest: Time, expiresAt: Time): Time {
    if expiresAt != ZeroTime && (oldest == ZeroTime || expiresAt < oldest) then expiresAt else oldest
  }

  type Counts = map<RegistryKey, map<I.Status, nat>>

  function CountOf(counts: Counts, k: RegistryKey, status: I.Status): nat {
    Find(Find(counts, k).GetOr(map[]), status).GetOr(0)
  }

  function Incremented(counts: Counts, k: RegistryKey, status: I.Status): Counts {
    counts[k := Find(counts, k).GetOr(map[])[status := CountOf(counts, k, status) + 1]]
  }

  /** Counts and earliest expirations of one registry are those of the first namespaces. */
  ghost predicate Counted(r: Reading, ns: seq<Namespace>, k: RegistryKey, counts: Counts, oldest: map<RegistryKey, Time>)
    requires k in r.snapshot.registries
  {
    && (forall status :: CountOf(counts, k, status) == r.Tally(ns, r.snapshot.registries[k], status))
    && Find(oldest, k).GetOr(ZeroTime) == r.Oldest(ns, r.snapshot.registries[k])
  }

  method Count(r: Reading, namespaces: seq<Namespace>) returns (counts: Counts, oldest: map<RegistryKey, Time>)
    requires SortedLists(r.snapshot)
    ensures forall k :: k in r.snapshot.registries ==> Counted(r, namespaces, k, counts, oldest)
  {
    hide I.StatusOf, I.Inspect;
    counts, oldest := map[], map[];
    for i := 0 to |namespaces|
      invariant forall k :: k in r.snapshot.registries ==> Counted(r, namespaces[..i], k, counts, oldest)
    {
      assert namespaces[..i + 1][..i] == namespaces[..i];
      var n := namespaces[i];
      if n.deleting || n.terminating {
        continue;
      }
      var inScope := CheckNamespace(r.snapshot, n.name);
      if inScope {
        counts, oldest := CountNamespace(r, namespaces[..i], n, counts, oldest);
      }
    }
    assert namespaces[..|namespaces|] == namespaces;
  }

  lemma CountedNext(r: Reading, ns: seq<Namespace>, n: Namespace, k: RegistryKey, counts: Counts, oldest: map<RegistryKey, Time>)
    requires k in r.snapshot.registries && r.IsTarget(n) && Counted(r, ns, k, counts, oldest)
    ensures var (status, expiresAt) := r.At(n, r.snapshot.registries[k]);
            Counted(r, ns + [n], k, Incremented(counts, k, status), oldest[k := Earlier(Find(oldest, k).GetOr(ZeroTime), expiresAt)])
  {
    hide I.StatusOf, I.Inspect;
    assert (ns + [n])[..|ns + [n]| - 1] == ns;
    var (status, expiresAt) := r.At(n, r.snapshot.registries[k]);
    forall st ensures CountOf(Incremented(counts, k, status), k, st) == CountOf(counts, k, st) + (if st == status then 1 else 0) {
    }
  }

  lemma CountedElsewhere(r: Reading, ns: seq<Namespace>, l: RegistryKey, k: RegistryKey, status: I.Status,
                         counts: Counts, oldest: map<RegistryKey, Time>, t: Time)
    requires l in r.snapshot.registries && l != k
    ensures Counted(r, ns, l, Incremented(counts, k, status), oldest[k := t]) == Counted(r, ns, l, counts, oldest)
  {
    hide I.StatusOf, I.Inspect;
    forall st ensures CountOf(Incremented(counts, k, status), l, st) == CountOf(counts, l, st) {
    }
  }

  /** The inner loop, over registries in any order. */
  method CountNamespace(r: Reading, ghost ns: seq<Namespace>, n: Namespace, counts0: Counts, oldest0: map<RegistryKey, Time>)
    returns (counts: Counts, oldest: map<RegistryKey, Time>)
    requires r.IsTarget(n)
    requires forall k :: k in r.snapshot.registries ==> Counted(r, ns, k, counts0, oldest0)
    ensures forall k :: k in r.snapshot.registries ==> Counted(r, ns + [n], k, counts, oldest)
  {
    hide I.StatusOf, I.Inspect, Counted, Incremented, Earlier;
    counts, oldest := counts0, oldest0;
    var actual := I.Inspect(Find(r.secrets, n.name));
    var rest := r.snapshot.registries.Keys;
    assert (ns + [n])[..|ns|] == ns;
    while rest != {}
      invariant rest <= r.snapshot.registries.Keys
      invariant forall k :: k in rest ==> Counted(r, ns, k, counts, oldest)
      invariant forall k :: k in r.snapshot.registries && k !in rest ==> Counted(r, ns + [n], k, counts, oldest)
      decreases |rest|
    {
      var k :| k in rest;
      var status, expiresAt := I.RegistryStatus(actual, r.snapshot.registries[k], r.expected, r.now);
      CountedNext(r, ns, n, k, counts, oldest);
      ghost var counts1, oldest1 := counts, oldest;
      counts := Incremented(counts, k, status);
      oldest := oldest[k := Earlier(Find(oldest, k).GetOr(ZeroTime), expiresAt)];
      forall l | l in r.snapshot.registries && l != k
        ensures Counted(r, ns, l, counts, oldest) == Counted(r, ns, l, counts1, oldest1)
        ensures Counted(r, ns + [n], l, counts, oldest) == Counted(r, ns + [n], l, counts1, oldest1)
      {
        CountedElsewhere(r, ns, l, k, status, counts1, oldest1, oldest[k]);
        CountedElsewhere(r, ns + [n], l, k, status, counts1, oldest1, oldest[k]);
      }
      rest := rest - {k};
    }
  }

  /** Conservation: every target namespace is counted in exactly one state of every registry. */
  lemma {:induction false} EveryTargetIsCountedOnce(r: Reading, ns: seq<Namespace>, registry: RegistryConfig)
    ensures r.Tally(ns, registry, I.Synced) + r.Tally(ns, registry, I.Pending) + r.Tally(ns, registry, I.Conflict)
          + r.Tally(ns, registry, I.Invalid) + r.Tally(ns, registry, I.Expired) == r.Targets(ns)
  {
    hide I.StatusOf, I.Inspect;
    if ns != [] {
      EveryTargetIsCountedOnce(r, ns[..|ns| - 1], registry);
    }
  }

  ghost predicate Observes(r: Reading, ns: seq<Namespace>, registry: RegistryConfig, t: Time) {
    exists i :: 0 <= i < |ns| && r.IsTarget(ns[i]) && r.At(ns[i], registry).1 == t
  }

  /** The earliest expiration is one that was observed, and none observed is earlier. */
  lemma {:induction false} OldestIsEarliest(r: Reading, ns: seq<Namespace>, registry: RegistryConfig)
    ensures var oldest := r.Oldest(ns, registry);
            && (oldest != ZeroTime ==> Observes(r, ns, registry, oldest))
            && (forall t :: Observes(r, ns, registry, t) && t != ZeroTime ==> oldest != ZeroTime && oldest <= t)
  {
    hide I.StatusOf, I.Inspect;
    if ns != [] {
      var rest, n := ns[..|ns| - 1], ns[|ns| - 1];
      OldestIsEarliest(r, rest, registry);
      forall t ensures Observes(r, ns, registry, t) <==>
                       Observes(r, rest, registry, t) || (r.IsTarget(n) && r.At(n, registry).1 == t)
      {
        if Observes(r, rest, registry, t) {
          var i :| 0 <= i < |rest| && r.IsTarget(rest[i]) && r.At(rest[i], registry).1 == t;
          assert ns[i] == rest[i];
        }
        if r.IsTarget(n) && r.At(n, registry).1 == t {
          assert ns[|ns| - 1] == n;
        }
        if Observes(r, ns, registry, t) {
          var i :| 0 <= i < |ns| && r.IsTarget(ns[i]) && r.At(ns[i], registry).1 == t;
          assert i < |rest| ==> rest[i] == ns[i];
        }
      }
    }
  }

  /** The namespace is live and in scope, and its Secret, or its absence, puts the registry in that state. */
  ghost predicate IsInState(r: Reading, n: Namespace, registry: RegistryConfig, status: I.Status) {
    && !n.deleting && !n.terminating
    && (r.snapshot.namespaces.matchAll || n.name in r.snapshot.namespaces.names)
    && n.name !in r.snapshot.excludedNamespaces
    && I.StatusOf(I.Inspect(if n.name in r.secrets then Some(r.secrets[n.name]) else None), registry, r.expected, r.now).0 == status
  }

  ghost function InState(r: Reading, ns: seq<Namespace>, registry: RegistryConfig, status: I.Status): set<nat> {
    set i: nat | i < |ns| && IsInState(r, ns[i], registry, status)
  }

  /** The tallies count the namespaces in each state. */
  lemma {:induction false} TallyIsCount(r: Reading, ns: seq<Namespace>, registry: RegistryConfig, status: I.Status)
    ensures r.Tally(ns, registry, status) == |InState(r, ns, registry, status)|
  {
    hide IsInState, InState, I.StatusOf, I.Inspect;
    if ns == [] {
      NothingInState(r, registry, status);
    } else {
      var n := |ns| - 1;
      TallyIsCount(r, ns[..n], registry, status);
      OneIsInState(r, ns[n], registry, status);
      InStateOneMore(r, ns, registry, status);
    }
  }

  lemma InStateOneMore(r: Reading, ns: seq<Namespace>, registry: RegistryConfig, status: I.Status)
    requires ns != []
    ensures var n := |ns| - 1;
            |InState(r, ns, registry, status)| ==
            |InState(r, ns[..n], registry, status)| + if IsInState(r, ns[n], registry, status) then 1 else 0
  {
    hide IsInState;
    var n, all := |ns| - 1, InState(r, ns, registry, status);
    assert InState(r, ns[..n], registry, status) == all - {n};
  }

  lemma NothingInState(r: Reading, registry: RegistryConfig, status: I.Status)
    ensures InState(r, [], registry, status) == {}
  {
  }

  lemma OneIsInState(r: Reading, n: Namespace, registry: RegistryConfig, status: I.Status)
    ensures r.One(n, registry, status) == if IsInState(r, n, registry, status) then 1 else 0
  {
    hide I.StatusOf, I.Inspect;
  }
}
