/**
 Convergence over all orders in which the program may walk its maps. One undisturbed
 reconciliation is enough, whatever the walks, exactly if no two registries share their name
 in the state document.
 */
module SyncerOrders {
  import opened Wrappers
  import opened ConfigTypes
  import opened CredentialTypes
  import opened SecretTypes
  import opened Builder
  import opened BuilderProperties
  import opened BuilderFixpoint
  import opened BuildLoops
  import opened Versions
  import opened ApiServer
  import opened Syncer
  import opened SyncerRuns

  /** A reconciliation in scope, whose walk gave `content`. */
  function Decided(s: SecretServer, inScope: bool, registries: Registries, credentials: Credentials, content: Content): Decision {
    Decide(inScope, s.live, content, RetentionProblems(registries, credentials, s.live))
  }

  /** Whatever the walks of two consecutive reconciliations, the second one sends nothing. */
  ghost predicate Settles(registries: Registries) {
    forall credentials, s: SecretServer, inScope, first, second ::
      && Buildable(registries, credentials, s.live, first)
      && Buildable(registries, credentials, Apply(s, Decided(s, inScope, registries, credentials, first)).live, second)
      ==> Decided(Apply(s, Decided(s, inScope, registries, credentials, first)), inScope, registries, credentials, second).Leave?
  }

  lemma InjectiveSettles(registries: Registries)
    requires WellFormedRegistries(registries) && InjectiveNames(registries)
    ensures Settles(registries)
  {
    hide Buildable, Rendered, InjectiveNames, WellFormedRegistries, RetentionProblems, Decide, Apply;
    forall credentials, s: SecretServer, inScope, first, second |
      && Buildable(registries, credentials, s.live, first)
      && Buildable(registries, credentials, Apply(s, Decided(s, inScope, registries, credentials, first)).live, second)
      ensures Decided(Apply(s, Decided(s, inScope, registries, credentials, first)), inScope, registries, credentials, second).Leave?
    {
      BuildableIsRendered(registries, credentials, s.live, first);
      OneSyncIsEnough(s, inScope, registries, credentials);
      BuildableIsRendered(registries, credentials, SyncOnce(s, inScope, registries, credentials).live, second);
    }
  }

  // Two available registries of one name

  /** Some order of a finite set. */
  ghost function Listed(keys: set<RegistryKey>): (order: seq<RegistryKey>)
    ensures (forall k :: k in order <==> k in keys) && Distinct(order)
    decreases |keys|
  {
    if keys == {} then []
    else
      var k :| k in keys;
      Listed(keys - {k}) + [k]
  }

  const SomeCredential := Credential("u", "p", 1, 2)

  function Both(registries: Registries, k: RegistryKey, l: RegistryKey): Credentials
    requires k in registries && l in registries
  {
    map[k := Entry(SomeCredential, 1, RegistryAuthenticationHash(registries[k])),
        l := Entry(SomeCredential, 2, RegistryAuthenticationHash(registries[l]))]
  }

  /** Exactly `k` and `l` are available, with the same credential. */
  predicate OnlyThese(registries: Registries, credentials: Credentials, k: RegistryKey, l: RegistryKey)
    requires k in registries && l in registries
  {
    && credentials.Keys == {k, l}
    && credentials[k].MatchesRegistry(registries[k]) && credentials[k].credential == SomeCredential
    && credentials[l].MatchesRegistry(registries[l]) && credentials[l].credential == SomeCredential
  }

  /** A walk that visits `k` and then `l`, after all the others. */
  ghost function WalkTo(registries: Registries, k: RegistryKey, l: RegistryKey): seq<RegistryKey> {
    Listed(registries.Keys - {k, l}) + [k, l]
  }

  lemma WalkToIsWalk(registries: Registries, k: RegistryKey, l: RegistryKey)
    requires k in registries && l in registries && k != l
    ensures Walk(WalkTo(registries, k, l), registries)
  {
    var others := Listed(registries.Keys - {k, l});
    forall i, j | 0 <= i < j < |others| + 2 ensures WalkTo(registries, k, l)[i] != WalkTo(registries, k, l)[j] {
      assert i < |others| ==> others[i] in others;
    }
  }

  lemma {:induction false} SelectedNone(registries: Registries, credentials: Credentials, order: seq<RegistryKey>)
    requires forall k :: k in order ==> k in registries && !Available(registries[k], credentials)
    ensures Selected(registries, credentials, order, true) == [] && Selected(registries, credentials, order, false) == order
  {
    if order != [] {
      assert order[|order| - 1] in order;
      SelectedNone(registries, credentials, order[..|order| - 1]);
    }
  }

  lemma WalkSelects(registries: Registries, credentials: Credentials, k: RegistryKey, l: RegistryKey)
    requires k in registries && l in registries && k != l
    requires forall j :: j in registries ==> (Available(registries[j], credentials) <==> j == k || j == l)
    ensures (forall j :: j in WalkTo(registries, k, l) <==> j in registries)
    ensures Selected(registries, credentials, WalkTo(registries, k, l), true) == [k, l]
    ensures Selected(registries, credentials, WalkTo(registries, k, l), false) == Listed(registries.Keys - {k, l})
  {
    hide Available, Selected;
    var others := Listed(registries.Keys - {k, l});
    forall j | j in others ensures j in registries && j != k && j != l {
      assert j in registries.Keys - {k, l};
    }
    SelectedNone(registries, credentials, others);
    SelectedOneMore(registries, credentials, others, k, true);
    SelectedOneMore(registries, credentials, others, k, false);
    SelectedOneMore(registries, credentials, others + [k], l, true);
    SelectedOneMore(registries, credentials, others + [k], l, false);
    assert WalkTo(registries, k, l) == (others + [k]) + [l];
  }

  lemma OnlyTheseAvailable(registries: Registries, credentials: Credentials, k: RegistryKey, l: RegistryKey)
    requires KeysMatch(registries) && k in registries && l in registries && OnlyThese(registries, credentials, k, l)
    ensures forall j :: j in registries ==> (Available(registries[j], credentials) <==> j == k || j == l)
  {
    forall j | j in registries ensures Available(registries[j], credentials) <==> j == k || j == l {
      assert registries[j].Key() == j;
    }
  }

  /** The state document of that walk holds, under the shared name, the state of the last of the two. */
  lemma LastOneWrites(registries: Registries, credentials: Credentials, read: Existing, k: RegistryKey, l: RegistryKey)
    requires KeysMatch(registries) && k in registries && l in registries && k != l && k.Name() == l.Name()
    requires OnlyThese(registries, credentials, k, l)
    requires forall j :: j in registries && j != k && j != l ==> StateFor(registries[j], credentials, read).None?
    ensures (forall j :: j in WalkTo(registries, k, l) ==> j in registries)
    ensures var states := StatesOfWalk(registries, credentials, read, WalkTo(registries, k, l));
            Find(states, k.Name()) == Some(FreshState(registries[l], SomeCredential))
  {
    OnlyTheseAvailable(registries, credentials, k, l);
    WalkSelects(registries, credentials, k, l);
    assert StateFor(registries[l], credentials, read) == Some(FreshState(registries[l], SomeCredential)) by {
      assert registries[l].Key() == l;
    }
    hide StatesAlong, Selected, StateFor, FreshState, WalkTo;
    SilentTail(registries, credentials, read, [k, l], Listed(registries.Keys - {k, l}));
    WritesState(registries, credentials, read, [k], l);
    assert [k] + [l] == [k, l];
  }

  /** The other registries have no auth in the payload, so they retain nothing from it. */
  lemma OthersStaySilent(registries: Registries, existing: Option<Secret>, k: RegistryKey, l: RegistryKey, j: RegistryKey)
    requires WellFormedRegistries(registries) && k in registries && l in registries && j in registries && j != k && j != l
    requires existing.None? || ReadExisting(existing).auths == Rendered(registries, Both(registries, k, l), None).auths
    ensures StateFor(registries[j], Both(registries, k, l), ReadExisting(existing)).None?
  {
    var credentials, read := Both(registries, k, l), ReadExisting(existing);
    if existing.Some? {
      forall d | d in registries[j].domains ensures RetainedAuth(registries[j], read, d).None? {
        AuthOf(registries, credentials, Nothing, registries.Keys, j, d);
      }
    }
  }

  lemma WalkIsBuildable(registries: Registries, credentials: Credentials, existing: Option<Secret>, walk: seq<RegistryKey>)
    requires Walk(walk, registries)
    ensures Buildable(registries, credentials, existing,
                      Content(Rendered(registries, credentials, existing).auths,
                              StatesOfWalk(registries, credentials, ReadExisting(existing), walk)))
  {
    hide StatesOfWalk, Rendered;
  }

  lemma BothHaveAuth(registries: Registries, existing: Option<Secret>, k: RegistryKey, l: RegistryKey)
    requires WellFormedRegistries(registries) && k in registries && l in registries
    ensures Rendered(registries, Both(registries, k, l), existing).auths != map[]
  {
    var d := registries[k].domains[0];
    AuthOf(registries, Both(registries, k, l), ReadExisting(existing), registries.Keys, k, d);
    assert Find(Rendered(registries, Both(registries, k, l), existing).auths, d).Some?;
  }

  lemma FreshStatesDiffer(registries: Registries, k: RegistryKey, l: RegistryKey, c: Credential)
    requires KeysMatch(registries) && k in registries && l in registries && k != l
    ensures FreshState(registries[k], c) != FreshState(registries[l], c)
  {
    assert registries[k].Key() == k && registries[l].Key() == l;
  }

  lemma Unsettled(registries: Registries, credentials: Credentials, s: SecretServer, first: Content, second: Content)
    requires Buildable(registries, credentials, s.live, first)
    requires Buildable(registries, credentials, Apply(s, Decided(s, true, registries, credentials, first)).live, second)
    requires !Decided(Apply(s, Decided(s, true, registries, credentials, first)), true, registries, credentials, second).Leave?
    ensures !Settles(registries)
  {
    hide Buildable, Apply, Decided;
  }

  /** The payload of the walk to `l`. */
  ghost function PayloadTo(registries: Registries, credentials: Credentials, existing: Option<Secret>, k: RegistryKey, l: RegistryKey): Content
    requires k in registries && l in registries && k != l
  {
    WalkToIsWalk(registries, k, l);
    Content(Rendered(registries, credentials, existing).auths,
            StatesOfWalk(registries, credentials, ReadExisting(existing), WalkTo(registries, k, l)))
  }

  /** What the first reconciliation, walking to `k`, leaves, the second one, walking to `l`, updates again. */
  lemma CollisionUpdatesAgain(registries: Registries, k: RegistryKey, l: RegistryKey)
    requires WellFormedRegistries(registries) && k in registries && l in registries && k != l && k.Name() == l.Name()
    ensures !Settles(registries)
  {
    hide Settles, Buildable, Rendered, StatesOfWalk, RetentionProblems, Both, Apply, ReadSecret, WellFormedRegistries, CarriesContent, Decide;
    var credentials, s: SecretServer := Both(registries, k, l), Server(None, [], 0);
    var first := PayloadTo(registries, credentials, None, l, k);
    WalkToIsWalk(registries, l, k);
    WalkToIsWalk(registries, k, l);
    WalkIsBuildable(registries, credentials, None, WalkTo(registries, l, k));
    BothHaveAuth(registries, None, k, l);
    var t := Apply(s, Decided(s, true, registries, credentials, first));
    FirstIsCreated(s, first, RetentionProblems(registries, credentials, None));
    ReadBack(t.live.value, first);
    var second := PayloadTo(registries, credentials, t.live, k, l);
    WalkIsBuildable(registries, credentials, t.live, WalkTo(registries, k, l));
    BothHaveAuth(registries, t.live, k, l);
    StatesCollide(registries, t.live, k, l, first.states, second.states);
    DifferentIsUpdated(t.live.value, first, second, RetentionProblems(registries, credentials, t.live));
    Unsettled(registries, credentials, s, first, second);
  }

  lemma FirstIsCreated(s: SecretServer, first: Content, problems: set<Problem>)
    requires s.live.None? && first.HasAuth()
    ensures var t := Apply(s, Decide(true, s.live, first, problems));
            t.live.Some? && CarriesContent(t.live.value, first) && IsManaged(t.live.value)
  {
    AppliedCarries(EmptySecret, first);
  }

  lemma DifferentIsUpdated(s: Secret, first: Content, second: Content, problems: set<Problem>)
    requires CarriesContent(s, first) && IsManaged(s) && second.HasAuth() && first.states != second.states
    ensures Decide(true, Some(s), second, problems).UpdateTo?
  {
    GoodRecordsOfRecords(first.states);
    GoodRecordsOfRecords(second.states);
  }

  lemma StatesCollide(registries: Registries, live: Option<Secret>, k: RegistryKey, l: RegistryKey, first: States, second: States)
    requires WellFormedRegistries(registries) && k in registries && l in registries && k != l && k.Name() == l.Name()
    requires Walk(WalkTo(registries, k, l), registries) && Walk(WalkTo(registries, l, k), registries)
    requires live.Some? && ReadExisting(live).auths == Rendered(registries, Both(registries, k, l), None).auths
    requires first == StatesOfWalk(registries, Both(registries, k, l), Nothing, WalkTo(registries, l, k))
    requires second == StatesOfWalk(registries, Both(registries, k, l), ReadExisting(live), WalkTo(registries, k, l))
    ensures first != second
  {
    hide StatesOfWalk, Rendered, ReadSecret;
    forall j | j in registries && j != k && j != l
      ensures StateFor(registries[j], Both(registries, k, l), Nothing).None?
      ensures StateFor(registries[j], Both(registries, k, l), ReadExisting(live)).None?
    {
      OthersStaySilent(registries, None, k, l, j);
      OthersStaySilent(registries, live, k, l, j);
    }
    var credentials := Both(registries, k, l);
    assert OnlyThese(registries, credentials, k, l) && OnlyThese(registries, credentials, l, k);
    LastOneWrites(registries, credentials, ReadExisting(live), k, l);
    LastOneWrites(registries, credentials, Nothing, l, k);
    FreshStatesDiffer(registries, k, l, SomeCredential);
    assert Find(first, k.Name()) != Find(second, k.Name());
  }

  /** Convergence, exactly. */
  lemma SettlesExactly(registries: Registries)
    requires WellFormedRegistries(registries)
    ensures Settles(registries) <==> InjectiveNames(registries)
  {
    hide Settles;
    if InjectiveNames(registries) {
      InjectiveSettles(registries);
    } else {
      var k: RegistryKey, l: RegistryKey :| k in registries && l in registries && k.Name() == l.Name() && k != l;
      CollisionUpdatesAgain(registries, k, l);
    }
  }
}
