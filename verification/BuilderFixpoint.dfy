/**
 Building twice. The payload read back from the Secret that holds it is rendered again
 unchanged and without complaint, whatever the Secret was that the first build started from;
 and damage to one registry's records never reaches another's.
 */
module BuilderFixpoint {
  import opened Wrappers
  import opened ConfigTypes
  import opened SecretTypes
  import opened Builder
  import opened BuilderProperties

  /** The Secret holds exactly this payload, whatever else it holds. */
  predicate CarriesContent(s: Secret, c: Content) {
    && Find(s.data, DockerConfigJsonKey) == Some(EncodeDocker(c.auths))
    && Find(s.annotations, StateAnnotationKey) == Some(EncodeState(c.states))
  }

  /** Written documents read back as they were. */
  lemma ReadBack(s: Secret, c: Content)
    requires CarriesContent(s, c)
    ensures ReadSecret(s) == Existing(c.auths, c.states, {})
  {
    GoodRecordsOfRecords(c.auths);
    GoodRecordsOfRecords(c.states);
  }

  /** The payload as it reads back. */
  ghost function Again(registries: Registries, credentials: Credentials, existing: Option<Secret>): Existing {
    var c := Rendered(registries, credentials, existing);
    Existing(c.auths, c.states, {})
  }

  /** What the payload holds of a pending registry is what was retained for it. */
  lemma PendingInPayload(registries: Registries, credentials: Credentials, existing: Option<Secret>, k: RegistryKey)
    requires WellFormedRegistries(registries) && InjectiveNames(registries)
    requires k in registries && !Available(registries[k], credentials)
    ensures var again, read, r := Again(registries, credentials, existing), ReadExisting(existing), registries[k];
            && (forall d :: d in r.domains ==> Find(again.auths, d) == RetainedAuth(r, read, d))
            && Find(again.states, r.Key().Name()) == if RetainsAny(r, read) then Some(read.states[r.Key().Name()]) else None
  {
    var read, r := ReadExisting(existing), registries[k];
    RenderedPerRegistry(registries, credentials, existing, k);
    hide RetainsAny, RetainedAuth, Rendered;
    var c := Rendered(registries, credentials, existing);
    forall d | d in r.domains ensures Find(c.auths, d) == RetainedAuth(r, read, d) {
      assert Find(c.auths, d) == AuthFor(r, credentials, read, d);
    }
    assert Find(c.states, k.Name()) == StateFor(r, credentials, read);
  }

  /** A registry that finds exactly what was retained retains exactly that, without complaint. */
  lemma RetainsTheSame(r: RegistryConfig, read: Existing, again: Existing)
    requires forall d :: d in r.domains ==> Find(again.auths, d) == RetainedAuth(r, read, d)
    requires Find(again.states, r.Key().Name()) == if RetainsAny(r, read) then Some(read.states[r.Key().Name()]) else None
    ensures forall d :: d in r.domains ==> RetainedAuth(r, again, d) == RetainedAuth(r, read, d)
    ensures RetainsAny(r, again) <==> RetainsAny(r, read)
    ensures PendingProblems(r, again) == {}
  {
    forall d | d in r.domains ensures RetainedAuth(r, again, d) == RetainedAuth(r, read, d) {
      assert Find(again.auths, d) == RetainedAuth(r, read, d);
      if RetainedAuth(r, read, d).Some? {
        assert RetainsAny(r, read);
      }
    }
    if RetainsAny(r, read) {
      var d :| d in r.domains && RetainedAuth(r, read, d).Some?;
      assert RetainedAuth(r, again, d).Some?;
    } else {
      forall d | d in r.domains ensures d !in again.auths {
        assert Find(again.auths, d) == RetainedAuth(r, read, d);
      }
    }
  }

  /** A pending registry retains from the payload exactly what it retained before. */
  lemma RetainedAgain(registries: Registries, credentials: Credentials, existing: Option<Secret>, k: RegistryKey)
    requires WellFormedRegistries(registries) && InjectiveNames(registries)
    requires k in registries && !Available(registries[k], credentials)
    ensures var again, r := Again(registries, credentials, existing), registries[k];
            && (forall d :: d in r.domains ==> RetainedAuth(r, again, d) == RetainedAuth(r, ReadExisting(existing), d))
            && StateFor(r, credentials, again) == StateFor(r, credentials, ReadExisting(existing))
            && PendingProblems(r, again) == {}
  {
    PendingInPayload(registries, credentials, existing, k);
    hide Again, ReadExisting, RetainedAuth, RetainsAny, PendingProblems, Available;
    RetainsTheSame(registries[k], ReadExisting(existing), Again(registries, credentials, existing));
  }

  lemma AuthAgain(registries: Registries, credentials: Credentials, existing: Option<Secret>, k: RegistryKey, d: string)
    requires WellFormedRegistries(registries) && InjectiveNames(registries) && k in registries && d in registries[k].domains
    ensures var c := Rendered(registries, credentials, existing);
            Find(c.auths, d) == AuthFor(registries[k], credentials, Again(registries, credentials, existing), d)
  {
    RenderedPerRegistry(registries, credentials, existing, k);
    if !Available(registries[k], credentials) {
      RetainedAgain(registries, credentials, existing, k);
    }
  }

  lemma StateAgain(registries: Registries, credentials: Credentials, existing: Option<Secret>, k: RegistryKey)
    requires WellFormedRegistries(registries) && InjectiveNames(registries) && k in registries
    ensures var c := Rendered(registries, credentials, existing);
            Find(c.states, k.Name()) == StateFor(registries[k], credentials, Again(registries, credentials, existing))
  {
    RenderedPerRegistry(registries, credentials, existing, k);
    if !Available(registries[k], credentials) {
      RetainedAgain(registries, credentials, existing, k);
    }
  }

  lemma AuthsAgain(registries: Registries, credentials: Credentials, existing: Option<Secret>)
    requires WellFormedRegistries(registries) && InjectiveNames(registries)
    ensures var c := Rendered(registries, credentials, existing);
            RenderedAuths(registries, credentials, Again(registries, credentials, existing), registries.Keys) == c.auths
  {
    var c := Rendered(registries, credentials, existing);
    forall k, d | k in registries && d in registries[k].domains
      ensures Find(c.auths, d) == AuthFor(registries[k], credentials, Again(registries, credentials, existing), d)
    {
      AuthAgain(registries, credentials, existing, k, d);
    }
    AuthsAreUnique(registries, credentials, Again(registries, credentials, existing), registries.Keys, c.auths);
  }

  lemma StatesAgain(registries: Registries, credentials: Credentials, existing: Option<Secret>)
    requires WellFormedRegistries(registries) && InjectiveNames(registries)
    ensures var c := Rendered(registries, credentials, existing);
            RenderedStates(registries, credentials, Again(registries, credentials, existing), registries.Keys) == c.states
  {
    var c := Rendered(registries, credentials, existing);
    forall k: RegistryKey | k in registries
      ensures Find(c.states, k.Name()) == StateFor(registries[k], credentials, Again(registries, credentials, existing))
    {
      StateAgain(registries, credentials, existing, k);
    }
    StatesAreUnique(registries, credentials, Again(registries, credentials, existing), registries.Keys, c.states);
  }

  lemma NoProblemsAgain(registries: Registries, credentials: Credentials, existing: Option<Secret>, pending: set<RegistryKey>)
    requires WellFormedRegistries(registries) && InjectiveNames(registries)
    requires pending == PendingKeys(registries, credentials)
    ensures var c := Rendered(registries, credentials, existing);
            ProblemsOf(registries, pending, Again(registries, credentials, existing)) == {}
  {
    var c := Rendered(registries, credentials, existing);
    forall k | k in pending ensures PendingProblems(registries[k], Again(registries, credentials, existing)) == {} {
      RetainedAgain(registries, credentials, existing, k);
    }
  }

  /**
   `Build` reaches a fixpoint in one step: rebuilding from a Secret that holds its own
   payload gives the same payload and no retention error.
   */
  lemma BuildIsFixpoint(registries: Registries, credentials: Credentials, existing: Option<Secret>, s: Secret)
    requires WellFormedRegistries(registries) && InjectiveNames(registries)
    requires CarriesContent(s, Rendered(registries, credentials, existing))
    ensures Rendered(registries, credentials, Some(s)) == Rendered(registries, credentials, existing)
    ensures RetentionProblems(registries, credentials, Some(s)) == {}
  {
    ReadBack(s, Rendered(registries, credentials, existing));
    AuthsAgain(registries, credentials, existing);
    StatesAgain(registries, credentials, existing);
    NoProblemsAgain(registries, credentials, existing, PendingKeys(registries, credentials));
  }

  /** Two Secrets hold the same records, malformed or not, for one registry. */
  predicate SameRecords(s: Secret, t: Secret, registry: RegistryConfig) {
    && (forall d :: d in registry.domains ==> Find(DockerRecords(s), d) == Find(DockerRecords(t), d))
    && Find(StateRecords(s), registry.Key().Name()) == Find(StateRecords(t), registry.Key().Name())
  }

  lemma SameRecordsReadSame(s: Secret, t: Secret, registry: RegistryConfig)
    requires SameRecords(s, t, registry)
    ensures forall x :: x in registry.domains ==> Find(ReadSecret(s).auths, x) == Find(ReadSecret(t).auths, x)
    ensures Find(ReadSecret(s).states, registry.Key().Name()) == Find(ReadSecret(t).states, registry.Key().Name())
  {
    var n := registry.Key().Name();
    assert Find(StateRecords(s), n) == Find(StateRecords(t), n);
    forall x | x in registry.domains ensures Find(ReadSecret(s).auths, x) == Find(ReadSecret(t).auths, x) {
      assert Find(DockerRecords(s), x) == Find(DockerRecords(t), x);
    }
  }

  lemma SameReadsRetainSame(registry: RegistryConfig, a: Existing, b: Existing)
    requires forall x :: x in registry.domains ==> Find(a.auths, x) == Find(b.auths, x)
    requires Find(a.states, registry.Key().Name()) == Find(b.states, registry.Key().Name())
    ensures forall x :: x in registry.domains ==> RetainedAuth(registry, a, x) == RetainedAuth(registry, b, x)
    ensures RetainsAny(registry, a) <==> RetainsAny(registry, b)
  {
    assert Backed(registry, a) <==> Backed(registry, b);
    forall x | x in registry.domains ensures RetainedAuth(registry, a, x) == RetainedAuth(registry, b, x) {
      assert Find(a.auths, x) == Find(b.auths, x);
    }
  }

  /**
   Damage is contained: whatever happens to the records of other registries, a registry
   whose own records are the same gets the same auth and state.
   */
  lemma DamageIsContained(registries: Registries, credentials: Credentials, s: Secret, t: Secret, k: RegistryKey)
    requires WellFormedRegistries(registries) && k in registries && SameRecords(s, t, registries[k])
    ensures var c, d := Rendered(registries, credentials, Some(s)), Rendered(registries, credentials, Some(t));
            && (forall x :: x in registries[k].domains ==> Find(c.auths, x) == Find(d.auths, x))
            && (InjectiveNames(registries) ==> Find(c.states, k.Name()) == Find(d.states, k.Name()))
  {
    RenderedPerRegistry(registries, credentials, Some(s), k);
    RenderedPerRegistry(registries, credentials, Some(t), k);
    SameRecordsReadSame(s, t, registries[k]);
    SameReadsRetainSame(registries[k], ReadSecret(s), ReadSecret(t));
  }
}
