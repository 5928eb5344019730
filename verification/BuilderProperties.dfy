/**
 What the payload means: domain by domain, registry by registry, whatever the order of the
 program's maps; what damage can reach; and that building again changes nothing.
 */
module BuilderProperties {
  import opened Wrappers
  import opened ConfigTypes
  import opened CredentialTypes
  import opened SecretTypes
  import opened Builder

  lemma OwnerIs(registries: Registries, keys: set<RegistryKey>, k: RegistryKey, d: string)
    requires DisjointDomains(registries) && k in keys && k in registries && d in registries[k].domains
    ensures d in Domains(registries, keys) && Owner(registries, keys, d) == k
  {
  }

  lemma AuthOf(registries: Registries, credentials: Credentials, existing: Existing, keys: set<RegistryKey>, k: RegistryKey, d: string)
    requires DisjointDomains(registries) && k in keys && k in registries && d in registries[k].domains
    ensures Find(RenderedAuths(registries, credentials, existing, keys), d) == AuthFor(registries[k], credentials, existing, d)
  {
    OwnerIs(registries, keys, k, d);
  }

  lemma StateOf(registries: Registries, credentials: Credentials, existing: Existing, keys: set<RegistryKey>, k: RegistryKey)
    requires InjectiveNames(registries) && k in keys && k in registries
    ensures Find(RenderedStates(registries, credentials, existing, keys), k.Name()) == StateFor(registries[k], credentials, existing)
  {
    if k.Name() in StateNames(registries, credentials, existing, keys) {
      assert StateHolder(registries, credentials, existing, keys, k.Name()) == k;
    }
  }

  /**
   The payload, domain by domain and registry by registry. Every domain with auth belongs to
   a configured registry, to no other, and carries its fresh credential or a self-consistent
   one retained on complete state.
   */
  lemma RenderedPerRegistry(registries: Registries, credentials: Credentials, existing: Option<Secret>, k: RegistryKey)
    requires WellFormedRegistries(registries) && k in registries
    ensures var c, read := Rendered(registries, credentials, existing), ReadExisting(existing);
            && (forall d :: d in registries[k].domains ==> Find(c.auths, d) == AuthFor(registries[k], credentials, read, d))
            && (InjectiveNames(registries) ==> Find(c.states, k.Name()) == StateFor(registries[k], credentials, read))
            && c.auths.Keys <= Domains(registries, registries.Keys)
            && c.states.Keys == StateNames(registries, credentials, read, registries.Keys)
  {
    forall d | d in registries[k].domains {
      AuthOf(registries, credentials, ReadExisting(existing), registries.Keys, k, d);
    }
    if InjectiveNames(registries) {
      StateOf(registries, credentials, ReadExisting(existing), registries.Keys, k);
    }
  }

  /** What the per-registry description says of auth determines the auth records. */
  lemma AuthsAreUnique(registries: Registries, credentials: Credentials, existing: Existing, keys: set<RegistryKey>, auths: Auths)
    requires DisjointDomains(registries) && keys <= registries.Keys
    requires forall k, d :: k in keys && d in registries[k].domains ==>
               Find(auths, d) == AuthFor(registries[k], credentials, existing, d)
    requires auths.Keys <= Domains(registries, keys)
    ensures auths == RenderedAuths(registries, credentials, existing, keys)
  {
    var rendered := RenderedAuths(registries, credentials, existing, keys);
    forall d ensures Find(auths, d) == Find(rendered, d) {
      if d in Domains(registries, keys) {
        AuthOf(registries, credentials, existing, keys, Owner(registries, keys, d), d);
      }
    }
    FindDetermines(auths, rendered);
  }

  /** And likewise for state, provided names are not shared. */
  lemma StatesAreUnique(registries: Registries, credentials: Credentials, existing: Existing, keys: set<RegistryKey>, states: States)
    requires InjectiveNames(registries) && keys <= registries.Keys
    requires forall k: RegistryKey :: k in keys ==> Find(states, k.Name()) == StateFor(registries[k], credentials, existing)
    requires forall n :: n in states ==> exists k: RegistryKey :: k in keys && n == k.Name()
    ensures states == RenderedStates(registries, credentials, existing, keys)
  {
    var rendered := RenderedStates(registries, credentials, existing, keys);
    forall n ensures Find(states, n) == Find(rendered, n) {
      if k: RegistryKey :| k in keys && n == k.Name() {
        StateOf(registries, credentials, existing, keys, k);
      } else {
        assert n !in rendered;
      }
    }
    FindDetermines(states, rendered);
  }

  lemma FindDetermines<V>(a: map<string, V>, b: map<string, V>)
    requires forall x :: Find(a, x) == Find(b, x)
    ensures a == b
  {
    forall x ensures x in a <==> x in b {
      assert Find(a, x) == Find(b, x);
    }
    forall x | x in a ensures a[x] == b[x] {
      assert Find(a, x) == Find(b, x);
    }
  }

  /** Every auth in the payload is fresh, or self-consistent and backed by complete state. */
  lemma AuthsAreBacked(registries: Registries, credentials: Credentials, existing: Option<Secret>, d: string)
    requires WellFormedRegistries(registries) && d in Rendered(registries, credentials, existing).auths
    ensures exists k :: k in registries && d in registries[k].domains
              && (forall l :: l in registries && d in registries[l].domains ==> l == k)
              && var auth := Rendered(registries, credentials, existing).auths[d];
                 if Available(registries[k], credentials) then
                   var c := credentials[k].credential;
                   auth == DockerAuth(c.username, c.password, Base64(c.username + ":" + c.password))
                 else ConsistentAuth(auth) && Backed(registries[k], ReadExisting(existing))
                      && d in ReadExisting(existing).auths && auth == ReadExisting(existing).auths[d]
  {
    var k := Owner(registries, registries.Keys, d);
    RenderedPerRegistry(registries, credentials, existing, k);
  }

  /** A registry has a state record exactly if one of its domains has auth. */
  predicate StateIffAuth(registries: Registries, k: RegistryKey, c: Content)
    requires k in registries
  {
    k.Name() in c.states <==> exists d :: d in registries[k].domains && d in c.auths
  }

  lemma StateGoesWithAuth(registries: Registries, credentials: Credentials, existing: Option<Secret>, k: RegistryKey)
    requires WellFormedRegistries(registries) && InjectiveNames(registries) && k in registries
    ensures StateIffAuth(registries, k, Rendered(registries, credentials, existing))
  {
    var c, read, r := Rendered(registries, credentials, existing), ReadExisting(existing), registries[k];
    RenderedPerRegistry(registries, credentials, existing, k);
    assert Find(c.states, k.Name()) == StateFor(r, credentials, read);
    if Available(r, credentials) {
      assert r.domains[0] in r.domains;
      assert Find(c.auths, r.domains[0]).Some?;
    } else if RetainsAny(r, read) {
      var d :| d in r.domains && RetainedAuth(r, read, d).Some?;
      assert Find(c.auths, d).Some?;
    } else {
      forall d | d in r.domains ensures d !in c.auths {
        assert Find(c.auths, d) == RetainedAuth(r, read, d);
      }
    }
  }

  /**
   State goes with auth for all registries, credentials and Secrets exactly if no two
   registry keys share a name. The parser does not forbid "/" in identifiers, so two keys
   can: then the state of one stands for a registry without any auth.
   */
  lemma StateGoesWithAuthExactly(registries: Registries)
    requires WellFormedRegistries(registries)
    ensures InjectiveNames(registries) <==>
            forall credentials, existing: Option<Secret>, k :: k in registries ==>
              StateIffAuth(registries, k, Rendered(registries, credentials, existing))
  {
    hide Rendered, StateIffAuth, WellFormedRegistries;
    if InjectiveNames(registries) {
      forall credentials, existing: Option<Secret>, k | k in registries
        ensures StateIffAuth(registries, k, Rendered(registries, credentials, existing))
      {
        StateGoesWithAuth(registries, credentials, existing, k);
      }
    } else {
      var k: RegistryKey, l: RegistryKey :| k in registries && l in registries && k.Name() == l.Name() && k != l;
      CollisionBreaksState(registries, k, l);
    }
  }

  /** With only `k` available, its namesake `l` gets a state record and no auth. */
  lemma CollisionBreaksState(registries: Registries, k: RegistryKey, l: RegistryKey)
    requires WellFormedRegistries(registries)
    requires k in registries && l in registries && k != l && k.Name() == l.Name()
    ensures var credentials := map[k := Entry(Credential("u", "p", 1, 2), 1, RegistryAuthenticationHash(registries[k]))];
            !StateIffAuth(registries, l, Rendered(registries, credentials, None))
  {
    var credentials := map[k := Entry(Credential("u", "p", 1, 2), 1, RegistryAuthenticationHash(registries[k]))];
    var c := Rendered(registries, credentials, None);
    RenderedPerRegistry(registries, credentials, None, l);
    forall d | d in registries[l].domains ensures d !in c.auths {
      assert Find(c.auths, d) == RetainedAuth(registries[l], Nothing, d);
    }
    assert StateFor(registries[k], credentials, Nothing).Some?;
  }
}
