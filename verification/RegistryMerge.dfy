/**
 The merging half of parseRegistries in internal/config/parser.go: normalised entries are
 collected by key. What is accepted and what results depends only on the set of entries.
 */
module RegistryMerge {
  import opened Wrappers
  import opened ConfigTypes
  import opened Strings
  import opened ConfigParser

  /** Entries of one key agree on AK/SK, and entries of different keys share no domain. */
  predicate Agree(e: RegistryConfig, f: RegistryConfig) {
    if e.Key() == f.Key() then SameAuthentication(e, f)
    else forall d :: d in e.domains ==> d !in f.domains
  }

  predicate Compatible(s: set<RegistryConfig>) {
    forall e, f :: e in s && f in s ==> Agree(e, f)
  }

  function KeysOf(s: set<RegistryConfig>): set<RegistryKey> {
    set e | e in s :: e.Key()
  }

  /** All domains written under one key. */
  function DomainsUnder(s: set<RegistryConfig>, k: RegistryKey): set<string> {
    set e, d | e in s && e.Key() == k && d in e.domains :: d
  }

  /** An entry that carries the key. */
  ghost function EntryFor(s: set<RegistryConfig>, k: RegistryKey): (e: RegistryConfig)
    requires k in KeysOf(s)
    ensures e in s && e.Key() == k
  {
    var e :| e in s && e.Key() == k;
    e
  }

  /** An entry that brings the domain under the key. */
  ghost function Holder(s: set<RegistryConfig>, k: RegistryKey, d: string): (e: RegistryConfig)
    requires d in DomainsUnder(s, k)
    ensures e in s && e.Key() == k && d in e.domains
  {
    var e :| e in s && e.Key() == k && d in e.domains;
    e
  }

  /** The registry of one key: AK/SK and sorted domains of all its entries. */
  ghost predicate MergedAt(m: RegistryConfig, s: set<RegistryConfig>, k: RegistryKey) {
    && m.Key() == k
    && (forall e :: e in s && e.Key() == k ==> SameAuthentication(e, m))
    && Ascending(m.domains)
    && Elements(m.domains) == DomainsUnder(s, k)
  }

  ghost predicate MergedFrom(r: Registries, s: set<RegistryConfig>) {
    && r.Keys == KeysOf(s)
    && forall k :: k in r ==> MergedAt(r[k], s, k)
  }

  lemma KeysOfMore(s: set<RegistryConfig>, e: RegistryConfig)
    ensures KeysOf(s + {e}) == KeysOf(s) + {e.Key()}
  {
    assert e in s + {e};
    forall f | f in s ensures f.Key() in KeysOf(s + {e}) {
      assert f in s + {e};
    }
  }

  lemma DomainsUnderMore(s: set<RegistryConfig>, e: RegistryConfig, k: RegistryKey)
    ensures DomainsUnder(s + {e}, k) == DomainsUnder(s, k) + (if e.Key() == k then Elements(e.domains) else {})
  {
  }

  /** `domainOwners` says who has which domain, and nothing else. */
  ghost predicate OwnersMatch(owners: map<string, RegistryKey>, r: Registries) {
    && (forall d :: d in owners ==> owners[d] in r && d in r[owners[d]].domains)
    && (forall k, d :: k in r && d in r[k].domains ==> d in owners && owners[d] == k)
  }

  predicate Free(d: string, key: RegistryKey, owners: map<string, RegistryKey>) {
    d in owners ==> owners[d] == key
  }

  /** Gives the domains to the key unless another key has one of them. */
  method ClaimDomains(domains: seq<string>, key: RegistryKey, owners: map<string, RegistryKey>)
    returns (r: Result<map<string, RegistryKey>, ParseError>)
    ensures r.Success? <==> forall d :: d in domains ==> Free(d, key, owners)
    ensures r.Success? ==> forall d :: Find(r.value, d) == if d in domains then Some(key) else Find(owners, d)
    ensures r.Failure? ==> exists d :: d in domains && !Free(d, key, owners) && r.error == DomainTaken(d, owners[d], key)
  {
    var claimed := owners;
    for i := 0 to |domains|
      invariant forall d :: Find(claimed, d) == if d in domains[..i] then Some(key) else Find(owners, d)
      invariant forall d :: d in domains[..i] ==> Free(d, key, owners)
    {
      var domain := domains[i];
      assert Find(claimed, domain) == if domain in domains[..i] then Some(key) else Find(owners, domain);
      if domain in claimed && claimed[domain] != key {
        assert !Free(domain, key, owners) && domain in domains;
        return Failure(DomainTaken(domain, claimed[domain], key));
      }
      assert Free(domain, key, owners);
      assert domains[..i + 1] == domains[..i] + [domain];
      claimed := claimed[domain := key];
    }
    assert domains[..|domains|] == domains;
    r := Success(claimed);
  }

  lemma ClaimKeepsOwners(r: Registries, owners: map<string, RegistryKey>, k: RegistryKey, m: RegistryConfig,
                         claimed: map<string, RegistryKey>)
    requires OwnersMatch(owners, r)
    requires k in r ==> forall d :: d in r[k].domains ==> d in m.domains
    requires forall d :: d in m.domains ==> Free(d, k, owners)
    requires forall d :: Find(claimed, d) == if d in m.domains then Some(k) else Find(owners, d)
    ensures OwnersMatch(claimed, r[k := m])
  {
    var t := r[k := m];
    forall d | d in claimed ensures claimed[d] in t && d in t[claimed[d]].domains {
      assert Find(claimed, d) == if d in m.domains then Some(k) else Find(owners, d);
    }
    forall l, d | l in t && d in t[l].domains ensures d in claimed && claimed[d] == l {
      assert Find(claimed, d) == if d in m.domains then Some(k) else Find(owners, d);
      assert d in m.domains ==> Free(d, k, owners);
    }
  }

  // One more entry

  /** The registry of the entry's key after the entry. */
  function WithEntry(r: Registries, e: RegistryConfig): RegistryConfig {
    if e.Key() in r then e.(domains := SortedUnique(r[e.Key()].domains + e.domains)) else e
  }

  lemma WithEntryIsMerged(r: Registries, s: set<RegistryConfig>, e: RegistryConfig)
    requires MergedFrom(r, s) && Ascending(e.domains)
    ensures Ascending(WithEntry(r, e).domains)
    ensures Elements(WithEntry(r, e).domains) == DomainsUnder(s + {e}, e.Key())
    ensures (e.Key() in r ==> SameAuthentication(e, r[e.Key()])) ==> MergedAt(WithEntry(r, e), s + {e}, e.Key())
  {
    var k := e.Key();
    DomainsUnderMore(s, e, k);
    if k in r {
      assert MergedAt(r[k], s, k);
      SortedUniqueIsSorted(r[k].domains + e.domains);
      assert Elements(r[k].domains + e.domains) == Elements(r[k].domains) + Elements(e.domains);
    } else {
      forall f | f in s ensures f.Key() != k {
        assert f.Key() in KeysOf(s);
      }
      assert DomainsUnder(s, k) == {};
    }
  }

  lemma MergeKeeps(r: Registries, s: set<RegistryConfig>, e: RegistryConfig)
    requires MergedFrom(r, s) && Ascending(e.domains)
    requires e.Key() in r ==> SameAuthentication(e, r[e.Key()])
    ensures MergedFrom(r[e.Key() := WithEntry(r, e)], s + {e})
  {
    var k, t := e.Key(), r[e.Key() := WithEntry(r, e)];
    WithEntryIsMerged(r, s, e);
    KeysOfMore(s, e);
    forall l | l in t && l != k ensures MergedAt(t[l], s + {e}, l) {
      assert MergedAt(r[l], s, l);
      DomainsUnderMore(s, e, l);
    }
  }

  /** An entry compatible with those before passes the checks. */
  lemma CompatiblePasses(r: Registries, owners: map<string, RegistryKey>, s: set<RegistryConfig>, e: RegistryConfig)
    requires MergedFrom(r, s) && OwnersMatch(owners, r) && Compatible(s + {e}) && Ascending(e.domains)
    ensures e.Key() in r ==> SameAuthentication(e, r[e.Key()])
    ensures forall d :: d in WithEntry(r, e).domains ==> Free(d, e.Key(), owners)
  {
    var k := e.Key();
    WithEntryIsMerged(r, s, e);
    if k in r {
      var f := EntryFor(s, k);
      assert f in s + {e} && e in s + {e} && Agree(f, e);
      assert MergedAt(r[k], s, k);
    }
    forall d | d in WithEntry(r, e).domains ensures Free(d, k, owners) {
      assert d in Elements(WithEntry(r, e).domains);
      if d in owners {
        assert MergedAt(r[owners[d]], s, owners[d]);
        assert d in Elements(r[owners[d]].domains);
        var f, g := Holder(s, owners[d], d), Holder(s + {e}, k, d);
        assert f in s + {e} && Agree(f, g);
      }
    }
  }

  /** An entry that passes the checks is compatible with those before. */
  lemma PassingIsCompatible(r: Registries, owners: map<string, RegistryKey>, s: set<RegistryConfig>, e: RegistryConfig)
    requires MergedFrom(r, s) && OwnersMatch(owners, r) && Compatible(s) && Ascending(e.domains)
    requires e.Key() in r ==> SameAuthentication(e, r[e.Key()])
    requires forall d :: d in WithEntry(r, e).domains ==> Free(d, e.Key(), owners)
    ensures Compatible(s + {e})
  {
    forall f | f in s ensures Agree(f, e) && Agree(e, f) {
      var l := f.Key();
      assert l in KeysOf(s);
      assert MergedAt(r[l], s, l);
      forall d | d in f.domains && d in e.domains ensures l == e.Key() {
        assert d in DomainsUnder(s, l);
        assert d in Elements(r[l].domains);
        TakesAll(r, s, e, d);
        assert Free(d, e.Key(), owners);
      }
    }
  }

  lemma TakesAll(r: Registries, s: set<RegistryConfig>, e: RegistryConfig, d: string)
    requires MergedFrom(r, s) && Ascending(e.domains)
    requires d in e.domains || (e.Key() in r && d in r[e.Key()].domains)
    ensures d in WithEntry(r, e).domains
  {
    if e.Key() in r {
      SortedUniqueIsSorted(r[e.Key()].domains + e.domains);
      assert d in Elements(r[e.Key()].domains + e.domains);
    }
  }

  /** Merges one normalised entry into what was read so far. */
  method MergeEntry(r: Registries, owners: map<string, RegistryKey>, e: RegistryConfig, ghost s: set<RegistryConfig>)
    returns (merged: Result<(Registries, map<string, RegistryKey>), ParseError>)
    requires MergedFrom(r, s) && OwnersMatch(owners, r) && Compatible(s) && Ascending(e.domains)
    ensures merged.Success? <==> Compatible(s + {e})
    ensures merged.Success? ==> MergedFrom(merged.value.0, s + {e}) && OwnersMatch(merged.value.1, merged.value.0)
    ensures merged.Failure? ==>
              || (merged.error == ConflictingCredentials(e.Key()) && e.Key() in r && !SameAuthentication(e, r[e.Key()]))
              || exists d, owner :: merged.error == DomainTaken(d, owner, e.Key()) && owner != e.Key()
                   && owner in r && d in r[owner].domains
  {
    if Compatible(s + {e}) {
      CompatiblePasses(r, owners, s, e);
    }
    var key, normalized := e.Key(), e;
    if key in r {
      var current := r[key];
      if current.accessKeyID != normalized.accessKeyID || current.accessKeySecret != normalized.accessKeySecret {
        return Failure(ConflictingCredentials(key));
      }
      var domains := SortUnique(current.domains + normalized.domains);
      normalized := normalized.(domains := domains);
    }
    assert normalized == WithEntry(r, e);
    var claimed := ClaimDomains(normalized.domains, key, owners);
    if claimed.Failure? {
      return Failure(claimed.error);
    }
    PassingIsCompatible(r, owners, s, e);
    MergeKeeps(r, s, e);
    if key in r {
      forall d | d in r[key].domains {
        TakesAll(r, s, e, d);
      }
    }
    ClaimKeepsOwners(r, owners, key, normalized, claimed.value);
    merged := Success((r[key := normalized], claimed.value));
  }

  // What merging means

  /** The entries determine the result. */
  lemma MergeIsUnique(r: Registries, t: Registries, s: set<RegistryConfig>)
    requires MergedFrom(r, s) && MergedFrom(t, s)
    ensures r == t
  {
    assert r.Keys == t.Keys;
    forall k | k in r ensures r[k] == t[k] {
      assert MergedAt(r[k], s, k) && MergedAt(t[k], s, k);
      var e := EntryFor(s, k);
      assert SameAuthentication(e, r[k]) && SameAuthentication(e, t[k]);
      AscendingIsUnique(r[k].domains, t[k].domains);
    }
  }

  lemma MergedDisjoint(r: Registries, s: set<RegistryConfig>)
    requires MergedFrom(r, s) && Compatible(s)
    ensures KeysMatch(r) && DisjointDomains(r)
  {
    forall k, l, d | k in r && l in r && d in r[k].domains && d in r[l].domains ensures k == l {
      assert MergedAt(r[k], s, k) && MergedAt(r[l], s, l);
      assert d in Elements(r[k].domains) && d in Elements(r[l].domains);
      assert Agree(Holder(s, k, d), Holder(s, l, d));
    }
  }

  /** The registries of a result, taken as entries, are compatible and merge to themselves. */
  lemma MergeIsIdempotent(r: Registries, s: set<RegistryConfig>)
    requires MergedFrom(r, s) && Compatible(s)
    ensures Compatible(r.Values) && MergedFrom(r, r.Values)
  {
    MergedDisjoint(r, s);
    forall e, f | e in r.Values && f in r.Values ensures Agree(e, f) {
    }
    forall k | k in r ensures k in KeysOf(r.Values) && MergedAt(r[k], r.Values, k) {
      assert r[k] in r.Values && MergedAt(r[k], s, k);
      assert DomainsUnder(r.Values, k) == Elements(r[k].domains);
    }
    assert KeysOf(r.Values) == r.Keys;
  }
}
