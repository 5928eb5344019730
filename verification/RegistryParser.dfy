/**
 internal/config/parser.go, parseRegistries: which lists of entries are accepted, what they
 mean, and that neither order nor a second parse makes a difference.
 */
module RegistryParser {
  import opened Wrappers
  import opened ConfigTypes
  import opened Strings
  import opened Texts
  import opened ConfigParser
  import opened RegistryMerge

  function NormalSet(input: seq<RegistryConfig>): set<RegistryConfig> {
    set e | e in input :: Normalized(e)
  }

  predicate AllAccepted(input: seq<RegistryConfig>) {
    forall i :: 0 <= i < |input| ==> EntryAccepted(input[i])
  }

  /** The entries alone say whether a registry list is accepted. */
  predicate ListAccepted(input: seq<RegistryConfig>) {
    input != [] && AllAccepted(input) && Compatible(NormalSet(input))
  }

  lemma NormalSetOfPrefix(input: seq<RegistryConfig>, i: nat)
    requires i < |input|
    ensures NormalSet(input[..i + 1]) == NormalSet(input[..i]) + {Normalized(input[i])}
    ensures NormalSet(input[..i + 1]) <= NormalSet(input)
  {
    assert input[..i + 1] == input[..i] + [input[i]];
  }

  lemma CompatibleIsDownward(s: set<RegistryConfig>, t: set<RegistryConfig>)
    requires s <= t && !Compatible(s)
    ensures !Compatible(t)
  {
  }

  /** Reads the entries of a decoded list one after the other. */
  method ParseEntries(input: seq<RegistryConfig>) returns (r: Result<Registries, ParseError>)
    requires input != []
    ensures r.Success? <==> ListAccepted(input)
    ensures r.Success? ==> MergedFrom(r.value, NormalSet(input))
    ensures r.Failure? && r.error.BadEntry? ==> r.error.index < |input| && Explains(r.error.problem, input[r.error.index])
  {
    hide EntryAccepted, Normalized, Explains;
    var registries: Registries, owners: map<string, RegistryKey> := map[], map[];
    for i := 0 to |input|
      invariant forall j :: 0 <= j < i ==> EntryAccepted(input[j])
      invariant Compatible(NormalSet(input[..i]))
      invariant MergedFrom(registries, NormalSet(input[..i])) && OwnersMatch(owners, registries)
    {
      NormalSetOfPrefix(input, i);
      var normalized := NormalizeRegistry(input[i]);
      if normalized.Failure? {
        return Failure(BadEntry(i, normalized.error));
      }
      NormalizedIsNormal(input[i]);
      var merged := MergeEntry(registries, owners, normalized.value, NormalSet(input[..i]));
      if merged.Failure? {
        CompatibleIsDownward(NormalSet(input[..i + 1]), NormalSet(input));
        return Failure(merged.error);
      }
      registries, owners := merged.value.0, merged.value.1;
    }
    assert input[..|input|] == input;
    r := Success(registries);
  }

  /**
   `parseRegistries`: a text is accepted exactly if it decodes to a list that is not empty,
   whose entries all normalise and are compatible; the result merges them by key.
   */
  method ParseRegistries(raw: string, yaml: string -> Option<seq<RegistryConfig>>) returns (r: Result<Registries, ParseError>)
    ensures r.Success? <==> TrimSpace(raw) != "" && yaml(raw).Some? && ListAccepted(yaml(raw).value)
    ensures r.Success? ==> MergedFrom(r.value, NormalSet(yaml(raw).value))
    ensures r.Failure? && r.error.BadEntry? ==>
              yaml(raw).Some? && r.error.index < |yaml(raw).value| && Explains(r.error.problem, yaml(raw).value[r.error.index])
  {
    if TrimSpace(raw) == "" {
      return Failure(EmptyField(RegistriesField));
    }
    if yaml(raw).None? {
      return Failure(BadYaml);
    }
    if yaml(raw).value == [] {
      return Failure(NoRegistries);
    }
    r := ParseEntries(yaml(raw).value);
  }

  // Order independence

  /** Two entries differ at most in the order and repetition of their domains. */
  predicate SameEntry(e: RegistryConfig, f: RegistryConfig) {
    && e.Key() == f.Key() && SameAuthentication(e, f)
    && Elements(e.domains) == Elements(f.domains)
  }

  /** Every entry of one list has its like in the other. */
  predicate Covered(input: seq<RegistryConfig>, other: seq<RegistryConfig>) {
    forall e :: e in input ==> exists f :: f in other && SameEntry(e, f)
  }

  lemma CanonicalElements(a: seq<string>, b: seq<string>)
    requires Elements(a) <= Elements(b)
    ensures Elements(CanonicalDomains(a)) <= Elements(CanonicalDomains(b))
    ensures AllSubdomains(CanonicalDomains(b)) ==> AllSubdomains(CanonicalDomains(a))
  {
    forall i | 0 <= i < |a| ensures CanonicalDomains(a)[i] in CanonicalDomains(b) {
      assert a[i] in Elements(a);
      var j :| 0 <= j < |b| && b[j] == a[i];
      assert CanonicalDomains(b)[j] == CanonicalDomain(a[i]);
    }
  }

  lemma SameEntryNormalizes(e: RegistryConfig, f: RegistryConfig)
    requires SameEntry(e, f)
    ensures EntryAccepted(e) <==> EntryAccepted(f)
    ensures Normalized(e) == Normalized(f)
  {
    CanonicalElements(e.domains, f.domains);
    CanonicalElements(f.domains, e.domains);
    SortedUniqueOfElements(CanonicalDomains(e.domains), CanonicalDomains(f.domains));
    HeadIsElement(e.domains);
    HeadIsElement(f.domains);
  }

  lemma CoveredNormalizes(input: seq<RegistryConfig>, other: seq<RegistryConfig>)
    requires Covered(input, other)
    ensures NormalSet(input) <= NormalSet(other)
    ensures AllAccepted(other) ==> AllAccepted(input)
    ensures input != [] ==> other != []
  {
    hide EntryAccepted, Normalized;
    forall i | 0 <= i < |input|
      ensures Normalized(input[i]) in NormalSet(other) && other != [] && (AllAccepted(other) ==> EntryAccepted(input[i]))
    {
      assert input[i] in input;
      var f :| f in other && SameEntry(input[i], f);
      SameEntryNormalizes(input[i], f);
      var j :| 0 <= j < |other| && other[j] == f;
    }
    assert input != [] ==> Normalized(input[0]) in NormalSet(other);
  }

  /**
   Order independence: lists of the same entries, in whatever order and number and with
   their domains in whatever order, are accepted alike and give the same registries.
   */
  lemma ParsingIsOrderIndependent(input: seq<RegistryConfig>, other: seq<RegistryConfig>, r: Registries)
    requires Covered(input, other) && Covered(other, input)
    ensures ListAccepted(input) <==> ListAccepted(other)
    ensures MergedFrom(r, NormalSet(input)) <==> MergedFrom(r, NormalSet(other))
  {
    hide EntryAccepted, Normalized, Covered, MergedFrom, Compatible;
    CoveredNormalizes(input, other);
    CoveredNormalizes(other, input);
    SameSet(NormalSet(input), NormalSet(other));
  }

  lemma SameSet(s: set<RegistryConfig>, t: set<RegistryConfig>)
    requires s <= t <= s
    ensures s == t
  {
  }

  // Well-formedness and idempotence

  /** A registry in normal form. */
  predicate IsNormal(e: RegistryConfig) {
    && EntryAccepted(e)
    && Normalized(e) == e
  }

  /** What makes a normal form. */
  lemma NormalIff(e: RegistryConfig)
    ensures IsNormal(e) <==>
            && e.regionID != "" && Bare(e.regionID) && e.instanceID != "" && Bare(e.instanceID)
            && e.accessKeyID != "" && Bare(e.accessKeyID) && e.accessKeySecret != "" && Bare(e.accessKeySecret)
            && e.domains != [] && Ascending(e.domains) && AllSubdomains(e.domains)
  {
    TrimIsBare(e.regionID);
    TrimIsBare(e.instanceID);
    if IsNormal(e) {
      NormalizedIsNormal(e);
    } else if Ascending(e.domains) && AllSubdomains(e.domains) {
      forall i | 0 <= i < |e.domains| ensures CanonicalDomain(e.domains[i]) == e.domains[i] {
        SubdomainIsCanonical(e.domains[i]);
      }
      assert CanonicalDomains(e.domains) == e.domains;
      SortedUniqueOfAscending(e.domains);
    }
  }

  lemma NormalSetIsNormal(input: seq<RegistryConfig>, n: RegistryConfig)
    requires AllAccepted(input) && n in NormalSet(input)
    ensures IsNormal(n)
  {
    var e :| e in input && Normalized(e) == n;
    NormalizedIsNormal(e);
  }

  /** Merging normal entries gives normal registries. */
  lemma MergedIsNormal(r: Registries, s: set<RegistryConfig>, k: RegistryKey)
    requires MergedFrom(r, s) && k in r && forall e :: e in s ==> IsNormal(e)
    ensures IsNormal(r[k])
  {
    hide IsNormal;
    assert MergedAt(r[k], s, k);
    var e, m := EntryFor(s, k), r[k];
    NormalIff(e);
    NormalIff(m);
    assert e.domains[0] in e.domains;
    assert e.domains[0] in DomainsUnder(s, k);
    assert e.domains[0] in Elements(m.domains);
    forall i | 0 <= i < |m.domains| ensures IsSubdomain(m.domains[i]) {
      assert m.domains[i] in Elements(m.domains);
      var h := Holder(s, k, m.domains[i]);
      NormalIff(h);
    }
  }

  /**
   An accepted list gives at least one registry; the result is well-formed, with every
   registry in normal form: this is what Secrets and the scheduler rely on.
   */
  lemma ParsedIsWellFormed(input: seq<RegistryConfig>, r: Registries)
    requires ListAccepted(input) && MergedFrom(r, NormalSet(input))
    ensures r != map[] && WellFormedRegistries(r)
    ensures forall k :: k in r ==> IsNormal(r[k])
  {
    var s := NormalSet(input);
    forall e | e in s {
      NormalSetIsNormal(input, e);
    }
    MergedDisjoint(r, s);
    forall k | k in r ensures IsNormal(r[k]) && r[k].domains != [] {
      MergedIsNormal(r, s, k);
      NormalIff(r[k]);
    }
    assert Normalized(input[0]) in s;
    assert Normalized(input[0]).Key() in r;
  }

  /** Idempotence: the registries of a result, listed in any order, parse to the same result. */
  lemma ParsingIsIdempotent(input: seq<RegistryConfig>, r: Registries, again: seq<RegistryConfig>)
    requires ListAccepted(input) && MergedFrom(r, NormalSet(input))
    requires forall e :: e in again <==> e in r.Values
    ensures ListAccepted(again) && MergedFrom(r, NormalSet(again))
  {
    ParsedIsWellFormed(input, r);
    MergeIsIdempotent(r, NormalSet(input));
    AllNormal(r, again);
    var k :| k in r;
    assert r[k] in r.Values;
    assert r[k] in again;
  }

  lemma AllNormal(r: Registries, again: seq<RegistryConfig>)
    requires forall k :: k in r ==> IsNormal(r[k])
    requires forall e :: e in again <==> e in r.Values
    ensures AllAccepted(again) && NormalSet(again) == r.Values
  {
    forall i | 0 <= i < |again| ensures IsNormal(again[i]) {
      assert again[i] in again;
      var k :| k in r && r[k] == again[i];
    }
    forall e ensures e in NormalSet(again) <==> e in r.Values {
      if e in r.Values {
        assert e in again;
        assert Normalized(e) in NormalSet(again);
      }
    }
  }

  // What the parser does not ensure

  /** An accepted list may give two registries that share their name in the state document. */
  lemma NamesMayCollide(r: Registries)
    ensures var input := [RegistryConfig("a", "b/c", "i", "s", ["x"]), RegistryConfig("a/b", "c", "i", "s", ["y"])];
            && ListAccepted(input)
            && (MergedFrom(r, NormalSet(input)) ==> exists k, l :: k in r && l in r && k != l && k.Name() == l.Name())
  {
    hide IsNormal, EntryAccepted, Normalized;
    var e, f := RegistryConfig("a", "b/c", "i", "s", ["x"]), RegistryConfig("a/b", "c", "i", "s", ["y"]);
    NormalIff(e);
    NormalIff(f);
    assert e.domains[0] == "x" && f.domains[0] == "y";
    NormalPair(e, f);
    var k, l := e.Key(), f.Key();
    assert |k.regionID| == 1 && |l.regionID| == 3;
    assert k.Name() == "a/b/c" == l.Name();
    assert k in KeysOf({e, f}) && l in KeysOf({e, f});
  }

  lemma NormalPair(e: RegistryConfig, f: RegistryConfig)
    requires IsNormal(e) && IsNormal(f)
    ensures AllAccepted([e, f]) && NormalSet([e, f]) == {e, f}
  {
    hide EntryAccepted, Normalized;
    assert e in [e, f] && f in [e, f];
  }
}
