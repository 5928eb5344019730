/**
 internal/config/parser.go and the parsing half of runtime.go. The YAML decoder and the
 number parsers are parameters; everything else is computed as the program does.
 */
module ConfigParser {
  import opened Wrappers
  import opened ConfigTypes
  import opened Strings
  import opened Texts
  import opened NameLists

  const NamespaceField := "namespace"
  const ExcludeNamespaceField := "excludeNamespace"
  const ServiceAccountField := "serviceaccount"
  const RegistriesField := "registries"
  const QPSField := "kubeAPIQPS"
  const BurstField := "kubeAPIBurst"
  const WorkersField := "workers"
  const Wildcard := "*"

  const Fields := {NamespaceField, ExcludeNamespaceField, ServiceAccountField, RegistriesField, QPSField, BurstField, WorkersField}

  datatype EntryProblem =
    | EmptyRegionID
    | EmptyInstanceID
    | EmptyAccessKeyID
    | EmptyAccessKeySecret
    | SurroundedAccessKeyID
    | SurroundedAccessKeySecret
    | NoDomains
    | EmptyDomain
    | DomainNotBare(domain: string)
    | InvalidDomain(domain: string)

  datatype ParseError =
    | UnsupportedKey(field: string)
    | EmptyField(field: string)
    | EmptyName(field: string)
    | InvalidName(field: string, name: string)
    | WildcardCombined(field: string)
    | BadYaml
    | NoRegistries
    | BadEntry(index: nat, problem: EntryProblem)
    | ConflictingCredentials(key: RegistryKey)
    | DomainTaken(domain: string, owner: RegistryKey, key: RegistryKey)
    | BadNumber(field: string)

  /** The decoders that are not part of the program. */
  datatype Decoders = Decoders(
    yaml: string -> Option<seq<RegistryConfig>>,
    parseFloat: string -> Option<real>,
    atoi: string -> Option<int>)

  // Sorting without duplicates

  /** `sort.Strings`. */
  function Sort(s: seq<string>): seq<string> {
    if s == [] then [] else Place(s[0], Sort(s[1..]))
  }

  function Place(x: string, s: seq<string>): seq<string> {
    if s == [] || !Less(s[0], x) then [x] + s else [s[0]] + Place(x, s[1..])
  }

  predicate Distinct(s: seq<string>) {
    forall i, j :: 0 <= i < j < |s| ==> s[i] != s[j]
  }

  lemma {:induction false} PlaceIsInsert(x: string, s: seq<string>)
    requires x !in s
    ensures Place(x, s) == Insert(x, s)
  {
    if s != [] {
      LessIsTotal(x, s[0]);
      if Less(x, s[0]) {
        LessIsAsymmetric(x, s[0]);
      } else {
        PlaceIsInsert(x, s[1..]);
      }
    }
  }

  lemma {:induction false} SortOfDistinct(s: seq<string>)
    requires Distinct(s)
    ensures Sort(s) == SortedUnique(s)
  {
    if s != [] {
      SortOfDistinct(s[1..]);
      SortedUniqueIsSorted(s[1..]);
      assert s[0] !in Elements(s[1..]);
      PlaceIsInsert(s[0], Sort(s[1..]));
    }
  }

  /** `sortedUnique`: the first occurrence of every string, then sorting. */
  method SortUnique(values: seq<string>) returns (result: seq<string>)
    ensures result == SortedUnique(values)
  {
    var seen: set<string> := {};
    result := [];
    for i := 0 to |values|
      invariant seen == Elements(values[..i]) == Elements(result)
      invariant Distinct(result)
    {
      assert values[..i + 1] == values[..i] + [values[i]];
      if values[i] !in seen {
        assert values[i] !in result;
        seen := seen + {values[i]};
        result := result + [values[i]];
      }
    }
    assert values[..|values|] == values;
    SortOfDistinct(result);
    SortedUniqueOfElements(result, values);
    result := Sort(result);
  }

  // Name lists

  function Trimmed(parts: seq<string>): seq<string> {
    seq(|parts|, i requires 0 <= i < |parts| => TrimSpace(parts[i]))
  }

  /** The names written in a list, in order. */
  function Names(raw: string): seq<string> {
    Trimmed(Split(raw))
  }

  predicate NameAccepted(name: string, validate: string -> bool, allowWildcard: bool) {
    name != "" && ((allowWildcard && name == Wildcard) || validate(name))
  }

  predicate NamesAccepted(names: seq<string>, validate: string -> bool, allowWildcard: bool) {
    forall n :: n in names ==> NameAccepted(n, validate, allowWildcard)
  }

  function NameError(field: string, name: string): ParseError {
    if name == "" then EmptyName(field) else InvalidName(field, name)
  }

  /** `parseNameList`: all names are accepted, or the first that is not is reported. */
  method ParseNameList(raw: string, field: string, validate: string -> bool, allowWildcard: bool)
    returns (r: Result<seq<string>, ParseError>)
    ensures r.Success? <==> NamesAccepted(Names(raw), validate, allowWildcard)
    ensures r.Success? ==> r.value == SortedUnique(Names(raw))
    ensures r.Failure? ==>
              exists i :: 0 <= i < |Names(raw)| && !NameAccepted(Names(raw)[i], validate, allowWildcard)
                && r.error == NameError(field, Names(raw)[i])
                && forall j :: 0 <= j < i ==> NameAccepted(Names(raw)[j], validate, allowWildcard)
  {
    var parts, values := Split(raw), [];
    for i := 0 to |parts|
      invariant values == Names(raw)[..i]
      invariant NamesAccepted(values, validate, allowWildcard)
    {
      var name := TrimSpace(parts[i]);
      assert name == Names(raw)[i] && name in Names(raw);
      assert forall j :: 0 <= j < i ==> Names(raw)[j] == values[j];
      if name == "" {
        return Failure(EmptyName(field));
      }
      if (name != Wildcard || !allowWildcard) && !validate(name) {
        return Failure(InvalidName(field, name));
      }
      values := values + [name];
    }
    assert values == Names(raw);
    var sorted := SortUnique(values);
    r := Success(sorted);
  }

  /** A wildcard stands alone. */
  predicate WildcardAlone(names: seq<string>) {
    Wildcard in names ==> forall n :: n in names ==> n == Wildcard
  }

  predicate SelectorAccepted(raw: string, validate: string -> bool) {
    TrimSpace(raw) != "" && NamesAccepted(Names(TrimSpace(raw)), validate, true) && WildcardAlone(Names(TrimSpace(raw)))
  }

  function SelectorOf(names: seq<string>): NameSelector {
    if Wildcard in names then NameSelector(true, []) else NameSelector(false, SortedUnique(names))
  }

  /** `parseNameSelector`: every name, or a sorted list of at least one. */
  method ParseNameSelector(raw: string, field: string, validate: string -> bool)
    returns (r: Result<NameSelector, ParseError>)
    ensures r.Success? <==> SelectorAccepted(raw, validate)
    ensures r.Success? ==> r.value == SelectorOf(Names(TrimSpace(raw)))
  {
    var trimmed := TrimSpace(raw);
    if trimmed == "" {
      return Failure(EmptyField(field));
    }
    var list := ParseNameList(trimmed, field, validate, true);
    if list.Failure? {
      return Failure(list.error);
    }
    var values := list.value;
    SortedUniqueIsSorted(Names(trimmed));
    assert forall n :: n in values <==> n in Elements(values);
    assert forall n :: n in Names(trimmed) <==> n in Elements(Names(trimmed));
    var wildcard := ContainsSorted(values, Wildcard);
    if wildcard {
      WildcardAloneIsOne(values);
      if |values| != 1 {
        return Failure(WildcardCombined(field));
      }
      return Success(NameSelector(true, []));
    }
    r := Success(NameSelector(false, values));
  }

  lemma WildcardAloneIsOne(values: seq<string>)
    requires Ascending(values) && Wildcard in values
    ensures |values| == 1 <==> WildcardAlone(values)
  {
    if |values| != 1 {
      assert Less(values[0], values[1]);
      LessIsIrreflexive(values[0]);
      assert values[0] in values && values[1] in values;
    }
  }

  /** `parseOptionalNameList`. */
  method ParseOptionalNameList(raw: string, field: string, validate: string -> bool)
    returns (r: Result<seq<string>, ParseError>)
    ensures r.Success? <==> TrimSpace(raw) == "" || NamesAccepted(Names(raw), validate, false)
    ensures r.Success? ==> r.value == if TrimSpace(raw) == "" then [] else SortedUnique(Names(raw))
  {
    if TrimSpace(raw) == "" {
      return Success([]);
    }
    r := ParseNameList(raw, field, validate, false);
  }

  /** A parsed selector selects exactly the names that were written, or all of them. */
  lemma SelectorSelects(raw: string, validate: string -> bool, name: string)
    requires SelectorAccepted(raw, validate)
    ensures var names := Names(TrimSpace(raw));
            && Ascending(SelectorOf(names).names)
            && (Matches(SelectorOf(names), name) <==> Wildcard in names || name in names)
  {
    var names := Names(TrimSpace(raw));
    SortedUniqueIsSorted(names);
    assert name in names <==> name in Elements(names);
    assert name in SortedUnique(names) <==> name in Elements(SortedUnique(names));
  }

  /** Only which names are written matters, not their order or number. */
  lemma SelectorIsOrderIndependent(raw: string, other: string, validate: string -> bool)
    requires TrimSpace(raw) != "" && TrimSpace(other) != ""
    requires Elements(Names(TrimSpace(raw))) == Elements(Names(TrimSpace(other)))
    ensures SelectorAccepted(raw, validate) <==> SelectorAccepted(other, validate)
    ensures SelectorOf(Names(TrimSpace(raw))) == SelectorOf(Names(TrimSpace(other)))
  {
    var a, b := Names(TrimSpace(raw)), Names(TrimSpace(other));
    assert forall n :: n in a <==> n in Elements(a);
    assert forall n :: n in b <==> n in Elements(b);
    SortedUniqueOfElements(a, b);
  }

  lemma {:induction false} JoinIsBare(names: seq<string>)
    requires names != [] && forall i :: 0 <= i < |names| ==> names[i] != "" && Bare(names[i])
    ensures Join(names) != "" && Bare(Join(names)) && Join(names)[0] == names[0][0]
  {
    if |names| > 1 {
      JoinIsBare(names[1..]);
      var rest := Join(names[1..]);
      assert Join(names)[|Join(names)| - 1] == rest[|rest| - 1];
    }
  }

  /** Round trip: the names of a parsed list, written out, parse to the same list. */
  lemma ParsedNamesParseBack(raw: string, validate: string -> bool)
    requires SelectorAccepted(raw, validate) && Wildcard !in Names(TrimSpace(raw))
    requires forall n :: validate(n) ==> Bare(n) && ',' !in n
    ensures var list := SelectorOf(Names(TrimSpace(raw))).names;
            list != [] && SelectorAccepted(Join(list), validate) && SelectorOf(Names(TrimSpace(Join(list)))).names == list
  {
    var names := Names(TrimSpace(raw));
    var list := SortedUnique(names);
    SortedUniqueIsSorted(names);
    assert names[0] in Elements(names);
    assert list != [];
    forall i | 0 <= i < |list| ensures list[i] in names && Bare(list[i]) && ',' !in list[i] && list[i] != "" {
      assert list[i] in Elements(list);
    }
    JoinIsBare(list);
    TrimIsBare(Join(list));
    SplitOfJoin(list);
    forall i | 0 <= i < |list| ensures TrimSpace(list[i]) == list[i] {
      TrimIsBare(list[i]);
    }
    assert Names(Join(list)) == list;
    SortedUniqueOfAscending(list);
  }

  // One registry entry

  function CanonicalDomain(raw: string): string {
    TrimDot(Lower(TrimSpace(raw)))
  }

  function CanonicalDomains(raw: seq<string>): seq<string> {
    seq(|raw|, i requires 0 <= i < |raw| => CanonicalDomain(raw[i]))
  }

  /** What `normalizeRegistry` accepts. */
  predicate EntryAccepted(entry: RegistryConfig) {
    && TrimSpace(entry.regionID) != "" && TrimSpace(entry.instanceID) != ""
    && entry.accessKeyID != "" && Bare(entry.accessKeyID)
    && entry.accessKeySecret != "" && Bare(entry.accessKeySecret)
    && entry.domains != []
    && AllSubdomains(CanonicalDomains(entry.domains))
  }

  /** The normal form of an accepted entry. */
  function Normalized(entry: RegistryConfig): RegistryConfig {
    RegistryConfig(TrimSpace(entry.regionID), TrimSpace(entry.instanceID), entry.accessKeyID, entry.accessKeySecret,
                   SortedUnique(CanonicalDomains(entry.domains)))
  }

  const NotBare := {'/', '?', '#', '@', ':'}

  predicate Explains(problem: EntryProblem, entry: RegistryConfig) {
    match problem
    case EmptyRegionID => TrimSpace(entry.regionID) == ""
    case EmptyInstanceID => TrimSpace(entry.instanceID) == ""
    case EmptyAccessKeyID => TrimSpace(entry.accessKeyID) == ""
    case EmptyAccessKeySecret => TrimSpace(entry.accessKeySecret) == ""
    case SurroundedAccessKeyID => !Bare(entry.accessKeyID)
    case SurroundedAccessKeySecret => !Bare(entry.accessKeySecret)
    case NoDomains => entry.domains == []
    case _ => ExplainsDomain(problem, CanonicalDomains(entry.domains))
  }

  lemma SubdomainIsBare(d: string)
    ensures IsSubdomain(d) ==> d != "" && !ContainsAny(d, NotBare)
  {
  }

  predicate ExplainsDomain(problem: EntryProblem, domains: seq<string>) {
    match problem
    case EmptyDomain => "" in domains
    case DomainNotBare(d) => d in domains && ContainsAny(d, NotBare)
    case InvalidDomain(d) => d in domains && !IsSubdomain(d) && !ContainsAny(d, NotBare)
    case _ => false
  }

  predicate AllSubdomains(domains: seq<string>) {
    forall i :: 0 <= i < |domains| ==> IsSubdomain(domains[i])
  }

  method NormalizeDomains(raw: seq<string>) returns (r: Result<seq<string>, EntryProblem>)
    ensures r.Success? <==> AllSubdomains(CanonicalDomains(raw))
    ensures r.Success? ==> r.value == CanonicalDomains(raw)
    ensures r.Failure? ==> ExplainsDomain(r.error, CanonicalDomains(raw))
  {
    ghost var canonical := CanonicalDomains(raw);
    var domains := [];
    for i := 0 to |raw|
      invariant domains == canonical[..i] && AllSubdomains(domains)
    {
      var domain := TrimDot(Lower(TrimSpace(raw[i])));
      assert domain == canonical[i];
      SubdomainIsBare(domain);
      if domain == "" {
        return Failure(EmptyDomain);
      }
      if ContainsAny(domain, NotBare) {
        return Failure(DomainNotBare(domain));
      }
      if !IsSubdomain(domain) {
        return Failure(InvalidDomain(domain));
      }
      domains := domains + [domain];
    }
    assert domains == canonical;
    r := Success(domains);
  }

  method NormalizeRegistry(entry: RegistryConfig) returns (r: Result<RegistryConfig, EntryProblem>)
    ensures r.Success? <==> EntryAccepted(entry)
    ensures r.Success? ==> r.value == Normalized(entry)
    ensures r.Failure? ==> Explains(r.error, entry)
  {
    TrimIsBare(entry.accessKeyID);
    TrimIsBare(entry.accessKeySecret);
    var regionID, instanceID := TrimSpace(entry.regionID), TrimSpace(entry.instanceID);
    if regionID == "" {
      return Failure(EmptyRegionID);
    }
    if instanceID == "" {
      return Failure(EmptyInstanceID);
    }
    if TrimSpace(entry.accessKeyID) == "" {
      return Failure(EmptyAccessKeyID);
    }
    if TrimSpace(entry.accessKeySecret) == "" {
      return Failure(EmptyAccessKeySecret);
    }
    if entry.accessKeyID != TrimSpace(entry.accessKeyID) {
      return Failure(SurroundedAccessKeyID);
    }
    if entry.accessKeySecret != TrimSpace(entry.accessKeySecret) {
      return Failure(SurroundedAccessKeySecret);
    }
    if entry.domains == [] {
      return Failure(NoDomains);
    }
    var domains := NormalizeDomains(entry.domains);
    if domains.Failure? {
      return Failure(domains.error);
    }
    var sorted := SortUnique(domains.value);
    r := Success(RegistryConfig(regionID, instanceID, entry.accessKeyID, entry.accessKeySecret, sorted));
  }

  /** A valid domain is its own normal form: lower case, no space, no trailing dot. */
  lemma SubdomainIsCanonical(d: string)
    requires IsSubdomain(d)
    ensures CanonicalDomain(d) == d
  {
    TrimIsBare(d);
    assert Lower(d) == d;
  }

  /** Normalising again changes nothing. */
  lemma NormalizedIsNormal(entry: RegistryConfig)
    requires EntryAccepted(entry)
    ensures EntryAccepted(Normalized(entry)) && Normalized(Normalized(entry)) == Normalized(entry)
    ensures Ascending(Normalized(entry).domains) && forall d :: d in Normalized(entry).domains ==> IsSubdomain(d)
  {
    var n, canonical := Normalized(entry), CanonicalDomains(entry.domains);
    TrimIsBare(entry.regionID);
    TrimIsBare(entry.instanceID);
    TrimIsBare(n.regionID);
    TrimIsBare(n.instanceID);
    SortedUniqueIsSorted(canonical);
    assert canonical[0] in Elements(canonical);
    assert n.domains != [];
    forall i | 0 <= i < |n.domains| ensures IsSubdomain(n.domains[i]) && CanonicalDomain(n.domains[i]) == n.domains[i] {
      assert n.domains[i] in Elements(n.domains);
      SubdomainIsCanonical(n.domains[i]);
    }
    assert CanonicalDomains(n.domains) == n.domains;
    SortedUniqueOfAscending(n.domains);
  }
}
