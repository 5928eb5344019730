/**
 internal/config/parser.go, Parse, with parseRuntime of runtime.go: from ConfigMap data to a
 snapshot, or to an error.
 */
module Parser {
  import opened Wrappers
  import opened ConfigTypes
  import opened Strings
  import opened Texts
  import opened NameLists
  import opened RuntimeLimits
  import opened ConfigParser
  import opened RegistryMerge
  import opened RegistryParser

  type Data = map<string, string>

  /** A missing field reads as the empty string. */
  function Field(data: Data, field: string): string {
    Find(data, field).GetOr("")
  }

  // Tuning

  predicate QPSAccepted(data: Data, parseFloat: string -> Option<real>) {
    QPSField in data ==>
      parseFloat(TrimSpace(data[QPSField])).Some? && ValidQPS(parseFloat(TrimSpace(data[QPSField])).value)
  }

  predicate IntegerAccepted(data: Data, field: string, atoi: string -> Option<int>) {
    field in data ==> atoi(TrimSpace(data[field])).Some? && atoi(TrimSpace(data[field])).value >= 1
  }

  predicate RuntimeAccepted(data: Data, decoders: Decoders) {
    && QPSAccepted(data, decoders.parseFloat)
    && IntegerAccepted(data, BurstField, decoders.atoi) && IntegerAccepted(data, WorkersField, decoders.atoi)
  }

  function QPSOf(data: Data, parseFloat: string -> Option<real>): real {
    if QPSField in data then parseFloat(TrimSpace(data[QPSField])).GetOr(0.0) else 0.0
  }

  function IntegerOf(data: Data, field: string, atoi: string -> Option<int>): int {
    if field in data then atoi(TrimSpace(data[field])).GetOr(0) else 0
  }

  function RuntimeOf(data: Data, decoders: Decoders): RuntimeConfiguration {
    RuntimeConfiguration(QPSOf(data, decoders.parseFloat),
                         IntegerOf(data, BurstField, decoders.atoi), IntegerOf(data, WorkersField, decoders.atoi))
  }

  /** `parseRuntime`: a number is absent or valid, so that zero means absent. */
  method ParseRuntime(data: Data, decoders: Decoders) returns (r: Result<RuntimeConfiguration, ParseError>)
    ensures r.Success? <==> RuntimeAccepted(data, decoders)
    ensures r.Success? ==> r.value == RuntimeOf(data, decoders) && ValidOverrides(r.value)
    ensures r.Success? ==> (r.value.qps == 0.0 <==> QPSField !in data)
    ensures r.Success? ==> (r.value.burst == 0 <==> BurstField !in data) && (r.value.workers == 0 <==> WorkersField !in data)
    ensures r.Failure? ==> r.error.BadNumber? && r.error.field in data
  {
    var result := NoOverrides;
    if QPSField in data {
      var qps := decoders.parseFloat(TrimSpace(data[QPSField]));
      if qps.None? || !ValidQPS(qps.value) {
        return Failure(BadNumber(QPSField));
      }
      result := result.(qps := qps.value);
    }
    if BurstField in data {
      var value := decoders.atoi(TrimSpace(data[BurstField]));
      if value.None? || value.value < 1 {
        return Failure(BadNumber(BurstField));
      }
      result := result.(burst := value.value);
    }
    if WorkersField in data {
      var value := decoders.atoi(TrimSpace(data[WorkersField]));
      if value.None? || value.value < 1 {
        return Failure(BadNumber(WorkersField));
      }
      result := result.(workers := value.value);
    }
    r := Success(result);
  }

  // The whole ConfigMap

  function Label(): string -> bool { s => IsLabel(s) }
  function Subdomain(): string -> bool { s => IsSubdomain(s) }

  predicate SelectorsAccepted(data: Data) {
    && SelectorAccepted(Field(data, NamespaceField), Label())
    && (TrimSpace(Field(data, ExcludeNamespaceField)) == "" || NamesAccepted(Names(Field(data, ExcludeNamespaceField)), Label(), false))
    && SelectorAccepted(Field(data, ServiceAccountField), Subdomain())
  }

  predicate RegistriesAccepted(data: Data, decoders: Decoders) {
    var raw := Field(data, RegistriesField);
    TrimSpace(raw) != "" && decoders.yaml(raw).Some? && ListAccepted(decoders.yaml(raw).value)
  }

  predicate DataAccepted(data: Data, decoders: Decoders) {
    && data.Keys <= Fields
    && SelectorsAccepted(data)
    && RegistriesAccepted(data, decoders)
    && RuntimeAccepted(data, decoders)
  }

  function ExcludedOf(raw: string): seq<string> {
    if TrimSpace(raw) == "" then [] else SortedUnique(Names(raw))
  }

  /** What an accepted ConfigMap means. The store assigns the generation. */
  ghost predicate Means(data: Data, decoders: Decoders, s: ConfigurationSnapshot)
    requires RegistriesAccepted(data, decoders)
  {
    && s.generation == 0
    && s.namespaces == SelectorOf(Names(TrimSpace(Field(data, NamespaceField))))
    && s.excludedNamespaces == ExcludedOf(Field(data, ExcludeNamespaceField))
    && s.serviceAccounts == SelectorOf(Names(TrimSpace(Field(data, ServiceAccountField))))
    && MergedFrom(s.registries, NormalSet(decoders.yaml(Field(data, RegistriesField)).value))
    && s.runtime == RuntimeOf(data, decoders)
  }

  /** The first unsupported key met, if there is one. */
  method CheckKeys(data: Data) returns (unsupported: Option<string>)
    ensures unsupported.None? <==> data.Keys <= Fields
    ensures unsupported.Some? ==> unsupported.value in data && unsupported.value !in Fields
  {
    var rest := data.Keys;
    while rest != {}
      invariant rest <= data.Keys && data.Keys - rest <= Fields
      decreases |rest|
    {
      var key :| key in rest;
      if key !in Fields {
        return Some(key);
      }
      rest := rest - {key};
    }
    unsupported := None;
  }

  /** `Parse`: exactly the acceptable ConfigMaps are accepted, and for what they mean. */
  method Parse(data: Data, decoders: Decoders) returns (r: Result<ConfigurationSnapshot, ParseError>)
    ensures r.Success? <==> DataAccepted(data, decoders)
    ensures r.Success? ==> Means(data, decoders, r.value)
  {
    hide SelectorAccepted, NamesAccepted, ListAccepted, MergedFrom, IntegerAccepted, QPSAccepted, RuntimeOf, SelectorOf;
    var unsupported := CheckKeys(data);
    if unsupported.Some? {
      return Failure(UnsupportedKey(unsupported.value));
    }
    var namespaces := ParseNameSelector(Field(data, NamespaceField), NamespaceField, Label());
    if namespaces.Failure? {
      return Failure(namespaces.error);
    }
    var excluded := ParseOptionalNameList(Field(data, ExcludeNamespaceField), ExcludeNamespaceField, Label());
    if excluded.Failure? {
      return Failure(excluded.error);
    }
    var serviceAccounts := ParseNameSelector(Field(data, ServiceAccountField), ServiceAccountField, Subdomain());
    if serviceAccounts.Failure? {
      return Failure(serviceAccounts.error);
    }
    var registries := ParseRegistries(Field(data, RegistriesField), decoders.yaml);
    if registries.Failure? {
      return Failure(registries.error);
    }
    var runtime := ParseRuntime(data, decoders);
    if runtime.Failure? {
      return Failure(runtime.error);
    }
    r := Success(ConfigurationSnapshot(0, namespaces.value, excluded.value, serviceAccounts.value, registries.value, runtime.value));
  }

  /** A ConfigMap means one snapshot. */
  lemma MeaningIsUnique(data: Data, decoders: Decoders, s: ConfigurationSnapshot, t: ConfigurationSnapshot)
    requires RegistriesAccepted(data, decoders) && Means(data, decoders, s) && Means(data, decoders, t)
    ensures s == t
  {
    hide MergedFrom, SelectorOf, RuntimeOf, ListAccepted;
    MergeIsUnique(s.registries, t.registries, NormalSet(decoders.yaml(Field(data, RegistriesField)).value));
  }

  /** What every accepted snapshot has: the preconditions of everything that reads it. */
  lemma AcceptedIsUsable(data: Data, decoders: Decoders, s: ConfigurationSnapshot)
    requires DataAccepted(data, decoders) && Means(data, decoders, s)
    ensures s.registries != map[] && WellFormedRegistries(s.registries) && forall k :: k in s.registries ==> IsNormal(s.registries[k])
    ensures SortedLists(s) && ValidOverrides(s.runtime)
  {
    hide ListAccepted, MergedFrom, IsNormal, SelectorAccepted, SelectorOf, NamesAccepted;
    ParsedIsWellFormed(decoders.yaml(Field(data, RegistriesField)).value, s.registries);
    SelectorSelects(Field(data, NamespaceField), Label(), "");
    SelectorSelects(Field(data, ServiceAccountField), Subdomain(), "");
    SortedUniqueIsSorted(Names(Field(data, ExcludeNamespaceField)));
  }

  /** The namespaces in scope are the selected ones that are not excluded, as written. */
  lemma ScopeIsAsWritten(data: Data, decoders: Decoders, s: ConfigurationSnapshot, name: string)
    requires DataAccepted(data, decoders) && Means(data, decoders, s) && name != ""
    ensures var selected := Names(TrimSpace(Field(data, NamespaceField)));
            MatchesNamespace(s, name) <==>
              (Wildcard in selected || name in selected) && name !in Names(Field(data, ExcludeNamespaceField))
  {
    hide ListAccepted, MergedFrom, SelectorAccepted, SelectorOf, NamesAccepted, Trimmed;
    var raw := Field(data, ExcludeNamespaceField);
    SelectorSelects(Field(data, NamespaceField), Label(), name);
    SortedUniqueIsSorted(Names(raw));
    assert name in SortedUnique(Names(raw)) <==> name in Elements(SortedUnique(Names(raw)));
    assert name in Names(raw) <==> name in Elements(Names(raw));
    if TrimSpace(raw) == "" {
      BlankHasNoNames(raw);
    }
  }

  lemma {:induction false} TrimLeftAll(s: string)
    requires forall i :: 0 <= i < |s| ==> IsSpace(s[i])
    ensures TrimLeft(s) == []
  {
    if s != [] {
      TrimLeftAll(s[1..]);
    }
  }

  lemma {:induction false} TrimmedToNothing(s: string)
    requires TrimSpace(s) == []
    ensures forall i :: 0 <= i < |s| ==> IsSpace(s[i])
  {
    if s != [] {
      if IsSpace(s[0]) {
        TrimmedToNothing(s[1..]);
      } else {
        TrimRightKeeps(s);
      }
    }
  }

  lemma {:induction false} TrimRightKeeps(s: string)
    requires s != [] && !IsSpace(s[0])
    ensures TrimRight(s) != []
  {
    if IsSpace(s[|s| - 1]) {
      TrimRightKeeps(s[..|s| - 1]);
    }
  }

  lemma {:induction false} SplitWithoutComma(s: string)
    requires ',' !in s
    ensures Split(s) == [s]
  {
    SplitAtComma(s, []);
  }

  lemma BlankHasNoNames(raw: string)
    requires TrimSpace(raw) == ""
    ensures Names(raw) == [""]
  {
    TrimmedToNothing(raw);
    assert !IsSpace(',');
    SplitWithoutComma(raw);
  }
}
