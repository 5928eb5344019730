/**
 What the fields of a ConfigMap say, in the characters written: which names stand in a list,
 which domain is meant, what is accepted, and what each part of the snapshot comes from.
 */
module ParserFields {
  import opened Wrappers
  import opened ConfigTypes
  import opened Strings
  import opened Texts
  import opened NameLists
  import opened RuntimeLimits
  import opened ConfigParser
  import opened RegistryMerge
  import opened RegistryParser
  import opened Parser

  predicate AllSpace(s: string) {
    forall i :: 0 <= i < |s| ==> IsSpace(s[i])
  }

  /** `s` is `t` with space around it, and `t` has none at its ends. */
  ghost predicate Padded(s: string, t: string) {
    Bare(t) && exists a, b :: AllSpace(a) && AllSpace(b) && s == a + t + b
  }

  lemma Prepended(s: string, rest: string, t: string)
    requires s != [] && s[1..] == rest + t
    ensures s == ([s[0]] + rest) + t
  {
  }

  lemma Appended(s: string, t: string, rest: string)
    requires s != [] && s[..|s| - 1] == t + rest
    ensures s == t + (rest + [s[|s| - 1]])
  {
  }

  lemma {:induction false} TrimLeftPads(s: string) returns (a: string)
    ensures AllSpace(a) && s == a + TrimLeft(s)
  {
    hide IsSpace;
    if s != [] && IsSpace(s[0]) {
      var rest := TrimLeftPads(s[1..]);
      Prepended(s, rest, TrimLeft(s[1..]));
      a := [s[0]] + rest;
    } else {
      a := [];
    }
  }

  lemma {:induction false} TrimRightPads(s: string) returns (b: string)
    ensures AllSpace(b) && s == TrimRight(s) + b
  {
    hide IsSpace;
    if s != [] && IsSpace(s[|s| - 1]) {
      var rest := TrimRightPads(s[..|s| - 1]);
      Appended(s, TrimRight(s[..|s| - 1]), rest);
      b := rest + [s[|s| - 1]];
    } else {
      b := [];
    }
  }

  lemma {:induction false} TrimLeftOfPadded(a: string, t: string)
    requires AllSpace(a) && (t == [] || !IsSpace(t[0]))
    ensures TrimLeft(a + t) == t
  {
    if a == [] {
      assert a + t == t;
    } else {
      assert (a + t)[1..] == a[1..] + t;
      TrimLeftOfPadded(a[1..], t);
    }
  }

  lemma {:induction false} TrimRightOfPadded(t: string, b: string)
    requires AllSpace(b) && (t == [] || !IsSpace(t[|t| - 1]))
    ensures TrimRight(t + b) == t
  {
    if b == [] {
      assert t + b == t;
    } else {
      assert (t + b)[..|t + b| - 1] == t + b[..|b| - 1];
      TrimRightOfPadded(t, b[..|b| - 1]);
    }
  }

  /** Trimming takes away the space at both ends and nothing else. */
  lemma TrimExactly(s: string, t: string)
    ensures TrimSpace(s) == t <==> Padded(s, t)
  {
    if TrimSpace(s) == t {
      TrimIsBare(s);
      var a := TrimLeftPads(s);
      var b := TrimRightPads(TrimLeft(s));
      assert s == a + t + b;
    }
    if Padded(s, t) {
      var a, b :| AllSpace(a) && AllSpace(b) && s == a + t + b;
      if t == [] {
        assert s == (a + b) + [];
        TrimLeftOfPadded(a + b, []);
      } else {
        assert s == a + (t + b);
        TrimLeftOfPadded(a, t + b);
        TrimRightOfPadded(t, b);
      }
    }
  }

  // Lists of names

  /** The text from `i` to `j` stands between commas or the ends. */
  predicate IsPart(raw: string, i: nat, j: nat) {
    && i <= j <= |raw| && ',' !in raw[i..j]
    && (i == 0 || raw[i - 1] == ',')
    && (j == |raw| || raw[j] == ',')
  }

  /** The name stands in the list, with or without space around it. */
  ghost predicate Written(raw: string, name: string) {
    exists i: nat, j: nat :: IsPart(raw, i, j) && Padded(raw[i..j], name)
  }

  ghost predicate PartAfter(raw: string, p: string) {
    exists i: nat, j: nat :: 0 < i && IsPart(raw, i, j) && raw[i..j] == p
  }

  lemma Shift(s: string, i: nat, j: nat)
    requires s != []
    ensures 0 < i ==> (IsPart(s, i + 1, j + 1) <==> IsPart(s[1..], i, j))
    ensures s[0] == ',' ==> (IsPart(s, 1, j + 1) <==> IsPart(s[1..], 0, j))
    ensures s[0] != ',' ==> !IsPart(s, 1, j + 1) && (IsPart(s, 0, j + 1) <==> IsPart(s[1..], 0, j)) && !IsPart(s, 0, 0)
    ensures i <= j < |s| ==> s[i + 1..j + 1] == s[1..][i..j]
    ensures s[0] == ',' ==> (IsPart(s, 0, j) <==> j == 0)
  {
    assert i <= j < |s| ==> s[i + 1..j + 1] == s[1..][i..j];
    assert j < |s| ==> s[0..j + 1] == [s[0]] + s[1..][0..j] && s[1..j + 1] == s[1..][0..j];
    assert 0 < j <= |s| ==> s[0..j][0] == s[0];
  }

  lemma NoCommaWithin(s: string, i: nat, j: nat)
    requires IsPart(s, 0, j)
    ensures i < j ==> s[i] != ','
  {
    assert i < j ==> s[0..j][i] == s[i];
  }

  lemma OneFirstPart(s: string, i: nat, j: nat)
    requires IsPart(s, 0, i) && IsPart(s, 0, j)
    ensures i == j
  {
    NoCommaWithin(s, i, j);
    NoCommaWithin(s, j, i);
  }

  lemma PartAfterCons(s: string, p: string, f: nat)
    requires s != [] && IsPart(s[1..], 0, f)
    ensures PartAfter(s, p) <==> PartAfter(s[1..], p) || (s[0] == ',' && s[1..][0..f] == p)
  {
    var t := s[1..];
    if PartAfter(s, p) {
      var i: nat, j: nat :| 0 < i && IsPart(s, i, j) && s[i..j] == p;
      Shift(s, i - 1, j - 1);
      if i == 1 {
        OneFirstPart(t, j - 1, f);
        assert t[0..f] == s[1..j];
      } else {
        assert IsPart(t, i - 1, j - 1) && t[i - 1..j - 1] == p;
      }
    }
    if PartAfter(t, p) {
      var i: nat, j: nat :| 0 < i && IsPart(t, i, j) && t[i..j] == p;
      Shift(s, i, j);
      assert IsPart(s, i + 1, j + 1) && s[i + 1..j + 1] == p;
    }
    if s[0] == ',' && t[0..f] == p {
      Shift(s, 0, f);
      assert IsPart(s, 1, f + 1) && s[1..f + 1] == p;
    }
  }

  /** Splitting gives the first part, and the parts after commas. */
  lemma {:induction false} SplitParts(s: string) returns (f: nat)
    ensures IsPart(s, 0, f) && s[0..f] == Split(s)[0]
    ensures forall p :: p in Split(s)[1..] <==> PartAfter(s, p)
  {
    hide Join;
    if s == [] {
      f := 0;
    } else {
      var t := s[1..];
      var g := SplitParts(t);
      forall p ensures PartAfter(s, p) <==> PartAfter(t, p) || (s[0] == ',' && t[0..g] == p) {
        PartAfterCons(s, p, g);
      }
      hide PartAfter;
      if s[0] == ',' {
        f := 0;
        assert Split(s)[1..] == Split(t) == [Split(t)[0]] + Split(t)[1..];
      } else {
        f := g + 1;
        assert s[0..f] == [s[0]] + t[0..g];
        assert Split(s)[1..] == Split(t)[1..];
      }
    }
  }

  /** The parts between commas are what splitting gives. */
  lemma PartsAreSplit(raw: string, p: string)
    ensures p in Split(raw) <==> exists i: nat, j: nat :: IsPart(raw, i, j) && raw[i..j] == p
  {
    hide Split;
    var f := SplitParts(raw);
    assert Split(raw) == [Split(raw)[0]] + Split(raw)[1..];
    if i: nat, j: nat :| IsPart(raw, i, j) && raw[i..j] == p {
      if i == 0 {
        OneFirstPart(raw, f, j);
      } else {
        assert PartAfter(raw, p);
      }
    }
  }

  /** The names of a list are the names written in it. */
  lemma NamesAreWritten(raw: string, name: string)
    ensures name in Names(raw) <==> Written(raw, name)
  {
    hide TrimSpace, Padded, Split;
    var parts := Split(raw);
    if name in Names(raw) {
      var m :| 0 <= m < |parts| && Names(raw)[m] == name;
      TrimExactly(parts[m], name);
      PartsAreSplit(raw, parts[m]);
      var i: nat, j: nat :| IsPart(raw, i, j) && raw[i..j] == parts[m];
    }
    if Written(raw, name) {
      PartIsName(raw, name);
    }
  }

  lemma PartIsName(raw: string, name: string)
    requires Written(raw, name)
    ensures name in Names(raw)
  {
    var i: nat, j: nat :| IsPart(raw, i, j) && Padded(raw[i..j], name);
    hide TrimSpace, Padded, Split;
    TrimExactly(raw[i..j], name);
    PartsAreSplit(raw, raw[i..j]);
    var m :| 0 <= m < |Split(raw)| && Split(raw)[m] == raw[i..j];
    assert Names(raw)[m] == name;
  }

  lemma PaddedOneMore(s: string, t: string, c: char)
    requires IsSpace(c) && Padded(s, t)
    ensures Padded([c] + s, t) && Padded(s + [c], t)
  {
    hide Bare, IsSpace;
    var a, b :| AllSpace(a) && AllSpace(b) && s == a + t + b;
    assert AllSpace([c] + a) && AllSpace(b + [c]);
    assert [c] + s == ([c] + a) + t + b;
    assert s + [c] == a + t + (b + [c]);
  }

  lemma TrimOneMore(s: string, c: char)
    requires IsSpace(c)
    ensures TrimSpace([c] + s) == TrimSpace(s) == TrimSpace(s + [c])
  {
    hide Padded, TrimSpace;
    var t := TrimSpace(s);
    TrimExactly(s, t);
    PaddedOneMore(s, t, c);
    TrimExactly([c] + s, t);
    TrimExactly(s + [c], t);
  }

  lemma {:induction false} NamesOfTrimLeft(s: string)
    ensures Names(TrimLeft(s)) == Names(s)
  {
    if s != [] && IsSpace(s[0]) {
      NamesOfTrimLeft(s[1..]);
      assert s[0] != ',';
      TrimOneMore(Split(s[1..])[0], s[0]);
      assert Names(s[1..]) == Names(s);
    }
  }

  /** A space more at the end makes the last part longer, and no other. */
  lemma PartsOneMore(s: string, c: char, i: nat, j: nat)
    requires c != ',' && i <= j
    ensures j < |s| ==> (IsPart(s + [c], i, j) <==> IsPart(s, i, j)) && (s + [c])[i..j] == s[i..j]
    ensures !IsPart(s + [c], i, |s|) && !IsPart(s + [c], |s| + 1, |s| + 1)
    ensures i <= |s| ==> (IsPart(s + [c], i, |s| + 1) <==> IsPart(s, i, |s|)) && (s + [c])[i..|s| + 1] == s[i..|s|] + [c]
  {
    assert j <= |s| ==> (s + [c])[i..j] == s[i..j];
    assert i <= |s| ==> (s + [c])[i..|s| + 1] == s[i..|s|] + [c];
  }

  lemma PaddedAlike(s: string, c: char, name: string)
    requires IsSpace(c)
    ensures Padded(s + [c], name) <==> Padded(s, name)
  {
    hide Padded, TrimSpace;
    TrimOneMore(s, c);
    TrimExactly(s, name);
    TrimExactly(s + [c], name);
  }

  lemma WrittenOneMore(s: string, c: char, name: string)
    requires IsSpace(c)
    ensures Written(s + [c], name) <==> Written(s, name)
  {
    hide Padded;
    if Written(s + [c], name) {
      var i: nat, j: nat :| IsPart(s + [c], i, j) && Padded((s + [c])[i..j], name);
      PartsOneMore(s, c, i, j);
      if j > |s| {
        PaddedAlike(s[i..|s|], c, name);
      }
    }
    if Written(s, name) {
      var i: nat, j: nat :| IsPart(s, i, j) && Padded(s[i..j], name);
      PartsOneMore(s, c, i, j);
      if j == |s| {
        PaddedAlike(s[i..|s|], c, name);
      }
    }
  }

  lemma {:induction false} WrittenOfTrimRight(s: string, name: string)
    ensures Written(TrimRight(s), name) <==> Written(s, name)
  {
    if s != [] && IsSpace(s[|s| - 1]) {
      var rest, c := s[..|s| - 1], s[|s| - 1];
      WrittenOfTrimRight(rest, name);
      assert s == rest + [c];
      WrittenOneMore(rest, c, name);
    }
  }

  /** Space around a list does not matter. */
  lemma NamesOfTrimmed(raw: string, name: string)
    ensures name in Names(TrimSpace(raw)) <==> Written(raw, name)
  {
    hide Names, Written;
    NamesOfTrimLeft(raw);
    NamesAreWritten(raw, name);
    NamesAreWritten(TrimLeft(raw), name);
    WrittenOfTrimRight(TrimLeft(raw), name);
    NamesAreWritten(TrimSpace(raw), name);
  }

  // Domains

  /** The character, or its upper case. */
  predicate SameLetter(c: char, lower: char) {
    || c == lower
    || ('a' <= lower <= 'z' && c as int == lower as int - 'a' as int + 'A' as int)
    || (c == '\U{130}' && lower == 'i') || (c == '\U{212A}' && lower == 'k')
  }

  /** The domain in whatever case, with or without a dot at its end. */
  predicate Spells(text: string, domain: string) {
    && |domain| <= |text| <= |domain| + 1
    && (|text| > |domain| ==> text[|domain|] == '.')
    && forall i :: 0 <= i < |domain| ==> SameLetter(text[i], domain[i])
  }

  lemma LowersTo(c: char, lower: char)
    requires IsAlphanumeric(lower) || lower == '-' || lower == '.'
    ensures LowerChar(c) == lower <==> SameLetter(c, lower)
  {
  }

  lemma SpellsExactly(text: string, d: string)
    requires IsSubdomain(d)
    ensures TrimDot(Lower(text)) == d <==> Spells(text, d)
  {
    hide LowerChar, SameLetter;
    var low := Lower(text);
    forall i | 0 <= i < |d| && i < |text| ensures low[i] == d[i] <==> SameLetter(text[i], d[i]) {
      LowersTo(text[i], d[i]);
    }
    if |text| > |d| {
      LowersTo(text[|d|], '.');
      assert SameLetter(text[|d|], '.') <==> text[|d|] == '.' by {
        OnlyDot(text[|d|]);
      }
    }
    assert d[|d| - 1] != '.';
    if TrimDot(low) == d {
      assert low == d || low == d + ['.'];
    }
    if Spells(text, d) {
      assert forall i :: 0 <= i < |d| ==> low[i] == d[i];
      assert low == d || low == d + ['.'];
    }
  }

  lemma OnlyDot(c: char)
    ensures SameLetter(c, '.') <==> c == '.'
  {
  }

  /** Which domain a text means: space, case and one dot at its end do not matter, and nothing else does. */
  lemma DomainExactly(raw: string, d: string)
    requires IsSubdomain(d)
    ensures CanonicalDomain(raw) == d <==> exists text :: Padded(raw, text) && Spells(text, d)
  {
    hide Padded, TrimSpace, Spells, IsSubdomain;
    forall text ensures TrimSpace(raw) == text <==> Padded(raw, text) {
      TrimExactly(raw, text);
    }
    SpellsExactly(TrimSpace(raw), d);
  }

  // The snapshot

  /** A name is selected exactly if it or the wildcard is written in its own field, and a namespace if it is not excluded. */
  lemma SelectorsAsWritten(data: Data, decoders: Decoders, s: ConfigurationSnapshot, name: string)
    requires DataAccepted(data, decoders) && Means(data, decoders, s) && name != ""
    ensures "namespace" in data && "serviceaccount" in data
    ensures s.serviceAccounts.matchAll || name in s.serviceAccounts.names <==>
            Written(data["serviceaccount"], "*") || Written(data["serviceaccount"], name)
    ensures (s.namespaces.matchAll || name in s.namespaces.names) && name !in s.excludedNamespaces <==>
            && (Written(data["namespace"], "*") || Written(data["namespace"], name))
            && !("excludeNamespace" in data && Written(data["excludeNamespace"], name))
  {
    hide ListAccepted, MergedFrom, SelectorAccepted, SelectorOf, NamesAccepted, Names, Written, RuntimeAccepted, RuntimeOf;
    GivenSelectors(data);
    ScopeIsAsWritten(data, decoders, s, name);
    SelectorSelects(Field(data, ServiceAccountField), Subdomain(), name);
    forall n ensures n in Names(TrimSpace(data["namespace"])) <==> Written(data["namespace"], n) {
      NamesOfTrimmed(data["namespace"], n);
    }
    forall n ensures n in Names(TrimSpace(data["serviceaccount"])) <==> Written(data["serviceaccount"], n) {
      NamesOfTrimmed(data["serviceaccount"], n);
    }
    NamesAreWritten(Field(data, ExcludeNamespaceField), name);
    NothingWritten(name);
  }

  lemma GivenSelectors(data: Data)
    requires SelectorsAccepted(data)
    ensures "namespace" in data && "serviceaccount" in data
  {
    TrimIsBare("");
  }

  lemma NothingWritten(name: string)
    requires name != ""
    ensures !Written("", name)
  {
    NamesAreWritten("", name);
    TrimIsBare("");
  }

  /** Rate, burst and workers are the numbers of their own fields, and zero for a field that is not there. */
  lemma NumbersAsWritten(data: Data, decoders: Decoders, s: ConfigurationSnapshot)
    requires DataAccepted(data, decoders) && Means(data, decoders, s)
    ensures if "kubeAPIQPS" in data then decoders.parseFloat(TrimSpace(data["kubeAPIQPS"])) == Some(s.runtime.qps) else s.runtime.qps == 0.0
    ensures if "kubeAPIBurst" in data then decoders.atoi(TrimSpace(data["kubeAPIBurst"])) == Some(s.runtime.burst) else s.runtime.burst == 0
    ensures if "workers" in data then decoders.atoi(TrimSpace(data["workers"])) == Some(s.runtime.workers) else s.runtime.workers == 0
  {
    hide ListAccepted, MergedFrom, SelectorsAccepted, SelectorOf;
  }

  /** The entry is of the key, space around its two identifiers aside. */
  predicate IsOf(e: RegistryConfig, k: RegistryKey) {
    TrimSpace(e.regionID) == k.regionID && TrimSpace(e.instanceID) == k.instanceID
  }

  /** Some entry of the key writes the domain. */
  ghost predicate WritesDomain(list: seq<RegistryConfig>, k: RegistryKey, d: string) {
    exists e, raw :: e in list && IsOf(e, k) && raw in e.domains && CanonicalDomain(raw) == d
  }

  /**
   The registries are those of the list: one for each key written, with the AK/SK of every entry of
   the key and the domains of all of them.
   */
  lemma RegistriesAsWritten(data: Data, decoders: Decoders, s: ConfigurationSnapshot, k: RegistryKey)
    requires DataAccepted(data, decoders) && Means(data, decoders, s)
    ensures "registries" in data && decoders.yaml(data["registries"]).Some?
    ensures var list := decoders.yaml(data["registries"]).value;
            && (k in s.registries <==> exists e :: e in list && IsOf(e, k))
            && (k in s.registries ==>
                  var r := s.registries[k];
                  && r.regionID == k.regionID && r.instanceID == k.instanceID
                  && (forall e :: e in list && IsOf(e, k) ==> e.accessKeyID == r.accessKeyID && e.accessKeySecret == r.accessKeySecret)
                  && (forall d :: d in r.domains <==> WritesDomain(list, k, d)))
  {
    hide SelectorsAccepted, SelectorOf, RuntimeAccepted, RuntimeOf, ListAccepted, TrimSpace, SortedUnique;
    TrimIsBare("");
    var list := decoders.yaml(data["registries"]).value;
    MergedAsWritten(list, s.registries, k);
  }

  lemma MergedAsWritten(list: seq<RegistryConfig>, r: Registries, k: RegistryKey)
    requires MergedFrom(r, NormalSet(list))
    ensures k in r <==> exists e :: e in list && IsOf(e, k)
    ensures k in r ==>
              && r[k].regionID == k.regionID && r[k].instanceID == k.instanceID
              && (forall e :: e in list && IsOf(e, k) ==> e.accessKeyID == r[k].accessKeyID && e.accessKeySecret == r[k].accessKeySecret)
              && (forall d :: d in r[k].domains <==> WritesDomain(list, k, d))
  {
    hide TrimSpace, CanonicalDomain;
    var set0 := NormalSet(list);
    forall e | e in list ensures Normalized(e) in set0 && (Normalized(e).Key() == k <==> IsOf(e, k)) {
    }
    if k in r {
      assert MergedAt(r[k], set0, k);
      var n := EntryFor(set0, k);
      var e :| e in list && Normalized(e) == n;
      assert IsOf(e, k);
      forall d ensures d in r[k].domains <==> WritesDomain(list, k, d) {
        DomainAsWritten(list, k, d);
        assert d in r[k].domains <==> d in Elements(r[k].domains);
      }
    }
  }

  lemma DomainAsWritten(list: seq<RegistryConfig>, k: RegistryKey, d: string)
    ensures d in DomainsUnder(NormalSet(list), k) <==> WritesDomain(list, k, d)
  {
    hide TrimSpace, CanonicalDomain, SortedUnique;
    if d in DomainsUnder(NormalSet(list), k) {
      var n := Holder(NormalSet(list), k, d);
      var e :| e in list && Normalized(e) == n;
      NormalDomains(e, d);
    }
    if WritesDomain(list, k, d) {
      var e, raw :| e in list && IsOf(e, k) && raw in e.domains && CanonicalDomain(raw) == d;
      NormalDomains(e, d);
      assert Normalized(e) in NormalSet(list) && Normalized(e).Key() == k;
    }
  }

  lemma NormalDomains(e: RegistryConfig, d: string)
    ensures d in Normalized(e).domains <==> exists raw :: raw in e.domains && CanonicalDomain(raw) == d
  {
    hide TrimSpace, CanonicalDomain;
    var canonical := CanonicalDomains(e.domains);
    SortedUniqueIsSorted(canonical);
    assert d in Normalized(e).domains <==> d in Elements(SortedUnique(canonical));
    assert d in canonical <==> d in Elements(canonical);
    if raw :| raw in e.domains && CanonicalDomain(raw) == d {
      var i :| 0 <= i < |e.domains| && e.domains[i] == raw;
      assert canonical[i] == d;
    }
  }

  // What is accepted

  /** Every name written passes or is the wildcard, which stands alone. */
  ghost predicate SelectorIsFine(raw: string, passes: string -> bool) {
    && (forall n :: Written(raw, n) ==> n == "*" || passes(n))
    && (Written(raw, "*") ==> forall n :: Written(raw, n) ==> n == "*")
  }

  lemma SelectorExactly(raw: string, passes: string -> bool)
    requires !passes("") && !passes("*")
    ensures SelectorAccepted(raw, passes) <==> SelectorIsFine(raw, passes)
  {
    hide Names, TrimSpace, Written;
    forall n ensures n in Names(TrimSpace(raw)) <==> Written(raw, n) {
      NamesOfTrimmed(raw, n);
    }
    if TrimSpace(raw) == "" {
      BlankNames();
      assert Written(raw, "");
    }
  }

  lemma BlankNames()
    ensures Names("") == [""]
  {
    TrimIsBare("");
  }

  lemma BlankExactly(raw: string)
    ensures TrimSpace(raw) == "" <==> AllSpace(raw)
  {
    TrimExactly(raw, "");
    if AllSpace(raw) {
      assert AllSpace("") && raw == raw + "" + "";
    }
    if Padded(raw, "") {
      var a, b :| AllSpace(a) && AllSpace(b) && raw == a + "" + b;
      assert raw == a + b;
    }
  }

  lemma ExclusionExactly(raw: string)
    ensures TrimSpace(raw) == "" || NamesAccepted(Names(raw), Label(), false) <==>
            AllSpace(raw) || forall n :: Written(raw, n) ==> IsLabel(n)
  {
    hide Names, TrimSpace, Written;
    BlankExactly(raw);
    forall n ensures n in Names(raw) <==> Written(raw, n) {
      NamesAreWritten(raw, n);
    }
  }

  /** Bare AK/SK, identifiers, and at least one domain, all of them valid. */
  predicate EntryIsFine(e: RegistryConfig) {
    && !AllSpace(e.regionID) && !AllSpace(e.instanceID)
    && e.accessKeyID != "" && !IsSpace(e.accessKeyID[0]) && !IsSpace(e.accessKeyID[|e.accessKeyID| - 1])
    && e.accessKeySecret != "" && !IsSpace(e.accessKeySecret[0]) && !IsSpace(e.accessKeySecret[|e.accessKeySecret| - 1])
    && e.domains != [] && forall raw :: raw in e.domains ==> IsSubdomain(CanonicalDomain(raw))
  }

  /** The two entries do not contradict each other: one AK/SK for a key, and one key for a domain. */
  predicate GoTogether(e: RegistryConfig, f: RegistryConfig) {
    if TrimSpace(e.regionID) == TrimSpace(f.regionID) && TrimSpace(e.instanceID) == TrimSpace(f.instanceID) then
      e.accessKeyID == f.accessKeyID && e.accessKeySecret == f.accessKeySecret
    else
      forall d, x :: d in e.domains && x in f.domains ==> CanonicalDomain(d) != CanonicalDomain(x)
  }

  lemma EntryExactly(e: RegistryConfig)
    ensures EntryAccepted(e) <==> EntryIsFine(e)
  {
    hide IsSubdomain, CanonicalDomain, TrimSpace, IsSpace;
    BlankExactly(e.regionID);
    BlankExactly(e.instanceID);
    var canonical := CanonicalDomains(e.domains);
    if AllSubdomains(canonical) {
      forall raw | raw in e.domains ensures IsSubdomain(CanonicalDomain(raw)) {
        var i :| 0 <= i < |e.domains| && e.domains[i] == raw;
        assert IsSubdomain(canonical[i]);
      }
    }
  }

  lemma AgreementExactly(e: RegistryConfig, f: RegistryConfig)
    ensures Agree(Normalized(e), Normalized(f)) <==> GoTogether(e, f)
  {
    hide CanonicalDomain, TrimSpace, SortedUnique;
    forall d ensures d in Normalized(e).domains <==> exists raw :: raw in e.domains && CanonicalDomain(raw) == d {
      NormalDomains(e, d);
    }
    forall d ensures d in Normalized(f).domains <==> exists raw :: raw in f.domains && CanonicalDomain(raw) == d {
      NormalDomains(f, d);
    }
    if d, x :| d in e.domains && x in f.domains && CanonicalDomain(d) == CanonicalDomain(x) {
      assert CanonicalDomain(d) in Normalized(e).domains && CanonicalDomain(d) in Normalized(f).domains;
    }
  }

  lemma ListExactly(list: seq<RegistryConfig>)
    ensures ListAccepted(list) <==>
            && list != [] && (forall e :: e in list ==> EntryIsFine(e))
            && forall e, f :: e in list && f in list ==> GoTogether(e, f)
  {
    hide EntryAccepted, EntryIsFine, Agree, GoTogether, Normalized;
    assert AllAccepted(list) <==> forall e :: e in list ==> EntryAccepted(e);
    forall e ensures EntryAccepted(e) <==> EntryIsFine(e) {
      EntryExactly(e);
    }
    forall e, f ensures Agree(Normalized(e), Normalized(f)) <==> GoTogether(e, f) {
      AgreementExactly(e, f);
    }
    if Compatible(NormalSet(list)) {
      forall e, f | e in list && f in list ensures GoTogether(e, f) {
        assert Normalized(e) in NormalSet(list) && Normalized(f) in NormalSet(list);
      }
    }
    if forall e, f :: e in list && f in list ==> GoTogether(e, f) {
      forall m, n | m in NormalSet(list) && n in NormalSet(list) ensures Agree(m, n) {
        var e :| e in list && Normalized(e) == m;
        var f :| f in list && Normalized(f) == n;
      }
    }
    assert Compatible(NormalSet(list)) <==> forall e, f :: e in list && f in list ==> GoTogether(e, f);
    assert AllAccepted(list) <==> forall e :: e in list ==> EntryIsFine(e);
  }

  ghost predicate NumberIsFine(data: Data, field: string, atoi: string -> Option<int>) {
    field in data ==> exists n :: atoi(TrimSpace(data[field])) == Some(n) && n >= 1
  }

  /** Exactly these ConfigMaps are accepted. */
  lemma AcceptedExactly(data: Data, decoders: Decoders)
    ensures DataAccepted(data, decoders) <==>
            && data.Keys <= {"namespace", "excludeNamespace", "serviceaccount", "registries", "kubeAPIQPS", "kubeAPIBurst", "workers"}
            && "namespace" in data && SelectorIsFine(data["namespace"], (n: string) => IsLabel(n))
            && "serviceaccount" in data && SelectorIsFine(data["serviceaccount"], (n: string) => IsSubdomain(n))
            && ("excludeNamespace" in data ==>
                  AllSpace(data["excludeNamespace"]) || forall n :: Written(data["excludeNamespace"], n) ==> IsLabel(n))
            && "registries" in data && !AllSpace(data["registries"])
            && (exists list :: decoders.yaml(data["registries"]) == Some(list) && list != []
                  && (forall e :: e in list ==> EntryIsFine(e)) && forall e, f :: e in list && f in list ==> GoTogether(e, f))
            && ("kubeAPIQPS" in data ==>
                  exists q :: decoders.parseFloat(TrimSpace(data["kubeAPIQPS"])) == Some(q) && RoundsToZero < q <= MaxFloat32)
            && NumberIsFine(data, "kubeAPIBurst", decoders.atoi) && NumberIsFine(data, "workers", decoders.atoi)
  {
    hide SelectorAccepted, SelectorIsFine, Names, TrimSpace, Written, ListAccepted, EntryIsFine, GoTogether, NamesAccepted;
    EmptyFields();
    SelectorExactly(Field(data, NamespaceField), Label());
    SelectorExactly(Field(data, ServiceAccountField), Subdomain());
    FineAlike(Field(data, NamespaceField), Label(), (n: string) => IsLabel(n));
    FineAlike(Field(data, ServiceAccountField), Subdomain(), (n: string) => IsSubdomain(n));
    ExclusionExactly(Field(data, ExcludeNamespaceField));
    BlankExactly(Field(data, RegistriesField));
    if decoders.yaml(Field(data, RegistriesField)).Some? {
      ListExactly(decoders.yaml(Field(data, RegistriesField)).value);
    }
  }

  lemma FineAlike(raw: string, f: string -> bool, g: string -> bool)
    requires forall n :: f(n) == g(n)
    ensures SelectorIsFine(raw, f) <==> SelectorIsFine(raw, g)
  {
  }

  lemma EmptyFields()
    ensures TrimSpace("") == "" && !SelectorIsFine("", Label()) && !SelectorIsFine("", Subdomain())
  {
    BlankNames();
    NamesAreWritten("", "");
  }
}
