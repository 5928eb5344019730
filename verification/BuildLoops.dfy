/**
 `Build` and its helpers with the program's loops. Maps are walked in an arbitrary order;
 the result is the one payload of `Rendered`.
 */
module BuildLoops {
  import opened Wrappers
  import opened ConfigTypes
  import opened CredentialTypes
  import opened SecretTypes
  import opened Builder
  import opened BuilderProperties

  /** `addCredential`: every domain gets the auth, the registry its state. */
  method AddCredential(auths: Auths, states: States, registry: RegistryConfig, value: Credential)
    returns (auths': Auths, states': States)
    ensures auths' == auths + map d | d in registry.domains :: FreshAuth(value)
    ensures states' == states[registry.Key().Name() := FreshState(registry, value)]
  {
    var auth := DockerAuth(value.username, value.password, EncodedAuth(value.username, value.password));
    auths' := auths;
    for i := 0 to |registry.domains|
      invariant auths' == auths + map d | d in registry.domains[..i] :: auth
    {
      assert registry.domains[..i + 1] == registry.domains[..i] + [registry.domains[i]];
      auths' := auths'[registry.domains[i] := auth];
    }
    assert registry.domains[..|registry.domains|] == registry.domains;
    states' := states[registry.Key().Name() := RegistryState(value.refreshedAt, value.expiresAt, StateHashOf(registry, value))];
  }

  /** Keeps the records that decode and reports whether any did not. */
  method DecodeRecords<T(!new)>(raw: map<string, Record<T>>) returns (good: map<string, T>, malformed: bool)
    ensures good == GoodRecords(raw)
    ensures malformed <==> HasMalformed(raw)
  {
    good, malformed := map[], false;
    var left, seen := raw.Keys, {};
    while left != {}
      invariant left + seen == raw.Keys && left * seen == {}
      invariant good == map d | d in raw && d in seen && raw[d].Good? :: raw[d].value
      invariant malformed <==> exists d :: d in seen && raw[d].Malformed?
      decreases left
    {
      var d :| d in left;
      if raw[d].Malformed? {
        malformed := true;
      } else {
        good := good[d := raw[d].value];
      }
      left, seen := left - {d}, seen + {d};
    }
  }

  /** `parseExisting`: both documents, record by record; a bad record does not hide the others. */
  method ParseExisting(s: Secret) returns (present: bool, read: Existing)
    ensures present <==> HasDocuments(s)
    ensures read == ReadSecret(s) && (!present ==> read == Nothing)
  {
    if DockerConfigJsonKey !in s.data && StateAnnotationKey !in s.annotations {
      return false, Nothing;
    }
    var problems: set<Problem> := {};
    var auths: Auths, states: States := map[], map[];
    if !DockerReadable(s) {
      problems := problems + {BadDocker};
    } else {
      var malformed;
      auths, malformed := DecodeRecords(DockerRecords(s));
      if malformed {
        problems := problems + {BadAuthEntry};
      }
    }
    if !StateReadable(s) {
      problems := problems + {BadState};
    } else {
      var malformed;
      states, malformed := DecodeRecords(StateRecords(s));
      if malformed {
        problems := problems + {BadStateEntry};
      }
    }
    present, read := true, Existing(auths, states, problems);
  }

  /** The auths a registry's domains retain, on top of `auths`. */
  function WithRetained(auths: Auths, registry: RegistryConfig, read: Existing, domains: seq<string>): Auths {
    auths + map d | d in domains && RetainedAuth(registry, read, d).Some? :: RetainedAuth(registry, read, d).value
  }

  predicate Invalid(read: Existing, d: string) {
    d in read.auths && !ConsistentAuth(read.auths[d])
  }

  /** The second loop of `retainPending`, over a registry with complete state. */
  method RetainDomains(auths: Auths, registry: RegistryConfig, read: Existing)
    returns (auths': Auths, retained: bool, problems: set<Problem>)
    requires Backed(registry, read)
    ensures auths' == WithRetained(auths, registry, read, registry.domains)
    ensures retained <==> RetainsAny(registry, read)
    ensures problems == PendingProblems(registry, read)
  {
    auths', retained, problems := auths, false, {};
    for i := 0 to |registry.domains|
      invariant auths' == WithRetained(auths, registry, read, registry.domains[..i])
      invariant retained <==> exists d :: d in registry.domains[..i] && RetainedAuth(registry, read, d).Some?
      invariant problems == set d | d in registry.domains[..i] && Invalid(read, d) :: InvalidAuth(registry.Key(), d)
    {
      var domain := registry.domains[i];
      assert registry.domains[..i + 1] == registry.domains[..i] + [domain];
      RetainOne(auths, registry, read, registry.domains[..i], domain);
      ComplainOne(registry, read, registry.domains[..i], domain);
      if domain in read.auths {
        var auth := read.auths[domain];
        if auth.username == "" || auth.password == "" || auth.auth != EncodedAuth(auth.username, auth.password) {
          problems := problems + {InvalidAuth(registry.Key(), domain)};
        } else {
          auths' := auths'[domain := auth];
          retained := true;
        }
      }
    }
    assert registry.domains[..|registry.domains|] == registry.domains;
  }

  lemma RetainOne(auths: Auths, registry: RegistryConfig, read: Existing, domains: seq<string>, domain: string)
    ensures WithRetained(auths, registry, read, domains + [domain]) ==
            if RetainedAuth(registry, read, domain).Some?
            then WithRetained(auths, registry, read, domains)[domain := RetainedAuth(registry, read, domain).value]
            else WithRetained(auths, registry, read, domains)
  {
    var a, b := WithRetained(auths, registry, read, domains), WithRetained(auths, registry, read, domains + [domain]);
    forall d ensures Find(b, d) == if d == domain && RetainedAuth(registry, read, domain).Some? then RetainedAuth(registry, read, domain) else Find(a, d) {
      assert d in domains + [domain] <==> d in domains || d == domain;
    }
    FindDetermines(b, if RetainedAuth(registry, read, domain).Some? then a[domain := RetainedAuth(registry, read, domain).value] else a);
  }

  lemma ComplainOne(registry: RegistryConfig, read: Existing, domains: seq<string>, domain: string)
    ensures (set d | d in domains + [domain] && Invalid(read, d) :: InvalidAuth(registry.Key(), d)) ==
            (set d | d in domains && Invalid(read, d) :: InvalidAuth(registry.Key(), d))
            + If(Invalid(read, domain), InvalidAuth(registry.Key(), domain))
  {
  }

  /** `retainPending`: nothing, a complaint, or whatever of the old auths is self-consistent. */
  method RetainPending(auths: Auths, states: States, registry: RegistryConfig, read: Existing)
    returns (auths': Auths, states': States, problems: set<Problem>)
    ensures auths' == WithRetained(auths, registry, read, registry.domains)
    ensures states' == if RetainsAny(registry, read) then states[registry.Key().Name() := read.states[registry.Key().Name()]] else states
    ensures problems == PendingProblems(registry, read)
  {
    auths', states', problems := auths, states, {};
    var name := registry.Key().Name();
    var hasAnyAuth := false;
    for i := 0 to |registry.domains|
      invariant hasAnyAuth <==> exists d :: d in registry.domains[..i] && d in read.auths
    {
      assert registry.domains[..i + 1] == registry.domains[..i] + [registry.domains[i]];
      if registry.domains[i] in read.auths {
        assert registry.domains[i] in registry.domains[..i + 1];
        hasAnyAuth := true;
        break;
      }
    }
    assert registry.domains[..|registry.domains|] == registry.domains;
    if name !in read.states {
      problems := if hasAnyAuth then {AuthWithoutState(registry.Key())} else {};
    } else if !CompleteState(read.states[name]) {
      problems := {IncompleteState(registry.Key())};
    } else {
      var retained;
      auths', retained, problems := RetainDomains(auths, registry, read);
      if retained {
        states' := states[name := read.states[name]];
      }
    }
  }

  /** The auth records so far: those of the registries in `done`, and no others. */
  ghost predicate Covers(registries: Registries, credentials: Credentials, read: Existing, done: set<RegistryKey>, auths: Auths) {
    && (forall k, d :: k in done && k in registries && d in registries[k].domains ==>
          Find(auths, d) == AuthFor(registries[k], credentials, read, d))
    && auths.Keys <= Domains(registries, done)
  }

  /** One more registry: its domains are its own. */
  lemma CoversOneMore(registries: Registries, credentials: Credentials, read: Existing, done: set<RegistryKey>,
                      auths: Auths, k: RegistryKey, auths': Auths)
    requires WellFormedRegistries(registries) && k in registries && k !in done && done <= registries.Keys
    requires Covers(registries, credentials, read, done, auths)
    requires forall d :: Find(auths', d) ==
               if d in registries[k].domains && AuthFor(registries[k], credentials, read, d).Some?
               then AuthFor(registries[k], credentials, read, d) else Find(auths, d)
    ensures Covers(registries, credentials, read, done + {k}, auths')
  {
    NewDomains(registries, credentials, read, done, auths, k);
    forall d | d in auths' ensures d in Domains(registries, done + {k}) {
      assert Find(auths', d).Some?;
      if Find(auths, d).Some? {
        assert d in Domains(registries, done);
      }
    }
  }

  lemma NewDomains(registries: Registries, credentials: Credentials, read: Existing, done: set<RegistryKey>,
                   auths: Auths, k: RegistryKey)
    requires WellFormedRegistries(registries) && k in registries && k !in done && done <= registries.Keys
    requires Covers(registries, credentials, read, done, auths)
    ensures forall d :: d in registries[k].domains ==> Find(auths, d).None?
  {
    forall d | d in registries[k].domains ensures d !in auths {
      assert d !in Domains(registries, done);
    }
  }

  /** Available registries are rendered alike whatever is read of the existing Secret. */
  lemma CoversWhateverIsRead(registries: Registries, credentials: Credentials, read: Existing, done: set<RegistryKey>, auths: Auths)
    requires forall k :: k in done ==> k in registries && Available(registries[k], credentials)
    requires Covers(registries, credentials, Nothing, done, auths)
    ensures Covers(registries, credentials, read, done, auths)
  {
    forall k, d | k in done && k in registries && d in registries[k].domains
      ensures Find(auths, d) == AuthFor(registries[k], credentials, read, d)
    {
      assert Find(auths, d) == AuthFor(registries[k], credentials, Nothing, d);
    }
  }

  /** With nothing to retain, pending registries add nothing. */
  lemma NothingRetained(registries: Registries, credentials: Credentials, done: set<RegistryKey>, auths: Auths)
    requires WellFormedRegistries(registries) && done <= registries.Keys
    requires forall k :: k in registries && k !in done ==> !Available(registries[k], credentials)
    requires Covers(registries, credentials, Nothing, done, auths)
    ensures Covers(registries, credentials, Nothing, registries.Keys, auths)
  {
    forall k, d | k in registries && d in registries[k].domains
      ensures Find(auths, d) == AuthFor(registries[k], credentials, Nothing, d)
    {
      if k !in done {
        NewDomains(registries, credentials, Nothing, done, auths, k);
      }
    }
  }

  lemma SelectedOneMore(registries: Registries, credentials: Credentials, walk: seq<RegistryKey>, key: RegistryKey, available: bool)
    requires key in registries && forall k :: k in walk ==> k in registries
    ensures Selected(registries, credentials, walk + [key], available) ==
            if Available(registries[key], credentials) == available then Selected(registries, credentials, walk, available) + [key]
            else Selected(registries, credentials, walk, available)
  {
    hide Available;
    assert (walk + [key])[..|walk|] == walk;
  }

  predicate Distinct(order: seq<RegistryKey>) {
    forall i, j :: 0 <= i < j < |order| ==> order[i] != order[j]
  }

  function KeysIn(order: seq<RegistryKey>): set<RegistryKey> {
    set k | k in order
  }

  /** What was written for the registries of `order`, one after the other. */
  ghost predicate WrittenFor(registries: Registries, credentials: Credentials, read: Existing, order: seq<RegistryKey>,
                             auths: Auths, states: States) {
    && (forall k :: k in order ==> k in registries)
    && Covers(registries, credentials, read, KeysIn(order), auths)
    && states == StatesAlong(registries, credentials, read, order)
  }

  lemma WritesOneMore(registries: Registries, credentials: Credentials, read: Existing, order: seq<RegistryKey>,
                      auths: Auths, states: States, key: RegistryKey, auths': Auths, states': States)
    requires WellFormedRegistries(registries) && key in registries && key !in order
    requires WrittenFor(registries, credentials, read, order, auths, states)
    requires forall d :: Find(auths', d) ==
               if d in registries[key].domains && AuthFor(registries[key], credentials, read, d).Some?
               then AuthFor(registries[key], credentials, read, d) else Find(auths, d)
    requires states' == if StateFor(registries[key], credentials, read).Some?
                        then states[key.Name() := StateFor(registries[key], credentials, read).value] else states
    ensures WrittenFor(registries, credentials, read, order + [key], auths', states')
  {
    hide Covers, StatesAlong, AuthFor, StateFor;
    assert KeysIn(order + [key]) == KeysIn(order) + {key};
    CoversOneMore(registries, credentials, read, KeysIn(order), auths, key, auths');
    WritesState(registries, credentials, read, order, key);
  }

  /** The first loop of `Build`: available registries are rendered, the others set aside in the order of the walk. */
  method RenderAvailable(registries: Registries, credentials: Credentials)
    returns (auths: Auths, states: States, pending: seq<RegistryKey>, ghost walk: seq<RegistryKey>)
    requires WellFormedRegistries(registries)
    ensures Walk(walk, registries) && pending == Selected(registries, credentials, walk, false)
    ensures WrittenFor(registries, credentials, Nothing, Selected(registries, credentials, walk, true), auths, states)
  {
    auths, states, pending, walk := map[], map[], [], [];
    var left := registries.Keys;
    while left != {}
      invariant left <= registries.Keys && forall k :: k in walk <==> k in registries && k !in left
      invariant Distinct(walk)
      invariant pending == Selected(registries, credentials, walk, false)
      invariant WrittenFor(registries, credentials, Nothing, Selected(registries, credentials, walk, true), auths, states)
      decreases left
    {
      hide WrittenFor, Selected, WellFormedRegistries;
      var key :| key in left;
      left := left - {key};
      ghost var selected := Selected(registries, credentials, walk, true);
      SelectedOneMore(registries, credentials, walk, key, true);
      SelectedOneMore(registries, credentials, walk, key, false);
      if key !in credentials || !credentials[key].MatchesRegistry(registries[key]) {
        OwnKey(registries, key);
        pending := pending + [key];
      } else {
        auths, states := RenderOne(registries, credentials, selected, auths, states, key);
      }
      walk := walk + [key];
    }
  }

  lemma OwnKey(registries: Registries, key: RegistryKey)
    requires WellFormedRegistries(registries) && key in registries
    ensures registries[key].Key() == key
  {
  }

  method RenderOne(registries: Registries, credentials: Credentials, ghost order: seq<RegistryKey>,
                   auths: Auths, states: States, key: RegistryKey)
    returns (auths': Auths, states': States)
    requires WellFormedRegistries(registries) && key in registries && key !in order
    requires key in credentials && credentials[key].MatchesRegistry(registries[key])
    requires WrittenFor(registries, credentials, Nothing, order, auths, states)
    ensures Available(registries[key], credentials)
    ensures WrittenFor(registries, credentials, Nothing, order + [key], auths', states')
  {
    hide WrittenFor;
    auths', states' := AddCredential(auths, states, registries[key], credentials[key].credential);
    WritesOneMore(registries, credentials, Nothing, order, auths, states, key, auths', states');
  }

  lemma WritesState(registries: Registries, credentials: Credentials, read: Existing, order: seq<RegistryKey>, key: RegistryKey)
    requires key in registries && forall k :: k in order ==> k in registries
    ensures StatesAlong(registries, credentials, read, order + [key]) ==
            var rest := StatesAlong(registries, credentials, read, order);
            if StateFor(registries[key], credentials, read).Some?
            then rest[key.Name() := StateFor(registries[key], credentials, read).value] else rest
  {
    hide StateFor;
    assert (order + [key])[..|order|] == order;
  }

  /** Registries without a state record leave the document alone. */
  lemma {:induction false} SilentTail(registries: Registries, credentials: Credentials, read: Existing,
                                      order: seq<RegistryKey>, tail: seq<RegistryKey>)
    requires forall k :: k in order + tail ==> k in registries
    requires forall k :: k in tail ==> StateFor(registries[k], credentials, read).None?
    ensures StatesAlong(registries, credentials, read, order + tail) == StatesAlong(registries, credentials, read, order)
  {
    if tail == [] {
      assert order + tail == order;
    } else {
      var rest := tail[..|tail| - 1];
      assert forall k :: k in rest ==> k in tail;
      assert tail[|tail| - 1] in tail;
      assert order + tail == (order + rest) + [tail[|tail| - 1]];
      forall k | k in order + rest ensures k in registries {
        assert k in order + tail;
      }
      hide StateFor, StatesAlong;
      SilentTail(registries, credentials, read, order, rest);
      WritesState(registries, credentials, read, order + rest, tail[|tail| - 1]);
    }
  }

  /** The state of an available registry does not depend on what is read. */
  lemma {:induction false} FreshStatesAlong(registries: Registries, credentials: Credentials, read: Existing, order: seq<RegistryKey>)
    requires forall k :: k in order ==> k in registries && Available(registries[k], credentials)
    ensures StatesAlong(registries, credentials, read, order) == StatesAlong(registries, credentials, Nothing, order)
  {
    if order != [] {
      assert order[|order| - 1] in order;
      FreshStatesAlong(registries, credentials, read, order[..|order| - 1]);
    }
  }

  /** The complaints about the registries of `order`. */
  ghost predicate Complained(registries: Registries, read: Existing, order: seq<RegistryKey>, problems: set<Problem>) {
    KeysIn(order) <= registries.Keys && problems == ProblemsOf(registries, KeysIn(order), read)
  }

  lemma ComplainsOneMore(registries: Registries, read: Existing, order: seq<RegistryKey>, problems: set<Problem>, key: RegistryKey)
    requires key in registries && Complained(registries, read, order, problems)
    ensures Complained(registries, read, order + [key], problems + PendingProblems(registries[key], read))
  {
    hide PendingProblems;
    assert KeysIn(order + [key]) == KeysIn(order) + {key};
  }

  /** How a walk over `pending`, after `available`, goes on. */
  lemma NextOfWalk(available: seq<RegistryKey>, pending: seq<RegistryKey>, i: nat)
    requires i < |pending| && Distinct(pending) && forall k :: k in pending ==> k !in available
    ensures pending[i] in pending && pending[i] !in available + pending[..i]
    ensures pending[..i + 1] == pending[..i] + [pending[i]]
    ensures available + pending[..i + 1] == available + pending[..i] + [pending[i]]
  {
    assert pending[i] !in pending[..i];
  }

  /** The second loop: every pending registry retains what it can, in the order of the walk. */
  method RetainAll(registries: Registries, credentials: Credentials, ghost available: seq<RegistryKey>, pending: seq<RegistryKey>,
                   read: Existing, auths0: Auths, states0: States)
    returns (auths: Auths, states: States, problems: set<Problem>)
    requires WellFormedRegistries(registries) && Distinct(pending)
    requires forall k :: k in pending ==> k in registries && !Available(registries[k], credentials) && k !in available
    requires WrittenFor(registries, credentials, read, available, auths0, states0)
    ensures WrittenFor(registries, credentials, read, available + pending, auths, states)
    ensures Complained(registries, read, pending, problems)
  {
    auths, states, problems := auths0, states0, {};
    assert available + pending[..0] == available;
    for i := 0 to |pending|
      invariant WrittenFor(registries, credentials, read, available + pending[..i], auths, states)
      invariant Complained(registries, read, pending[..i], problems)
    {
      hide WrittenFor, Complained, WellFormedRegistries, Available, PendingProblems, Distinct;
      var key := pending[i];
      NextOfWalk(available, pending, i);
      var complaints;
      ComplainsOneMore(registries, read, pending[..i], problems, key);
      auths, states, complaints := RetainOneMore(registries, credentials, available + pending[..i], read, auths, states, key);
      problems := problems + complaints;
    }
    assert pending[..|pending|] == pending;
  }

  method RetainOneMore(registries: Registries, credentials: Credentials, ghost order: seq<RegistryKey>, read: Existing,
                       auths: Auths, states: States, key: RegistryKey)
    returns (auths': Auths, states': States, problems: set<Problem>)
    requires WellFormedRegistries(registries) && key in registries && key !in order && !Available(registries[key], credentials)
    requires WrittenFor(registries, credentials, read, order, auths, states)
    ensures WrittenFor(registries, credentials, read, order + [key], auths', states')
    ensures problems == PendingProblems(registries[key], read)
  {
    hide WrittenFor, PendingProblems, RetainedAuth, RetainsAny;
    auths', states', problems := RetainPending(auths, states, registries[key], read);
    WritesOneMore(registries, credentials, read, order, auths, states, key, auths', states');
  }

  /** With injective names every walk gives the state records of the per-registry description. */
  lemma {:induction false} StatesAlongFind(registries: Registries, credentials: Credentials, read: Existing, order: seq<RegistryKey>)
    requires InjectiveNames(registries) && forall k :: k in order ==> k in registries
    ensures var states := StatesAlong(registries, credentials, read, order);
            && (forall k: RegistryKey :: k in order ==> Find(states, k.Name()) == StateFor(registries[k], credentials, read))
            && (forall n :: n in states ==> exists k: RegistryKey :: k in order && n == k.Name())
  {
    if order != [] {
      hide StateFor;
      var rest, last := order[..|order| - 1], order[|order| - 1];
      assert order == rest + [last];
      StatesAlongFind(registries, credentials, read, rest);
      forall k: RegistryKey | k in order
        ensures Find(StatesAlong(registries, credentials, read, order), k.Name()) == StateFor(registries[k], credentials, read)
      {
        if k.Name() == last.Name() {
          assert k == last;
          if StateFor(registries[k], credentials, read).None? && k !in rest {
            assert k.Name() !in StatesAlong(registries, credentials, read, rest);
          }
        } else {
          assert k in rest;
        }
      }
      forall n | n in StatesAlong(registries, credentials, read, order) ensures exists k: RegistryKey :: k in order && n == k.Name() {
        if n == last.Name() {
          assert last in order;
        } else {
          assert n in StatesAlong(registries, credentials, read, rest);
          var k: RegistryKey :| k in rest && n == k.Name();
          assert k in order;
        }
      }
    }
  }

  lemma WalkIsRendered(registries: Registries, credentials: Credentials, read: Existing, walk: seq<RegistryKey>)
    requires InjectiveNames(registries) && Walk(walk, registries)
    ensures StatesOfWalk(registries, credentials, read, walk) == RenderedStates(registries, credentials, read, registries.Keys)
  {
    var order := Selected(registries, credentials, walk, true) + Selected(registries, credentials, walk, false);
    hide StateFor, StatesAlong, Selected, Available;
    StatesAlongFind(registries, credentials, read, order);
    forall k | k in registries ensures k in order {
    }
    StatesAreUnique(registries, credentials, read, registries.Keys, StatesAlong(registries, credentials, read, order));
  }

  /** With injective names there is one payload. */
  lemma BuildableIsRendered(registries: Registries, credentials: Credentials, existing: Option<Secret>, content: Content)
    requires InjectiveNames(registries) && Buildable(registries, credentials, existing, content)
    ensures content == Rendered(registries, credentials, existing)
  {
    hide StatesOfWalk;
    var walk :| Walk(walk, registries) && content.states == StatesOfWalk(registries, credentials, ReadExisting(existing), walk);
    WalkIsRendered(registries, credentials, ReadExisting(existing), walk);
  }

  lemma {:induction false} SelectedDistinct(registries: Registries, credentials: Credentials, order: seq<RegistryKey>, available: bool)
    requires forall k :: k in order ==> k in registries
    requires forall i, j :: 0 <= i < j < |order| ==> order[i] != order[j]
    ensures var r := Selected(registries, credentials, order, available); forall i, j :: 0 <= i < j < |r| ==> r[i] != r[j]
  {
    if order != [] {
      hide Available;
      var rest, last := order[..|order| - 1], order[|order| - 1];
      SelectedDistinct(registries, credentials, rest, available);
      assert last !in rest;
      assert last !in Selected(registries, credentials, rest, available);
    }
  }

  /**
   `Build`: the auth records are the same for every order in which the maps are walked; the
   state records are those of the walk taken, and with injective names they are the same too.
   A retention problem may come with a usable payload.
   */
  method Build(registries: Registries, credentials: Credentials, existing: Option<Secret>)
    returns (content: Content, problems: set<Problem>)
    requires WellFormedRegistries(registries)
    ensures Buildable(registries, credentials, existing, content)
    ensures InjectiveNames(registries) ==> content == Rendered(registries, credentials, existing)
    ensures problems == RetentionProblems(registries, credentials, existing)
  {
    hide WrittenFor, Selected, AuthFor, StateFor, RenderedAuths, InjectiveNames, PendingProblems, ReadSecret, StatesAlong;
    var auths, states, pending, walk := RenderAvailable(registries, credentials);
    problems := {};
    ghost var read := ReadExisting(existing);
    ghost var available := Selected(registries, credentials, walk, true);
    assert KeysIn(pending) == PendingKeys(registries, credentials);
    SelectedDistinct(registries, credentials, walk, false);
    WrittenWhateverIsRead(registries, credentials, read, available, auths, states);
    var retaining := pending != [] && existing.Some?;
    if retaining {
      var present, parsed := ParseExisting(existing.value);
      problems := parsed.problems;
      retaining := present;
      if present {
        var complaints;
        auths, states, complaints := RetainAll(registries, credentials, available, pending, parsed, auths, states);
        problems := problems + complaints;
      }
    }
    if !retaining {
      NothingToRetain(registries, credentials, read, available, pending, auths, states);
    }
    content := Content(auths, states);
    assert pending == [] ==> PendingKeys(registries, credentials) == {};
    assert pending != [] ==> pending[0] in PendingKeys(registries, credentials);
    WrittenIsBuildable(registries, credentials, existing, walk, content);
    if InjectiveNames(registries) {
      BuildableIsRendered(registries, credentials, existing, content);
    }
  }

  lemma WrittenWhateverIsRead(registries: Registries, credentials: Credentials, read: Existing, order: seq<RegistryKey>,
                              auths: Auths, states: States)
    requires forall k :: k in order ==> k in registries && Available(registries[k], credentials)
    requires WrittenFor(registries, credentials, Nothing, order, auths, states)
    ensures WrittenFor(registries, credentials, read, order, auths, states)
  {
    CoversWhateverIsRead(registries, credentials, read, KeysIn(order), auths);
    FreshStatesAlong(registries, credentials, read, order);
  }

  lemma WrittenIsBuildable(registries: Registries, credentials: Credentials, existing: Option<Secret>, walk: seq<RegistryKey>,
                           content: Content)
    requires WellFormedRegistries(registries) && Walk(walk, registries)
    requires var order := Selected(registries, credentials, walk, true) + Selected(registries, credentials, walk, false);
             WrittenFor(registries, credentials, ReadExisting(existing), order, content.auths, content.states)
    ensures Buildable(registries, credentials, existing, content)
  {
    hide ReadExisting, Available, AuthFor, StatesAlong;
    var order := Selected(registries, credentials, walk, true) + Selected(registries, credentials, walk, false);
    assert KeysIn(order) == registries.Keys;
    AuthsAreUnique(registries, credentials, ReadExisting(existing), registries.Keys, content.auths);
    assert content.states == StatesOfWalk(registries, credentials, ReadExisting(existing), walk);
  }

  /** No pending registry, or nothing read: the available registries are all there is. */
  lemma NothingToRetain(registries: Registries, credentials: Credentials, read: Existing,
                        available: seq<RegistryKey>, pending: seq<RegistryKey>, auths: Auths, states: States)
    requires WellFormedRegistries(registries) && forall k :: k in available + pending <==> k in registries
    requires forall k :: k in pending ==> k in registries && !Available(registries[k], credentials)
    requires WrittenFor(registries, credentials, read, available, auths, states)
    requires pending == [] || read == Nothing
    ensures WrittenFor(registries, credentials, read, available + pending, auths, states)
    ensures pending != [] ==> ProblemsOf(registries, KeysIn(pending), read) == {}
  {
    if pending == [] {
      assert available + pending == available;
    } else {
      assert KeysIn(available + pending) == registries.Keys;
      NothingRetained(registries, credentials, KeysIn(available), auths);
      SilentTail(registries, credentials, read, available, pending);
    }
  }
}
