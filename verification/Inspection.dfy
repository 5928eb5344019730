/**
 internal/registrysecret/inspection.go: the state of one registry in one cached Secret, and
 its agreement with what `Build` writes.
 */
module Inspection {
  import opened Wrappers
  import opened ConfigTypes
  import opened CredentialTypes
  import opened SecretTypes
  import opened Builder
  import opened BuilderProperties
  import opened BuilderFixpoint

  datatype Status = Synced | Pending | Conflict | Invalid | Expired

  /** The documents of a Secret, decoded once; `valid` if type, both documents and version are as written. */
  datatype Inspection = Inspection(
    secret: Option<Secret>,
    auths: map<string, Record<DockerAuth>>,
    states: map<string, Record<RegistryState>>,
    valid: bool)

  function DecodedDocker(s: Secret): Option<DockerFile> {
    if DockerConfigJsonKey in s.data then Decode(s.data[DockerConfigJsonKey]) else None
  }

  function DecodedState(s: Secret): Option<StateFile> {
    if StateAnnotationKey in s.annotations then Decode(s.annotations[StateAnnotationKey]) else None
  }

  function Inspect(secret: Option<Secret>): Inspection {
    if secret.None? then
      Inspection(None, map[], map[], false)
    else
      var docker, state := DecodedDocker(secret.value), DecodedState(secret.value);
      Inspection(
        secret,
        if docker.Some? then docker.value.auths.GetOr(map[]) else map[],
        if state.Some? then state.value.registries.GetOr(map[]) else map[],
        && secret.value.kind == DockerConfigJson
        && docker.Some? && state.Some?
        && docker.value.auths.Some? && state.value.registries.Some? && state.value.version == StateVersion)
  }

  const ZeroState := RegistryState(ZeroTime, ZeroTime, EmptyHash)

  /** Decoding into a zero value leaves it zero when there is nothing to decode. */
  function DecodedOr<T>(m: map<string, Record<T>>, k: string, zero: T): T {
    if k in m && m[k].Good? then m[k].value else zero
  }

  predicate BadRecord(m: map<string, Record<DockerAuth>>, d: string) {
    d in m && (m[d].Malformed? || !ConsistentAuth(m[d].value))
  }

  predicate BadState(i: Inspection, name: string) {
    name in i.states && (i.states[name].Malformed? || !CompleteState(i.states[name].value))
  }

  /** Some domain's record cannot be trusted, or stands without state. */
  predicate BadDomain(i: Inspection, name: string, d: string) {
    d in i.auths && (BadRecord(i.auths, d) || name !in i.states)
  }

  /** The domain's record is there and is the expected one. */
  predicate AsExpected(i: Inspection, expected: Inspection, d: string) {
    && d in i.auths && i.auths[d].Good?
    && d in expected.auths && expected.auths[d].Good?
    && i.auths[d].value == expected.auths[d].value
  }

  predicate StateAsExpected(i: Inspection, expected: Inspection, name: string) {
    && name in expected.states && name in i.states
    && DecodedOr(i.states, name, ZeroState) == DecodedOr(expected.states, name, ZeroState)
  }

  /** The observed status and expiration, without a loop. */
  ghost function StatusOf(i: Inspection, registry: RegistryConfig, expected: Inspection, now: Time): (Status, Time) {
    var name := registry.Key().Name();
    if i.secret.None? then (Pending, ZeroTime)
    else if !IsManaged(i.secret.value) then (Conflict, ZeroTime)
    else if i.secret.value.deleting then (Pending, ZeroTime)
    else if !i.valid || BadState(i, name) then (Invalid, ZeroTime)
    else if exists d :: d in registry.domains && BadDomain(i, name, d) then (Invalid, ZeroTime)
    else if forall d :: d in registry.domains ==> d !in i.auths then (Pending, ZeroTime)
    else
      var expiresAt := DecodedOr(i.states, name, ZeroState).expiresAt;
      if expiresAt <= now then (Expired, expiresAt)
      else if StateAsExpected(i, expected, name) && forall d :: d in registry.domains ==> AsExpected(i, expected, d)
      then (Synced, expiresAt)
      else (Pending, expiresAt)
  }

  /** `RegistryStatus`, with its loop over domains and its early returns. */
  method RegistryStatus(i: Inspection, registry: RegistryConfig, expected: Inspection, now: Time)
    returns (status: Status, expiresAt: Time)
    ensures (status, expiresAt) == StatusOf(i, registry, expected, now)
  {
    if i.secret.None? {
      return Pending, ZeroTime;
    }
    if !IsManaged(i.secret.value) {
      return Conflict, ZeroTime;
    }
    if i.secret.value.deleting {
      return Pending, ZeroTime;
    }
    if !i.valid {
      return Invalid, ZeroTime;
    }
    var name := registry.Key().Name();
    var hasState := name in i.states;
    if hasState && (i.states[name].Malformed? || !CompleteState(i.states[name].value)) {
      return Invalid, ZeroTime;
    }
    var state := DecodedOr(i.states, name, ZeroState);
    var matches := name in expected.states && hasState && state == DecodedOr(expected.states, name, ZeroState);
    var foundAuth := false;
    for j := 0 to |registry.domains|
      invariant forall d :: d in registry.domains[..j] ==> !BadDomain(i, name, d)
      invariant foundAuth <==> exists d :: d in registry.domains[..j] && d in i.auths
      invariant matches <==> StateAsExpected(i, expected, name) && forall d :: d in registry.domains[..j] ==> AsExpected(i, expected, d)
    {
      var domain := registry.domains[j];
      assert registry.domains[..j + 1] == registry.domains[..j] + [domain];
      if domain !in i.auths {
        assert domain in registry.domains[..j + 1];
        matches := false;
        continue;
      }
      if i.auths[domain].Malformed? || !ConsistentAuth(i.auths[domain].value) || !hasState {
        assert domain in registry.domains && BadDomain(i, name, domain);
        return Invalid, ZeroTime;
      }
      assert domain in registry.domains[..j + 1];
      foundAuth := true;
      if domain !in expected.auths || expected.auths[domain].Malformed? || i.auths[domain].value != expected.auths[domain].value {
        matches := false;
      }
    }
    assert registry.domains[..|registry.domains|] == registry.domains;
    if !foundAuth {
      return Pending, ZeroTime;
    }
    if state.expiresAt <= now {
      return Expired, state.expiresAt;
    }
    return if matches then Synced else Pending, state.expiresAt;
  }

  /** A credential the scheduler may install: named, and refreshed before it expires. */
  predicate Presentable(c: Credential) {
    c.username != "" && c.password != "" && c.refreshedAt != ZeroTime && c.expiresAt > c.refreshedAt
  }

  /** The inspection of the payload built without an existing Secret, as the metrics take it. */
  ghost function Expected(registries: Registries, credentials: Credentials): Inspection {
    var c := Rendered(registries, credentials, None);
    Inspect(Some(Secret(0, 0, false, OtherType(""), map[], map[StateAnnotationKey := EncodeState(c.states)],
                        map[DockerConfigJsonKey := EncodeDocker(c.auths)])))
  }

  lemma InspectCarried(s: Secret, c: Content)
    requires CarriesContent(s, c)
    ensures Inspect(Some(s)).auths == Records(c.auths) && Inspect(Some(s)).states == Records(c.states)
    ensures Inspect(Some(s)).valid <==> s.kind == DockerConfigJson
  {
  }

  /** A managed, live Secret of the right type that carries the payload. */
  ghost predicate Written(registries: Registries, credentials: Credentials, existing: Option<Secret>, s: Secret) {
    && IsManaged(s) && !s.deleting && s.kind == DockerConfigJson
    && CarriesContent(s, Rendered(registries, credentials, existing))
  }

  /** What inspection sees of registry `k` in a written Secret. */
  lemma InspectWritten(registries: Registries, credentials: Credentials, existing: Option<Secret>, s: Secret, k: RegistryKey)
    requires WellFormedRegistries(registries) && InjectiveNames(registries) && k in registries
    requires Written(registries, credentials, existing, s)
    ensures Readable(Inspect(Some(s)))
    ensures Shows(Inspect(Some(s)), registries[k], credentials, ReadExisting(existing))
  {
    var c, r, read := Rendered(registries, credentials, existing), registries[k], ReadExisting(existing);
    InspectCarried(s, c);
    RenderedPerRegistry(registries, credentials, existing, k);
    assert Find(c.states, k.Name()) == StateFor(r, credentials, read);
    forall d | d in r.domains ensures Find(c.auths, d) == AuthFor(r, credentials, read, d) {
    }
  }

  /** And in the payload expected of the credentials alone. */
  lemma InspectExpected(registries: Registries, credentials: Credentials, k: RegistryKey)
    requires WellFormedRegistries(registries) && InjectiveNames(registries) && k in registries
    ensures Shows(Expected(registries, credentials), registries[k], credentials, Nothing)
  {
    var c, r := Rendered(registries, credentials, None), registries[k];
    RenderedPerRegistry(registries, credentials, None, k);
    assert Find(c.states, k.Name()) == StateFor(r, credentials, Nothing);
    forall d | d in r.domains ensures Find(c.auths, d) == AuthFor(r, credentials, Nothing, d) {
    }
  }

  /** The inspection shows, for a registry, exactly these auths and this state. */
  ghost predicate Shows(i: Inspection, registry: RegistryConfig, credentials: Credentials, read: Existing) {
    var name := registry.Key().Name();
    && (forall d :: d in registry.domains ==>
          (d in i.auths <==> AuthFor(registry, credentials, read, d).Some?)
          && (d in i.auths ==> i.auths[d] == Good(AuthFor(registry, credentials, read, d).value)))
    && (name in i.states <==> StateFor(registry, credentials, read).Some?)
    && (name in i.states ==> i.states[name] == Good(StateFor(registry, credentials, read).value))
  }

  predicate Readable(i: Inspection) {
    i.secret.Some? && IsManaged(i.secret.value) && !i.secret.value.deleting && i.valid
  }

  /** An available registry is invalid, expired or synced, and nothing else. */
  lemma AvailableStatus(i: Inspection, e: Inspection, r: RegistryConfig, credentials: Credentials, read: Existing, now: Time)
    requires Readable(i) && Available(r, credentials) && r.domains != []
    requires Shows(i, r, credentials, read) && Shows(e, r, credentials, Nothing)
    ensures var c := credentials[r.Key()].credential;
            StatusOf(i, r, e, now).0 == if !Presentable(c) then Invalid else if c.expiresAt <= now then Expired else Synced
  {
    var c, name := credentials[r.Key()].credential, r.Key().Name();
    assert r.domains[0] in r.domains;
    assert i.auths[r.domains[0]] == Good(FreshAuth(c));
    assert i.states[name] == Good(FreshState(r, c));
    if c.username == "" || c.password == "" {
      assert BadDomain(i, name, r.domains[0]);
    } else {
      forall d | d in r.domains ensures !BadDomain(i, name, d) && AsExpected(i, e, d) {
        assert d in i.auths && d in e.auths;
      }
    }
  }

  /** A pending registry is pending or expired. */
  lemma PendingStatus(i: Inspection, e: Inspection, r: RegistryConfig, credentials: Credentials, read: Existing, now: Time)
    requires Readable(i) && !Available(r, credentials)
    requires Shows(i, r, credentials, read) && Shows(e, r, credentials, Nothing)
    ensures StatusOf(i, r, e, now).0 == Pending || StatusOf(i, r, e, now).0 == Expired
  {
    var name := r.Key().Name();
    assert !RetainsAny(r, Nothing);
    assert name !in e.states;
    if RetainsAny(r, read) {
      assert Backed(r, read);
    }
    forall d | d in r.domains ensures !BadDomain(i, name, d) {
      if d in i.auths {
        assert RetainedAuth(r, read, d).Some?;
        assert RetainsAny(r, read);
      }
    }
  }

  /**
   Build and inspection agree: a written Secret is never in conflict; it is invalid for
   exactly the available registries whose credential is not presentable; a registry is
   synced exactly if it has a matching, presentable, unexpired credential in memory; and a
   pending registry is pending or expired.
   */
  lemma InspectionAgrees(registries: Registries, credentials: Credentials, existing: Option<Secret>, s: Secret, k: RegistryKey, now: Time)
    requires WellFormedRegistries(registries) && InjectiveNames(registries) && k in registries
    requires Written(registries, credentials, existing, s)
    ensures var status := StatusOf(Inspect(Some(s)), registries[k], Expected(registries, credentials), now).0;
            && status != Conflict
            && (status == Invalid <==> Available(registries[k], credentials) && !Presentable(credentials[k].credential))
            && (status == Synced <==> Available(registries[k], credentials) && Presentable(credentials[k].credential)
                                      && credentials[k].credential.expiresAt > now)
            && (!Available(registries[k], credentials) ==> status == Pending || status == Expired)
  {
    InspectWritten(registries, credentials, existing, s, k);
    InspectExpected(registries, credentials, k);
    var i, e := Inspect(Some(s)), Expected(registries, credentials);
    if Available(registries[k], credentials) {
      AvailableStatus(i, e, registries[k], credentials, ReadExisting(existing), now);
    } else {
      PendingStatus(i, e, registries[k], credentials, ReadExisting(existing), now);
    }
  }
}
