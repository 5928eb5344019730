/**
 internal/registrysecret/builder.go: the desired Secret payload from one configuration
 snapshot, one credential snapshot, and whatever Secret exists. `Rendered` says, domain by
 domain and registry by registry, what the payload is; the method `Build` computes it with
 the program's loops over maps, in any order.
 */
module Builder {
  import opened Wrappers
  import opened ConfigTypes
  import opened CredentialTypes
  import opened SecretTypes

  type Credentials = map<RegistryKey, Entry>

  datatype Content = Content(auths: Auths, states: States) {
    predicate HasAuth() {
      auths != map[]
    }
  }

  datatype Problem =
    | BadDocker
    | BadAuthEntry
    | BadState
    | BadStateEntry
    | AuthWithoutState(key: RegistryKey)
    | IncompleteState(key: RegistryKey)
    | InvalidAuth(key: RegistryKey, domain: string)

  /** What can be read of the existing Secret. */
  datatype Existing = Existing(auths: Auths, states: States, problems: set<Problem>)

  const Nothing := Existing(map[], map[], {})

  predicate DockerReadable(s: Secret) {
    && DockerConfigJsonKey in s.data
    && Decode(s.data[DockerConfigJsonKey]).Some?
    && Decode(s.data[DockerConfigJsonKey]).value.auths.Some?
  }

  function DockerRecords(s: Secret): map<string, Record<DockerAuth>> {
    if DockerReadable(s) then Decode(s.data[DockerConfigJsonKey]).value.auths.value else map[]
  }

  predicate StateReadable(s: Secret) {
    && StateAnnotationKey in s.annotations
    && Decode(s.annotations[StateAnnotationKey]).Some?
    && Decode(s.annotations[StateAnnotationKey]).value.version == StateVersion
    && Decode(s.annotations[StateAnnotationKey]).value.registries.Some?
  }

  function StateRecords(s: Secret): map<string, Record<RegistryState>> {
    if StateReadable(s) then Decode(s.annotations[StateAnnotationKey]).value.registries.value else map[]
  }

  predicate HasMalformed<T(!new)>(m: map<string, Record<T>>) {
    exists d :: d in m && m[d].Malformed?
  }

  function If(c: bool, p: Problem): set<Problem> {
    if c then {p} else {}
  }

  /** A Secret with neither document counts as absent. */
  predicate HasDocuments(s: Secret) {
    DockerConfigJsonKey in s.data || StateAnnotationKey in s.annotations
  }

  function ReadSecret(s: Secret): Existing {
    if !HasDocuments(s) then
      Nothing
    else
      Existing(GoodRecords(DockerRecords(s)), GoodRecords(StateRecords(s)),
               If(!DockerReadable(s), BadDocker) + If(HasMalformed(DockerRecords(s)), BadAuthEntry)
               + If(!StateReadable(s), BadState) + If(HasMalformed(StateRecords(s)), BadStateEntry))
  }

  function ReadExisting(existing: Option<Secret>): Existing {
    if existing.Some? then ReadSecret(existing.value) else Nothing
  }

  // One registry, one domain

  function StateHashOf(registry: RegistryConfig, c: Credential): StateHash {
    Sha256(registry.regionID, registry.instanceID, registry.accessKeyID, registry.accessKeySecret, registry.domains,
           c.username, c.password, c.refreshedAt, c.expiresAt)
  }

  function FreshAuth(c: Credential): DockerAuth {
    DockerAuth(c.username, c.password, EncodedAuth(c.username, c.password))
  }

  function FreshState(registry: RegistryConfig, c: Credential): RegistryState {
    RegistryState(c.refreshedAt, c.expiresAt, StateHashOf(registry, c))
  }

  /** The registry has a credential acquired for its identity and AK/SK. */
  predicate Available(registry: RegistryConfig, credentials: Credentials) {
    registry.Key() in credentials && credentials[registry.Key()].MatchesRegistry(registry)
  }

  predicate CompleteState(state: RegistryState) {
    state.refreshedAt != ZeroTime && state.expiresAt > state.refreshedAt && state.stateHash != EmptyHash
  }

  predicate ConsistentAuth(auth: DockerAuth) {
    auth.username != "" && auth.password != "" && auth.auth == EncodedAuth(auth.username, auth.password)
  }

  /** The existing Secret holds complete state for the registry. */
  predicate Backed(registry: RegistryConfig, existing: Existing) {
    registry.Key().Name() in existing.states && CompleteState(existing.states[registry.Key().Name()])
  }

  function RetainedAuth(registry: RegistryConfig, existing: Existing, d: string): Option<DockerAuth> {
    if Backed(registry, existing) && d in existing.auths && ConsistentAuth(existing.auths[d])
    then Some(existing.auths[d]) else None
  }

  predicate RetainsAny(registry: RegistryConfig, existing: Existing) {
    exists d :: d in registry.domains && RetainedAuth(registry, existing, d).Some?
  }

  /** The auth record one domain of a registry gets. */
  function AuthFor(registry: RegistryConfig, credentials: Credentials, existing: Existing, d: string): Option<DockerAuth> {
    if Available(registry, credentials) then Some(FreshAuth(credentials[registry.Key()].credential))
    else RetainedAuth(registry, existing, d)
  }

  /** The state record a registry gets. */
  function StateFor(registry: RegistryConfig, credentials: Credentials, existing: Existing): Option<RegistryState> {
    if Available(registry, credentials) then Some(FreshState(registry, credentials[registry.Key()].credential))
    else if RetainsAny(registry, existing) then Some(existing.states[registry.Key().Name()])
    else None
  }

  predicate HasAnyAuth(registry: RegistryConfig, existing: Existing) {
    exists d :: d in registry.domains && d in existing.auths
  }

  function PendingProblems(registry: RegistryConfig, existing: Existing): set<Problem> {
    var key := registry.Key();
    if key.Name() !in existing.states then
      If(HasAnyAuth(registry, existing), AuthWithoutState(key))
    else if !CompleteState(existing.states[key.Name()]) then
      {IncompleteState(key)}
    else
      set d | d in registry.domains && d in existing.auths && !ConsistentAuth(existing.auths[d]) :: InvalidAuth(key, d)
  }

  // The whole payload

  function Domains(registries: Registries, keys: set<RegistryKey>): set<string> {
    set k, d | k in keys && k in registries && d in registries[k].domains :: d
  }

  ghost function Owner(registries: Registries, keys: set<RegistryKey>, d: string): (k: RegistryKey)
    requires d in Domains(registries, keys)
    ensures k in keys && k in registries && d in registries[k].domains
  {
    var k :| k in keys && k in registries && d in registries[k].domains;
    k
  }

  /** The names under which some registry among `keys` gets a state record. */
  function StateNames(registries: Registries, credentials: Credentials, existing: Existing, keys: set<RegistryKey>): set<string> {
    set k | k in keys && k in registries && StateFor(registries[k], credentials, existing).Some? :: k.Name()
  }

  ghost function StateHolder(registries: Registries, credentials: Credentials, existing: Existing, keys: set<RegistryKey>, n: string)
    : (k: RegistryKey)
    requires n in StateNames(registries, credentials, existing, keys)
    ensures k in keys && k in registries && k.Name() == n && StateFor(registries[k], credentials, existing).Some?
  {
    var k :| k in keys && k in registries && k.Name() == n && StateFor(registries[k], credentials, existing).Some?;
    k
  }

  /** The auth records of the registries among `keys`. */
  ghost function RenderedAuths(registries: Registries, credentials: Credentials, existing: Existing, keys: set<RegistryKey>): Auths {
    map d | d in Domains(registries, keys) &&
            AuthFor(registries[Owner(registries, keys, d)], credentials, existing, d).Some? ::
      AuthFor(registries[Owner(registries, keys, d)], credentials, existing, d).value
  }

  /** Their state records. Registries that share a name share a record, one of theirs. */
  ghost function RenderedStates(registries: Registries, credentials: Credentials, existing: Existing, keys: set<RegistryKey>): States {
    map n | n in StateNames(registries, credentials, existing, keys) ::
      StateFor(registries[StateHolder(registries, credentials, existing, keys, n)], credentials, existing).value
  }

  ghost function RenderedFor(registries: Registries, credentials: Credentials, existing: Existing, keys: set<RegistryKey>): Content {
    Content(RenderedAuths(registries, credentials, existing, keys), RenderedStates(registries, credentials, existing, keys))
  }

  ghost function Rendered(registries: Registries, credentials: Credentials, existing: Option<Secret>): Content {
    RenderedFor(registries, credentials, ReadExisting(existing), registries.Keys)
  }

  // In the order of the program's walk over the registries

  /** A walk visits every registry once. */
  ghost predicate Walk(order: seq<RegistryKey>, registries: Registries) {
    && (forall k :: k in order <==> k in registries)
    && (forall i, j :: 0 <= i < j < |order| ==> order[i] != order[j])
  }

  /** The available (or the pending) registries in the order of the walk. */
  function Selected(registries: Registries, credentials: Credentials, order: seq<RegistryKey>, available: bool): (r: seq<RegistryKey>)
    requires forall k :: k in order ==> k in registries
    ensures forall k :: k in r <==> k in order && Available(registries[k], credentials) == available
  {
    if order == [] then []
    else
      var k, rest := order[|order| - 1], Selected(registries, credentials, order[..|order| - 1], available);
      if Available(registries[k], credentials) == available then rest + [k] else rest
  }

  /** The state records after the registries of `order` have written theirs, one after the other. */
  function StatesAlong(registries: Registries, credentials: Credentials, existing: Existing, order: seq<RegistryKey>): States
    requires forall k :: k in order ==> k in registries
  {
    if order == [] then map[]
    else
      var k, rest := order[|order| - 1], StatesAlong(registries, credentials, existing, order[..|order| - 1]);
      if StateFor(registries[k], credentials, existing).Some?
      then rest[k.Name() := StateFor(registries[k], credentials, existing).value] else rest
  }

  /** The state document of one walk: the available registries write first, then the pending ones. */
  function StatesOfWalk(registries: Registries, credentials: Credentials, existing: Existing, order: seq<RegistryKey>): States
    requires forall k :: k in order ==> k in registries
  {
    StatesAlong(registries, credentials, existing,
                Selected(registries, credentials, order, true) + Selected(registries, credentials, order, false))
  }

  /** The payloads that some walk produces: one set of auth records, and the state records of that walk. */
  ghost predicate Buildable(registries: Registries, credentials: Credentials, existing: Option<Secret>, content: Content) {
    && content.auths == Rendered(registries, credentials, existing).auths
    && exists order ::
         Walk(order, registries) && content.states == StatesOfWalk(registries, credentials, ReadExisting(existing), order)
  }

  function PendingKeys(registries: Registries, credentials: Credentials): set<RegistryKey> {
    set k | k in registries && !Available(registries[k], credentials)
  }

  function ProblemsOf(registries: Registries, pending: set<RegistryKey>, read: Existing): set<Problem>
    requires pending <= registries.Keys
  {
    set k, p | k in pending && p in PendingProblems(registries[k], read) :: p
  }

  /** What the retention of pending registries complains about; nothing if nothing is pending. */
  function RetentionProblems(registries: Registries, credentials: Credentials, existing: Option<Secret>): set<Problem> {
    var pending, read := PendingKeys(registries, credentials), ReadExisting(existing);
    if pending == {} then {} else read.problems + ProblemsOf(registries, pending, read)
  }

  /** No two configured registries share their name in the state document. */
  predicate InjectiveNames(registries: Registries) {
    forall k, l :: k in registries && l in registries && k.Name() == l.Name() ==> k == l
  }
}
