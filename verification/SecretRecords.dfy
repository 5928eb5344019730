/**
 The payload and the complaints of `Build`, told in the raw records of the Secret it starts from
 and of the payload it makes: what an available registry shows, exactly which records a pending
 one retains, and exactly which Secrets are complained of.
 */
module SecretRecords {
  import opened Wrappers
  import opened ConfigTypes
  import opened CredentialTypes
  import opened SecretTypes
  import opened Builder
  import opened BuilderProperties
  import opened BuildLoops
  import I = Inspection

  /** The registry's credential was acquired for its identity and AK/SK. */
  predicate Current(registry: RegistryConfig, credentials: Credentials) {
    var k := RegistryKey(registry.regionID, registry.instanceID);
    && k in credentials
    && credentials[k].authenticationHash ==
         HashOf(registry.regionID, registry.instanceID, registry.accessKeyID, registry.accessKeySecret)
  }

  /**
   An available registry is shown with its credential: username, password and the base64 of both
   for each of its domains, and a state record with the two times of the credential and the hash
   of identity, AK/SK, domains and credential.
   */
  lemma AvailableIsShown(registries: Registries, credentials: Credentials, existing: Option<Secret>, content: Content, k: RegistryKey)
    requires WellFormedRegistries(registries) && Buildable(registries, credentials, existing, content)
    requires k in registries && Current(registries[k], credentials)
    ensures var r, c := registries[k], credentials[k].credential;
            && (forall d :: d in r.domains ==>
                  d in content.auths
                  && content.auths[d] == DockerAuth(c.username, c.password, Base64(c.username + ":" + c.password)))
            && (InjectiveNames(registries) ==>
                  && k.regionID + "/" + k.instanceID in content.states
                  && content.states[k.regionID + "/" + k.instanceID] ==
                       RegistryState(c.refreshedAt, c.expiresAt,
                                     Sha256(k.regionID, k.instanceID, r.accessKeyID, r.accessKeySecret, r.domains,
                                            c.username, c.password, c.refreshedAt, c.expiresAt)))
  {
    hide Buildable, WellFormedRegistries, InjectiveNames;
    assert k == registries[k].Key() by {
      OwnKey(registries, k);
    }
    forall d | d in registries[k].domains
      ensures Find(content.auths, d) == AuthFor(registries[k], credentials, ReadExisting(existing), d)
    {
      AuthIsRendered(registries, credentials, existing, content, k, d);
    }
    if InjectiveNames(registries) {
      StateIsRendered(registries, credentials, existing, content, k);
    }
  }

  lemma AuthIsRendered(registries: Registries, credentials: Credentials, existing: Option<Secret>, content: Content, k: RegistryKey, d: string)
    requires WellFormedRegistries(registries) && Buildable(registries, credentials, existing, content)
    requires k in registries && d in registries[k].domains
    ensures Find(content.auths, d) == AuthFor(registries[k], credentials, ReadExisting(existing), d)
  {
    hide AuthFor, StatesOfWalk;
    RenderedPerRegistry(registries, credentials, existing, k);
    assert Find(Rendered(registries, credentials, existing).auths, d) == AuthFor(registries[k], credentials, ReadExisting(existing), d);
  }

  lemma StateIsRendered(registries: Registries, credentials: Credentials, existing: Option<Secret>, content: Content, k: RegistryKey)
    requires WellFormedRegistries(registries) && InjectiveNames(registries) && Buildable(registries, credentials, existing, content)
    requires k in registries
    ensures Find(content.states, k.Name()) == StateFor(registries[k], credentials, ReadExisting(existing)) && k == registries[k].Key()
  {
    hide StateFor;
    BuildableIsRendered(registries, credentials, existing, content);
    RenderedPerRegistry(registries, credentials, existing, k);
  }

  // What a Secret holds

  /** The Secret holds a Docker document with these records. */
  predicate HoldsAuths(s: Secret, auths: map<string, Record<DockerAuth>>) {
    DockerConfigJsonKey in s.data && Decode(s.data[DockerConfigJsonKey]) == Some(DockerFile(Some(auths)))
  }

  /** The Secret holds a state document of the program's version with these records. */
  predicate HoldsStates(s: Secret, states: map<string, Record<RegistryState>>) {
    StateAnnotationKey in s.annotations && Decode(s.annotations[StateAnnotationKey]) == Some(StateFile(1, Some(states)))
  }

  /** The record names a user, and its auth field is the base64 of user and password. */
  predicate SelfConsistent(a: DockerAuth) {
    a.username != "" && a.password != "" && a.auth == Base64(a.username + ":" + a.password)
  }

  /** The record has both times in order, and a hash. */
  predicate Complete(t: RegistryState) {
    t.refreshedAt != ZeroTime && t.refreshedAt < t.expiresAt && t.stateHash != EmptyHash
  }

  ghost predicate HoldsAuth(s: Secret, d: string, a: DockerAuth) {
    exists auths :: HoldsAuths(s, auths) && d in auths && auths[d] == Good(a)
  }

  ghost predicate HoldsState(s: Secret, name: string, t: RegistryState) {
    exists states :: HoldsStates(s, states) && name in states && states[name] == Good(t)
  }

  lemma ReadsAuth(s: Secret, d: string, a: DockerAuth)
    ensures HoldsAuth(s, d, a) <==> Find(ReadSecret(s).auths, d) == Some(a)
  {
    if Find(ReadSecret(s).auths, d) == Some(a) {
      assert HoldsAuths(s, DockerRecords(s));
    }
  }

  lemma ReadsState(s: Secret, name: string, t: RegistryState)
    ensures HoldsState(s, name, t) <==> Find(ReadSecret(s).states, name) == Some(t)
  {
    if Find(ReadSecret(s).states, name) == Some(t) {
      assert HoldsStates(s, StateRecords(s));
    }
  }

  /**
   A pending registry retains, for each of its domains, exactly the self-consistent record of
   the Secret, provided the Secret holds complete state for the registry.
   */
  lemma PendingIsRetained(registries: Registries, credentials: Credentials, s: Secret, content: Content,
                          k: RegistryKey, d: string, a: DockerAuth)
    requires WellFormedRegistries(registries) && Buildable(registries, credentials, Some(s), content)
    requires k in registries && !Current(registries[k], credentials) && d in registries[k].domains
    ensures (d in content.auths && content.auths[d] == a) <==>
            && HoldsAuth(s, d, a) && SelfConsistent(a)
            && exists t :: HoldsState(s, k.regionID + "/" + k.instanceID, t) && Complete(t)
  {
    hide ReadSecret, Buildable, Rendered, HoldsAuth, HoldsState, StatesOfWalk, WellFormedRegistries;
    AuthIsRetained(registries, credentials, Some(s), content, k, d);
    ReadsAuth(s, d, a);
    ReadsBacked(s, registries[k]);
    assert k == registries[k].Key() by {
      OwnKey(registries, k);
    }
  }

  lemma AuthIsRetained(registries: Registries, credentials: Credentials, existing: Option<Secret>, content: Content, k: RegistryKey, d: string)
    requires WellFormedRegistries(registries) && Buildable(registries, credentials, existing, content)
    requires k in registries && !Current(registries[k], credentials) && d in registries[k].domains
    ensures Find(content.auths, d) == RetainedAuth(registries[k], ReadExisting(existing), d)
  {
    hide Buildable;
    AuthIsRendered(registries, credentials, existing, content, k, d);
  }

  lemma ReadsBacked(s: Secret, r: RegistryConfig)
    ensures Backed(r, ReadSecret(s)) <==> exists t :: HoldsState(s, r.regionID + "/" + r.instanceID, t) && Complete(t)
  {
    hide ReadSecret, HoldsState;
    var n := r.Key().Name();
    forall t ensures HoldsState(s, n, t) <==> Find(ReadSecret(s).states, n) == Some(t) {
      ReadsState(s, n, t);
    }
    if Backed(r, ReadSecret(s)) {
      assert HoldsState(s, n, ReadSecret(s).states[n]) && Complete(ReadSecret(s).states[n]);
    }
  }

  /** Without a Secret a pending registry has no auth. */
  lemma NothingIsRetained(registries: Registries, credentials: Credentials, content: Content, k: RegistryKey, d: string)
    requires WellFormedRegistries(registries) && Buildable(registries, credentials, None, content)
    requires k in registries && !Current(registries[k], credentials) && d in registries[k].domains
    ensures d !in content.auths
  {
    AuthIsRetained(registries, credentials, None, content, k, d);
  }

  /** With auth retained for one of its domains, a pending registry keeps its state record as it was. */
  lemma PendingKeepsState(registries: Registries, credentials: Credentials, s: Secret, content: Content, k: RegistryKey, t: RegistryState)
    requires WellFormedRegistries(registries) && InjectiveNames(registries) && Buildable(registries, credentials, Some(s), content)
    requires k in registries && !Current(registries[k], credentials)
    ensures Find(content.states, k.regionID + "/" + k.instanceID) == Some(t) <==>
            HoldsState(s, k.regionID + "/" + k.instanceID, t) && exists d :: d in registries[k].domains && d in content.auths
  {
    hide ReadSecret, HoldsState, Buildable;
    var r, read := registries[k], ReadSecret(s);
    StateIsRendered(registries, credentials, Some(s), content, k);
    hide Rendered, InjectiveNames, WellFormedRegistries;
    forall d | d in r.domains ensures d in content.auths <==> RetainedAuth(r, read, d).Some? {
      AuthIsRetained(registries, credentials, Some(s), content, k, d);
    }
    ReadsState(s, k.Name(), t);
  }

  // Complaints

  /** A registry with complete state has only self-consistent records, and one without state has none. */
  predicate Unsuspicious(r: RegistryConfig, auths: map<string, Record<DockerAuth>>, states: map<string, Record<RegistryState>>) {
    var n := r.regionID + "/" + r.instanceID;
    if n in states && states[n].Good? then
      Complete(states[n].value) && forall d :: d in r.domains && d in auths && auths[d].Good? ==> SelfConsistent(auths[d].value)
    else
      forall d :: d in r.domains && d in auths ==> auths[d].Malformed?
  }

  lemma ReadsProblems(s: Secret, auths: map<string, Record<DockerAuth>>, states: map<string, Record<RegistryState>>)
    requires HoldsAuths(s, auths) && HoldsStates(s, states)
    ensures ReadSecret(s).problems == {} <==>
            (forall d :: d in auths ==> auths[d].Good?) && forall n :: n in states ==> states[n].Good?
  {
    assert DockerRecords(s) == auths && StateRecords(s) == states;
    if d :| d in auths && auths[d].Malformed? {
      assert BadAuthEntry in ReadSecret(s).problems;
    }
    if n :| n in states && states[n].Malformed? {
      assert BadStateEntry in ReadSecret(s).problems;
    }
  }

  lemma UnsuspiciousIsSilent(s: Secret, r: RegistryConfig, auths: map<string, Record<DockerAuth>>, states: map<string, Record<RegistryState>>)
    requires HoldsAuths(s, auths) && HoldsStates(s, states)
    ensures PendingProblems(r, ReadSecret(s)) == {} <==> Unsuspicious(r, auths, states)
  {
    var read, n := ReadSecret(s), r.Key().Name();
    assert read.auths == GoodRecords(auths) && read.states == GoodRecords(states);
    if n in read.states && CompleteState(read.states[n]) {
      if d :| d in r.domains && d in read.auths && !ConsistentAuth(read.auths[d]) {
        assert InvalidAuth(r.Key(), d) in PendingProblems(r, read);
      }
    } else if n !in read.states {
      assert HasAnyAuth(r, read) <==> PendingProblems(r, read) != {};
      if !Unsuspicious(r, auths, states) {
        var d :| d in r.domains && d in auths && !auths[d].Malformed?;
        assert d in read.auths;
      }
    }
  }

  /** Both documents can be read, record by record, and no pending registry finds anything amiss. */
  ghost predicate Intact(registries: Registries, credentials: Credentials, s: Secret) {
    exists auths: map<string, Record<DockerAuth>>, states: map<string, Record<RegistryState>> ::
      && HoldsAuths(s, auths) && HoldsStates(s, states)
      && (forall d :: d in auths ==> auths[d].Good?) && (forall n :: n in states ==> states[n].Good?)
      && forall k :: k in registries && !Current(registries[k], credentials) ==> Unsuspicious(registries[k], auths, states)
  }

  /**
   What is complained of: a Secret with either document while some registry is pending, unless
   both documents are intact. Without a Secret there is no complaint.
   */
  lemma ComplainsExactly(registries: Registries, credentials: Credentials, s: Secret)
    requires WellFormedRegistries(registries)
    ensures RetentionProblems(registries, credentials, Some(s)) != {} <==>
            && (exists k :: k in registries && !Current(registries[k], credentials))
            && (DockerConfigJsonKey in s.data || StateAnnotationKey in s.annotations)
            && !Intact(registries, credentials, s)
    ensures RetentionProblems(registries, credentials, None) == {}
  {
    hide PendingProblems, ReadSecret, Unsuspicious;
    forall k | k in registries ensures Available(registries[k], credentials) <==> Current(registries[k], credentials) {
    }
    assert forall k :: k in PendingKeys(registries, credentials) <==> k in registries && !Current(registries[k], credentials);
    NothingIsSilent(registries, PendingKeys(registries, credentials));
    if PendingKeys(registries, credentials) != {} && HasDocuments(s) {
      SilentExactly(registries, PendingKeys(registries, credentials), ReadSecret(s));
      if ReadSecret(s).problems == {} {
        NoProblemsReads(s);
        IntactExactly(registries, credentials, s, DockerRecords(s), StateRecords(s));
      } else if Intact(registries, credentials, s) {
        var auths: map<string, Record<DockerAuth>>, states: map<string, Record<RegistryState>> :|
          && HoldsAuths(s, auths) && HoldsStates(s, states)
          && (forall d :: d in auths ==> auths[d].Good?) && (forall n :: n in states ==> states[n].Good?);
        ReadsProblems(s, auths, states);
      }
    } else {
      NoDocumentsRead(s);
    }
  }

  lemma NoDocumentsRead(s: Secret)
    ensures !HasDocuments(s) ==> ReadSecret(s) == Nothing
  {
  }

  /** With nothing read there is nothing to complain of. */
  lemma NothingIsSilent(registries: Registries, pending: set<RegistryKey>)
    requires pending <= registries.Keys
    ensures ProblemsOf(registries, pending, Nothing) == {}
  {
  }

  lemma SilentExactly(registries: Registries, pending: set<RegistryKey>, read: Existing)
    requires pending <= registries.Keys
    ensures ProblemsOf(registries, pending, read) == {} <==> forall k :: k in pending ==> PendingProblems(registries[k], read) == {}
  {
    hide PendingProblems;
    if k :| k in pending && PendingProblems(registries[k], read) != {} {
      var p :| p in PendingProblems(registries[k], read);
      assert p in ProblemsOf(registries, pending, read);
    }
  }

  lemma NoProblemsReads(s: Secret)
    requires HasDocuments(s) && ReadSecret(s).problems == {}
    ensures HoldsAuths(s, DockerRecords(s)) && HoldsStates(s, StateRecords(s))
  {
    assert BadDocker !in ReadSecret(s).problems && BadState !in ReadSecret(s).problems;
  }

  /** For a Secret read without problems, to be intact is to be silent about every pending registry. */
  lemma IntactExactly(registries: Registries, credentials: Credentials, s: Secret,
                      auths: map<string, Record<DockerAuth>>, states: map<string, Record<RegistryState>>)
    requires HoldsAuths(s, auths) && HoldsStates(s, states) && ReadSecret(s).problems == {}
    ensures Intact(registries, credentials, s) <==>
            forall k :: k in registries && !Current(registries[k], credentials) ==> PendingProblems(registries[k], ReadSecret(s)) == {}
  {
    hide PendingProblems, ReadSecret, Unsuspicious;
    ReadsProblems(s, auths, states);
    forall k | k in registries
      ensures PendingProblems(registries[k], ReadSecret(s)) == {} <==> Unsuspicious(registries[k], auths, states)
    {
      UnsuspiciousIsSilent(s, registries[k], auths, states);
    }
  }

  // Inspection

  /** Both labels name the controller. */
  predicate LabelsAreOurs(s: Secret) {
    && ApplicationNameLabelKey in s.labels && s.labels[ApplicationNameLabelKey] == ControllerIdentity
    && ManagedByLabelKey in s.labels && s.labels[ManagedByLabelKey] == ControllerIdentity
  }

  /** Of the type for registry credentials, with both documents. */
  ghost predicate Decodes(s: Secret) {
    && s.kind == DockerConfigJson
    && (exists auths :: HoldsAuths(s, auths))
    && (exists states :: HoldsStates(s, states))
  }

  /**
   Which Secrets show nothing of any registry: an absent or vanishing one is waited for, a foreign
   one is a conflict, and one of another type or without both documents is invalid.
   */
  lemma UnreadableStatus(secret: Option<Secret>, registry: RegistryConfig, expected: I.Inspection, now: Time)
    ensures var r := I.StatusOf(I.Inspect(secret), registry, expected, now);
            && (r.0 == I.Conflict <==> secret.Some? && !LabelsAreOurs(secret.value))
            && (r.0 == I.Conflict ==> r.1 == ZeroTime)
            && (secret.None? || (LabelsAreOurs(secret.value) && secret.value.deleting) ==> r == (I.Pending, ZeroTime))
            && (secret.Some? && LabelsAreOurs(secret.value) && !secret.value.deleting && !Decodes(secret.value) ==>
                  r == (I.Invalid, ZeroTime))
  {
    if secret.Some? && I.Inspect(secret).valid {
      var s := secret.value;
      assert HoldsAuths(s, Decode(s.data[DockerConfigJsonKey]).value.auths.value);
      assert HoldsStates(s, Decode(s.annotations[StateAnnotationKey]).value.registries.value);
    }
  }

  /** The registry's state record or the record of one of its domains cannot be trusted. */
  predicate Damaged(r: RegistryConfig, auths: map<string, Record<DockerAuth>>, states: map<string, Record<RegistryState>>) {
    var n := r.regionID + "/" + r.instanceID;
    || (n in states && !(states[n].Good? && Complete(states[n].value)))
    || exists d :: d in r.domains && d in auths && !(auths[d].Good? && SelfConsistent(auths[d].value) && n in states)
  }

  /**
   What a readable Secret of ours shows of a registry: it is invalid exactly if one of the
   registry's records is damaged, pending without auth, expired if its state says so, and synced
   exactly if nothing is damaged, expired or missing and all its records are the expected ones.
   */
  lemma ReadableStatus(s: Secret, auths: map<string, Record<DockerAuth>>, states: map<string, Record<RegistryState>>,
                       registry: RegistryConfig, expected: I.Inspection, now: Time)
    requires LabelsAreOurs(s) && !s.deleting && s.kind == DockerConfigJson && HoldsAuths(s, auths) && HoldsStates(s, states)
    ensures var (status, expiresAt) := I.StatusOf(I.Inspect(Some(s)), registry, expected, now);
            var n, damaged := registry.regionID + "/" + registry.instanceID, Damaged(registry, auths, states);
            var shown := exists d :: d in registry.domains && d in auths;
            && (status == I.Invalid <==> damaged)
            && (expiresAt == if damaged || !shown then ZeroTime else states[n].value.expiresAt)
            && (status == I.Expired <==> !damaged && shown && states[n].value.expiresAt <= now)
            && (status == I.Synced <==>
                  && !damaged && shown && states[n].value.expiresAt > now
                  && n in expected.states && expected.states[n] == states[n]
                  && forall d :: d in registry.domains ==> d in auths && d in expected.auths && expected.auths[d] == auths[d])
            && status != I.Conflict
  {
    var i := I.Inspect(Some(s));
    assert i.auths == auths && i.states == states && i.valid;
  }
}
