/**
 Reconciliations of one Secret over whole runs: reads may be arbitrarily old, requests may
 commit arbitrarily late and in any order, and third parties edit in between. And with
 nothing in between, one reconciliation is enough.
 */
module SyncerRuns {
  import opened Wrappers
  import opened ConfigTypes
  import opened CredentialTypes
  import opened SecretTypes
  import opened Builder
  import opened BuilderProperties
  import opened BuilderFixpoint
  import opened Versions
  import opened ApiServer
  import opened Syncer
  import Inspection

  /** A decision taken and not yet committed, with what it was based on. */
  datatype Pending = Pending(decision: Decision, inScope: bool, problems: set<Problem>)

  /** A request that took effect, the object it took effect on, and what it made of it. */
  datatype Commit = Commit(pending: Pending, before: Option<Secret>, after: Option<Secret>)

  datatype Cluster = Cluster(server: SecretServer, pending: seq<Pending>, commits: seq<Commit>)

  /**
   Third parties write or delete at will; a reconciliation decides on any version it may read
   from the cache, any payload and any problems; a pending request arrives or gets lost.
   */
  datatype Event =
    | ThirdParty(secret: Option<Secret>)
    | Reconcile(inScope: bool, observed: Option<Secret>, content: Content, problems: set<Problem>)
    | Arrive(index: nat)
    | Lose(index: nat)

  predicate Possible(c: Cluster, e: Event) {
    match e
    case ThirdParty(_) => true
    case Reconcile(_, observed, _, _) => Readable(c.server, observed)
    case Arrive(i) => i < |c.pending|
    case Lose(i) => i < |c.pending|
  }

  function Happen(c: Cluster, e: Event): Cluster
    requires Possible(c, e)
  {
    match e
    case ThirdParty(secret) => c.(server := Written(c.server, secret))
    case Reconcile(inScope, observed, content, problems) =>
      c.(pending := c.pending + [Pending(Decide(inScope, observed, content, problems), inScope, problems)])
    case Arrive(i) =>
      var p := c.pending[i];
      var r := RequestOf(p.decision);
      var server := Apply(c.server, p.decision);
      Cluster(server, c.pending[..i] + c.pending[i + 1..],
              if r.Some? && Accepts(c.server, r.value) then c.commits + [Commit(p, c.server.live, server.live)] else c.commits)
    case Lose(i) => c.(pending := c.pending[..i] + c.pending[i + 1..])
  }

  predicate Runs(c: Cluster, events: seq<Event>)
    decreases |events|
  {
    events == [] || (Possible(c, events[0]) && Runs(Happen(c, events[0]), events[1..]))
  }

  function Final(c: Cluster, events: seq<Event>): Cluster
    requires Runs(c, events)
    decreases |events|
  {
    if events == [] then c else Final(Happen(c, events[0]), events[1..])
  }

  /** The version a decision is about is managed, was read, and the decision is one of `Decide`. */
  predicate Grounded(s: SecretServer, p: Pending) {
    match p.decision
    case Leave => true
    case CreateWith(c) => c.HasAuth()
    case UpdateTo(observed, c) => c.HasAuth() && IsManaged(observed) && Readable(s, Some(observed))
    case Remove(observed) =>
      IsManaged(observed) && Readable(s, Some(observed)) && (p.inScope ==> p.problems == {})
  }

  /** Of the type for registry credentials, ours, and with the payload as its only data. */
  predicate Holds(s: Secret, c: Content) {
    && s.kind == DockerConfigJson && s.data == map[DockerConfigJsonKey := EncodeDocker(c.auths)]
    && Find(s.labels, ApplicationNameLabelKey) == Some(ControllerIdentity)
    && Find(s.labels, ManagedByLabelKey) == Some(ControllerIdentity)
    && Find(s.annotations, StateAnnotationKey) == Some(EncodeState(c.states))
  }

  /** What is not ours is as before: identity, deletion mark, and the other labels and annotations. */
  predicate SparesOthers(before: Secret, after: Secret) {
    && after.uid == before.uid && after.deleting == before.deleting
    && after.labels - {ApplicationNameLabelKey, ManagedByLabelKey} == before.labels - {ApplicationNameLabelKey, ManagedByLabelKey}
    && after.annotations - {StateAnnotationKey} == before.annotations - {StateAnnotationKey}
  }

  /** What ownership safety says of one commit. */
  predicate SafeCommit(m: Commit) {
    match m.pending.decision
    case Leave => false
    case CreateWith(c) =>
      && m.before.None? && c.HasAuth()
      && m.after.Some? && Holds(m.after.value, c) && !m.after.value.deleting
      && m.after.value.labels.Keys == {ApplicationNameLabelKey, ManagedByLabelKey}
      && m.after.value.annotations.Keys == {StateAnnotationKey}
    case UpdateTo(observed, c) =>
      && m.before == Some(observed) && IsManaged(observed) && c.HasAuth()
      && m.after.Some? && Holds(m.after.value, c) && SparesOthers(observed, m.after.value)
    case Remove(observed) =>
      && m.before == Some(observed) && IsManaged(observed) && (m.pending.inScope ==> m.pending.problems == {})
      && m.after.None?
  }

  ghost predicate Inv(c: Cluster) {
    && Consistent(c.server, VersionOf())
    && (forall i | 0 <= i < |c.pending| :: Grounded(c.server, c.pending[i]))
    && (forall i | 0 <= i < |c.commits| :: SafeCommit(c.commits[i]))
  }

  /** A request accepted now is about the very object that is live. */
  lemma AcceptedIsLive(s: SecretServer, p: Pending)
    requires Consistent(s, VersionOf()) && Grounded(s, p) && RequestOf(p.decision).Some? && Accepts(s, RequestOf(p.decision).value)
    ensures SafeCommit(Commit(p, s.live, Apply(s, p.decision).live))
  {
    if p.decision.UpdateTo? || p.decision.Remove? {
      assert Readable(s, s.live) && Readable(s, Some(p.decision.observed));
      assert SameVersion(s.live, Some(p.decision.observed), VersionOf());
      assert s.live == Some(p.decision.observed);
    }
    if !p.decision.Remove? {
      AppliedHolds(if p.decision.UpdateTo? then p.decision.observed else EmptySecret, p.decision.content);
    }
  }

  /** Writing a payload sets what is ours and spares the rest. */
  lemma AppliedHolds(s: Secret, c: Content)
    ensures Holds(ApplyContent(s, c), c) && SparesOthers(s, ApplyContent(s, c))
    ensures s.labels == map[] ==> ApplyContent(s, c).labels.Keys == {ApplicationNameLabelKey, ManagedByLabelKey}
    ensures s.annotations == map[] ==> ApplyContent(s, c).annotations.Keys == {StateAnnotationKey}
  {
  }

  lemma DecisionIsGrounded(s: SecretServer, inScope: bool, observed: Option<Secret>, content: Content, problems: set<Problem>)
    requires Readable(s, observed)
    ensures Grounded(s, Pending(Decide(inScope, observed, content, problems), inScope, problems))
  {
  }

  lemma StillGrounded(s: SecretServer, t: SecretServer, p: Pending)
    requires Grounded(s, p) && forall o :: Readable(s, o) ==> Readable(t, o)
    ensures Grounded(t, p)
  {
  }

  lemma HappenKeepsInv(c: Cluster, e: Event)
    requires Inv(c) && Possible(c, e)
    ensures Inv(Happen(c, e))
  {
    var d := Happen(c, e);
    match e
    case ThirdParty(secret) =>
      ReplacingKeepsConsistent(c.server, Stamped(c.server, secret), VersionOf());
      forall i | 0 <= i < |d.pending| ensures Grounded(d.server, d.pending[i]) {
        StillGrounded(c.server, d.server, c.pending[i]);
      }
    case Reconcile(inScope, observed, content, problems) =>
      DecisionIsGrounded(c.server, inScope, observed, content, problems);
    case Lose(i) =>
    case Arrive(i) => ArriveKeepsInv(c, i);
  }

  lemma ArriveKeepsInv(c: Cluster, i: nat)
    requires Inv(c) && i < |c.pending|
    ensures Inv(Happen(c, Arrive(i)))
  {
    var d, p := Happen(c, Arrive(i)), c.pending[i];
    var r := RequestOf(p.decision);
    if r.Some? && Accepts(c.server, r.value) {
      AcceptedIsLive(c.server, p);
      var written := if r.value.Delete? then None else Some(r.value.desired);
      assert d.server == Written(c.server, written);
      ReplacingKeepsConsistent(c.server, Stamped(c.server, written), VersionOf());
    }
    forall j | 0 <= j < |d.pending| ensures Grounded(d.server, d.pending[j]) {
      StillGrounded(c.server, d.server, c.pending[if j < i then j else j + 1]);
    }
  }

  /**
   Ownership safety. In every run, every request of the controller that takes effect on an
   existing object takes effect on exactly the version it observed, and that version is
   managed; every Secret it creates or updates has auth and afterwards holds exactly the payload
   decided on, and an update spares the labels and annotations of others; and a deletion in a
   namespace in scope never comes with a retention error.
   */
  lemma {:induction false} OwnershipIsSafe(c: Cluster, events: seq<Event>)
    requires Inv(c) && Runs(c, events)
    ensures Inv(Final(c, events))
    ensures forall i | 0 <= i < |Final(c, events).commits| :: SafeCommit(Final(c, events).commits[i])
    decreases |events|
  {
    if events != [] {
      HappenKeepsInv(c, events[0]);
      OwnershipIsSafe(Happen(c, events[0]), events[1..]);
    }
  }

  /** Any single object, or none, is a place to start from. */
  lemma StartIsInv(live: Option<Secret>)
    ensures Inv(Cluster(Server(live, [], if live.Some? then live.value.resourceVersion + 1 else 0), [], []))
  {
    StartIsConsistent(live, VersionOf());
  }

  /** Between two states of a run the object changes by a third party's hand or by a commit, and every commit is recorded. */
  lemma EveryChangeIsRecorded(c: Cluster, e: Event)
    requires Possible(c, e)
    ensures var d := Happen(c, e);
            || (d.server == c.server && d.commits == c.commits)
            || (e.ThirdParty? && d.commits == c.commits)
            || (e.Arrive? && d.commits == c.commits + [Commit(c.pending[e.index], c.server.live, d.server.live)])
  {
  }

  /** A request that arrives before anything else does what an undisturbed reconciliation does. */
  lemma ArrivesUndisturbed(s: SecretServer, inScope: bool, content: Content, problems: set<Problem>)
    ensures var c, d := Cluster(s, [], []), Decide(inScope, s.live, content, problems);
            var events := [Reconcile(inScope, s.live, content, problems), Arrive(0)];
            Runs(c, events) && Final(c, events).server == Apply(s, d)
            && (RequestOf(d).Some? ==> Final(c, events).commits == [Commit(Pending(d, inScope, problems), s.live, Apply(s, d).live)])
  {
    hide Decide, Apply;
    var c, d := Cluster(s, [], []), Decide(inScope, s.live, content, problems);
    var first, second := Reconcile(inScope, s.live, content, problems), Arrive(0);
    CurrentIsAccepted(s, inScope, content, problems);
    var decided := Happen(c, first);
    assert decided == Cluster(s, [Pending(d, inScope, problems)], []);
    var arrived := Happen(decided, second);
    assert [first, second][1..] == [second] && [second][1..] == [];
    assert Runs(decided, [second]) && Final(decided, [second]) == arrived by {
      assert Runs(arrived, []) && Final(arrived, []) == arrived;
    }
  }

  // Convergence

  /** One undisturbed reconciliation with a current read. */
  ghost function SyncOnce(s: SecretServer, inScope: bool, registries: Registries, credentials: Credentials): SecretServer {
    Apply(s, Current(s, inScope, registries, credentials))
  }

  ghost function Current(s: SecretServer, inScope: bool, registries: Registries, credentials: Credentials): Decision {
    Decide(inScope, s.live, Rendered(registries, credentials, s.live), RetentionProblems(registries, credentials, s.live))
  }

  lemma AppliedCarries(s: Secret, c: Content)
    ensures CarriesContent(ApplyContent(s, c), c) && IsManaged(ApplyContent(s, c)) && SecretMatches(ApplyContent(s, c), c)
  {
  }

  /** A domain with auth in the payload built from nothing has it in every payload. */
  lemma FreshIsAlwaysThere(registries: Registries, credentials: Credentials, existing: Option<Secret>, d: string)
    requires WellFormedRegistries(registries) && d in Rendered(registries, credentials, None).auths
    ensures d in Rendered(registries, credentials, existing).auths
  {
    var k := Owner(registries, registries.Keys, d);
    AuthOf(registries, credentials, Nothing, registries.Keys, k, d);
    AuthOf(registries, credentials, ReadExisting(existing), registries.Keys, k, d);
  }

  /** The payload built from nothing is empty if the payload built from something is. */
  lemma EmptyFromNothing(registries: Registries, credentials: Credentials, existing: Option<Secret>)
    requires WellFormedRegistries(registries) && !Rendered(registries, credentials, existing).HasAuth()
    ensures !Rendered(registries, credentials, None).HasAuth()
  {
    var n := Rendered(registries, credentials, None);
    if n.HasAuth() {
      var d :| d in n.auths;
      FreshIsAlwaysThere(registries, credentials, existing, d);
    }
  }

  /** The Secret a reconciliation leaves when it writes `c` over `base`. */
  lemma WrittenMatches(registries: Registries, credentials: Credentials, live: Option<Secret>, base: Secret, s: Secret)
    requires WellFormedRegistries(registries) && InjectiveNames(registries)
    requires exists v, u :: s == ApplyContent(base, Rendered(registries, credentials, live)).(resourceVersion := v, uid := u)
    ensures CarriesContent(s, Rendered(registries, credentials, live)) && s.kind == DockerConfigJson && IsManaged(s)
    ensures s.deleting == base.deleting
    ensures Rendered(registries, credentials, Some(s)) == Rendered(registries, credentials, live)
    ensures RetentionProblems(registries, credentials, Some(s)) == {}
    ensures SecretMatches(s, Rendered(registries, credentials, Some(s)))
  {
    AppliedCarries(base, Rendered(registries, credentials, live));
    BuildIsFixpoint(registries, credentials, live, s);
  }

  /** What an accepted write leaves live. */
  lemma LiveAfterWrite(s: SecretServer, d: Decision)
    requires d.CreateWith? || d.UpdateTo?
    requires Accepts(s, RequestOf(d).value)
    ensures var base := if d.UpdateTo? then d.observed else EmptySecret;
            Apply(s, d).live.Some? && exists v, u :: Apply(s, d).live.value == ApplyContent(base, d.content).(resourceVersion := v, uid := u)
  {
    var base := if d.UpdateTo? then d.observed else EmptySecret;
    var t := Apply(s, d).live.value;
    assert t == ApplyContent(base, d.content).(resourceVersion := t.resourceVersion, uid := t.uid);
  }

  /** A request decided on the live object is accepted. */
  lemma CurrentIsAccepted(s: SecretServer, inScope: bool, content: Content, problems: set<Problem>)
    ensures var d := Decide(inScope, s.live, content, problems);
            RequestOf(d).Some? ==> Accepts(s, RequestOf(d).value)
    ensures var d := Decide(inScope, s.live, content, problems);
            && (d.UpdateTo? ==> s.live == Some(d.observed))
            && (d.Remove? ==> Apply(s, d).live.None?)
            && (d.Leave? ==> Apply(s, d) == s)
            && (d.CreateWith? || d.UpdateTo? ==> inScope && d.content == content && content.HasAuth())
  {
  }

  lemma MatchedIsLeft(s: Secret, content: Content, problems: set<Problem>)
    requires SecretMatches(s, content) && content.HasAuth()
    ensures Decide(true, Some(s), content, problems).Leave?
  {
  }

  lemma LeftAfterWrite(s: SecretServer, registries: Registries, credentials: Credentials)
    requires WellFormedRegistries(registries) && InjectiveNames(registries)
    requires var d := Current(s, true, registries, credentials); d.CreateWith? || d.UpdateTo?
    ensures Current(SyncOnce(s, true, registries, credentials), true, registries, credentials).Leave?
  {
    var c, problems := Rendered(registries, credentials, s.live), RetentionProblems(registries, credentials, s.live);
    var d := Decide(true, s.live, c, problems);
    CurrentIsAccepted(s, true, c, problems);
    LiveAfterWrite(s, d);
    var written := Apply(s, d).live.value;
    WrittenMatches(registries, credentials, s.live, if d.UpdateTo? then d.observed else EmptySecret, written);
    MatchedIsLeft(written, Rendered(registries, credentials, Some(written)), RetentionProblems(registries, credentials, Some(written)));
  }

  lemma LeftAfterRemoval(s: SecretServer, inScope: bool, registries: Registries, credentials: Credentials)
    requires WellFormedRegistries(registries)
    requires Current(s, inScope, registries, credentials).Remove?
    ensures Current(SyncOnce(s, inScope, registries, credentials), inScope, registries, credentials).Leave?
  {
    CurrentIsAccepted(s, inScope, Rendered(registries, credentials, s.live), RetentionProblems(registries, credentials, s.live));
    if inScope {
      EmptyFromNothing(registries, credentials, s.live);
    }
  }

  /**
   Convergence: with configuration, credentials and the object otherwise unchanged, a
   reconciliation sends at most one request, the request is accepted, and the next
   reconciliation sends none.
   */
  lemma OneSyncIsEnough(s: SecretServer, inScope: bool, registries: Registries, credentials: Credentials)
    requires WellFormedRegistries(registries) && InjectiveNames(registries)
    ensures var d := Current(s, inScope, registries, credentials);
            RequestOf(d).Some? ==> Accepts(s, RequestOf(d).value)
    ensures Current(SyncOnce(s, inScope, registries, credentials), inScope, registries, credentials).Leave?
  {
    var c, problems := Rendered(registries, credentials, s.live), RetentionProblems(registries, credentials, s.live);
    CurrentIsAccepted(s, inScope, c, problems);
    var d := Decide(inScope, s.live, c, problems);
    assert d == Current(s, inScope, registries, credentials);
    if d.Remove? {
      LeftAfterRemoval(s, inScope, registries, credentials);
    } else if d.Leave? {
      assert SyncOnce(s, inScope, registries, credentials) == s;
    } else {
      LeftAfterWrite(s, registries, credentials);
    }
  }

  /** A Secret that matches its payload is a written one. */
  lemma MatchIsWritten(s: Secret, c: Content)
    requires SecretMatches(s, c)
    ensures CarriesContent(s, c) && s.kind == DockerConfigJson && IsManaged(s)
  {
  }

  /** In scope, without conflict and with a payload, a reconciliation leaves a written Secret. */
  lemma LeavesWritten(s: SecretServer, registries: Registries, credentials: Credentials)
    requires WellFormedRegistries(registries) && InjectiveNames(registries)
    requires s.live.Some? ==> IsManaged(s.live.value) && !s.live.value.deleting
    requires Rendered(registries, credentials, s.live).HasAuth()
    ensures var t := SyncOnce(s, true, registries, credentials);
            t.live.Some? && Inspection.Written(registries, credentials, s.live, t.live.value)
  {
    var c, problems := Rendered(registries, credentials, s.live), RetentionProblems(registries, credentials, s.live);
    var d, t := Decide(true, s.live, c, problems), SyncOnce(s, true, registries, credentials);
    CurrentIsAccepted(s, true, c, problems);
    assert d.Leave? ==> s.live.Some? && SecretMatches(s.live.value, c);
    hide Rendered, RetentionProblems, WellFormedRegistries, InjectiveNames, Decide;
    if d.Leave? {
      MatchIsWritten(s.live.value, c);
    } else {
      LiveAfterWrite(s, d);
      WrittenMatches(registries, credentials, s.live, if d.UpdateTo? then d.observed else EmptySecret, t.live.value);
    }
  }

  lemma OnlyKey<V>(m: map<string, V>, k: string)
    requires |m| == 1 && k in m
    ensures m == map[k := m[k]]
  {
    assert m.Keys == {k} + (m.Keys - {k});
    assert |m.Keys - {k}| == 0;
  }

  /**
   What one undisturbed reconciliation leaves, for any payload and problems: out of scope no
   managed Secret; a Secret that is not managed exactly as it was; in scope the payload if it
   has auth, otherwise nothing, unless retention failed, when the object is left alone.
   */
  lemma AfterOneSync(s: SecretServer, inScope: bool, c: Content, problems: set<Problem>)
    ensures var live := Apply(s, Decide(inScope, s.live, c, problems)).live;
            if s.live.Some? && !IsManaged(s.live.value) then live == s.live
            else if !inScope then live.None?
            else if c.HasAuth() then
              live.Some? && Holds(live.value, c) && (s.live.Some? ==> SparesOthers(s.live.value, live.value))
            else if problems == {} then live.None?
            else live == s.live
  {
    var d := Decide(inScope, s.live, c, problems);
    CurrentIsAccepted(s, inScope, c, problems);
    if d.CreateWith? || d.UpdateTo? {
      LiveAfterWrite(s, d);
      AppliedHolds(if d.UpdateTo? then d.observed else EmptySecret, c);
    } else if d.Leave? && s.live.Some? && SecretMatches(s.live.value, c) {
      OnlyKey(s.live.value.data, DockerConfigJsonKey);
    }
  }

  /**
   An error is reported exactly if the request sent is refused, unless it was to delete what is
   gone already, or if retention complains in a namespace in scope whose Secret is ours or absent.
   On success in scope and without conflict, what was observed holds the payload or is replaced by
   what does, or, without auth, nothing is left of it.
   */
  lemma SuccessMeansDone(s: SecretServer, inScope: bool, observed: Option<Secret>, c: Content, problems: set<Problem>)
    ensures var d := Decide(inScope, observed, c, problems);
            Succeeds(s, inScope, observed, d, problems) <==>
              && (RequestOf(d).None? || Accepts(s, RequestOf(d).value) || (RequestOf(d).value.Delete? && s.live.None?))
              && (inScope && (observed.None? || IsManaged(observed.value)) ==> problems == {})
    ensures var d := Decide(inScope, observed, c, problems);
            Succeeds(s, inScope, observed, d, problems) && inScope && (observed.None? || IsManaged(observed.value)) ==>
              var live := if RequestOf(d).None? then observed else Apply(s, d).live;
              if c.HasAuth() then live.Some? && Holds(live.value, c) else live.None?
  {
    var d := Decide(inScope, observed, c, problems);
    if d.CreateWith? || d.UpdateTo? {
      AppliedHolds(if d.UpdateTo? then d.observed else EmptySecret, c);
    } else if d.Leave? && observed.Some? && SecretMatches(observed.value, c) {
      OnlyKey(observed.value.data, DockerConfigJsonKey);
    }
  }

  /**
   After one undisturbed reconciliation in scope that meets no conflict and has a payload, a
   registry is synced exactly if it is available with a presentable, unexpired credential,
   and it is invalid only if the credential in memory is not presentable.
   */
  lemma SyncedAfterwards(s: SecretServer, registries: Registries, credentials: Credentials, k: RegistryKey, now: Time)
    requires WellFormedRegistries(registries) && InjectiveNames(registries) && k in registries
    requires s.live.Some? ==> IsManaged(s.live.value) && !s.live.value.deleting
    requires Rendered(registries, credentials, s.live).HasAuth()
    ensures var t := SyncOnce(s, true, registries, credentials);
            var status := Inspection.StatusOf(Inspection.Inspect(t.live), registries[k],
                                              Inspection.Expected(registries, credentials), now).0;
            var available := Available(registries[k], credentials);
            && (status == Inspection.Synced <==>
                  available && Inspection.Presentable(credentials[k].credential) && credentials[k].credential.expiresAt > now)
            && (status == Inspection.Invalid ==> available && !Inspection.Presentable(credentials[k].credential))
  {
    var t := SyncOnce(s, true, registries, credentials);
    LeavesWritten(s, registries, credentials);
    Inspection.InspectionAgrees(registries, credentials, s.live, t.live.value, k, now);
  }
}
