/**
 The scheduler and the Secret together: whatever the scheduler has done, what a
 reconciliation writes from its store is genuine, and inspection finds it so.
 */
module EndToEnd {
  import opened Wrappers
  import opened ConfigTypes
  import opened CredentialTypes
  import opened SecretTypes
  import opened Builder
  import opened BuilderProperties
  import opened SecretRecords
  import opened Syncer
  import opened SchedulerModel
  import opened SchedulerBase
  import opened SchedulerSafety
  import SyncerRuns
  import Inspection

  /** Every clock reading kept anywhere is after the zero time. */
  ghost predicate Dated(s: System) {
    && s.now > ZeroTime
    && (forall i | 0 <= i < |s.installs| :: s.installs[i].entry.credential.refreshedAt > ZeroTime)
    && (forall w | 0 <= w < |s.workers| :: s.workers[w].Validated? ==> s.workers[w].at > ZeroTime)
  }

  lemma StepKeepsDated(s: System, step: Step)
    requires Dated(s) && Enabled(s, step)
    ensures Dated(Next(s, step))
  {
    hide Put, CellOf, ReconcileConfiguration;
    var t := Next(s, step);
    if step.Advance? {
      var e := EffectOf(s, step.worker, step.reply);
      forall i | |s.installs| <= i < |t.installs| ensures t.installs[i].entry.credential.refreshedAt > ZeroTime {
        assert t.installs[i] == e.installs[i - |s.installs|];
      }
    }
  }

  lemma {:induction false} RunKeepsDated(s: System, steps: seq<Step>)
    requires Dated(s) && Runs(s, steps)
    ensures Dated(Final(s, steps))
    decreases |steps|
  {
    if steps != [] {
      StepKeepsDated(s, steps[0]);
      RunKeepsDated(Next(s, steps[0]), steps[1..]);
    }
  }

  /** A state reached by a scheduler whose clock started after the zero time. */
  ghost predicate Arises(s: System) {
    exists options, workers: nat, now, steps ::
      && ValidOptions(options) && now > ZeroTime
      && Runs(Init(options, workers, now), steps) && s == Final(Init(options, workers, now), steps)
  }

  lemma ArisesIsReachable(s: System)
    requires Arises(s)
    ensures Reachable(s) && Dated(s)
  {
    var options, workers: nat, now, steps :|
      && ValidOptions(options) && now > ZeroTime
      && Runs(Init(options, workers, now), steps) && s == Final(Init(options, workers, now), steps);
    RunKeepsDated(Init(options, workers, now), steps);
  }

  /** Whatever is available to a Secret can be shown in it. */
  lemma StoredIsPresentable(s: System, registry: RegistryConfig)
    requires Arises(s) && Available(registry, s.core.store)
    ensures Inspection.Presentable(s.core.store[registry.Key()].credential)
  {
    ArisesIsReachable(s);
    StoredTokensBelong(s, registry);
    RevisionsAreUnique(s, registry.Key(), registry.Key());
    ReachableIsBase(s);
    assert ValidOptions(s.options);
  }

  /**
   A Secret never shows a token of a rotated AK/SK as current: for a registry with a matching
   entry in the scheduler's store, the auth record of each of its domains is the token the
   provider granted to a request with exactly that registry's key and configured AK/SK.
   */
  lemma SecretsShowGrantedTokens(s: System, registries: Registries, existing: Option<Secret>, content: Content, k: RegistryKey, d: string)
    requires Reachable(s) && WellFormedRegistries(registries) && Buildable(registries, s.core.store, existing, content)
    requires k in registries && d in registries[k].domains && Available(registries[k], s.core.store)
    ensures exists token: Token ::
              && Call(k, registries[k].accessKeyID, registries[k].accessKeySecret, Granted(token)) in s.calls
              && Find(content.auths, d) == Some(DockerAuth(token.username, token.password, Base64(token.username + ":" + token.password)))
              && token.username != "" && token.password != ""
              && s.core.store[k].credential.expiresAt == token.expiresAt
  {
    hide Buildable;
    AvailableIsShown(registries, s.core.store, existing, content, k);
    StoredTokensBelong(s, registries[k]);
    var c := s.core.store[k].credential;
    var token := Token(c.username, c.password, c.expiresAt);
    assert Call(k, registries[k].accessKeyID, registries[k].accessKeySecret, Granted(token)) in s.calls;
  }

  /**
   After one undisturbed reconciliation in scope with the scheduler's store, no configured
   registry is invalid, and a registry is synced exactly if its stored credential matches the
   configuration and has not expired.
   */
  lemma ReconciledIsSound(s: System, server: ApiServer.SecretServer, registries: Registries, k: RegistryKey, now: Time)
    requires Arises(s) && WellFormedRegistries(registries) && InjectiveNames(registries) && k in registries
    requires server.live.Some? ==> IsManaged(server.live.value) && !server.live.value.deleting
    requires Rendered(registries, s.core.store, server.live).HasAuth()
    ensures var t := SyncerRuns.SyncOnce(server, true, registries, s.core.store);
            var status := Inspection.StatusOf(Inspection.Inspect(t.live), registries[k],
                                              Inspection.Expected(registries, s.core.store), now).0;
            && !status.Invalid?
            && (status.Synced? <==> Available(registries[k], s.core.store) && s.core.store[k].credential.expiresAt > now)
  {
    SyncerRuns.SyncedAfterwards(server, registries, s.core.store, k, now);
    if Available(registries[k], s.core.store) {
      StoredIsPresentable(s, registries[k]);
    }
  }

  // What fan-outs announce

  /** The stored entry of a key is the last one installed for it. */
  ghost predicate Latest(s: System) {
    forall k, i | k in s.core.store && s.core.store[k].revision <= i < |s.installs| :: s.installs[i].key != k
  }

  /** What an action does to its key's entry: nothing, or it drops it, or it installs the next one. */
  lemma ActStores(pc: Worker, v: Cell, now: Time, o: Options, nextRevision: nat, reply: Reply)
    requires !pc.Idle?
    ensures var e := Act(pc, v, now, o, nextRevision, reply);
            || (e.installs == [] && (e.cell.stored == v.stored || e.cell.stored.None?))
            || (|e.installs| == 1 && e.installs[0].key == pc.key && e.cell.stored == Some(e.installs[0].entry)
                && e.installs[0].entry.revision == nextRevision + 1)
  {
  }

  lemma AdvanceKeepsLatest(s: System, w: nat, reply: Reply)
    requires |s.installs| == s.core.nextRevision && Latest(s) && w < |s.workers| && !s.workers[w].Idle?
    ensures Latest(AdvanceWorker(s, w, reply))
  {
    var t, pc, e := AdvanceWorker(s, w, reply), s.workers[w], EffectOf(s, w, reply);
    ActStores(pc, CellOf(s.core, pc.key), s.now, s.options, s.core.nextRevision, reply);
    hide Act;
    forall k, i | k in t.core.store && t.core.store[k].revision <= i < |t.installs| ensures t.installs[i].key != k {
      if k != pc.key {
        assert k in s.core.store && t.core.store[k] == s.core.store[k];
      }
    }
  }

  lemma StepKeepsLatest(s: System, step: Step)
    requires |s.installs| == s.core.nextRevision && Latest(s) && Enabled(s, step)
    ensures Latest(Next(s, step))
  {
    hide AdvanceWorker;
    if step.Advance? {
      AdvanceKeepsLatest(s, step.worker, step.reply);
    } else {
      var t := Next(s, step);
      forall k | k in t.core.store ensures k in s.core.store && t.core.store[k] == s.core.store[k] {
      }
    }
  }

  lemma BaseCounts(s: System)
    requires Base(s)
    ensures |s.installs| == s.core.nextRevision
  {
  }

  lemma {:induction false} RunKeepsLatest(s: System, steps: seq<Step>)
    requires Base(s) && Latest(s) && Runs(s, steps)
    ensures Base(Final(s, steps)) && Latest(Final(s, steps)) && s.installs <= Final(s, steps).installs
    decreases |steps|
  {
    hide Base, Latest, Act, Put, CellOf;
    if steps != [] {
      BaseCounts(s);
      StepKeepsBase(s, steps[0]);
      StepKeepsLatest(s, steps[0]);
      RunKeepsLatest(Next(s, steps[0]), steps[1..]);
    }
  }

  lemma ReachableIsLatest(s: System)
    requires Reachable(s)
    ensures Base(s) && Latest(s)
  {
    hide Base;
    var options, workers: nat, now, steps :|
      ValidOptions(options) && Runs(Init(options, workers, now), steps) && s == Final(Init(options, workers, now), steps);
    InitIsBase(options, workers, now);
    RunKeepsLatest(Init(options, workers, now), steps);
  }

  /** The Secret a reconciliation in scope wants: what it observed, or what it asks for. */
  function WantedSecret(observed: Option<Secret>, d: Decision): Option<Secret> {
    match d
    case Leave => observed
    case CreateWith(c) => Some(ApplyContent(EmptySecret, c))
    case UpdateTo(base, c) => Some(ApplyContent(base, c))
    case Remove(_) => None
  }

  /** The Docker document of the Secret holds, for the domain, the record of this user and password. */
  predicate ShowsToken(s: Secret, d: string, username: string, password: string) {
    && DockerConfigJsonKey in s.data && s.data[DockerConfigJsonKey].Canonical?
    && s.data[DockerConfigJsonKey].document.auths.Some?
    && Find(s.data[DockerConfigJsonKey].document.auths.value, d) ==
         Some(Good(DockerAuth(username, password, Base64(username + ":" + password))))
  }

  lemma WantedCarries(observed: Option<Secret>, c: Content, problems: set<Problem>)
    requires c.HasAuth() && (observed.Some? ==> IsManaged(observed.value))
    ensures var w := WantedSecret(observed, Decide(true, observed, c, problems));
            w.Some? && Find(w.value.data, DockerConfigJsonKey) == Some(EncodeDocker(c.auths))
  {
    var d := Decide(true, observed, c, problems);
    if d.Leave? {
      SyncerRuns.MatchIsWritten(observed.value, c);
    } else {
      SyncerRuns.AppliedCarries(if d.UpdateTo? then observed.value else EmptySecret, c);
    }
  }

  /**
   A fan-out is worth its events. Once install number `r` was made for a key, as it was before
   its fan-out began, every reconciliation decided later, on whatever it observed of a Secret
   that is ours or absent, wants for each domain of the registry the token of install `r` or of
   a later one, as long as the registry is configured with the AK/SK of what is stored.
   */
  lemma FannedOutTokensArrive(s: System, steps: seq<Step>, registries: Registries, observed: Option<Secret>,
                              content: Content, k: RegistryKey, d: string, r: nat)
    requires Reachable(s) && Runs(s, steps) && 1 <= r <= |s.installs| && s.installs[r - 1].key == k
    requires WellFormedRegistries(registries) && k in registries && d in registries[k].domains
    requires observed.Some? ==> IsManaged(observed.value)
    requires Available(registries[k], Final(s, steps).core.store)
    requires Buildable(registries, Final(s, steps).core.store, observed, content)
    ensures var t := Final(s, steps);
            var problems := RetentionProblems(registries, t.core.store, observed);
            var wanted, entry := WantedSecret(observed, Decide(true, observed, content, problems)), t.core.store[k];
            && wanted.Some? && ShowsToken(wanted.value, d, entry.credential.username, entry.credential.password)
            && r <= entry.revision <= |t.installs| && t.installs[entry.revision - 1] == Install(k, entry)
  {
    hide Base, Decide, WantedSecret, ShowsToken, Buildable, Available, WellFormedRegistries, RetentionProblems;
    var t := Final(s, steps);
    ReachableIsLatest(s);
    RunKeepsLatest(s, steps);
    StoredIsStored(t, registries, k);
    StoredIsInstalled(t, registries[k]);
    assert t.installs[r - 1].key == k;
    WantedShowsToken(registries, t.core.store, observed, content, RetentionProblems(registries, t.core.store, observed), k, d);
  }

  lemma StoredIsStored(t: System, registries: Registries, k: RegistryKey)
    requires WellFormedRegistries(registries) && k in registries && Available(registries[k], t.core.store)
    ensures registries[k].Key() == k && k in t.core.store
  {
  }

  /** A reconciliation that finds a registry available wants its credential in the Secret. */
  lemma WantedShowsToken(registries: Registries, credentials: Credentials, observed: Option<Secret>, content: Content,
                         problems: set<Problem>, k: RegistryKey, d: string)
    requires WellFormedRegistries(registries) && k in registries && d in registries[k].domains
    requires Available(registries[k], credentials) && Buildable(registries, credentials, observed, content)
    requires observed.Some? ==> IsManaged(observed.value)
    ensures k in credentials
    ensures var w := WantedSecret(observed, Decide(true, observed, content, problems));
            w.Some? && ShowsToken(w.value, d, credentials[k].credential.username, credentials[k].credential.password)
  {
    hide Decide, WantedSecret, Buildable;
    AvailableIsShown(registries, credentials, observed, content, k);
    WantedCarries(observed, content, problems);
  }

  lemma StoredIsInstalled(t: System, registry: RegistryConfig)
    requires Base(t) && registry.Key() in t.core.store
    ensures var e := t.core.store[registry.Key()];
            1 <= e.revision <= |t.installs| && t.installs[e.revision - 1] == Install(registry.Key(), e)
  {
    assert KeyBase(registry.Key(), ViewOf(t, registry.Key()), t);
  }

  /** In particular after a fan-out that completed: what is marked published was installed. */
  lemma PublishedWasInstalled(s: System, k: RegistryKey)
    requires Reachable(s) && PublishedRevision(s.core, k) > 0
    ensures var r := PublishedRevision(s.core, k); r <= |s.installs| && s.installs[r - 1].key == k && r <= s.fannedOut
  {
    ReachableIsBase(s);
    assert KeyBase(k, ViewOf(s, k), s);
  }
}
