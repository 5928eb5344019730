/**
 internal/serviceaccount/syncer.go: one reconciliation of a ServiceAccount, and whole runs
 with stale reads, late and lost patches and third-party edits.
 */
module ServiceAccounts {
  import opened Wrappers
  import opened ConfigTypes
  import opened SecretTypes
  import opened NameLists
  import opened References
  import opened Versions
  import SecretRecords

  datatype Account = Account(resourceVersion: nat, references: seq<string>)

  type AccountServer = Server<Account>

  function VersionOf(): Account -> nat {
    (a: Account) => a.resourceVersion
  }

  /** The patch carries the observed resource version. */
  datatype Patch = Patch(observed: Account, references: seq<string>)

  predicate Accepts(s: AccountServer, p: Patch) {
    s.live.Some? && s.live.value.resourceVersion == p.observed.resourceVersion
  }

  function Stamped(s: AccountServer, references: Option<seq<string>>): Option<Account> {
    if references.None? then None else Some(Account(s.nextVersion, references.value))
  }

  function Written(s: AccountServer, references: Option<seq<string>>): AccountServer {
    Replaced(s, Stamped(s, references))
  }

  function Handle(s: AccountServer, p: Patch): AccountServer {
    if Accepts(s, p) then Written(s, Some(p.references)) else s
  }

  class Api {
    var state: AccountServer

    constructor (state: AccountServer)
      ensures this.state == state
    {
      this.state := state;
    }

    method Send(p: Patch) returns (ok: bool)
      modifies this
      ensures ok == Accepts(old(state), p) && state == Handle(old(state), p)
    {
      ok := Accepts(state, p);
      state := Handle(state, p);
    }
  }

  // One reconciliation

  predicate NonEmpty(t: Text<DockerFile>) {
    t.Other? ==> t.bytes != ""
  }

  /** Managed, not being deleted, of the right type and not empty. */
  predicate IsUsableForServiceAccount(s: Secret) {
    && IsManaged(s) && !s.deleting && s.kind == DockerConfigJson
    && DockerConfigJsonKey in s.data && NonEmpty(s.data[DockerConfigJsonKey])
  }

  /** In scope, but there is no usable managed Secret to refer to yet. */
  predicate Waits(inScope: bool, secret: Option<Secret>) {
    inScope && (secret.None? || (IsManaged(secret.value) && !IsUsableForServiceAccount(secret.value)))
  }

  predicate Wanted(inScope: bool, secret: Option<Secret>) {
    inScope && secret.Some? && IsUsableForServiceAccount(secret.value)
  }

  /** The patch to send, if any. */
  function Decide(inScope: bool, account: Account, secret: Option<Secret>, secretName: string): Option<Patch> {
    var desired := Desired(account.references, secretName, Wanted(inScope, secret));
    if Waits(inScope, secret) || desired == account.references then None else Some(Patch(account, desired))
  }

  /** There is a Docker document, of at least one byte. */
  predicate HasDockerBytes(s: Secret) {
    DockerConfigJsonKey in s.data && (s.data[DockerConfigJsonKey].Other? ==> s.data[DockerConfigJsonKey].bytes != "")
  }

  /**
   In scope a reconciliation waits, and sends nothing, exactly if the Secret is absent, or ours and
   being deleted, of another type, or without Docker document; the name is to be there exactly if
   it is ours and none of these; and with a Secret that is not ours it is to go.
   */
  lemma WaitsExactly(inScope: bool, account: Account, secret: Option<Secret>, name: string)
    ensures Waits(inScope, secret) <==>
            inScope && (secret.None? || (SecretRecords.LabelsAreOurs(secret.value)
              && (secret.value.deleting || secret.value.kind != DockerConfigJson || !HasDockerBytes(secret.value))))
    ensures Waits(inScope, secret) ==> Decide(inScope, account, secret, name).None?
    ensures !Waits(inScope, secret) ==>
              var left := if Decide(inScope, account, secret, name).Some? then Decide(inScope, account, secret, name).value.references
                          else account.references;
              name in left <==> inScope && SecretRecords.LabelsAreOurs(secret.value)
  {
    hide Desired, Promised;
    DesiredKeepsName(account.references, name, Wanted(inScope, secret));
  }

  lemma DesiredKeepsName(refs: seq<string>, name: string, wanted: bool)
    ensures name in Desired(refs, name, wanted) <==> wanted
  {
    DesiredIsPromised(refs, name, wanted);
  }

  datatype Outcome = Done | NotReady | ReadFailed | PatchFailed

  /**
   `SyncServiceAccount` on the ServiceAccount and the Secret as the cache gives them. A Secret
   that is not ours counts as a reason to drop the reference; one that is not ready, as a
   reason to wait. A read that fails is an error; the Secret is only read in scope.
   */
  method SyncServiceAccount(api: Api, namespace: string, name: string, secretName: string,
                            snapshot: Option<ConfigurationSnapshot>, accountRead: Lookup<Account>, secretRead: Lookup<Secret>)
    returns (outcome: Outcome)
    requires snapshot.Some? ==> SortedLists(snapshot.value)
    modifies api
    ensures snapshot.None? || accountRead.Missing? ==> outcome == Done && api.state == old(api.state)
    ensures outcome == ReadFailed <==>
              && snapshot.Some?
              && (accountRead.Unreadable?
                  || (accountRead.Got? && secretRead.Unreadable?
                      && MatchesNamespace(snapshot.value, namespace) && Matches(snapshot.value.serviceAccounts, name)))
    ensures outcome == ReadFailed ==> api.state == old(api.state)
    ensures snapshot.Some? && accountRead.Got? && outcome != ReadFailed ==>
              var inScope := MatchesNamespace(snapshot.value, namespace) && Matches(snapshot.value.serviceAccounts, name);
              var patch := Decide(inScope, accountRead.value, secretRead.Seen(), secretName);
              && api.state == (if patch.Some? then Handle(old(api.state), patch.value) else old(api.state))
              && (outcome == NotReady <==> Waits(inScope, secretRead.Seen()))
              && (outcome == PatchFailed <==> patch.Some? && !Accepts(old(api.state), patch.value))
  {
    if snapshot.None? {
      return Done;
    }
    if accountRead.Unreadable? {
      return ReadFailed;
    }
    if accountRead.Missing? {
      return Done;
    }
    var account := accountRead.value;
    var shouldReference := CheckNamespace(snapshot.value, namespace);
    if shouldReference && !snapshot.value.serviceAccounts.matchAll {
      shouldReference := ContainsSorted(snapshot.value.serviceAccounts.names, name);
    }
    if shouldReference {
      if secretRead.Unreadable? {
        return ReadFailed;
      }
      if secretRead.Missing? {
        return NotReady;
      }
      if !IsManaged(secretRead.value) {
        shouldReference := false;
      } else if !IsUsableForServiceAccount(secretRead.value) {
        return NotReady;
      }
    }
    var desired := ReconcileReferences(account.references, secretName, shouldReference);
    var same := EqualReferences(account.references, desired);
    if same {
      return Done;
    }
    var ok := api.Send(Patch(account, desired));
    outcome := if ok then Done else PatchFailed;
  }

  // Runs

  /** A decision taken, with what it was based on. */
  datatype Pending = Pending(patch: Option<Patch>, inScope: bool, secret: Option<Secret>)

  /** A patch that took effect. */
  datatype Commit = Commit(pending: Pending, before: Account, after: Account)

  datatype Cluster = Cluster(server: AccountServer, pending: seq<Pending>, commits: seq<Commit>)

  datatype Event =
    | ThirdParty(references: Option<seq<string>>)
    | Sync(inScope: bool, observed: Option<Account>, secret: Option<Secret>)
    | Arrive(index: nat)
    | Lose(index: nat)

  predicate Possible(c: Cluster, e: Event) {
    match e
    case ThirdParty(_) => true
    case Sync(_, observed, _) => Readable(c.server, observed)
    case Arrive(i) => i < |c.pending|
    case Lose(i) => i < |c.pending|
  }

  function Happen(c: Cluster, e: Event, name: string): Cluster
    requires Possible(c, e)
  {
    match e
    case ThirdParty(references) => c.(server := Written(c.server, references))
    case Sync(inScope, observed, secret) =>
      if observed.None? then c
      else c.(pending := c.pending + [Pending(Decide(inScope, observed.value, secret, name), inScope, secret)])
    case Arrive(i) =>
      var p, rest := c.pending[i], c.pending[..i] + c.pending[i + 1..];
      if p.patch.None? || !Accepts(c.server, p.patch.value) then c.(pending := rest)
      else
        var server := Handle(c.server, p.patch.value);
        Cluster(server, rest, c.commits + [Commit(p, c.server.live.value, server.live.value)])
    case Lose(i) => c.(pending := c.pending[..i] + c.pending[i + 1..])
  }

  predicate Runs(c: Cluster, events: seq<Event>, name: string)
    decreases |events|
  {
    events == [] || (Possible(c, events[0]) && Runs(Happen(c, events[0], name), events[1..], name))
  }

  function Final(c: Cluster, events: seq<Event>, name: string): Cluster
    requires Runs(c, events, name)
    decreases |events|
  {
    if events == [] then c else Final(Happen(c, events[0], name), events[1..], name)
  }

  /** The patch is the one decided on a version that was read. */
  predicate Grounded(s: AccountServer, p: Pending, name: string) {
    p.patch.Some? ==> Readable(s, Some(p.patch.value.observed)) && p.patch == Decide(p.inScope, p.patch.value.observed, p.secret, name)
  }

  /**
   What is promised of a commit: nobody else's reference is lost, added or reordered; with a
   usable managed Secret the name is there once, at its first position; without one nothing
   is committed in scope unless the Secret observed is not ours; and the name is removed only
   out of scope or because the observed Secret is not ours.
   */
  predicate SafeCommit(m: Commit, name: string) {
    && Promised(m.after.references, m.before.references, name, Wanted(m.pending.inScope, m.pending.secret))
    && (name !in m.after.references ==>
          !m.pending.inScope || (m.pending.secret.Some? && !IsManaged(m.pending.secret.value)))
    && !Waits(m.pending.inScope, m.pending.secret)
  }

  ghost predicate Inv(c: Cluster, name: string) {
    && Consistent(c.server, VersionOf())
    && (forall i | 0 <= i < |c.pending| :: Grounded(c.server, c.pending[i], name))
    && (forall i | 0 <= i < |c.commits| :: SafeCommit(c.commits[i], name))
  }

  lemma AcceptedIsSafe(s: AccountServer, p: Pending, name: string)
    requires Consistent(s, VersionOf()) && Grounded(s, p, name) && p.patch.Some? && Accepts(s, p.patch.value)
    ensures SafeCommit(Commit(p, s.live.value, Handle(s, p.patch.value).live.value), name)
  {
    hide IsUsableForServiceAccount, Promised, Desired;
    var observed := p.patch.value.observed;
    assert Readable(s, s.live) && SameVersion(s.live, Some(observed), VersionOf());
    assert s.live.value == observed;
    DesiredIsPromised(observed.references, name, Wanted(p.inScope, p.secret));
    WantedStays(observed.references, name);
  }

  lemma WantedStays(refs: seq<string>, name: string)
    ensures name in Desired(refs, name, true)
  {
    DesiredIsPromised(refs, name, true);
  }

  lemma HappenKeepsInv(c: Cluster, e: Event, name: string)
    requires Inv(c, name) && Possible(c, e)
    ensures Inv(Happen(c, e, name), name)
  {
    hide Decide, SafeCommit, Consistent;
    var d := Happen(c, e, name);
    match e
    case ThirdParty(references) =>
      ReplacingKeepsConsistent(c.server, Stamped(c.server, references), VersionOf());
    case Sync(inScope, observed, secret) =>
      if observed.Some? {
        DecisionIsGrounded(c.server, inScope, observed.value, secret, name);
      }
    case Lose(i) =>
    case Arrive(i) =>
      var p := c.pending[i];
      if p.patch.Some? && Accepts(c.server, p.patch.value) {
        AcceptedIsSafe(c.server, p, name);
        ReplacingKeepsConsistent(c.server, Stamped(c.server, Some(p.patch.value.references)), VersionOf());
      }
      forall j | 0 <= j < |d.pending| ensures Grounded(d.server, d.pending[j], name) {
        assert d.pending[j] == c.pending[if j < i then j else j + 1];
      }
  }

  lemma DecisionIsGrounded(s: AccountServer, inScope: bool, observed: Account, secret: Option<Secret>, name: string)
    requires Readable(s, Some(observed))
    ensures Grounded(s, Pending(Decide(inScope, observed, secret, name), inScope, secret), name)
  {
  }

  /** Under optimistic locking every commit of every run is safe. */
  lemma {:induction false} EveryCommitIsSafe(c: Cluster, events: seq<Event>, name: string)
    requires Inv(c, name) && Runs(c, events, name)
    ensures Inv(Final(c, events, name), name)
    ensures forall i | 0 <= i < |Final(c, events, name).commits| :: SafeCommit(Final(c, events, name).commits[i], name)
    decreases |events|
  {
    if events != [] {
      HappenKeepsInv(c, events[0], name);
      EveryCommitIsSafe(Happen(c, events[0], name), events[1..], name);
    }
  }

  /** Any single object, or none, is a place to start from. */
  lemma StartIsInv(live: Option<Account>, name: string)
    ensures Inv(Cluster(Server(live, [], if live.Some? then live.value.resourceVersion + 1 else 0), [], []), name)
  {
    StartIsConsistent(live, VersionOf());
  }

  /** Between two states of a run the references change by a third party's hand or by a commit, and every commit is recorded. */
  lemma EveryChangeIsRecorded(c: Cluster, e: Event, name: string)
    requires Possible(c, e)
    ensures var d := Happen(c, e, name);
            || (d.server == c.server && d.commits == c.commits)
            || (e.ThirdParty? && d.commits == c.commits)
            || (&& e.Arrive? && c.server.live.Some? && d.server.live.Some?
                && d.commits == c.commits + [Commit(c.pending[e.index], c.server.live.value, d.server.live.value)])
  {
  }

  /** A patch that arrives before anything else does what an undisturbed reconciliation does. */
  lemma ArrivesUndisturbed(s: AccountServer, inScope: bool, secret: Option<Secret>, name: string)
    requires s.live.Some?
    ensures var c, patch := Cluster(s, [], []), Decide(inScope, s.live.value, secret, name);
            var events := [Sync(inScope, s.live, secret), Arrive(0)];
            && Runs(c, events, name)
            && Final(c, events, name).server == (if patch.Some? then Handle(s, patch.value) else s)
            && |Final(c, events, name).commits| == (if patch.Some? then 1 else 0)
  {
    hide Desired, IsUsableForServiceAccount;
    var c, first, second := Cluster(s, [], []), Sync(inScope, s.live, secret), Event.Arrive(0);
    var decided := Happen(c, first, name);
    assert decided == Cluster(s, [Pending(Decide(inScope, s.live.value, secret, name), inScope, secret)], []);
    var arrived := Happen(decided, second, name);
    assert [first, second][1..] == [second] && [second][1..] == [];
    assert Runs(decided, [second], name) && Final(decided, [second], name) == arrived by {
      assert Runs(arrived, [], name) && Final(arrived, [], name) == arrived;
    }
  }

  function LiveForeign(s: AccountServer, name: string): Option<seq<string>> {
    if s.live.None? then None else Some(Foreign(s.live.value.references, name))
  }

  /** Only third parties change the references of third parties. */
  lemma {:induction false} ForeignReferencesSurvive(c: Cluster, events: seq<Event>, name: string)
    requires Inv(c, name) && Runs(c, events, name)
    requires forall i | 0 <= i < |events| :: !events[i].ThirdParty?
    ensures LiveForeign(Final(c, events, name).server, name) == LiveForeign(c.server, name)
    decreases |events|
  {
    if events != [] {
      ForeignSurvivesEvent(c, events[0], name);
      HappenKeepsInv(c, events[0], name);
      ForeignReferencesSurvive(Happen(c, events[0], name), events[1..], name);
    }
  }

  lemma ForeignSurvivesEvent(c: Cluster, e: Event, name: string)
    requires Inv(c, name) && Possible(c, e) && !e.ThirdParty?
    ensures LiveForeign(Happen(c, e, name).server, name) == LiveForeign(c.server, name)
  {
    if e.Arrive? {
      var p := c.pending[e.index];
      if p.patch.Some? && Accepts(c.server, p.patch.value) {
        AcceptedIsSafe(c.server, p, name);
      }
    }
  }

  /**
   An undisturbed reconciliation that need not wait leaves the references as promised, and
   needs no second one.
   */
  lemma OneSyncIsEnough(s: AccountServer, inScope: bool, secret: Option<Secret>, name: string)
    requires s.live.Some?
    ensures var patch := Decide(inScope, s.live.value, secret, name);
            var t := if patch.Some? then Handle(s, patch.value) else s;
            && t.live.Some? && (patch.Some? ==> Accepts(s, patch.value))
            && Decide(inScope, t.live.value, secret, name).None?
            && (if Waits(inScope, secret) then t == s
                else Promised(t.live.value.references, s.live.value.references, name, Wanted(inScope, secret)))
  {
    hide IsUsableForServiceAccount, Promised, Desired;
    DesiredIsPromised(s.live.value.references, name, Wanted(inScope, secret));
    DesiredIsStable(s.live.value.references, name, Wanted(inScope, secret));
  }
}
