/**
 internal/registrysecret/syncer.go: one reconciliation of the managed Secret of a namespace.
 */
module Syncer {
  import opened Wrappers
  import opened ConfigTypes
  import opened SecretTypes
  import opened Builder
  import opened BuildLoops
  import opened ApiServer
  import opened NameLists

  /** `applyContent`: payload, type and identity; other labels and annotations stay. */
  function ApplyContent(s: Secret, c: Content): Secret {
    s.(kind := DockerConfigJson,
       data := map[DockerConfigJsonKey := EncodeDocker(c.auths)],
       labels := s.labels[ApplicationNameLabelKey := ControllerIdentity][ManagedByLabelKey := ControllerIdentity],
       annotations := s.annotations[StateAnnotationKey := EncodeState(c.states)])
  }

  const EmptySecret := Secret(0, 0, false, OtherType(""), map[], map[], map[])

  predicate SecretMatches(s: Secret, c: Content) {
    && s.kind == DockerConfigJson
    && |s.data| == 1
    && Find(s.data, DockerConfigJsonKey) == Some(EncodeDocker(c.auths))
    && IsManaged(s)
    && Find(s.annotations, StateAnnotationKey) == Some(EncodeState(c.states))
  }

  datatype Decision =
    | Leave
    | CreateWith(content: Content)
    | UpdateTo(observed: Secret, content: Content)
    | Remove(observed: Secret)

  /** The request a decision sends; an update carries the observed version. */
  function RequestOf(d: Decision): Option<Request> {
    match d
    case Leave => None
    case CreateWith(c) => Some(Create(ApplyContent(EmptySecret, c)))
    case UpdateTo(observed, c) => Some(Update(ApplyContent(observed, c)))
    case Remove(observed) => Some(Delete(observed.uid, observed.resourceVersion))
  }

  /** What to do in a namespace in scope or not, with the observed Secret and the payload built. */
  function Decide(inScope: bool, observed: Option<Secret>, content: Content, problems: set<Problem>): Decision {
    if !inScope then
      if observed.Some? && IsManaged(observed.value) then Remove(observed.value) else Leave
    else if observed.Some? && !IsManaged(observed.value) then
      Leave
    else if !content.HasAuth() then
      if problems == {} && observed.Some? then Remove(observed.value) else Leave
    else if observed.None? then
      CreateWith(content)
    else if SecretMatches(observed.value, content) then
      Leave
    else
      UpdateTo(observed.value, content)
  }

  function Apply(s: SecretServer, d: Decision): SecretServer {
    if RequestOf(d).None? then s else Handle(s, RequestOf(d).value)
  }

  /** Whether a reconciliation reports no error. A Secret already gone needs no deletion. */
  predicate Succeeds(s: SecretServer, inScope: bool, observed: Option<Secret>, d: Decision, problems: set<Problem>) {
    match d
    case Remove(_) => Accepts(s, RequestOf(d).value) || s.live.None?
    case Leave => !inScope || (observed.Some? && !IsManaged(observed.value)) || problems == {}
    case _ => Accepts(s, RequestOf(d).value) && problems == {}
  }

  /** Ownership conflicts already reported, by namespace. */
  class Syncer {
    var conflicts: map<string, nat>

    constructor ()
      ensures conflicts == map[]
    {
      conflicts := map[];
    }

    /** Deletes exactly the observed version. */
    method DeleteObserved(api: Api, observed: Secret) returns (ok: bool)
      modifies api
      ensures api.state == Apply(old(api.state), Remove(observed))
      ensures ok <==> Accepts(old(api.state), Delete(observed.uid, observed.resourceVersion)) || old(api.state.live).None?
    {
      var gone := api.state.live.None?;
      var deleted := api.Send(Delete(observed.uid, observed.resourceVersion));
      ok := deleted || gone;
    }

    /** The second half of the reconciliation, for a namespace in scope and no conflict. */
    method Converge(api: Api, observed: Option<Secret>, content: Content, problems: set<Problem>) returns (ok: bool)
      requires observed.Some? ==> IsManaged(observed.value)
      modifies api
      ensures api.state == Apply(old(api.state), Decide(true, observed, content, problems))
      ensures ok <==> Succeeds(old(api.state), true, observed, Decide(true, observed, content, problems), problems)
    {
      if !content.HasAuth() {
        if problems != {} {
          return false;
        }
        if observed.None? {
          return true;
        }
        ok := DeleteObserved(api, observed.value);
        return;
      }
      if observed.None? {
        var created := api.Send(Create(ApplyContent(EmptySecret, content)));
        return created && problems == {};
      }
      if SecretMatches(observed.value, content) {
        return problems == {};
      }
      var updated := api.Send(Update(ApplyContent(observed.value, content)));
      return updated && problems == {};
    }

    /**
     `SyncNamespaceSecret`, with the two objects as the cache gives them. Without a
     configuration nothing happens; a read that fails is an error that changes nothing; a
     namespace that is gone only loses its conflict mark. Otherwise the request sent is the one
     `Decide` takes on the payload of `Build`, and the event for a conflict is emitted once per
     conflicting object.
     */
    method SyncNamespaceSecret(api: Api, namespace: string, namespaceRead: Lookup<()>, snapshot: Option<ConfigurationSnapshot>,
                               credentials: Credentials, secretRead: Lookup<Secret>)
      returns (ok: bool, event: bool, ghost content: Content)
      requires snapshot.Some? ==> WellFormedRegistries(snapshot.value.registries)
      modifies this, api
      ensures snapshot.None? || namespaceRead.Unreadable? || (namespaceRead.Got? && secretRead.Unreadable?) ==>
                ok == snapshot.None? && !event && api.state == old(api.state) && conflicts == old(conflicts)
      ensures snapshot.Some? && namespaceRead.Missing? ==>
                ok && !event && api.state == old(api.state) && conflicts == old(conflicts) - {namespace}
      ensures snapshot.Some? && namespaceRead.Got? && !secretRead.Unreadable? ==>
                var registries, inScope := snapshot.value.registries, MatchesNamespace(snapshot.value, namespace);
                var observed := secretRead.Seen();
                var conflict := inScope && observed.Some? && !IsManaged(observed.value);
                var problems := RetentionProblems(registries, credentials, observed);
                var decision := Decide(inScope, observed, content, problems);
                && (inScope && !conflict ==> Buildable(registries, credentials, observed, content))
                && api.state == Apply(old(api.state), decision)
                && (ok <==> Succeeds(old(api.state), inScope, observed, decision, problems))
                && conflicts == (if conflict then old(conflicts)[namespace := observed.value.uid]
                                 else old(conflicts) - {namespace})
                && (event <==> conflict && Find(old(conflicts), namespace) != Some(observed.value.uid))
    {
      ok, event, content := true, false, Content(map[], map[]);
      if snapshot.None? {
        return;
      }
      if namespaceRead.Unreadable? {
        ok := false;
        return;
      }
      if namespaceRead.Missing? {
        conflicts := conflicts - {namespace};
        return;
      }
      if secretRead.Unreadable? {
        ok := false;
        return;
      }
      var registries, inScope := snapshot.value.registries, MatchesNamespace(snapshot.value, namespace);
      var observed := secretRead.Seen();
      if !inScope {
        conflicts := conflicts - {namespace};
        if observed.Some? && IsManaged(observed.value) {
          ok := DeleteObserved(api, observed.value);
        }
        return;
      }
      if observed.Some? && !IsManaged(observed.value) {
        event := !(namespace in conflicts && conflicts[namespace] == observed.value.uid);
        conflicts := conflicts[namespace := observed.value.uid];
        return;
      }
      conflicts := conflicts - {namespace};
      var built, problems := Build(registries, credentials, observed);
      content := built;
      ok := Converge(api, observed, built, problems);
    }
  }
}
