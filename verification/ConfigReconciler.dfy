/**
 The ConfigurationReconciler of internal/controller/configuration_reconciler.go with its
 store, its runtime updater and the parser.
 */
module ConfigReconciler {
  import opened Wrappers
  import opened ConfigTypes
  import opened ConfigParser
  import opened ConfigStore
  import opened KubeRuntime
  import opened ReconcilerModel
  import Parser

  /** What reading the fixed ConfigMap gives. */
  datatype Read = ReadCanceled | ReadFailed | Absent | Present(data: Parser.Data, uid: string, resourceVersion: string)

  /** The snapshot a ConfigMap means, if it is acceptable. */
  ghost function Meaning(data: Parser.Data, decoders: Decoders): (m: Option<ConfigurationSnapshot>)
    ensures m.Some? ==> Parser.DataAccepted(data, decoders) && Parser.Means(data, decoders, m.value)
  {
    if Parser.DataAccepted(data, decoders) && exists s :: Parser.Means(data, decoders, s) then
      var s :| Parser.Means(data, decoders, s);
      Some(s)
    else
      None
  }

  ghost function Observe(read: Read, decoders: Decoders, namespaces: Publication, serviceAccounts: Publication): Observation {
    match read
    case ReadCanceled => GetCanceled
    case ReadFailed => GetFailed
    case Absent => NotFound
    case Present(data, uid, resourceVersion) =>
      Found(Meaning(data, decoders), uid + "/" + resourceVersion, namespaces, serviceAccounts)
  }

  lemma NothingObserved(r: Replica)
    ensures Step(r, GetCanceled) == Step(r, GetFailed) == r && !Fails(r, GetCanceled) && Fails(r, GetFailed)
    ensures Step(r, NotFound) == r.(valid := false, lastRejection := "missing") && !Fails(r, NotFound)
  {
  }

  class Reconciler {
    const store: Store
    const runtime: Runtime?
    const decoders: Decoders
    var lastRejection: string
    var pendingFanout: bool
    var notifications: nat
    ghost var announced: Option<ConfigurationSnapshot>

    constructor (store: Store, runtime: Runtime?, decoders: Decoders)
      requires store.current.None? && (runtime != null ==> runtime.Valid())
      ensures this.store == store && this.runtime == runtime && this.decoders == decoders
      ensures Valid() && Starting(State())
    {
      this.store, this.runtime, this.decoders := store, runtime, decoders;
      lastRejection, pendingFanout, notifications, announced := "", false, 0, None;
    }

    ghost predicate Valid()
      reads this, runtime
    {
      runtime != null ==> runtime.Valid()
    }

    ghost function State(): Replica
      reads this, store, runtime
    {
      Replica(store.current, store.valid, if runtime == null then None else Some(runtime.State()),
              lastRejection, pendingFanout, notifications, announced)
    }

    /**
     `Reconcile` of the fixed ConfigMap, given what reading it and publishing would yield.
     A rejected version raises its event once.
     */
    method Reconcile(read: Read, namespaces: Publication, serviceAccounts: Publication) returns (failed: bool, event: bool)
      requires Valid()
      modifies this, store, runtime
      ensures Valid()
      ensures State() == Step(old(State()), Observe(read, decoders, namespaces, serviceAccounts))
      ensures failed <==> Fails(old(State()), Observe(read, decoders, namespaces, serviceAccounts))
      ensures event <==> read.Present? && !store.valid && old(lastRejection) != read.uid + "/" + read.resourceVersion
      ensures read.Present? ==> lastRejection == if store.valid then "" else read.uid + "/" + read.resourceVersion
    {
      hide Meaning, Step, Fails;
      failed, event := false, false;
      match read
      case ReadCanceled =>
        NothingObserved(State());
        return;
      case ReadFailed =>
        NothingObserved(State());
        failed := true;
        return;
      case Absent =>
        NothingObserved(State());
        store.MarkInvalid();
        lastRejection := "missing";
        return;
      case Present(data, uid, resourceVersion) =>
        var candidate := ParseCandidate(data);
        failed, event := Consider(candidate, uid + "/" + resourceVersion, namespaces, serviceAccounts);
    }

    /** The ConfigMap was read: its candidate is accepted or rejected. */
    method Consider(candidate: Option<ConfigurationSnapshot>, rejection: string, namespaces: Publication, serviceAccounts: Publication)
      returns (failed: bool, event: bool)
      requires Valid()
      modifies this, store, runtime
      ensures Valid()
      ensures State() == Step(old(State()), Found(candidate, rejection, namespaces, serviceAccounts))
      ensures failed <==> Fails(old(State()), Found(candidate, rejection, namespaces, serviceAccounts))
      ensures event <==> !store.valid && old(lastRejection) != rejection
      ensures lastRejection == if store.valid then "" else rejection
    {
      hide Resolved, Tuned, Installed, BusinessChanges;
      failed, event := false, false;
      var accepted := candidate.Some?;
      if accepted && runtime != null {
        accepted := runtime.Apply(candidate.value.runtime);
      }
      if !accepted {
        store.MarkInvalid();
        if lastRejection != rejection {
          event := true;
          lastRejection := rejection;
        }
        return;
      }
      lastRejection := "";
      failed := Install(candidate.value, namespaces, serviceAccounts);
    }

    method ParseCandidate(data: Parser.Data) returns (candidate: Option<ConfigurationSnapshot>)
      ensures candidate == Meaning(data, decoders)
    {
      var parsed := Parser.Parse(data, decoders);
      if parsed.Failure? {
        return None;
      }
      assert Parser.Means(data, decoders, parsed.value);
      Parser.MeaningIsUnique(data, decoders, parsed.value, Meaning(data, decoders).value);
      candidate := Some(parsed.value);
    }

    /** Installs an accepted configuration and fans it out if it, or an earlier one, needs it. */
    method Install(candidate: ConfigurationSnapshot, namespaces: Publication, serviceAccounts: Publication) returns (failed: bool)
      modifies this`pendingFanout, this`notifications, this`announced, store
      ensures store.valid && store.current == Some(Installed(old(store.current), candidate))
      ensures var changed := BusinessChanges(old(store.current), candidate);
              var due := old(pendingFanout) || changed;
              var done := due && namespaces.Published? && serviceAccounts.Published?;
              && notifications == (if changed then old(notifications) + 1 else old(notifications))
              && pendingFanout == (due && !done)
              && announced == (if done then store.current else old(announced))
              && (failed <==> due && (namespaces.Failed? || (namespaces.Published? && serviceAccounts.Failed?)))
    {
      var result := store.Apply(candidate);
      if result.businessChanged {
        pendingFanout := true;
        notifications := notifications + 1;
      }
      if !pendingFanout {
        return false;
      }
      if !namespaces.Published? {
        return namespaces.Failed?;
      }
      if !serviceAccounts.Published? {
        return serviceAccounts.Failed?;
      }
      pendingFanout := false;
      announced := store.current;
      failed := false;
    }
  }
}
