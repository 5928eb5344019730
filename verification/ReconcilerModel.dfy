/**
 internal/controller/configuration_reconciler.go as a function of what one reconciliation
 observes, and what holds over all sequences of observations.
 */
module ReconcilerModel {
  import opened Wrappers
  import opened ConfigTypes
  import opened ConfigStore
  import opened KubeRuntime
  import opened RuntimeLimits

  datatype Publication = Published | Failed | Canceled

  /** What a reconciliation of the fixed ConfigMap meets: a candidate if the ConfigMap parses. */
  datatype Observation =
    | GetCanceled
    | GetFailed
    | NotFound
    | Found(candidate: Option<ConfigurationSnapshot>, id: string, namespaces: Publication, serviceAccounts: Publication)

  /**
   One replica. `tuning` is absent without a runtime updater; `announced` remembers the
   configuration in force when both publications last completed in one reconciliation.
   */
  datatype Replica = Replica(
    current: Option<ConfigurationSnapshot>,
    valid: bool,
    tuning: Option<Tuning>,
    lastRejection: string,
    pendingFanout: bool,
    notifications: nat,
    announced: Option<ConfigurationSnapshot>)

  /** The configuration a reconciliation accepts, if any. */
  function Accepted(tuning: Option<Tuning>, o: Observation): Option<ConfigurationSnapshot> {
    if o.Found? && o.candidate.Some? && (tuning.Some? ==> Retuned(tuning.value, o.candidate.value.runtime).Some?)
    then o.candidate else None
  }

  predicate Completes(o: Observation) {
    o.Found? && o.namespaces.Published? && o.serviceAccounts.Published?
  }

  function Step(r: Replica, o: Observation): Replica {
    match Accepted(r.tuning, o)
    case Some(candidate) =>
      var current := Installed(r.current, candidate);
      var changed := BusinessChanges(r.current, candidate);
      var done := (r.pendingFanout || changed) && Completes(o);
      Replica(Some(current), true,
              if r.tuning.None? then None else Retuned(r.tuning.value, candidate.runtime),
              "", (r.pendingFanout || changed) && !done,
              if changed then r.notifications + 1 else r.notifications,
              if done then Some(current) else r.announced)
    case None =>
      if o.Found? then r.(valid := false, lastRejection := o.id)
      else if o.NotFound? then r.(valid := false, lastRejection := "missing")
      else r
  }

  /** A failure is returned when the ConfigMap cannot be read or a publication fails. */
  predicate Fails(r: Replica, o: Observation) {
    || o.GetFailed?
    || match Accepted(r.tuning, o)
       case None => false
       case Some(candidate) =>
         && (r.pendingFanout || BusinessChanges(r.current, candidate))
         && (o.namespaces.Failed? || (o.namespaces.Published? && o.serviceAccounts.Failed?))
  }

  function After(start: Replica, os: seq<Observation>): Replica {
    if os == [] then start else Step(After(start, os[..|os| - 1]), os[|os| - 1])
  }

  /** A replica that has not reconciled yet. */
  predicate Starting(r: Replica) {
    && r.current.None? && r.announced.None? && !r.pendingFanout && r.notifications == 0
    && (r.tuning.Some? ==> Tuned(r.tuning.value))
  }

  // Last known good

  /** The last accepted configuration. Tuning never changes what is accepted: the fallback is fixed. */
  function LastAccepted(tuning: Option<Tuning>, os: seq<Observation>): Option<ConfigurationSnapshot> {
    if os == [] then None
    else if Accepted(tuning, os[|os| - 1]).Some? then Accepted(tuning, os[|os| - 1])
    else LastAccepted(tuning, os[..|os| - 1])
  }

  /** How many accepted configurations differ from the one accepted before. */
  function SemanticChanges(tuning: Option<Tuning>, os: seq<Observation>): nat {
    if os == [] then 0
    else
      var rest := os[..|os| - 1];
      var accepted := Accepted(tuning, os[|os| - 1]);
      SemanticChanges(tuning, rest)
      + if accepted.Some? && Changes(LastAccepted(tuning, rest), accepted.value) then 1 else 0
  }

  function BusinessChangesIn(tuning: Option<Tuning>, os: seq<Observation>): nat {
    if os == [] then 0
    else
      var rest := os[..|os| - 1];
      var accepted := Accepted(tuning, os[|os| - 1]);
      BusinessChangesIn(tuning, rest)
      + if accepted.Some? && BusinessChanges(LastAccepted(tuning, rest), accepted.value) then 1 else 0
  }

  /** The tuning an accepted configuration leads to. */
  function TuningFor(startup: Tuning, last: Option<ConfigurationSnapshot>): Tuning {
    if last.None? then startup else Retuned(startup, last.value.runtime).GetOr(startup)
  }

  /** The stored snapshot is the candidate accepted last under a generation. */
  ghost predicate StoredAs(current: Option<ConfigurationSnapshot>, last: Option<ConfigurationSnapshot>, generation: nat) {
    current == if last.None? then None else Some(last.value.(generation := generation))
  }

  lemma InstalledIsStored(current: Option<ConfigurationSnapshot>, last: Option<ConfigurationSnapshot>, g: nat, c: ConfigurationSnapshot)
    requires StoredAs(current, last, g) && (last.None? ==> g == 0)
    ensures StoredAs(Some(Installed(current, c)), Some(c), if Changes(last, c) then g + 1 else g)
    ensures BusinessChanges(current, c) == BusinessChanges(last, c)
  {
  }

  lemma {:induction false} NothingAcceptedNothingChanged(tuning: Option<Tuning>, os: seq<Observation>)
    ensures LastAccepted(tuning, os).None? ==> SemanticChanges(tuning, os) == 0
  {
    if os != [] {
      NothingAcceptedNothingChanged(tuning, os[..|os| - 1]);
    }
  }

  predicate SameWorkers(a: Settings, b: Settings) {
    a.namespaceWorkers == b.namespaceWorkers && a.serviceAccountWorkers == b.serviceAccountWorkers
  }

  lemma TuningFollows(startup: Tuning, last: Option<ConfigurationSnapshot>, o: Observation)
    requires Tuned(startup)
    ensures var t := TuningFor(startup, last);
            && Tuned(t) && t.fallback == startup.fallback && SameWorkers(t.current, startup.current)
            && (Accepted(Some(t), o) == Accepted(Some(startup), o))
            && (Accepted(Some(t), o).Some? ==>
                  Retuned(t, Accepted(Some(t), o).value.runtime) == Some(TuningFor(startup, Accepted(Some(t), o))))
  {
  }

  /**
   Last known good: after any sequence of valid, invalid, missing and unreadable ConfigMaps
   the stored snapshot is the last accepted one, its generation counts semantic changes, and
   observers were notified of the business changes.
   */
  lemma {:induction false} LastKnownGood(start: Replica, os: seq<Observation>)
    requires Starting(start)
    ensures var r := After(start, os);
            && StoredAs(r.current, LastAccepted(start.tuning, os), SemanticChanges(start.tuning, os))
            && r.notifications == BusinessChangesIn(start.tuning, os)
  {
    if os != [] {
      var rest, o := os[..|os| - 1], os[|os| - 1];
      var r, last := After(start, rest), LastAccepted(start.tuning, rest);
      LastKnownGood(start, rest);
      LiveTuning(start, rest);
      if start.tuning.Some? {
        TuningFollows(start.tuning.value, last, o);
      }
      NothingAcceptedNothingChanged(start.tuning, rest);
      var accepted := Accepted(r.tuning, o);
      assert accepted == Accepted(start.tuning, o);
      if accepted.Some? {
        InstalledIsStored(r.current, last, SemanticChanges(start.tuning, rest), accepted.value);
      }
    }
  }

  /**
   The rate in force is what the last accepted configuration (or, before any, the startup
   configuration) asks for on top of the fallback; worker counts in force never change.
   */
  lemma {:induction false} LiveTuning(start: Replica, os: seq<Observation>)
    requires Starting(start)
    ensures var r := After(start, os);
            && (r.tuning.Some? <==> start.tuning.Some?)
            && (r.tuning.Some? ==> r.tuning.value == TuningFor(start.tuning.value, LastAccepted(start.tuning, os)))
            && (r.tuning.Some? ==> Tuned(r.tuning.value) && SameWorkers(r.tuning.value.current, start.tuning.value.current))
  {
    if os != [] {
      var rest, o := os[..|os| - 1], os[|os| - 1];
      LiveTuning(start, rest);
      if start.tuning.Some? {
        TuningFollows(start.tuning.value, LastAccepted(start.tuning, rest), o);
        TuningFollows(start.tuning.value, LastAccepted(start.tuning, os), o);
      }
    } else if start.tuning.Some? {
      TuningFollows(start.tuning.value, None, GetFailed);
    }
  }

  /**
   What the parser accepts the runtime accepts too: on a valid fallback a candidate with valid
   overrides is never rejected for its tuning, whatever came before.
   */
  lemma ParsedIsAccepted(start: Replica, os: seq<Observation>, o: Observation)
    requires Starting(start) && o.Found? && o.candidate.Some? && ValidOverrides(o.candidate.value.runtime)
    ensures Accepted(After(start, os).tuning, o) == o.candidate
  {
    LiveTuning(start, os);
    if start.tuning.Some? {
      ResolvedExactly(After(start, os).tuning.value.fallback, o.candidate.value.runtime);
    }
  }

  /** What an accepted configuration makes of the rate, in numbers. */
  lemma RateInForce(start: Replica, os: seq<Observation>)
    requires Starting(start) && start.tuning.Some? && LastAccepted(start.tuning, os).Some?
    ensures After(start, os).tuning.Some?
    ensures var t, o := After(start, os).tuning.value, LastAccepted(start.tuning, os).value.runtime;
            && t.current.qps == (if o.qps != 0.0 then o.qps else t.fallback.qps)
            && t.current.burst == (if o.burst != 0 then o.burst else t.fallback.burst)
            && ValidSettings(t.current)
  {
    LiveTuning(start, os);
    LastWasAccepted(start.tuning, os);
  }

  lemma {:induction false} LastWasAccepted(tuning: Option<Tuning>, os: seq<Observation>)
    ensures LastAccepted(tuning, os).Some? && tuning.Some? ==> Retuned(tuning.value, LastAccepted(tuning, os).value.runtime).Some?
  {
    if os != [] {
      LastWasAccepted(tuning, os[..|os| - 1]);
    }
  }

  /** The observations that were accepted. */
  function AcceptedOnly(tuning: Option<Tuning>, os: seq<Observation>): seq<Observation> {
    if os == [] then []
    else AcceptedOnly(tuning, os[..|os| - 1]) + if Accepted(tuning, os[|os| - 1]).Some? then [os[|os| - 1]] else []
  }

  lemma Appended(tuning: Option<Tuning>, os: seq<Observation>, o: Observation)
    ensures var accepted, last := Accepted(tuning, o), LastAccepted(tuning, os);
            && LastAccepted(tuning, os + [o]) == (if accepted.Some? then accepted else last)
            && SemanticChanges(tuning, os + [o]) ==
                 SemanticChanges(tuning, os) + (if accepted.Some? && Changes(last, accepted.value) then 1 else 0)
            && BusinessChangesIn(tuning, os + [o]) ==
                 BusinessChangesIn(tuning, os) + (if accepted.Some? && BusinessChanges(last, accepted.value) then 1 else 0)
  {
    hide Changes, BusinessChanges, Accepted;
    assert (os + [o])[..|os + [o]| - 1] == os;
  }

  lemma FilteredOneMore(tuning: Option<Tuning>, os: seq<Observation>, o: Observation)
    ensures AcceptedOnly(tuning, os + [o]) ==
            if Accepted(tuning, o).Some? then AcceptedOnly(tuning, os) + [o] else AcceptedOnly(tuning, os)
  {
    hide Accepted;
    assert (os + [o])[..|os + [o]| - 1] == os;
    assert AcceptedOnly(tuning, os) + [] == AcceptedOnly(tuning, os);
  }

  lemma {:induction false} FilteringKeeps(tuning: Option<Tuning>, os: seq<Observation>)
    ensures LastAccepted(tuning, AcceptedOnly(tuning, os)) == LastAccepted(tuning, os)
    ensures SemanticChanges(tuning, AcceptedOnly(tuning, os)) == SemanticChanges(tuning, os)
    ensures BusinessChangesIn(tuning, AcceptedOnly(tuning, os)) == BusinessChangesIn(tuning, os)
  {
    if os != [] {
      hide Changes, BusinessChanges, Accepted, LastAccepted, SemanticChanges, BusinessChangesIn, AcceptedOnly;
      var rest, o := os[..|os| - 1], os[|os| - 1];
      FilteringKeeps(tuning, rest);
      FilteredOneMore(tuning, rest, o);
      Appended(tuning, rest, o);
      Appended(tuning, AcceptedOnly(tuning, rest), o);
      assert os == rest + [o];
    }
  }

  /** Path independence: rejected, missing and unreadable ConfigMaps might as well not have been. */
  lemma RejectionsLeaveNoTrace(start: Replica, os: seq<Observation>)
    requires Starting(start)
    ensures var r, clean := After(start, os), After(start, AcceptedOnly(start.tuning, os));
            r.current == clean.current && r.tuning == clean.tuning && r.notifications == clean.notifications
  {
    LastKnownGood(start, os);
    LastKnownGood(start, AcceptedOnly(start.tuning, os));
    LiveTuning(start, os);
    LiveTuning(start, AcceptedOnly(start.tuning, os));
    FilteringKeeps(start.tuning, os);
  }

  /** The last time the ConfigMap was read, or found missing. */
  function LastRead(os: seq<Observation>): Option<Observation> {
    if os == [] then None
    else if os[|os| - 1].Found? || os[|os| - 1].NotFound? then Some(os[|os| - 1])
    else LastRead(os[..|os| - 1])
  }

  /** The configuration counts as valid exactly if the ConfigMap, when last read, was accepted. */
  lemma {:induction false} ValidityIsOfTheLastRead(start: Replica, os: seq<Observation>)
    requires Starting(start)
    ensures var last := LastRead(os);
            After(start, os).valid <==> if last.None? then start.valid else Accepted(start.tuning, last.value).Some?
  {
    if os != [] {
      var rest, o := os[..|os| - 1], os[|os| - 1];
      ValidityIsOfTheLastRead(start, rest);
      LiveTuning(start, rest);
      if start.tuning.Some? {
        TuningFollows(start.tuning.value, LastAccepted(start.tuning, rest), o);
      }
    }
  }

  // Fan-out

  /** The `i`-th observation changed what Secrets or ServiceAccounts depend on. */
  predicate ChangesAt(start: Replica, os: seq<Observation>, i: nat)
    requires i < |os|
  {
    var before := After(start, os[..i]);
    Accepted(before.tuning, os[i]).Some? && BusinessChanges(before.current, Accepted(before.tuning, os[i]).value)
  }

  /** The `i`-th reconciliation published all Namespaces and all ServiceAccounts. */
  predicate CompletesAt(start: Replica, os: seq<Observation>, i: nat)
    requires i < |os|
  {
    var before := After(start, os[..i]);
    Accepted(before.tuning, os[i]).Some? && (before.pendingFanout || ChangesAt(start, os, i)) && Completes(os[i])
  }

  /** A change no complete fan-out has followed. */
  ghost predicate Unannounced(start: Replica, os: seq<Observation>) {
    exists i | 0 <= i < |os| :: ChangesAt(start, os, i) && forall j | i <= j < |os| :: !CompletesAt(start, os, j)
  }

  lemma PrefixesAgree(start: Replica, os: seq<Observation>, i: nat)
    requires i < |os| - 1
    ensures ChangesAt(start, os[..|os| - 1], i) == ChangesAt(start, os, i)
    ensures CompletesAt(start, os[..|os| - 1], i) == CompletesAt(start, os, i)
  {
    assert os[..|os| - 1][..i] == os[..i];
  }

  lemma UnannouncedStep(start: Replica, os: seq<Observation>)
    requires os != []
    ensures var n := |os| - 1;
            Unannounced(start, os) <==> (Unannounced(start, os[..n]) || ChangesAt(start, os, n)) && !CompletesAt(start, os, n)
  {
    hide ChangesAt, CompletesAt;
    var n := |os| - 1;
    forall i | 0 <= i < n
      ensures ChangesAt(start, os[..n], i) == ChangesAt(start, os, i)
      ensures CompletesAt(start, os[..n], i) == CompletesAt(start, os, i)
    {
      PrefixesAgree(start, os, i);
    }
    if Unannounced(start, os) {
      var i :| 0 <= i < |os| && ChangesAt(start, os, i) && forall j | i <= j < |os| :: !CompletesAt(start, os, j);
      if i < n {
        assert ChangesAt(start, os[..n], i);
      }
    }
    if Unannounced(start, os[..n]) && !CompletesAt(start, os, n) {
      var i :| 0 <= i < n && ChangesAt(start, os[..n], i) && forall j | i <= j < n :: !CompletesAt(start, os[..n], j);
      assert ChangesAt(start, os, i);
    }
  }

  /**
   Fan-out is not lost: `pendingFanout` holds exactly if some business change has not been
   followed by one reconciliation that completed both publications; and when it does not
   hold, what was last announced in full is, apart from tuning, the configuration in force.
   */
  lemma {:induction false} FanoutIsNotLost(start: Replica, os: seq<Observation>)
    requires Starting(start)
    ensures var r := After(start, os);
            && (r.pendingFanout <==> Unannounced(start, os))
            && (!r.pendingFanout && r.current.Some? ==> r.announced.Some? && r.announced.value.BusinessEqual(r.current.value))
  {
    if os != [] {
      var n := |os| - 1;
      FanoutIsNotLost(start, os[..n]);
      UnannouncedStep(start, os);
      assert os[..n] == os[..|os| - 1];
    }
  }

  /** Fan-out is not repeated: a complete fan-out always announces a change not announced before. */
  lemma FanoutIsNotRepeated(start: Replica, os: seq<Observation>, j: nat)
    requires Starting(start) && j < |os| && CompletesAt(start, os, j)
    ensures exists i | 0 <= i <= j :: ChangesAt(start, os, i) && forall m | i <= m < j :: !CompletesAt(start, os, m)
  {
    FanoutIsNotLost(start, os[..j]);
    if !ChangesAt(start, os, j) {
      var i :| 0 <= i < j && ChangesAt(start, os[..j], i) && forall m | i <= m < j :: !CompletesAt(start, os[..j], m);
      forall m | 0 <= m < j ensures ChangesAt(start, os[..j], m) == ChangesAt(start, os, m) && CompletesAt(start, os[..j], m) == CompletesAt(start, os, m) {
        assert os[..j][..m] == os[..m];
      }
      assert ChangesAt(start, os, i);
    }
  }

  /** The fan-out was given up for now: there is nothing to announce it with, or no time. */
  predicate GivenUp(r: Replica, o: Observation) {
    || o.NotFound? || o.GetCanceled?
    || (o.Found? && Accepted(r.tuning, o).None?)
    || (o.Found? && (o.namespaces.Canceled? || (o.namespaces.Published? && o.serviceAccounts.Canceled?)))
  }

  /**
   A reconciliation reports a failure, and is hence retried, exactly if the ConfigMap cannot be
   read, or a fan-out stays pending that was not given up for a missing or rejected ConfigMap or
   a cancelled context.
   */
  lemma SilenceMeansDone(r: Replica, o: Observation)
    ensures Fails(r, o) <==> o.GetFailed? || (Step(r, o).pendingFanout && !GivenUp(r, o))
  {
  }

  /**
   Tuning is no news: an accepted configuration with the selectors, exclusions and registries in
   force notifies nobody, begins no fan-out and reports no failure of one, and gets a new
   generation exactly if its tuning differs; one that differs in any of them notifies once, and
   its fan-out completes or is pending.
   */
  lemma TuningIsNoNews(r: Replica, o: Observation)
    requires r.current.Some? && Accepted(r.tuning, o).Some?
    ensures var a, b, t := r.current.value, Accepted(r.tuning, o).value, Step(r, o);
            var same := a.namespaces == b.namespaces && a.excludedNamespaces == b.excludedNamespaces
                        && a.serviceAccounts == b.serviceAccounts && a.registries == b.registries;
            && t.notifications == r.notifications + (if same then 0 else 1)
            && t.current == Some(if same && a.runtime == b.runtime then a else b.(generation := a.generation + 1))
            && (same && !r.pendingFanout ==> !t.pendingFanout && t.announced == r.announced && !Fails(r, o))
            && (!same || r.pendingFanout ==>
                  if o.namespaces.Published? && o.serviceAccounts.Published? then !t.pendingFanout && t.announced == t.current
                  else t.pendingFanout && t.announced == r.announced)
  {
  }

  /**
   A rejection is remembered, so that it raises its event once: what is remembered is the version
   rejected at the last read, or that the ConfigMap was missing, or nothing after an acceptance.
   */
  lemma {:induction false} RejectionIsOfTheLastRead(start: Replica, os: seq<Observation>)
    requires Starting(start)
    ensures After(start, os).lastRejection ==
            match LastRead(os)
            case None => start.lastRejection
            case Some(o) => if !o.Found? then "missing" else if Accepted(start.tuning, o).None? then o.id else ""
  {
    if os != [] {
      var rest, o := os[..|os| - 1], os[|os| - 1];
      RejectionIsOfTheLastRead(start, rest);
      LiveTuning(start, rest);
      if start.tuning.Some? {
        TuningFollows(start.tuning.value, LastAccepted(start.tuning, rest), o);
      }
    }
  }
}
