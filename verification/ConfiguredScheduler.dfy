/**
 The configuration reconciler and the scheduler in one process. A reconciliation that accepts
 a business change is the configuration writer's `ApplyConfig` followed, with the scheduler
 running on in between, by its `Notify`; every other reconciliation, a change of tuning
 included, is neither. So what is proved of the scheduler's runs holds of observed ConfigMaps.
 */
module ConfiguredScheduler {
  import opened Wrappers
  import opened ConfigTypes
  import opened CredentialTypes
  import opened SchedulerModel
  import opened SchedulerSafety
  import opened SchedulerTurns
  import ConfigStore
  import R = ReconcilerModel

  /** Between reconciliations the scheduler reads the registries of the stored snapshot. */
  predicate Agree(r: R.Replica, s: System) {
    !s.announcing && s.core.config == if r.current.Some? then Some(r.current.value.registries) else None
  }

  /** A step that is not the configuration writer's. */
  predicate SchedulerStep(step: Step) {
    !step.ApplyConfig? && !step.Notify?
  }

  predicate SchedulerSteps(steps: seq<Step>) {
    forall i | 0 <= i < |steps| :: SchedulerStep(steps[i])
  }

  /** The scheduler steps, or a reconciliation observes something while the scheduler runs on. */
  datatype Event = Elsewhere(step: Step) | Reconciliation(observed: R.Observation, meanwhile: seq<Step>)

  /** The candidate that changes what Secrets and ServiceAccounts depend on, if there is one. */
  function Change(r: R.Replica, o: R.Observation): Option<ConfigurationSnapshot> {
    var accepted := R.Accepted(r.tuning, o);
    if accepted.Some? && ConfigStore.BusinessChanges(r.current, accepted.value) then accepted else None
  }

  /** The system's steps during an event. */
  function StepsOf(r: R.Replica, e: Event): seq<Step> {
    match e
    case Elsewhere(step) => [step]
    case Reconciliation(o, meanwhile) =>
      if Change(r, o).Some? then [ApplyConfig(Change(r, o).value.registries)] + (meanwhile + [Notify]) else meanwhile
  }

  function ReplicaAfter(r: R.Replica, e: Event): R.Replica {
    if e.Reconciliation? then R.Step(r, e.observed) else r
  }

  /** The scheduler can do its part, and a candidate has what the parser guarantees. */
  predicate Occurs(r: R.Replica, s: System, e: Event) {
    match e
    case Elsewhere(step) => SchedulerStep(step) && Enabled(s, step)
    case Reconciliation(o, meanwhile) =>
      && (o.Found? && o.candidate.Some? ==> WellFormedRegistries(o.candidate.value.registries))
      && SchedulerSteps(meanwhile)
      && Runs(if Change(r, o).Some? then s.(core := s.core.(config := Some(Change(r, o).value.registries)), announcing := true)
              else s, meanwhile)
  }

  lemma SchedulerStepKeeps(s: System, step: Step)
    requires SchedulerStep(step) && Enabled(s, step)
    ensures Next(s, step).announcing == s.announcing && Next(s, step).core.config == s.core.config
  {
    StepKeepsConfiguration(s, step);
    hide Act, CellOf;
  }

  lemma {:induction false} SchedulerStepsKeep(s: System, steps: seq<Step>)
    requires SchedulerSteps(steps) && Runs(s, steps)
    ensures Final(s, steps).announcing == s.announcing && Final(s, steps).core.config == s.core.config
    decreases |steps|
  {
    hide Enabled, Next;
    if steps != [] {
      assert SchedulerStep(steps[0]);
      SchedulerStepKeeps(s, steps[0]);
      SchedulerStepsKeep(Next(s, steps[0]), steps[1..]);
    }
  }

  /** A reconciliation without a business change leaves the registries as they are. */
  lemma NoChangeNoNews(r: R.Replica, o: R.Observation)
    requires Change(r, o).None?
    ensures var t := R.Step(r, o);
            && t.notifications == r.notifications
            && (t.current.Some? <==> r.current.Some?)
            && (r.current.Some? ==> t.current.value.registries == r.current.value.registries)
  {
  }

  lemma ChangeIsInstalled(r: R.Replica, o: R.Observation)
    requires Change(r, o).Some?
    ensures var t := R.Step(r, o);
            && t.notifications == r.notifications + 1
            && t.current.Some? && t.current.value.registries == Change(r, o).value.registries
            && o.Found? && o.candidate == Change(r, o)
  {
  }

  /** How often the scheduler is notified. */
  function Notifications(steps: seq<Step>): nat {
    if steps == [] then 0 else Notifications(steps[1..]) + if steps[0].Notify? then 1 else 0
  }

  lemma {:induction false} NotificationsConcat(a: seq<Step>, b: seq<Step>)
    ensures Notifications(a + b) == Notifications(a) + Notifications(b)
  {
    if a == [] {
      assert a + b == b;
    } else {
      NotificationsConcat(a[1..], b);
      assert (a + b)[1..] == a[1..] + b;
    }
  }

  lemma {:induction false} SchedulerStepsNotifyNot(steps: seq<Step>)
    requires SchedulerSteps(steps)
    ensures Notifications(steps) == 0
  {
    if steps != [] {
      assert SchedulerStep(steps[0]);
      SchedulerStepsNotifyNot(steps[1..]);
    }
  }

  /** The steps during an event are a run of the system, and keep the agreement. */
  lemma EventIsRun(r: R.Replica, s: System, e: Event)
    requires Agree(r, s) && Occurs(r, s, e)
    ensures Runs(s, StepsOf(r, e)) && Agree(ReplicaAfter(r, e), Final(s, StepsOf(r, e)))
    ensures ReplicaAfter(r, e).notifications == r.notifications + Notifications(StepsOf(r, e))
  {
    hide WellFormedRegistries, Change;
    match e
    case Elsewhere(step) =>
      SchedulerStepKeeps(s, step);
      RunsCons(s, step, []);
      assert [step] + [] == [step];
    case Reconciliation(o, meanwhile) =>
      SchedulerStepsNotifyNot(meanwhile);
      if Change(r, o).Some? {
        ChangeIsInstalled(r, o);
        ChangeIsRun(r, s, Change(r, o).value.registries, meanwhile);
      } else {
        NoChangeNoNews(r, o);
        SchedulerStepsKeep(s, meanwhile);
      }
  }

  lemma ChangeIsRun(r: R.Replica, s: System, registries: Registries, meanwhile: seq<Step>)
    requires !s.announcing && WellFormedRegistries(registries) && SchedulerSteps(meanwhile)
    requires Runs(s.(core := s.core.(config := Some(registries)), announcing := true), meanwhile)
    ensures var steps := [ApplyConfig(registries)] + (meanwhile + [Notify]);
            && Runs(s, steps) && Notifications(steps) == 1
            && !Final(s, steps).announcing && Final(s, steps).core.config == Some(registries)
  {
    var applied := s.(core := s.core.(config := Some(registries)), announcing := true);
    assert Next(s, ApplyConfig(registries)) == applied;
    SchedulerStepsKeep(applied, meanwhile);
    var last := Final(applied, meanwhile);
    RunsCons(last, Notify, []);
    assert [Notify] + [] == [Notify];
    RunsConcat(applied, meanwhile, [Notify]);
    RunsCons(s, ApplyConfig(registries), meanwhile + [Notify]);
    NotificationsConcat(meanwhile, [Notify]);
    SchedulerStepsNotifyNot(meanwhile);
    assert ([ApplyConfig(registries)] + (meanwhile + [Notify]))[1..] == meanwhile + [Notify];
    assert Notifications([Notify]) == 1;
  }

  // Whole runs

  ghost predicate Happen(r: R.Replica, s: System, events: seq<Event>)
    requires Agree(r, s)
    decreases |events|
  {
    events == []
    || (&& Occurs(r, s, events[0])
        && (EventIsRun(r, s, events[0]);
            Happen(ReplicaAfter(r, events[0]), Final(s, StepsOf(r, events[0])), events[1..])))
  }

  function StepsOfAll(r: R.Replica, events: seq<Event>): seq<Step>
    decreases |events|
  {
    if events == [] then [] else StepsOf(r, events[0]) + StepsOfAll(ReplicaAfter(r, events[0]), events[1..])
  }

  function Observed(events: seq<Event>): seq<R.Observation> {
    if events == [] then []
    else if events[0].Reconciliation? then [events[0].observed] + Observed(events[1..])
    else Observed(events[1..])
  }

  lemma {:induction false} AfterCons(r: R.Replica, o: R.Observation, os: seq<R.Observation>)
    ensures R.After(r, [o] + os) == R.After(R.Step(r, o), os)
  {
    hide R.Step;
    if os == [] {
      assert [o] + os == [o] && [o][..0] == [];
      assert R.After(r, [o]) == R.Step(R.After(r, []), o);
    } else {
      AfterCons(r, o, os[..|os| - 1]);
      assert ([o] + os)[..|os|] == [o] + os[..|os| - 1];
    }
  }

  /** Reconciliations and scheduler together are a run of the scheduler's system. */
  lemma {:induction false} TogetherIsRun(r: R.Replica, s: System, events: seq<Event>)
    requires Agree(r, s) && Happen(r, s, events)
    ensures Runs(s, StepsOfAll(r, events))
    ensures Agree(R.After(r, Observed(events)), Final(s, StepsOfAll(r, events)))
    ensures R.After(r, Observed(events)).notifications == r.notifications + Notifications(StepsOfAll(r, events))
    decreases |events|
  {
    hide Agree, Occurs, StepsOf, R.Step, Enabled, Next;
    if events != [] {
      var e := events[0];
      var r', steps := ReplicaAfter(r, e), StepsOf(r, e);
      EventIsRun(r, s, e);
      TogetherIsRun(r', Final(s, steps), events[1..]);
      RunsConcat(s, steps, StepsOfAll(r', events[1..]));
      NotificationsConcat(steps, StepsOfAll(r', events[1..]));
      if e.Reconciliation? {
        AfterCons(r, e.observed, Observed(events[1..]));
      }
    }
  }

  /**
   No observed change is lost by coalescing: after any sequence of ConfigMaps and any run of
   the scheduler around them, the main loop knows the registries of the last accepted
   configuration, or another reconciliation with it is ahead.
   */
  lemma LastAcceptedIsKnownOrAhead(r: R.Replica, options: Options, workers: nat, now: Time, events: seq<Event>)
    requires R.Starting(r) && Happen(r, Init(options, workers, now), events)
    ensures var s0, os := Init(options, workers, now), Observed(events);
            && Runs(s0, StepsOfAll(r, events))
            && var s, last := Final(s0, StepsOfAll(r, events)), R.LastAccepted(r.tuning, os);
               && (last.Some? ==> s.core.config == Some(last.value.registries))
               && (last.Some? ==> s.core.known == last.value.registries || ReconcileAhead(s))
               && Notifications(StepsOfAll(r, events)) == R.BusinessChangesIn(r.tuning, os)
  {
    hide Happen, StepsOfAll;
    var s0, os := Init(options, workers, now), Observed(events);
    TogetherIsRun(r, s0, events);
    R.LastKnownGood(r, os);
    CoalescingLosesNoChange(options, workers, now, StepsOfAll(r, events));
  }
}
