/**
 From the start of the scheduler a lost refresh and a lost rotation are within reach, for every
 registry and any number of workers, and they last: every notification is received, every
 reconciliation done, and still the key has no work, or nothing but its far timer.
 */
module SchedulerTraces {
  import opened Wrappers
  import opened ConfigTypes
  import opened CredentialTypes
  import opened SchedulerModel
  import opened SchedulerBase
  import opened SchedulerSafety
  import opened SchedulerPromises
  import opened SchedulerTurns
  import opened SchedulerLosses

  /** `t` can be reached from `s`. */
  ghost predicate Reaches(s: System, t: System) {
    exists steps :: Runs(s, steps) && Final(s, steps) == t
  }

  lemma ReachesNot(s: System)
    ensures Reaches(s, s)
  {
    assert Runs(s, []) && Final(s, []) == s;
  }

  lemma ReachesOn(s: System, t: System, u: System)
    requires Reaches(s, t) && Reaches(t, u)
    ensures Reaches(s, u)
  {
    hide Runs, Final;
    var a :| Runs(s, a) && Final(s, a) == t;
    var b :| Runs(t, b) && Final(t, b) == u;
    RunsConcat(s, a, b);
  }

  lemma ReachesStep(s: System, t: System, step: Step)
    requires Reaches(s, t) && Enabled(t, step)
    ensures Reaches(s, Next(t, step))
  {
    hide Enabled, Next, Reaches;
    RunsCons(t, step, []);
    assert Reaches(t, Next(t, step)) by {
      ByRun(t, [step] + []);
    }
    ReachesOn(s, t, Next(t, step));
  }

  lemma ByRun(s: System, steps: seq<Step>)
    requires Runs(s, steps)
    ensures Reaches(s, Final(s, steps))
  {
  }

  lemma {:induction false} SeriesReaches(s: System, configs: seq<Registries>, u: System, wake: bool)
    requires Series(s, configs, u, wake)
    ensures Reaches(s, u)
    decreases |configs|
  {
    hide Runs, Final, Enabled, Next;
    if configs != [] {
      var step := ApplyConfig(configs[0]);
      var t :| Works(s, t, wake) && Enabled(t, step) && Series(Next(t, step), configs[1..], u, wake);
      SeriesReaches(Next(t, step), configs[1..], u, wake);
      ReachesStep(s, t, step);
      ReachesOn(s, Next(t, step), u);
    }
  }

  // The opening

  function Only(k: RegistryKey, registry: Option<RegistryConfig>): Registries {
    if registry.Some? then map[k := registry.value] else map[]
  }

  /** One step of an opening: it keeps everything the losses start from. */
  lemma OpeningStep(s0: System, s: System, step: Step, k: RegistryKey) returns (t: System)
    requires Reaches(s0, s) && Sound(s) && Kept(NoLostRefresh, k, s) && Enabled(s, step) && Harmless(NoLostRefresh, k, s, step)
    ensures t == Next(s, step) && Reaches(s0, t) && Sound(t) && Kept(NoLostRefresh, k, t)
  {
    hide Reaches, Kept, Base, Harmless;
    t := Next(s, step);
    ReachesStep(s0, s, step);
    StepKeepsBase(s, step);
    StepKeepsNoZeroes(s, step);
    HarmlessStepKeeps(NoLostRefresh, k, s, step);
  }

  /** The first configuration is announced, and the scheduler starts and reconciles. */
  lemma Opening(o: Options, workers: nat, now: Time, registry: RegistryConfig) returns (s: System)
    requires ValidOptions(o) && registry.domains != []
    ensures Reaches(Init(o, workers, now), s) && Sound(s) && Alive(s, registry.Key())
    ensures s.core.known == Only(registry.Key(), Some(registry)) && s.core.config == Some(Only(registry.Key(), Some(registry)))
    ensures s.main.Waiting? && s.options == o && |s.workers| == workers
  {
    hide Reaches, Sound, Kept;
    var k, s0 := registry.Key(), Init(o, workers, now);
    ReachesNot(s0);
    InitKeeps(NoLostRefresh, k, o, workers, now);
    assert Sound(s0) by {
      InitIsSound(o, workers, now);
    }
    s := OpeningStep(s0, s0, ApplyConfig(Only(k, Some(registry))), k);
    s := OpeningStep(s0, s, Notify, k);
    s := OpeningStep(s0, s, Start, k);
    s := OpeningStep(s0, s, Reconcile, k);
    KeptIsAlive(s, k);
  }

  lemma InitIsSound(o: Options, workers: nat, now: Time)
    requires ValidOptions(o)
    ensures Sound(Init(o, workers, now))
  {
    InitIsBase(o, workers, now);
  }

  // The end

  /** Everything announced is received and reconciled. */
  predicate Quiet(s: System) {
    s.core.known == Configured(s.core) && !ReconcileAhead(s)
  }

  /** A reconciliation of a key whose AK/SK is agreed on changes nothing it can see. */
  lemma ReconciledView(s: System, k: RegistryKey)
    requires Enabled(s, Reconcile) && k in Configured(s.core) && k in s.core.known
    requires SameAuthentication(Configured(s.core)[k], s.core.known[k])
    ensures var t := Next(s, Reconcile);
            ViewOf(t, k) == ViewOf(s, k).(cell := CellOf(s.core, k).(known := CellOf(s.core, k).config))
  {
    ReconcileCells(s.core, k);
    StillOwed(s, Next(s, Reconcile), k);
  }

  /** With nothing but notifications and reconciliations ahead, a key whose AK/SK is agreed on sees no change. */
  lemma Quieted(s0: System, s: System, k: RegistryKey) returns (t: System)
    requires Reaches(s0, s) && MainRuns(s) && s.announcing
    requires k in Configured(s.core) && k in s.core.known && SameAuthentication(Configured(s.core)[k], s.core.known[k])
    ensures Reaches(s0, t) && Quiet(t) && Configured(t.core) == Configured(s.core)
    ensures ViewOf(t, k) == ViewOf(s, k).(cell := CellOf(s.core, k).(known := CellOf(s.core, k).config))
  {
    hide Reaches, ReconcileConfiguration;
    var a := Next(s, Notify);
    ReachesStep(s0, s, Notify);
    StillOwed(s, a, k);
    if a.main.Reconciling? {
      ReconciledView(a, k);
      KnownIsConfigured(a);
      ReachesStep(s0, a, Reconcile);
      a := Next(a, Reconcile);
      assert Find(a.core.known, k) == Find(Configured(a.core), k) == CellOf(a.core, k).known;
    }
    var b := Next(a, Receive);
    ReachesStep(s0, a, Receive);
    StillOwed(a, b, k);
    ReconciledView(b, k);
    t := Next(b, Reconcile);
    ReachesStep(s0, b, Reconcile);
    KnownIsConfigured(b);
  }

  lemma KnownIsConfigured(s: System)
    requires s.core.config.Some?
    ensures ReconcileConfiguration(s.core).known == Configured(s.core)
    ensures ReconcileConfiguration(s.core).config == s.core.config
  {
  }

  /**
   A registry that is removed and re-added between two reconciliations can end up configured
   and known to the main loop, with every reconciliation done, and without work.
   */
  lemma RefreshCanBeLost(o: Options, workers: nat, now: Time, registry: RegistryConfig) returns (s: System)
    requires ValidOptions(o) && workers > 0 && registry.domains != []
    ensures Reaches(Init(o, workers, now), s) && Quiet(s) && LostRefresh(s, registry.Key())
  {
    hide Reaches, Sound, Series, Alive;
    var k, s0 := registry.Key(), Init(o, workers, now);
    var configs := [Only(k, None), Only(k, Some(registry))];
    var open := Opening(o, workers, now, registry);
    assert ReAdds(open, configs, k, 1, 2);
    var lost := ReAdditionLosesRefresh(open, configs, k, 1, 2, false);
    SeriesReaches(open, configs[..2], lost, false);
    ReachesOn(s0, open, lost);
    s := Quieted(s0, lost, k);
    assert k in Configured(s.core);
  }

  /**
   A registry that is rotated from one AK/SK to another and back between two reconciliations,
   with or without a removal in between, can keep the credential of the other pair, with every
   reconciliation done and nothing ahead but its refresh timer.
   */
  lemma RotationCanBeLost(o: Options, workers: nat, now: Time, registry: RegistryConfig, other: RegistryConfig, removed: bool)
    returns (s: System)
    requires ValidOptions(o) && workers > 0 && registry.domains != [] && other.domains != []
    requires other.Key() == registry.Key() && !SameAuthentication(registry, other)
    ensures Reaches(Init(o, workers, now), s) && Quiet(s) && LostRotation(s, registry.Key())
  {
    hide Reaches, Sound, Series, Alive;
    var k, s0 := registry.Key(), Init(o, workers, now);
    var configs := [Only(k, Some(other))] + (if removed then [Only(k, None)] else []) + [Only(k, Some(registry))];
    var n := |configs|;
    var open := Opening(o, workers, now, registry);
    assert ThereAndBack(open, configs, k, 1, n);
    var lost := ReturnLosesRotation(open, configs, k, 1, n, false);
    SeriesReaches(open, configs[..n], lost, false);
    ReachesOn(s0, open, lost);
    s := Quieted(s0, lost, k);
    assert Configured(s.core)[k] == registry;
    assert Find(s.core.store, k) == Find(lost.core.store, k);
  }
}
