/**
 How a refresh and a rotation are lost, exactly. Between two reconciliations the configuration
 may change any number of times, with workers, timers, notifications and the clock at work all
 the while. A key can end up without work exactly if one of the configurations lacks a key the
 main loop knows and a later one has it again; and with the credential of another AK/SK and
 nothing but its far timer exactly if one of them gives the key another AK/SK than the main
 loop knows and a later one gives the known one back.
 */
module SchedulerLosses {
  import opened Wrappers
  import opened ConfigTypes
  import opened CredentialTypes
  import opened SchedulerModel
  import opened SchedulerBase
  import opened SchedulerSafety
  import opened SchedulerPromises
  import opened Scheduler
  import opened SchedulerTurns

  // Work: whatever happens between two configurations without a reconciliation

  /** A step of a worker, a timer, the clock or a notification; spurious wake-ups only if `wake`. */
  predicate WorkStep(step: Step, wake: bool) {
    !step.ApplyConfig? && !step.Reconcile? && (step.WakeUp? ==> wake)
  }

  predicate WorkOnly(steps: seq<Step>, wake: bool) {
    forall i | 0 <= i < |steps| :: WorkStep(steps[i], wake)
  }

  /** Work alone leads from `s` to `t`. */
  ghost predicate Works(s: System, t: System, wake: bool) {
    exists steps :: WorkOnly(steps, wake) && Runs(s, steps) && Final(s, steps) == t
  }

  lemma WorksByRun(s: System, steps: seq<Step>, wake: bool)
    requires WorkOnly(steps, wake) && Runs(s, steps)
    ensures Works(s, Final(s, steps), wake)
  {
  }

  lemma WorksNot(s: System, wake: bool)
    ensures Works(s, s, wake)
  {
    WorksByRun(s, [], wake);
  }

  lemma WorksOn(s: System, t: System, u: System, wake: bool)
    requires Works(s, t, wake) && Works(t, u, wake)
    ensures Works(s, u, wake)
  {
    hide Runs, Final, WorkStep;
    var a :| WorkOnly(a, wake) && Runs(s, a) && Final(s, a) == t;
    var b :| WorkOnly(b, wake) && Runs(t, b) && Final(t, b) == u;
    RunsConcat(s, a, b);
    assert WorkOnly(a + b, wake);
  }

  lemma WorksStep(s: System, step: Step, wake: bool)
    requires WorkStep(step, wake) && Enabled(s, step)
    ensures Works(s, Next(s, step), wake)
  {
    hide WorkStep, Enabled, Next;
    RunsCons(s, step, []);
    assert WorkOnly([step] + [], wake);
    WorksByRun(s, [step] + [], wake);
  }

  predicate MainRuns(s: System) {
    s.main.Waiting? || s.main.Reconciling?
  }

  /** What work leaves as it is. */
  predicate SameSetting(s: System, t: System) {
    && t.core.config == s.core.config && t.core.known == s.core.known && t.options == s.options
    && |t.workers| == |s.workers| && (MainRuns(s) ==> MainRuns(t)) && (t.announcing ==> s.announcing)
  }

  /** What every state along a piece of work has. */
  ghost predicate Sound(s: System) {
    Base(s) && NoZeroes(s.core)
  }

  lemma WorkStepKeeps(g: Promise, k: RegistryKey, s: System, step: Step, wake: bool)
    requires Sound(s) && WorkStep(step, wake) && Enabled(s, step)
    ensures Sound(Next(s, step)) && SameSetting(s, Next(s, step))
    ensures !g.DeadlineWithin? && Kept(g, k, s) ==> Kept(g, k, Next(s, step))
  {
    StepKeepsBase(s, step);
    StepKeepsNoZeroes(s, step);
    WorkStepKeepsSetting(s, step, wake);
    hide Base, NoZeroes, Enabled, Next, Kept;
    if !g.DeadlineWithin? && Kept(g, k, s) {
      HarmlessStepKeeps(g, k, s, step);
    }
  }

  lemma WorkStepKeepsSetting(s: System, step: Step, wake: bool)
    requires WorkStep(step, wake) && Enabled(s, step)
    ensures SameSetting(s, Next(s, step))
  {
    hide Act, CellOf;
  }

  lemma {:induction false} WorkRunKeeps(g: Promise, k: RegistryKey, s: System, steps: seq<Step>, wake: bool)
    requires Sound(s) && WorkOnly(steps, wake) && Runs(s, steps)
    ensures Sound(Final(s, steps)) && SameSetting(s, Final(s, steps))
    ensures !g.DeadlineWithin? && Kept(g, k, s) ==> Kept(g, k, Final(s, steps))
    decreases |steps|
  {
    hide Sound, Enabled, Next, Kept, WorkStep;
    if steps != [] {
      assert WorkStep(steps[0], wake);
      WorkStepKeeps(g, k, s, steps[0], wake);
      WorkRunKeeps(g, k, Next(s, steps[0]), steps[1..], wake);
    }
  }

  /** Work keeps the invariants, the setting and both promises. */
  lemma WorkKeeps(g: Promise, k: RegistryKey, s: System, t: System, wake: bool)
    requires Sound(s) && Works(s, t, wake)
    ensures Sound(t) && SameSetting(s, t)
    ensures !g.DeadlineWithin? && Kept(g, k, s) ==> Kept(g, k, t)
  {
    hide Sound, Kept, WorkOnly, Runs, Final;
    var steps :| WorkOnly(steps, wake) && Runs(s, steps) && Final(s, steps) == t;
    WorkRunKeeps(g, k, s, steps, wake);
  }

  // Draining the workers

  lemma ActIsProgress(pc: Worker, v: Cell, now: Time, o: Options, nextRevision: nat, reply: Reply)
    requires !pc.Idle?
    ensures Remaining(Act(pc, v, now, o, nextRevision, reply).pc) < Remaining(pc)
  {
  }

  /** A worker that is refused everything is soon idle. */
  lemma {:induction false} Drain(s: System, w: nat) returns (t: System)
    requires w < |s.workers|
    ensures Works(s, t, false) && t.workers == s.workers[w := Idle]
    decreases Remaining(s.workers[w])
  {
    hide Works;
    if s.workers[w].Idle? {
      t := s;
      WorksNot(s, false);
    } else {
      var pc := s.workers[w];
      ActIsProgress(pc, CellOf(s.core, pc.key), s.now, s.options, s.core.nextRevision, Refused);
      hide Act, CellOf;
      var next := Next(s, Advance(w, Refused));
      WorksStep(s, Advance(w, Refused), false);
      t := Drain(next, w);
      WorksOn(s, next, t, false);
    }
  }

  ghost predicate AllIdle(s: System) {
    forall w | 0 <= w < |s.workers| :: s.workers[w].Idle?
  }

  lemma {:induction false} DrainFirst(s: System, n: nat) returns (t: System)
    requires n <= |s.workers|
    ensures Works(s, t, false) && |t.workers| == |s.workers|
    ensures forall w | 0 <= w < n :: t.workers[w].Idle?
  {
    hide Works;
    if n == 0 {
      t := s;
      WorksNot(s, false);
    } else {
      var u := DrainFirst(s, n - 1);
      t := Drain(u, n - 1);
      WorksOn(s, u, t, false);
    }
  }

  lemma Drained(s: System) returns (t: System)
    ensures Works(s, t, false) && AllIdle(t) && |t.workers| == |s.workers|
  {
    t := DrainFirst(s, |s.workers|);
  }

  lemma IdleMeansFree(s: System, k: RegistryKey)
    requires Base(s) && AllIdle(s)
    ensures !Held(s, k) && !Owed(s, k) && !TicketOf(s.core, k).processing
  {
    assert TicketOf(s.core, k).processing <==> Held(s, k);
  }

  // Making the key ready

  /** The key is ready, and neither timer nor retry is left behind. */
  predicate PlainlyReady(s: System, k: RegistryKey) {
    TicketOf(s.core, k).Ready() && TicketOf(s.core, k).due.None? && k !in s.retryFrom
  }

  /** Time passes until the key's timer, which then fires. */
  lemma Fired(s: System, k: RegistryKey) returns (t: System)
    requires Sound(s) && AllIdle(s) && TicketOf(s.core, k).due.Some?
    ensures Works(s, t, false) && AllIdle(t) && PlainlyReady(t, k)
  {
    hide Works, Base;
    var due := TicketOf(s.core, k).due.value;
    var late := s.(now := if due > s.now then due else s.now);
    WorksStep(s, Tick(late.now - s.now), false);
    assert Next(s, Tick(late.now - s.now)) == late;
    t := Next(late, Fire(k));
    WorksStep(late, Fire(k), false);
    WorksOn(s, late, t, false);
    IdleMeansFree(s, k);
  }

  /** A key with work, or one that is woken up, gets ready. */
  lemma MadeReady(s: System, k: RegistryKey, wake: bool) returns (t: System)
    requires Sound(s) && AllIdle(s) && (wake || ViewOf(s, k).Queued())
    ensures Works(s, t, wake) && AllIdle(t) && PlainlyReady(t, k)
  {
    hide Works;
    IdleMeansFree(s, k);
    if TicketOf(s.core, k).due.Some? {
      t := Fired(s, k);
      MoreWork(s, t, wake);
    } else {
      assert KeyBase(k, ViewOf(s, k), s);
      if TicketOf(s.core, k).dirty {
        t := s;
        WorksNot(s, wake);
      } else {
        t := Next(s, WakeUp(k));
        WorksStep(s, WakeUp(k), wake);
      }
    }
  }

  lemma MoreWork(s: System, t: System, wake: bool)
    requires Works(s, t, false)
    ensures Works(s, t, wake)
  {
    hide Runs, Final;
    var steps :| WorkOnly(steps, false) && Runs(s, steps) && Final(s, steps) == t;
    assert WorkOnly(steps, wake);
  }

  // One round of a worker on the key, with nothing in between

  /** All three clock readings of the round are the present one. */
  function Present(s: System, provider: Reply): World {
    World(s.now, s.now, s.now, provider, Granted(Token("", "", 0)))
  }

  /** A successful round ends with the worker idle and the ticket done. */
  lemma Round(s: System, k: RegistryKey, provider: Reply, returned: Core) returns (t: System)
    requires Sound(s) && AllIdle(s) && |s.workers| > 0 && MainRuns(s) && PlainlyReady(s, k)
    requires Runs1(WithTicket(s.core, k, TicketOf(s.core, k).Get()), Entered(k), Present(s, provider), s.options, returned, true)
    ensures Works(s, t, false) && AllIdle(t) && k !in t.retryFrom && t.now == s.now
    ensures t.core == WithTicket(returned, k, TicketOf(returned, k).Done().Forget())
  {
    hide Runs1, Works, Base;
    var steps := RoundsAreRuns(s, 0, k, Present(s, provider), returned, true);
    t := Final(s, steps);
    assert WorkOnly(steps, false) by {
      forall i | 0 <= i < |steps| ensures WorkStep(steps[i], false) {
        assert i > 0 ==> steps[i] == steps[1..][i - 1];
      }
    }
    WorksByRun(s, steps, false);
  }

  /** For a key that is not configured, the round drops everything. */
  lemma DropsAll(c: Core, k: RegistryKey, world: World, o: Options) returns (d: Core)
    requires Tidy(c, k) && k !in Configured(c)
    ensures Runs1(c, Entered(k), world, o, d, true) && d.queue == c.queue
  {
    hide Runs1;
    var c1 := c.(store := c.store - {k});
    var c2 := c1.(published := c.published - {k});
    d := c2.(force := c.force - {k});
    RunsNot(d, k, true, world, o);
    DropForcedRuns(c2, k, world, o, d, true);
    DropPublishedRuns(c1, k, world, o, d, true);
    DropStoredRuns(c, k, world, o, d, true);
    EnteredRuns(c, k, world, o, d, true);
  }

  /** What a granted round leaves: an entry of the configured AK/SK and its refresh timer. */
  predicate Renewed(c: Core, d: Core, k: RegistryKey, now: Time, o: Options)
    requires k in Configured(c)
  {
    && k in d.store && d.store[k].MatchesRegistry(Configured(c)[k])
    && d.store[k].credential.expiresAt - o.refreshBefore > now
    && TicketOf(d, k) == TicketOf(c, k).AddAfter(d.store[k].credential.expiresAt - o.refreshBefore - now, now)
  }

  /** The round reuses the stored entry. */
  lemma Reuses(c: Core, k: RegistryKey, world: World, o: Options) returns (d: Core)
    requires Tidy(c, k) && k in Configured(c) && k in c.store && c.store[k].revision > 0
    requires world.entered == world.scheduled && world.publisher.Granted?
    requires CellOf(c, k).Reusable(Configured(c)[k], world.entered, ForceRevision(c, k), o.refreshBefore)
    ensures Runs1(c, Forced(k, Configured(c)[k], world.entered, ForceRevision(c, k)), world, o, d, true)
    ensures Renewed(c, d, k, world.entered, o)
  {
    hide Runs1;
    var registry, force, now := Configured(c)[k], ForceRevision(c, k), world.entered;
    d := Delivered(c, k, c.store[k], now, world, o);
    DeliveryRuns(c, k, c.store[k], now, world, o);
    ForcedRuns(c, k, registry, now, force, world, o, d, true);
  }

  /** The round acquires a token. */
  lemma Acquires(c: Core, k: RegistryKey, world: World, o: Options, token: Token) returns (d: Core)
    requires Tidy(c, k) && k in Configured(c) && Configured(c)[k].Key() == k
    requires world.entered == world.granted == world.scheduled && world.publisher.Granted?
    requires world.provider == Granted(token) && ValidToken(token, world.granted, o.refreshBefore)
    requires !CellOf(c, k).Reusable(Configured(c)[k], world.entered, ForceRevision(c, k), o.refreshBefore)
    ensures Runs1(c, Forced(k, Configured(c)[k], world.entered, ForceRevision(c, k)), world, o, d, true)
    ensures Renewed(c, d, k, world.entered, o)
  {
    hide Runs1;
    var registry, force, now := Configured(c)[k], ForceRevision(c, k), world.entered;
    var c1, entry := Stored(c, registry, force, token, now), InstalledEntry(c, registry, token, now);
    d := Delivered(c1, k, entry, now, world, o);
    DeliveryRuns(c1, k, entry, now, world, o);
    InstallRuns(c, registry, force, token, now, world, o, d, true);
    CheckedRuns(c, k, registry, force, token, world, o, d, true);
    CalledRuns(c, k, registry, force, token, world, o, d, true);
    CallingRuns(c, k, registry, force, world, o, d, true);
    ForcedRuns(c, k, registry, now, force, world, o, d, true);
  }

  lemma Renews(c: Core, k: RegistryKey, world: World, o: Options, token: Token) returns (d: Core)
    requires Tidy(c, k) && k in Configured(c) && Configured(c)[k].Key() == k
    requires k in c.store ==> c.store[k].revision > 0
    requires world.entered == world.granted == world.scheduled && world.publisher.Granted?
    requires world.provider == Granted(token) && ValidToken(token, world.granted, o.refreshBefore)
    ensures Runs1(c, Entered(k), world, o, d, true) && Renewed(c, d, k, world.entered, o)
  {
    hide Runs1, Renewed;
    var registry, now := Configured(c)[k], world.entered;
    if CellOf(c, k).Reusable(registry, now, ForceRevision(c, k), o.refreshBefore) {
      d := Reuses(c, k, world, o);
    } else {
      d := Acquires(c, k, world, o, token);
    }
    ClockedRuns(c, k, registry, now, world, o, d, true);
    LoadedRuns(c, k, registry, world, o, d, true);
    EnteredRuns(c, k, world, o, d, true);
  }

  // Configurations one after the other

  predicate AllWellFormed(configs: seq<Registries>) {
    forall i | 0 <= i < |configs| :: WellFormedRegistries(configs[i])
  }

  /** `configs` are applied one after the other, with any work before, between and after, and no reconciliation. */
  ghost predicate Series(s: System, configs: seq<Registries>, u: System, wake: bool)
    decreases |configs|
  {
    if configs == [] then Works(s, u, wake)
    else
      exists t ::
        && Works(s, t, wake) && Enabled(t, ApplyConfig(configs[0]))
        && Series(Next(t, ApplyConfig(configs[0])), configs[1..], u, wake)
  }

  lemma SeriesCons(s: System, t: System, config: Registries, rest: seq<Registries>, u: System, wake: bool)
    requires Works(s, t, wake) && Enabled(t, ApplyConfig(config)) && Series(Next(t, ApplyConfig(config)), rest, u, wake)
    ensures Series(s, [config] + rest, u, wake)
  {
    hide Works, Enabled, Next;
    assert ([config] + rest)[1..] == rest;
  }

  lemma {:induction false} SeriesConcat(s: System, a: seq<Registries>, t: System, b: seq<Registries>, u: System, wake: bool)
    requires Series(s, a, t, wake) && Series(t, b, u, wake)
    ensures Series(s, a + b, u, wake)
    decreases |a|
  {
    hide Works, Enabled, Next;
    if a == [] {
      assert a + b == b;
      if b == [] {
        WorksOn(s, t, u, wake);
      } else {
        var v :| Works(t, v, wake) && Enabled(v, ApplyConfig(b[0])) && Series(Next(v, ApplyConfig(b[0])), b[1..], u, wake);
        WorksOn(s, t, v, wake);
      }
    } else {
      var v :| Works(s, v, wake) && Enabled(v, ApplyConfig(a[0])) && Series(Next(v, ApplyConfig(a[0])), a[1..], t, wake);
      SeriesConcat(Next(v, ApplyConfig(a[0])), a[1..], t, b, u, wake);
      SeriesCons(s, v, a[0], a[1..] + b, u, wake);
      assert a + b == [a[0]] + (a[1..] + b);
    }
  }

  /** The step that changes the configuration changes nothing else a key can see. */
  lemma ConfigView(s: System, registries: Registries, k: RegistryKey)
    requires Enabled(s, ApplyConfig(registries))
    ensures var t := Next(s, ApplyConfig(registries));
            ViewOf(t, k) == ViewOf(s, k).(cell := CellOf(s.core, k).(config := Find(registries, k)))
  {
    StillOwed(s, Next(s, ApplyConfig(registries)), k);
  }

  /** Nothing but the configuration, and what announces it, has changed. */
  predicate OnlyConfig(s: System, t: System) {
    && t.core == s.core.(config := t.core.config) && t.workers == s.workers && t.retryFrom == s.retryFrom
    && t.options == s.options && t.main == s.main && t.now == s.now
  }

  /** Configurations may follow one another at once. */
  lemma {:induction false} AppliedAtOnce(s: System, configs: seq<Registries>, wake: bool) returns (u: System)
    requires AllWellFormed(configs)
    ensures Series(s, configs, u, wake) && OnlyConfig(s, u) && (if configs == [] then u == s else u.announcing)
    ensures u.core.config == if configs == [] then s.core.config else Some(configs[|configs| - 1])
    decreases |configs|
  {
    hide Works, WellFormedRegistries;
    if configs == [] {
      u := s;
      WorksNot(s, wake);
    } else {
      assert WellFormedRegistries(configs[0]);
      var t := s.(announcing := false, notified := s.announcing || s.notified);
      if s.announcing {
        assert Next(s, Notify) == t;
        WorksStep(s, Notify, wake);
      } else {
        assert t == s;
        WorksNot(s, wake);
      }
      u := AppliedAtOnce(Next(t, ApplyConfig(configs[0])), configs[1..], wake);
      SeriesCons(s, t, configs[0], configs[1..], u, wake);
      assert configs == [configs[0]] + configs[1..];
    }
  }

  lemma OnlyConfigView(s: System, u: System, k: RegistryKey)
    requires OnlyConfig(s, u)
    ensures ViewOf(u, k) == ViewOf(s, k).(cell := CellOf(s.core, k).(config := Find(Configured(u.core), k)))
  {
    StillOwed(s, u, k);
  }

  // What a series keeps

  /** What the `i`-th configuration says of the key; the first is the present one. */
  function At(s: System, configs: seq<Registries>, k: RegistryKey, i: nat): Option<RegistryConfig>
    requires i <= |configs|
  {
    Find(if i == 0 then Configured(s.core) else configs[i - 1], k)
  }

  /** Every configuration of the series is one the promise allows. */
  predicate FairSeries(g: Promise, k: RegistryKey, known: Option<RegistryConfig>, current: Option<RegistryConfig>,
                       configs: seq<Registries>, strayed: bool)
    decreases |configs|
  {
    configs == []
    || var next := Find(configs[0], k);
       && (g.NoLostRotation? && strayed ==> !Returns(known, next))
       && (g.NoLostRefresh? && next.Some? && known.Some? ==> current.Some?)
       && FairSeries(g, k, known, next, configs[1..], strayed || Strays(known, next))
  }

  lemma HoldsAlongWork(g: Promise, k: RegistryKey, s: System, t: System, wake: bool, strayed: bool)
    requires Sound(s) && !g.DeadlineWithin? && Holds(g, k, s, strayed) && Works(s, t, wake)
    ensures Sound(t) && SameSetting(s, t) && Holds(g, k, t, strayed)
  {
    hide Works, Kept, Sound;
    WorkKeeps(g, k, s, t, wake);
  }

  /** Along a series of configurations it allows, the promise holds. */
  lemma {:induction false} SeriesHolds(g: Promise, k: RegistryKey, s: System, configs: seq<Registries>, u: System, wake: bool, strayed: bool)
    requires Sound(s) && !g.DeadlineWithin? && Holds(g, k, s, strayed) && Series(s, configs, u, wake)
    requires FairSeries(g, k, Find(s.core.known, k), Find(Configured(s.core), k), configs, strayed)
    ensures exists last :: Holds(g, k, u, last)
    decreases |configs|
  {
    hide Works, Holds, Base, NoZeroes;
    if configs == [] {
      HoldsAlongWork(g, k, s, u, wake, strayed);
    } else {
      var step := ApplyConfig(configs[0]);
      var t :| Works(s, t, wake) && Enabled(t, step) && Series(Next(t, step), configs[1..], u, wake);
      HoldsAlongWork(g, k, s, t, wake, strayed);
      StepKeeps(g, k, t, step, strayed);
      StepKeepsBase(t, step);
      StepKeepsNoZeroes(t, step);
      SeriesHolds(g, k, Next(t, step), configs[1..], u, wake, StrayedAfter(k, t, step, strayed));
    }
  }

  /** Nothing was lost where a promise holds. */
  lemma HoldsIsNotLost(k: RegistryKey, s: System, strayed: bool)
    requires Base(s)
    ensures Holds(NoLostRefresh, k, s, strayed) ==> !LostRefresh(s, k)
    ensures Holds(NoLostRotation, k, s, strayed) ==> !LostRotation(s, k)
  {
    assert KeyBase(k, ViewOf(s, k), s);
  }

  /** Once the main loop knows a registry it is running. */
  ghost predicate KnowsWhenRunning(s: System) {
    s.core.known != map[] ==> MainRuns(s)
  }

  lemma {:induction false} RunKeepsKnowsWhenRunning(s: System, steps: seq<Step>)
    requires KnowsWhenRunning(s) && Runs(s, steps)
    ensures KnowsWhenRunning(Final(s, steps))
    decreases |steps|
  {
    if steps != [] {
      StepKeepsConfiguration(s, steps[0]);
      StepKeepsRunning(s, steps[0]);
      RunKeepsKnowsWhenRunning(Next(s, steps[0]), steps[1..]);
    }
  }

  lemma StepKeepsRunning(s: System, step: Step)
    requires Enabled(s, step)
    ensures MainRuns(s) || step.Reconcile? ==> MainRuns(Next(s, step))
  {
    hide Act, CellOf;
  }

  lemma ReachableIsSound(s: System)
    requires Reachable(s)
    ensures Sound(s) && KnowsWhenRunning(s)
  {
    ReachableIsBase(s);
    ReachableHasNoZeroes(s);
    hide ValidOptions, Base, NoZeroes;
    var options, workers: nat, now, steps :|
      ValidOptions(options) && Runs(Init(options, workers, now), steps) && s == Final(Init(options, workers, now), steps);
    RunKeepsKnowsWhenRunning(Init(options, workers, now), steps);
  }

  // Losing a refresh

  /** Configured and known, and without any work. */
  ghost predicate LostRefresh(s: System, k: RegistryKey) {
    k in Configured(s.core) && k in s.core.known && !ViewOf(s, k).Outstanding()
  }

  /** Somewhere along the series the key can be without work. */
  ghost predicate CanLoseRefresh(s: System, configs: seq<Registries>, k: RegistryKey, wake: bool) {
    exists n, u | 0 <= n <= |configs| :: Series(s, configs[..n], u, wake) && LostRefresh(u, k)
  }

  /** A configuration lacks the key, and a later one has it. */
  predicate ReAdds(s: System, configs: seq<Registries>, k: RegistryKey, i: nat, j: nat)
    requires i < j <= |configs|
  {
    At(s, configs, k, i).None? && At(s, configs, k, j).Some?
  }

  /** A key that is not configured can run out of work. */
  lemma Emptied(s: System, k: RegistryKey) returns (t: System)
    requires Sound(s) && |s.workers| > 0 && MainRuns(s) && k !in Configured(s.core)
    ensures Works(s, t, false) && AllIdle(t) && !ViewOf(t, k).Outstanding()
  {
    hide Works;
    var a := Drained(s);
    WorkKeeps(NoLostRefresh, k, s, a, false);
    IdleMeansFree(a, k);
    if ViewOf(a, k).Queued() {
      var b := MadeReady(a, k, false);
      WorksOn(s, a, b, false);
      WorkKeeps(NoLostRefresh, k, s, b, false);
      t := DroppedRound(b, k);
      WorksOn(s, b, t, false);
    } else {
      t := a;
    }
  }

  lemma DroppedRound(s: System, k: RegistryKey) returns (t: System)
    requires Sound(s) && AllIdle(s) && |s.workers| > 0 && MainRuns(s) && PlainlyReady(s, k) && k !in Configured(s.core)
    ensures Works(s, t, false) && AllIdle(t) && !ViewOf(t, k).Outstanding()
  {
    hide Works, Runs1;
    var returned := DropsAll(WithTicket(s.core, k, TicketOf(s.core, k).Get()), k, Present(s, Refused), s.options);
    t := Round(s, k, Refused, returned);
    assert TicketOf(t.core, k) == TicketOf(s.core, k).Get().Done().Forget();
  }

  /** One piece of work in the middle of configurations that otherwise follow at once. */
  lemma SeriesAround(s: System, configs: seq<Registries>, i: nat, j: nat, t: System, r: System, u: System, wake: bool)
    requires i <= j <= |configs|
    requires Series(s, configs[..i], t, wake) && Works(t, r, wake) && Series(r, configs[i..j], u, wake)
    ensures Series(s, configs[..j], u, wake)
  {
    hide Works;
    SeriesConcat(s, configs[..i], t, [], r, wake);
    assert configs[..i] + [] == configs[..i];
    SeriesConcat(s, configs[..i], r, configs[i..j], u, wake);
    assert configs[..i] + configs[i..j] == configs[..j];
  }

  /** Re-adding a key whose removal the main loop has not seen can lose its refresh. */
  lemma ReAdditionLosesRefresh(s: System, configs: seq<Registries>, k: RegistryKey, i: nat, j: nat, wake: bool) returns (u: System)
    requires Sound(s) && |s.workers| > 0 && MainRuns(s) && AllWellFormed(configs)
    requires k in s.core.known && i < j <= |configs| && ReAdds(s, configs, k, i, j)
    ensures Series(s, configs[..j], u, wake) && LostRefresh(u, k)
    ensures u.core.known == s.core.known && u.core.config == Some(configs[j - 1]) && MainRuns(u) && u.announcing
  {
    hide Works, Base, NoZeroes, Series;
    var t := AppliedAtOnce(s, configs[..i], wake);
    SeriesIsSound(s, configs[..i], t, wake);
    var r := Emptied(t, k);
    WorkKeeps(NoLostRefresh, k, t, r, false);
    MoreWork(t, r, wake);
    u := AppliedAtOnce(r, configs[i..j], wake);
    OnlyConfigView(r, u, k);
    SeriesAround(s, configs, i, j, t, r, u, wake);
  }

  /** A series keeps the invariants, and what the main loop knows. */
  lemma {:induction false} SeriesIsSound(s: System, configs: seq<Registries>, u: System, wake: bool)
    requires Sound(s) && Series(s, configs, u, wake)
    ensures Sound(u) && u.core.known == s.core.known && |u.workers| == |s.workers| && u.options == s.options
    ensures MainRuns(s) ==> MainRuns(u)
    decreases |configs|
  {
    hide Works, Base, NoZeroes;
    var k := RegistryKey("", "");
    if configs == [] {
      WorkKeeps(NoLostRefresh, k, s, u, wake);
    } else {
      var step := ApplyConfig(configs[0]);
      var t :| Works(s, t, wake) && Enabled(t, step) && Series(Next(t, step), configs[1..], u, wake);
      WorkKeeps(NoLostRefresh, k, s, t, wake);
      StepKeepsBase(t, step);
      StepKeepsNoZeroes(t, step);
      SeriesIsSound(Next(t, step), configs[1..], u, wake);
    }
  }

  lemma {:induction false} NeverReAdded(k: RegistryKey, known: Option<RegistryConfig>, current: Option<RegistryConfig>,
                                        configs: seq<Registries>, strayed: bool)
    requires known.Some? && current.None? ==> forall j | 0 <= j < |configs| :: Find(configs[j], k).None?
    requires known.Some? ==> forall i, j | 0 <= i < j < |configs| && Find(configs[i], k).None? :: Find(configs[j], k).None?
    ensures FairSeries(NoLostRefresh, k, known, current, configs, strayed)
    decreases |configs|
  {
    if configs != [] {
      NeverReAdded(k, known, Find(configs[0], k), configs[1..], strayed || Strays(known, Find(configs[0], k)));
    }
  }

  /**
   When a refresh can be lost. From every reachable state that has lost none, a series of
   configurations with any work around them and no reconciliation can leave a key configured,
   known and without work exactly if the main loop knows the key and one of the
   configurations, the present one included, lacks it while a later one has it.
   */
  lemma RefreshIsLostExactly(s: System, configs: seq<Registries>, k: RegistryKey, wake: bool)
    requires Reachable(s) && Kept(NoLostRefresh, k, s) && |s.workers| > 0 && AllWellFormed(configs)
    ensures CanLoseRefresh(s, configs, k, wake) <==>
            k in s.core.known && exists i: nat, j: nat | i < j <= |configs| :: ReAdds(s, configs, k, i, j)
  {
    hide Series, Kept, Base, NoZeroes, Reachable, LostRefresh, LostRotation;
    ReachableIsSound(s);
    if k in s.core.known && exists i: nat, j: nat | i < j <= |configs| :: ReAdds(s, configs, k, i, j) {
      var i: nat, j: nat :| i < j <= |configs| && ReAdds(s, configs, k, i, j);
      var u := ReAdditionLosesRefresh(s, configs, k, i, j, wake);
    } else if CanLoseRefresh(s, configs, k, wake) {
      var n, u :| 0 <= n <= |configs| && Series(s, configs[..n], u, wake) && LostRefresh(u, k);
      ReAddsNowhere(s, configs, k, n);
      SeriesHolds(NoLostRefresh, k, s, configs[..n], u, wake, false);
      SeriesIsSound(s, configs[..n], u, wake);
      var last :| Holds(NoLostRefresh, k, u, last);
      HoldsIsNotLost(k, u, last);
    }
  }

  lemma ReAddsNowhere(s: System, configs: seq<Registries>, k: RegistryKey, n: nat)
    requires n <= |configs|
    requires !(k in s.core.known && exists i: nat, j: nat | i < j <= |configs| :: ReAdds(s, configs, k, i, j))
    ensures FairSeries(NoLostRefresh, k, Find(s.core.known, k), Find(Configured(s.core), k), configs[..n], false)
  {
    if k in s.core.known {
      forall j | 0 <= j < n && k !in Configured(s.core) ensures Find(configs[j], k).None? {
        assert !ReAdds(s, configs, k, 0, j + 1);
      }
      forall i, j | 0 <= i < j < n && Find(configs[i], k).None? ensures Find(configs[j], k).None? {
        assert !ReAdds(s, configs, k, i + 1, j + 1);
      }
    }
    NeverReAdded(k, Find(s.core.known, k), Find(Configured(s.core), k), configs[..n], false);
  }

  // Losing a rotation

  /** Everyone agrees on the AK/SK, the stored entry is of another one, and only its timer is ahead. */
  ghost predicate LostRotation(s: System, k: RegistryKey) {
    && k in Configured(s.core) && k in s.core.known && SameAuthentication(Configured(s.core)[k], s.core.known[k])
    && k in s.core.store && !s.core.store[k].MatchesRegistry(Configured(s.core)[k])
    && !ViewOf(s, k).Urgent()
  }

  /** Somewhere along the series the key can be left with the entry of another AK/SK. */
  ghost predicate CanLoseRotation(s: System, configs: seq<Registries>, k: RegistryKey, wake: bool) {
    exists n, u | 0 <= n <= |configs| :: Series(s, configs[..n], u, wake) && LostRotation(u, k)
  }

  /** A configuration gives the key another AK/SK than the main loop knows, and a later one gives the known one back. */
  predicate ThereAndBack(s: System, configs: seq<Registries>, k: RegistryKey, i: nat, j: nat)
    requires i < j <= |configs|
  {
    Strays(Find(s.core.known, k), At(s, configs, k, i)) && Returns(Find(s.core.known, k), At(s, configs, k, j))
  }

  /** A configured key can be refreshed and left to its timer. */
  lemma Refreshes(s: System, k: RegistryKey, wake: bool) returns (t: System)
    requires Sound(s) && |s.workers| > 0 && MainRuns(s) && k in Configured(s.core) && k in s.core.known
    requires wake || Kept(NoLostRefresh, k, s)
    ensures Works(s, t, wake) && AllIdle(t)
    ensures k in t.core.store && t.core.store[k].MatchesRegistry(Configured(s.core)[k]) && !ViewOf(t, k).Urgent()
  {
    hide Works;
    var a := Drained(s);
    MoreWork(s, a, wake);
    WorkKeeps(NoLostRefresh, k, s, a, wake);
    IdleMeansFree(a, k);
    var b := MadeReady(a, k, wake);
    WorksOn(s, a, b, wake);
    WorkKeeps(NoLostRefresh, k, s, b, wake);
    t := RenewedRound(b, k);
    MoreWork(b, t, wake);
    WorksOn(s, b, t, wake);
  }

  lemma RenewedRound(s: System, k: RegistryKey) returns (t: System)
    requires Sound(s) && AllIdle(s) && |s.workers| > 0 && MainRuns(s) && PlainlyReady(s, k) && k in Configured(s.core)
    ensures Works(s, t, false) && AllIdle(t)
    ensures k in t.core.store && t.core.store[k].MatchesRegistry(Configured(s.core)[k]) && !ViewOf(t, k).Urgent()
  {
    hide Works, Runs1;
    assert KeyBase(k, ViewOf(s, k), s);
    var token := Token("u", "p", s.now + s.options.refreshBefore + 1);
    var c := WithTicket(s.core, k, TicketOf(s.core, k).Get());
    var returned := Renews(c, k, Present(s, Granted(token)), s.options, token);
    t := Round(s, k, Granted(token), returned);
    assert TicketOf(t.core, k) == TicketOf(returned, k).Done().Forget();
  }

  // Keys that will be worked on

  /** A worker at such a point lets go of its key without queueing it again. */
  predicate LetsGo(pc: Worker) {
    pc.DropStored? || pc.DropPublished? || pc.DropForced? || (pc.Returning? && pc.ok)
  }

  /** The key has work left, and not only a worker about to let go of it. */
  ghost predicate Alive(s: System, k: RegistryKey) {
    && ViewOf(s, k).Outstanding()
    && forall w | 0 <= w < |s.workers| && HeldBy(s.workers[w], k) && LetsGo(s.workers[w]) :: ViewOf(s, k).Queued()
  }

  lemma AliveIsKept(s: System, k: RegistryKey)
    requires Alive(s, k)
    ensures Kept(NoLostRefresh, k, s)
  {
  }

  /** For a key both configured and known, being alive is the promise of no lost refresh. */
  lemma KeptIsAlive(s: System, k: RegistryKey)
    requires k in Configured(s.core) && k in s.core.known && Kept(NoLostRefresh, k, s)
    ensures Alive(s, k)
  {
    forall w | 0 <= w < |s.workers| && HeldBy(s.workers[w], k) && LetsGo(s.workers[w]) ensures ViewOf(s, k).Queued() {
      assert WorkerKeeps(NoLostRefresh, k, s, s.workers[w]);
    }
  }

  lemma AliveAtOnce(s: System, u: System, k: RegistryKey)
    requires OnlyConfig(s, u) && Alive(s, k)
    ensures Alive(u, k)
  {
    OnlyConfigView(s, u, k);
  }

  lemma LostIsAlive(s: System, k: RegistryKey)
    requires Base(s) && LostRotation(s, k)
    ensures Alive(s, k)
  {
    assert KeyBase(k, ViewOf(s, k), s);
    assert TicketOf(s.core, k).processing <==> Held(s, k);
  }

  lemma DeadActs(k: RegistryKey, pc: Worker, v: View, s: System, reply: Reply, e: Effect, v': View, t: System)
    requires ActsOn(k, pc, v, s, reply, e, v', t) && !v.Queued() && v'.owed == v.owed
    requires if pc.Holds() then LetsGo(pc) else pc == Settling(k, true)
    ensures !v'.Queued() && (pc.Holds() ==> if e.pc.Holds() then LetsGo(e.pc) else !v'.cell.ticket.processing)
    ensures !pc.Holds() ==> v'.cell.ticket.processing == v.cell.ticket.processing
  {
    hide KeyBase, PcBase, Records;
  }

  /** Only a reconciliation or a spurious wake-up brings a dead key back. */
  lemma AdvanceKeepsDead(k: RegistryKey, s: System, w: nat, reply: Reply)
    requires Base(s) && w < |s.workers| && !s.workers[w].Idle? && !Alive(s, k)
    ensures !Alive(AdvanceWorker(s, w, reply), k)
  {
    var t, pc, e := AdvanceWorker(s, w, reply), s.workers[w], EffectOf(s, w, reply);
    AdvanceViews(s, w, reply);
    ActKeepsHolding(pc.key, pc, ViewOf(s, pc.key), s, reply, e, ViewOf(t, pc.key), t);
    hide ActsOn, Act, KeyBase, WorkerBase, AdvanceWorker;
    assert TicketOf(s.core, k).processing <==> Held(s, k);
    assert !ViewOf(s, k).Queued();
    if pc.key != k {
      OthersStayDead(k, s, w, t);
    } else if pc.Holds() {
      assert HeldBy(pc, k);
      var x :| 0 <= x < |s.workers| && HeldBy(s.workers[x], k) && LetsGo(s.workers[x]);
      assert x == w;
      AdvanceOwed(s, w, reply, k);
      DeadActs(k, pc, ViewOf(s, k), s, reply, e, ViewOf(t, k), t);
      assert t.workers[w] == e.pc;
    } else {
      assert pc != Settling(k, false);
      assert pc == Settling(k, true);
      AdvanceOwed(s, w, reply, k);
      OwedWhenSettled(s, w, reply);
      DeadActs(k, pc, ViewOf(s, k), s, reply, e, ViewOf(t, k), t);
      OthersStayDead(k, s, w, t);
    }
  }

  lemma OthersStayDead(k: RegistryKey, s: System, w: nat, t: System)
    requires w < |s.workers| && |t.workers| == |s.workers| && t.workers == s.workers[w := t.workers[w]]
    requires !HeldBy(s.workers[w], k) && !Alive(s, k)
    requires ViewOf(t, k).Queued() == ViewOf(s, k).Queued()
    requires ViewOf(t, k).cell.ticket.processing == ViewOf(s, k).cell.ticket.processing
    ensures !Alive(t, k)
  {
    if ViewOf(s, k).Outstanding() {
      var x :| 0 <= x < |s.workers| && HeldBy(s.workers[x], k) && LetsGo(s.workers[x]);
      assert t.workers[x] == s.workers[x];
    }
  }

  lemma StepKeepsDead(k: RegistryKey, s: System, step: Step)
    requires Base(s) && Enabled(s, step) && !Alive(s, k) && (step.ApplyConfig? || WorkStep(step, false))
    ensures !Alive(Next(s, step), k)
  {
    var t := Next(s, step);
    match step
    case Advance(w, reply) => AdvanceKeepsDead(k, s, w, reply);
    case Get(w, j) =>
      GetStep(s, w, j);
      OthersStayDead(k, s, w, t);
    case Fire(j) =>
      TicketStep(s, step);
      StaysDead(k, s, t);
    case _ =>
      StillOwed(s, t, k);
      StaysDead(k, s, t);
  }

  lemma StaysDead(k: RegistryKey, s: System, t: System)
    requires t.workers == s.workers && !Alive(s, k)
    requires ViewOf(t, k).cell.ticket == ViewOf(s, k).cell.ticket
    ensures !Alive(t, k)
  {
    StillOwed(s, t, k);
  }

  lemma {:induction false} WorkKeepsDead(k: RegistryKey, s: System, steps: seq<Step>)
    requires Base(s) && WorkOnly(steps, false) && Runs(s, steps) && !Alive(s, k)
    ensures Base(Final(s, steps)) && !Alive(Final(s, steps), k)
    decreases |steps|
  {
    hide Base, Alive, WorkStep, Enabled, Next;
    if steps != [] {
      assert WorkStep(steps[0], false);
      StepKeepsBase(s, steps[0]);
      StepKeepsDead(k, s, steps[0]);
      WorkKeepsDead(k, Next(s, steps[0]), steps[1..]);
    }
  }

  lemma {:induction false} SeriesKeepsDead(k: RegistryKey, s: System, configs: seq<Registries>, u: System)
    requires Base(s) && Series(s, configs, u, false) && !Alive(s, k)
    ensures Base(u) && !Alive(u, k)
    decreases |configs|
  {
    hide Base, Alive, Enabled, Next, WorkOnly;
    if configs == [] {
      var steps :| WorkOnly(steps, false) && Runs(s, steps) && Final(s, steps) == u;
      WorkKeepsDead(k, s, steps);
    } else {
      var step := ApplyConfig(configs[0]);
      var t :| Works(s, t, false) && Enabled(t, step) && Series(Next(t, step), configs[1..], u, false);
      var steps :| WorkOnly(steps, false) && Runs(s, steps) && Final(s, steps) == t;
      WorkKeepsDead(k, s, steps);
      StepKeepsBase(t, step);
      StepKeepsDead(k, t, step);
      SeriesKeepsDead(k, Next(t, step), configs[1..], u);
    }
  }

  // There and back

  /** A key left to its timer with another AK/SK's entry has lost its rotation once the known AK/SK is back. */
  lemma BackIsLost(r: System, u: System, k: RegistryKey, other: RegistryConfig)
    requires OnlyConfig(r, u) && other.Key() == k && Strays(Find(r.core.known, k), Some(other))
    requires k in r.core.store && r.core.store[k].MatchesRegistry(other) && !ViewOf(r, k).Urgent()
    requires Returns(Find(u.core.known, k), Find(Configured(u.core), k)) && Configured(u.core)[k].Key() == k
    ensures LostRotation(u, k)
  {
    OnlyConfigView(r, u, k);
  }

  /** After configurations applied at once, the key is refreshed with what the last of them gives it. */
  lemma RefreshesAfter(s: System, configs: seq<Registries>, k: RegistryKey, wake: bool) returns (t: System, r: System)
    requires Sound(s) && |s.workers| > 0 && MainRuns(s) && AllWellFormed(configs)
    requires At(s, configs, k, |configs|).Some? && k in s.core.known && (wake || Alive(s, k))
    ensures Series(s, configs, t, wake) && Works(t, r, wake) && Sound(r) && MainRuns(r) && r.core.known == s.core.known
    ensures var other := At(s, configs, k, |configs|).value;
            other.Key() == k && k in r.core.store && r.core.store[k].MatchesRegistry(other) && !ViewOf(r, k).Urgent()
  {
    hide Works, Alive, Kept, Base, NoZeroes;
    t := AppliedAtOnce(s, configs, wake);
    SeriesIsSound(s, configs, t, wake);
    if !wake {
      AliveAtOnce(s, t, k);
      AliveIsKept(t, k);
    }
    assert Find(Configured(t.core), k) == At(s, configs, k, |configs|);
    ConfiguredUnderItsKey(t, k);
    r := Refreshes(t, k, wake);
    WorkKeeps(NoLostRefresh, k, t, r, wake);
  }

  lemma ConfiguredUnderItsKey(s: System, k: RegistryKey)
    requires Base(s) && k in Configured(s.core)
    ensures Configured(s.core)[k].Key() == k
  {
    assert KeyBase(k, ViewOf(s, k), s);
  }

  /** Giving back the AK/SK last reconciled after another one can lose the rotation back. */
  lemma ReturnLosesRotation(s: System, configs: seq<Registries>, k: RegistryKey, i: nat, j: nat, wake: bool) returns (u: System)
    requires Sound(s) && |s.workers| > 0 && MainRuns(s) && AllWellFormed(configs)
    requires i < j <= |configs| && ThereAndBack(s, configs, k, i, j) && (wake || Alive(s, k))
    ensures Series(s, configs[..j], u, wake) && LostRotation(u, k)
    ensures u.core.known == s.core.known && u.core.config == Some(configs[j - 1]) && MainRuns(u) && u.announcing
  {
    hide Works, Alive, Base, NoZeroes, Series, LostRotation;
    assert At(s, configs[..i], k, i) == At(s, configs, k, i);
    var t, r := RefreshesAfter(s, configs[..i], k, wake);
    u := AppliedAtOnce(r, configs[i..j], wake);
    assert configs[i..j][j - i - 1] == configs[j - 1];
    assert WellFormedRegistries(configs[j - 1]);
    BackIsLost(r, u, k, At(s, configs, k, i).value);
    SeriesAround(s, configs, i, j, t, r, u, wake);
  }

  lemma {:induction false} NeverBack(k: RegistryKey, known: Option<RegistryConfig>, current: Option<RegistryConfig>,
                                     configs: seq<Registries>, strayed: bool)
    requires strayed ==> forall j | 0 <= j < |configs| :: !Returns(known, Find(configs[j], k))
    requires forall i, j | 0 <= i < j < |configs| && Strays(known, Find(configs[i], k)) :: !Returns(known, Find(configs[j], k))
    ensures FairSeries(NoLostRotation, k, known, current, configs, strayed)
    decreases |configs|
  {
    if configs != [] {
      NeverBack(k, known, Find(configs[0], k), configs[1..], strayed || Strays(known, Find(configs[0], k)));
    }
  }

  lemma NowhereThereAndBack(s: System, configs: seq<Registries>, k: RegistryKey, n: nat)
    requires n <= |configs|
    requires !exists i: nat, j: nat | i < j <= |configs| :: ThereAndBack(s, configs, k, i, j)
    ensures var known, config := Find(s.core.known, k), Find(Configured(s.core), k);
            FairSeries(NoLostRotation, k, known, config, configs[..n], Strays(known, config))
  {
    var known, config := Find(s.core.known, k), Find(Configured(s.core), k);
    forall j | 0 <= j < n && Strays(known, config) ensures !Returns(known, Find(configs[j], k)) {
      assert !ThereAndBack(s, configs, k, 0, j + 1);
    }
    forall i, j | 0 <= i < j < n && Strays(known, Find(configs[i], k)) ensures !Returns(known, Find(configs[j], k)) {
      assert !ThereAndBack(s, configs, k, i + 1, j + 1);
    }
    NeverBack(k, known, config, configs[..n], Strays(known, config));
  }

  /** A kept promise holds, and the key has strayed if the present configuration does. */
  lemma KeptHolds(k: RegistryKey, s: System)
    requires Kept(NoLostRotation, k, s)
    ensures Holds(NoLostRotation, k, s, Strays(Find(s.core.known, k), Find(Configured(s.core), k)))
  {
  }

  /**
   When a rotation can be lost. From every reachable state that has lost none, a series of
   configurations with any work around them and no reconciliation can leave a key with an
   entry of another AK/SK and only its far timer exactly if one of the configurations, the
   present one included, gives the key another AK/SK than the main loop knows while a later
   one gives the known one back. Without spurious wake-ups the key must also still be alive:
   what nobody will work on again keeps whatever it has.
   */
  lemma RotationIsLostExactly(s: System, configs: seq<Registries>, k: RegistryKey, wake: bool)
    requires Reachable(s) && Kept(NoLostRotation, k, s) && |s.workers| > 0 && AllWellFormed(configs)
    ensures CanLoseRotation(s, configs, k, wake) <==>
            (wake || Alive(s, k)) && exists i: nat, j: nat | i < j <= |configs| :: ThereAndBack(s, configs, k, i, j)
  {
    hide Series, Kept, Base, NoZeroes, Reachable, LostRefresh, LostRotation, Alive, AllWellFormed;
    ReachableIsSound(s);
    if CanLoseRotation(s, configs, k, wake) {
      var n, u :| 0 <= n <= |configs| && Series(s, configs[..n], u, wake) && LostRotation(u, k);
      LossNeedsReason(s, configs, k, n, u, wake);
    }
    if (wake || Alive(s, k)) && exists i: nat, j: nat | i < j <= |configs| :: ThereAndBack(s, configs, k, i, j) {
      var i: nat, j: nat :| i < j <= |configs| && ThereAndBack(s, configs, k, i, j);
      var u := ReturnLosesRotation(s, configs, k, i, j, wake);
    }
  }

  lemma LossNeedsReason(s: System, configs: seq<Registries>, k: RegistryKey, n: nat, u: System, wake: bool)
    requires Sound(s) && Kept(NoLostRotation, k, s) && n <= |configs|
    requires Series(s, configs[..n], u, wake) && LostRotation(u, k)
    ensures wake || Alive(s, k)
    ensures exists i: nat, j: nat | i < j <= |configs| :: ThereAndBack(s, configs, k, i, j)
  {
    hide Series, Kept, LostRotation, LostRefresh, Base, NoZeroes, Alive, ThereAndBack, FairSeries, Holds;
    SeriesIsSound(s, configs[..n], u, wake);
    LostIsAlive(u, k);
    if !wake && !Alive(s, k) {
      SeriesKeepsDead(k, s, configs[..n], u);
    }
    if !exists i: nat, j: nat | i < j <= |configs| :: ThereAndBack(s, configs, k, i, j) {
      NowhereThereAndBack(s, configs, k, n);
      KeptHolds(k, s);
      SeriesHolds(NoLostRotation, k, s, configs[..n], u, wake, Strays(Find(s.core.known, k), Find(Configured(s.core), k)));
      var last :| Holds(NoLostRotation, k, u, last);
      HoldsIsNotLost(k, u, last);
    }
  }
}
