/**
 The scheduler calls the provider no more than it must: once a key's entry matches, no run
 of publish failures, spurious wake-ups and domain-only changes acquires it again before its
 refresh window opens.
 */
module SchedulerEconomy {
  import opened Wrappers
  import opened ConfigTypes
  import opened CredentialTypes
  import opened SchedulerModel
  import opened SchedulerBase
  import opened SchedulerSafety

  /** When the refresh window of an entry opens. */
  function RefreshAt(e: Entry, o: Options): Time {
    e.credential.expiresAt - o.refreshBefore
  }

  /** The entry is current, nothing forces a refresh, and the main loop agrees with the configuration. */
  predicate FreshCell(e: Entry, v: Cell) {
    && v.stored == Some(e)
    && v.config.Some? && v.known.Some? && SameAuthentication(v.config.value, v.known.value)
    && e.MatchesRegistry(v.config.value)
    && v.force == 0
  }

  /** A worker holding the key is not past the point where it would call the provider or drop the entry. */
  predicate FreshPc(e: Entry, pc: Worker, o: Options) {
    match pc
    case Loaded(_, registry) => e.MatchesRegistry(registry)
    case Clocked(_, registry, at) => e.MatchesRegistry(registry) && at < RefreshAt(e, o)
    case Forced(_, registry, at, force) => e.MatchesRegistry(registry) && at < RefreshAt(e, o) && force == 0
    case Calling(_, _, _) => false
    case Called(_, _, _, _) => false
    case Checked(_, _, _, _) => false
    case Validated(_, _, _, _, _) => false
    case DropStored(_) => false
    case DropPublished(_) => false
    case DropForced(_) => false
    case RotatedMark(_) => false
    case RotatedAdd(_) => false
    case _ => true
  }

  ghost predicate Fresh(k: RegistryKey, e: Entry, s: System) {
    && s.now < RefreshAt(e, s.options)
    && FreshCell(e, CellOf(s.core, k))
    && forall w | 0 <= w < |s.workers| :: FreshWorker(k, e, s, s.workers[w])
  }

  ghost predicate FreshWorker(k: RegistryKey, e: Entry, s: System, pc: Worker) {
    HeldBy(pc, k) ==> FreshPc(e, pc, s.options)
  }

  /** Any step but a change of the key's AK/SK, its removal, or time passing into the refresh window. */
  predicate Undemanding(k: RegistryKey, e: Entry, s: System, step: Step) {
    && (step.ApplyConfig? ==>
          k in step.registries && k in Configured(s.core) && SameAuthentication(step.registries[k], Configured(s.core)[k]))
    && (step.Tick? ==> s.now + step.elapsed < RefreshAt(e, s.options))
  }

  predicate UndemandingRun(k: RegistryKey, e: Entry, s: System, steps: seq<Step>)
    requires Runs(s, steps)
    decreases |steps|
  {
    steps == [] || (Undemanding(k, e, s, steps[0]) && UndemandingRun(k, e, Next(s, steps[0]), steps[1..]))
  }

  lemma ActStaysFresh(e: Entry, pc: Worker, v: Cell, now: Time, o: Options, nextRevision: nat, reply: Reply)
    requires !pc.Idle? && FreshCell(e, v) && FreshPc(e, pc, o) && now < RefreshAt(e, o)
    ensures var f := Act(pc, v, now, o, nextRevision, reply);
            FreshCell(e, f.cell) && (f.pc.Holds() ==> FreshPc(e, f.pc, o)) && f.calls == []
  {
  }

  /** A call is made for the acting worker's own key. */
  lemma ActCallsForItsKey(pc: Worker, v: Cell, now: Time, o: Options, nextRevision: nat, reply: Reply)
    requires !pc.Idle?
    ensures var f := Act(pc, v, now, o, nextRevision, reply);
            |f.calls| <= 1 && (f.calls != [] ==> pc.Calling? && f.calls[0].key == pc.key)
            && (f.pc.Idle? || f.pc.key == pc.key)
  {
  }

  lemma AdvanceStaysFresh(k: RegistryKey, e: Entry, s: System, w: nat, reply: Reply)
    requires Base(s) && Fresh(k, e, s) && w < |s.workers| && !s.workers[w].Idle?
    ensures var t := AdvanceWorker(s, w, reply);
            Fresh(k, e, t) && CallsNothingFor(k, s, t)
  {
    var t, pc, f := AdvanceWorker(s, w, reply), s.workers[w], EffectOf(s, w, reply);
    AdvanceCells(s, w, reply, k);
    ActCallsForItsKey(pc, CellOf(s.core, pc.key), s.now, s.options, s.core.nextRevision, reply);
    if pc.key == k {
      assert FreshWorker(k, e, s, pc);
      ActStaysFresh(e, pc, CellOf(s.core, k), s.now, s.options, s.core.nextRevision, reply);
    }
    forall x | 0 <= x < |t.workers| ensures FreshWorker(k, e, t, t.workers[x]) {
      assert x != w ==> FreshWorker(k, e, s, s.workers[x]);
    }
  }

  /** Between `s` and `t` the provider was not called for `k`. */
  predicate CallsNothingFor(k: RegistryKey, s: System, t: System) {
    s.calls <= t.calls && forall i | |s.calls| <= i < |t.calls| :: t.calls[i].key != k
  }

  lemma OtherStepStaysFresh(k: RegistryKey, e: Entry, s: System, step: Step)
    requires Base(s) && Fresh(k, e, s) && Enabled(s, step) && Undemanding(k, e, s, step) && !step.Advance?
    ensures Fresh(k, e, Next(s, step)) && CallsNothingFor(k, s, Next(s, step))
  {
    assert KeyBase(k, ViewOf(s, k), s);
    hide Base, AdvanceWorker;
    var t := Next(s, step);
    if step.Reconcile? && s.core.config.Some? {
      ReconcileCells(s.core, k);
    }
    forall x | 0 <= x < |t.workers| ensures FreshWorker(k, e, t, t.workers[x]) {
      assert FreshWorker(k, e, s, s.workers[x]);
    }
  }

  lemma StepStaysFresh(k: RegistryKey, e: Entry, s: System, step: Step)
    requires Base(s) && Fresh(k, e, s) && Enabled(s, step) && Undemanding(k, e, s, step)
    ensures Fresh(k, e, Next(s, step)) && CallsNothingFor(k, s, Next(s, step))
  {
    hide Base, Fresh, Undemanding, AdvanceWorker, CallsNothingFor;
    if step.Advance? {
      AdvanceStaysFresh(k, e, s, step.worker, step.reply);
    } else {
      OtherStepStaysFresh(k, e, s, step);
    }
  }

  /**
   No redundant acquisition: from a state in which the key's entry matches the configuration,
   its force revision is zero and the main loop agrees, the provider is not called for the
   key before its refresh window, whatever fails, wakes up or changes elsewhere.
   */
  lemma {:induction false} NoRedundantAcquisition(k: RegistryKey, e: Entry, s: System, steps: seq<Step>)
    requires Base(s) && Fresh(k, e, s) && Runs(s, steps) && UndemandingRun(k, e, s, steps)
    ensures Fresh(k, e, Final(s, steps)) && CallsNothingFor(k, s, Final(s, steps))
    decreases |steps|
  {
    if steps != [] {
      StepStaysFresh(k, e, s, steps[0]);
      StepKeepsBase(s, steps[0]);
      NoRedundantAcquisition(k, e, Next(s, steps[0]), steps[1..]);
    }
  }
}
