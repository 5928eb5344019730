/**
 Safety of the scheduler over whole runs, with no assumption on the configuration writer:
 provenance, the revision ledger, publication that is never falsely suppressed, and work
 outstanding for every stored entry.
 */
module SchedulerSafety {
  import opened Wrappers
  import opened ConfigTypes
  import opened CredentialTypes
  import opened SchedulerModel
  import opened SchedulerBase

  /** What `reconcileConfiguration` does to one cell once a configuration is loaded. */
  function ReconciledCell(v: Cell): Cell {
    if v.config.None? then
      if v.known.None? then v
      else v.(known := None, stored := None, force := 0, published := 0, ticket := v.ticket.Forget())
    else if v.known.None? then
      v.(known := v.config, ticket := v.ticket.Add())
    else if SameAuthentication(v.known.value, v.config.value) then
      v.(known := v.config)
    else
      v.(known := v.config, force := v.force + 1, ticket := v.ticket.Add())
  }

  /** Reconciliation, defined on whole snapshots, acts on each key by itself. */
  lemma ReconcileCells(c: Core, k: RegistryKey)
    requires c.config.Some?
    ensures CellOf(ReconcileConfiguration(c), k) == ReconciledCell(CellOf(c, k))
  {
    var rotated, removed, added := RotatedKeys(c), RemovedKeys(c), AddedKeys(c);
    assert k in removed <==> k in c.known && k !in Configured(c);
    assert k in added <==> k in Configured(c) && k !in c.known;
  }

  lemma ReconcileKeepsKey(k: RegistryKey, v: View, v': View, s: System)
    requires KeyBase(k, v, s)
    requires v' == v.(cell := ReconciledCell(v.cell))
    ensures KeyBase(k, v', s)
    ensures v.cell.ticket.processing == v'.cell.ticket.processing
  {
  }

  lemma ReconcileKeepsPc(k: RegistryKey, pc: Worker, v: View, v': View, s: System)
    requires PcBase(k, pc, v, s)
    requires v' == v.(cell := ReconciledCell(v.cell))
    ensures PcBase(k, pc, v', s)
  {
  }

  /** A step that moves no worker and leaves the history alone. */
  predicate Still(s: System, t: System) {
    && t.options == s.options && t.workers == s.workers && t.core.nextRevision == s.core.nextRevision
    && t.calls == s.calls && t.installs == s.installs && t.fannedOut == s.fannedOut
  }

  lemma StillOwed(s: System, t: System, k: RegistryKey)
    requires t.workers == s.workers
    ensures Owed(t, k) == Owed(s, k) && Held(t, k) == Held(s, k)
  {
  }

  /** Key by key preservation lifts to the system. */
  lemma StillKeepsBase(s: System, t: System)
    requires Base(s) && Still(s, t)
    requires forall k :: KeyBase(k, ViewOf(t, k), s)
    requires forall k :: TicketOf(t.core, k).processing == TicketOf(s.core, k).processing
    requires forall k, pc: Worker :: PcBase(k, pc, ViewOf(s, k), s) ==> PcBase(k, pc, ViewOf(t, k), s)
    ensures Base(t)
  {
    forall k ensures KeyBase(k, ViewOf(t, k), t) {
      KeyBaseGrows(k, ViewOf(t, k), s, t);
    }
    forall k ensures TicketOf(t.core, k).processing <==> Held(t, k) {
      StillOwed(s, t, k);
      assert TicketOf(s.core, k).processing <==> Held(s, k);
    }
    forall w | 0 <= w < |t.workers| ensures WorkerBase(t, t.workers[w]) {
      assert WorkerBase(s, s.workers[w]);
      if t.workers[w].Holds() {
        var k := t.workers[w].key;
        PcBaseGrows(k, t.workers[w], ViewOf(t, k), s, t);
      }
    }
  }

  lemma ReconcileKeepsBase(s: System)
    requires Base(s)
    ensures Base(s.(core := ReconcileConfiguration(s.core), main := Waiting))
  {
    var t := s.(core := ReconcileConfiguration(s.core), main := Waiting);
    forall k
      ensures KeyBase(k, ViewOf(t, k), s) && TicketOf(t.core, k).processing == TicketOf(s.core, k).processing
      ensures forall pc: Worker :: PcBase(k, pc, ViewOf(s, k), s) ==> PcBase(k, pc, ViewOf(t, k), s)
    {
      StillOwed(s, t, k);
      assert KeyBase(k, ViewOf(s, k), s);
      if s.core.config.Some? {
        ReconcileCells(s.core, k);
        assert CellOf(t.core, k).ticket == TicketOf(t.core, k);
        ReconcileKeepsKey(k, ViewOf(s, k), ViewOf(t, k), s);
        forall pc: Worker | PcBase(k, pc, ViewOf(s, k), s) ensures PcBase(k, pc, ViewOf(t, k), s) {
          ReconcileKeepsPc(k, pc, ViewOf(s, k), ViewOf(t, k), s);
        }
      }
    }
    StillKeepsBase(s, t);
  }

  lemma ApplyConfigKeepsBase(s: System, registries: Registries)
    requires Base(s) && WellFormedRegistries(registries)
    ensures Base(s.(core := s.core.(config := Some(registries)), announcing := true))
  {
    var t := s.(core := s.core.(config := Some(registries)), announcing := true);
    forall k
      ensures KeyBase(k, ViewOf(t, k), s)
      ensures forall pc: Worker :: PcBase(k, pc, ViewOf(s, k), s) ==> PcBase(k, pc, ViewOf(t, k), s)
    {
      StillOwed(s, t, k);
      assert KeyBase(k, ViewOf(s, k), s);
      var v, v' := ViewOf(s, k), ViewOf(t, k);
      assert v' == v.(cell := v.cell.(config := v'.cell.config));
      forall pc: Worker | PcBase(k, pc, v, s) ensures PcBase(k, pc, v', s) {
        ConfigKeepsPc(k, pc, v, v'.cell.config, s);
      }
    }
    StillKeepsBase(s, t);
  }

  lemma ConfigKeepsPc(k: RegistryKey, pc: Worker, v: View, config: Option<RegistryConfig>, s: System)
    requires PcBase(k, pc, v, s)
    ensures PcBase(k, pc, v.(cell := v.cell.(config := config)), s)
  {
  }

  /** The delay heap and spurious wake-ups move a key to the ready list and lose nothing. */
  lemma TicketStep(s: System, step: Step)
    requires Base(s) && (step.Fire? || step.WakeUp?) && Enabled(s, step)
    ensures var t := Next(s, step);
            && Still(s, t)
            && Requeued(ViewOf(s, step.key), ViewOf(t, step.key), s.options)
            && ViewOf(t, step.key).Pressing()
            && forall k :: k != step.key ==> ViewOf(t, k) == ViewOf(s, k)
  {
    var t := Next(s, step);
    assert KeyBase(step.key, ViewOf(s, step.key), s);
    forall k ensures Owed(t, k) == Owed(s, k) {
      StillOwed(s, t, k);
    }
  }

  lemma TicketKeepsBase(s: System, step: Step)
    requires Base(s) && (step.Fire? || step.WakeUp?) && Enabled(s, step)
    ensures Base(Next(s, step))
  {
    var t := Next(s, step);
    TicketStep(s, step);
    forall k
      ensures KeyBase(k, ViewOf(t, k), s) && TicketOf(t.core, k).processing == TicketOf(s.core, k).processing
      ensures forall pc: Worker :: PcBase(k, pc, ViewOf(s, k), s) ==> PcBase(k, pc, ViewOf(t, k), s)
    {
      assert KeyBase(k, ViewOf(s, k), s);
      assert CellOf(t.core, k).ticket == TicketOf(t.core, k);
      if k == step.key {
        RequeueKeepsBase(k, ViewOf(s, k), ViewOf(t, k), s);
      }
    }
    StillKeepsBase(s, t);
  }

  /** `Get` hands a ready key to an idle worker and touches nothing else. */
  lemma GetStep(s: System, w: nat, k: RegistryKey)
    requires Base(s) && Enabled(s, Get(w, k))
    ensures var t := Next(s, Get(w, k));
            && t.workers == s.workers[w := Entered(k)]
            && !Held(s, k)
            && ViewOf(t, k) == ViewOf(s, k).(cell := CellOf(s.core, k).(ticket := TicketOf(s.core, k).Get()))
            && forall j :: j != k ==> ViewOf(t, j) == ViewOf(s, j)
  {
    var t := Next(s, Get(w, k));
    forall j ensures Owed(t, j) == Owed(s, j) {
      OwedElsewhere(s, t, w, j);
    }
  }

  lemma GetKeepsExclusive(s: System, w: nat, k: RegistryKey)
    requires Base(s) && Enabled(s, Get(w, k))
    ensures Exclusive(Next(s, Get(w, k)))
  {
    var t := Next(s, Get(w, k));
    GetStep(s, w, k);
    forall j ensures TicketOf(t.core, j).processing <==> Held(t, j) {
      assert TicketOf(t.core, j) == ViewOf(t, j).cell.ticket && TicketOf(s.core, j) == ViewOf(s, j).cell.ticket;
      assert TicketOf(s.core, j).processing <==> Held(s, j);
      if j == k {
        assert HeldBy(t.workers[w], k);
      } else {
        HeldElsewhere(s, t, w, j);
      }
    }
    forall x, y | 0 <= x < |t.workers| && 0 <= y < |t.workers| && x != y && t.workers[x].Holds() && t.workers[y].Holds()
      ensures t.workers[x].key != t.workers[y].key
    {
      assert x != w ==> !HeldBy(s.workers[x], k);
      assert y != w ==> !HeldBy(s.workers[y], k);
    }
  }

  lemma TakenKeepsKey(k: RegistryKey, v: View, s: System)
    requires KeyBase(k, v, s)
    ensures var v' := v.(cell := v.cell.(ticket := v.cell.ticket.Get())); KeyBase(k, v', s) && PcBase(k, Entered(k), v', s)
  {
  }

  lemma GetKeepsBase(s: System, w: nat, k: RegistryKey)
    requires Base(s) && Enabled(s, Get(w, k))
    ensures Base(Next(s, Get(w, k)))
  {
    hide KeyBase, PcBase;
    var t := Next(s, Get(w, k));
    GetStep(s, w, k);
    TakenKeepsKey(k, ViewOf(s, k), s);
    forall j ensures KeyBase(j, ViewOf(t, j), t) {
      KeyBaseGrows(j, ViewOf(t, j), s, t);
    }
    forall x | 0 <= x < |t.workers| ensures WorkerBase(t, t.workers[x]) {
      if x == w {
        PcBaseGrows(k, Entered(k), ViewOf(t, k), s, t);
      } else if t.workers[x].Holds() {
        assert WorkerBase(s, s.workers[x]) && !HeldBy(s.workers[x], k);
        PcBaseGrows(t.workers[x].key, t.workers[x], ViewOf(s, t.workers[x].key), s, t);
      }
    }
    GetKeepsExclusive(s, w, k);
  }

  lemma QuietKeepsBase(s: System, t: System)
    requires Base(s) && Still(s, t) && t.core == s.core && t.retryFrom == s.retryFrom
    ensures Base(t)
  {
    forall k
      ensures KeyBase(k, ViewOf(t, k), s)
      ensures forall pc: Worker :: PcBase(k, pc, ViewOf(s, k), s) ==> PcBase(k, pc, ViewOf(t, k), s)
    {
      StillOwed(s, t, k);
      assert ViewOf(t, k) == ViewOf(s, k);
      assert KeyBase(k, ViewOf(s, k), s);
    }
    StillKeepsBase(s, t);
  }

  /** Every step keeps the invariant. */
  lemma StepKeepsBase(s: System, step: Step)
    requires Base(s) && Enabled(s, step)
    ensures Base(Next(s, step))
  {
    match step
    case ApplyConfig(registries) => ApplyConfigKeepsBase(s, registries);
    case Reconcile => ReconcileKeepsBase(s);
    case Fire(_) => TicketKeepsBase(s, step);
    case WakeUp(_) => TicketKeepsBase(s, step);
    case Get(w, k) => GetKeepsBase(s, w, k);
    case Advance(w, reply) => AdvanceKeepsBase(s, w, reply);
    case _ => QuietKeepsBase(s, Next(s, step));
  }

  lemma InitIsBase(options: Options, workers: nat, now: Time)
    requires ValidOptions(options)
    ensures Base(Init(options, workers, now))
  {
    var s := Init(options, workers, now);
    forall k ensures KeyBase(k, ViewOf(s, k), s) && !Held(s, k) {
    }
  }

  lemma {:induction false} RunKeepsBase(s: System, steps: seq<Step>)
    requires Base(s) && Runs(s, steps)
    ensures Base(Final(s, steps))
    decreases |steps|
  {
    if steps != [] {
      StepKeepsBase(s, steps[0]);
      RunKeepsBase(Next(s, steps[0]), steps[1..]);
    }
  }

  /** Install number r carries revision r: revisions are unique and strictly increasing. */
  ghost predicate Numbered(s: System) {
    forall i | 0 <= i < |s.installs| :: s.installs[i].entry.revision == i + 1
  }

  lemma StepKeepsNumbered(s: System, step: Step)
    requires Base(s) && Numbered(s) && Enabled(s, step)
    ensures Numbered(Next(s, step))
  {
    hide KeyBase, WorkerBase, Exclusive, Put, CellOf, ReconcileConfiguration;
  }

  lemma {:induction false} RunKeepsNumbered(s: System, steps: seq<Step>)
    requires Base(s) && Numbered(s) && Runs(s, steps)
    ensures Numbered(Final(s, steps))
    decreases |steps|
  {
    if steps != [] {
      StepKeepsNumbered(s, steps[0]);
      StepKeepsBase(s, steps[0]);
      RunKeepsNumbered(Next(s, steps[0]), steps[1..]);
    }
  }

  // The main results

  /** A state the scheduler can reach from its start. */
  ghost predicate Reachable(s: System) {
    exists options, workers: nat, now, steps ::
      ValidOptions(options) && Runs(Init(options, workers, now), steps) && s == Final(Init(options, workers, now), steps)
  }

  lemma ReachableIsBase(s: System)
    requires Reachable(s)
    ensures Base(s) && Numbered(s)
  {
    var options, workers: nat, now, steps :|
      ValidOptions(options) && Runs(Init(options, workers, now), steps) && s == Final(Init(options, workers, now), steps);
    InitIsBase(options, workers, now);
    RunKeepsBase(Init(options, workers, now), steps);
    RunKeepsNumbered(Init(options, workers, now), steps);
  }

  /** At most one worker is inside `refresh` for a key. */
  lemma OneWorkerPerKey(s: System, w: nat, x: nat)
    requires Reachable(s) && w < |s.workers| && x < |s.workers|
    requires s.workers[w].Holds() && s.workers[x].Holds() && s.workers[w].key == s.workers[x].key
    ensures w == x
  {
    ReachableIsBase(s);
  }

  /**
   Every key with an entry in the store is ready, dirty, held by a worker, owed a retry, or
   waiting for a timer. Nothing is assumed of the configuration: an entry installed after
   its registry was removed is still due for cleanup.
   */
  lemma StoredIsScheduled(s: System, k: RegistryKey)
    requires Reachable(s) && k in s.core.store
    ensures TicketOf(s.core, k).dirty || Held(s, k) || Owed(s, k) || TicketOf(s.core, k).due.Some?
  {
    ReachableIsBase(s);
    assert KeyBase(k, ViewOf(s, k), s);
    assert TicketOf(s.core, k).processing <==> Held(s, k);
  }

  /**
   An entry that passes for a registry's current credential was granted by the provider to
   a request with exactly that registry's key and AK/SK.
   */
  lemma StoredTokensBelong(s: System, registry: RegistryConfig)
    requires Reachable(s) && registry.Key() in s.core.store
    requires s.core.store[registry.Key()].MatchesRegistry(registry)
    ensures var c := s.core.store[registry.Key()].credential;
            && Call(registry.Key(), registry.accessKeyID, registry.accessKeySecret,
                    Granted(Token(c.username, c.password, c.expiresAt))) in s.calls
            && c.username != "" && c.password != "" && c.expiresAt > c.refreshedAt + s.options.refreshBefore
  {
    ReachableIsBase(s);
    assert KeyBase(registry.Key(), ViewOf(s, registry.Key()), s);
  }

  /** Stored revisions are pairwise different and name the very install they came from. */
  lemma RevisionsAreUnique(s: System, k: RegistryKey, l: RegistryKey)
    requires Reachable(s) && k in s.core.store && l in s.core.store
    ensures 1 <= s.core.store[k].revision <= |s.installs| == s.core.nextRevision
    ensures s.installs[s.core.store[k].revision - 1] == Install(k, s.core.store[k])
    ensures s.core.store[k].revision == s.core.store[l].revision ==> k == l
    ensures forall i, j | 0 <= i < j < |s.installs| :: s.installs[i].entry.revision < s.installs[j].entry.revision
  {
    ReachableIsBase(s);
    assert KeyBase(k, ViewOf(s, k), s) && KeyBase(l, ViewOf(s, l), s);
  }

  /** The key waits for a timer set by a failure, within the retry cap. */
  predicate OnRetry(s: System, k: RegistryKey) {
    && k in s.retryFrom
    && TicketOf(s.core, k).due.Some?
    && TicketOf(s.core, k).due.value <= s.retryFrom[k] + s.options.retryMaxDelay
  }

  /**
   A publication is skipped only for an entry whose own fan-out is done: a completed
   fan-out started after that very entry was installed. An entry not yet published has work
   outstanding other than its refresh timer.
   */
  lemma PublicationIsNotSuppressed(s: System, k: RegistryKey)
    requires Reachable(s) && k in s.core.store
    ensures PublishedRevision(s.core, k) == s.core.store[k].revision ==>
              1 <= s.core.store[k].revision <= s.fannedOut <= |s.installs| &&
              s.installs[PublishedRevision(s.core, k) - 1] == Install(k, s.core.store[k])
    ensures PublishedRevision(s.core, k) != s.core.store[k].revision ==>
              TicketOf(s.core, k).dirty || Held(s, k) || Owed(s, k) || OnRetry(s, k)
  {
    ReachableIsBase(s);
    assert KeyBase(k, ViewOf(s, k), s);
    assert TicketOf(s.core, k).processing <==> Held(s, k);
  }

  /** A configuration the main loop has not yet taken over is on its way to it. */
  predicate ReconcileAhead(s: System) {
    s.announcing || s.notified || !s.main.Waiting?
  }

  predicate Heard(s: System) {
    ReconcileAhead(s) || s.core.known == Configured(s.core)
  }

  lemma {:induction false} RunKeepsHeard(s: System, steps: seq<Step>)
    requires Heard(s) && (s.core.config.None? ==> s.core.known == map[]) && Runs(s, steps)
    ensures Heard(Final(s, steps))
    decreases |steps|
  {
    if steps != [] {
      var t := Next(s, steps[0]);
      assert t.core.config.None? ==> s.core.config.None? && t.core.known == s.core.known by {
        StepKeepsConfiguration(s, steps[0]);
      }
      assert Heard(t) by {
        StepKeepsConfiguration(s, steps[0]);
      }
      RunKeepsHeard(t, steps[1..]);
    }
  }

  /** Only the writer changes the configuration, only the main loop changes what it knows. */
  lemma StepKeepsConfiguration(s: System, step: Step)
    requires Enabled(s, step)
    ensures !step.ApplyConfig? ==> Next(s, step).core.config == s.core.config
    ensures !step.Reconcile? ==> Next(s, step).core.known == s.core.known
  {
  }

  /**
   Notifications coalesce, and yet no change goes unnoticed: while the registries in force
   differ from those last reconciled, another reconciliation is ahead.
   */
  lemma CoalescingLosesNoChange(options: Options, workers: nat, now: Time, steps: seq<Step>)
    requires Runs(Init(options, workers, now), steps)
    ensures var s := Final(Init(options, workers, now), steps);
            s.core.known == Configured(s.core) || s.announcing || s.notified || !s.main.Waiting?
  {
    RunKeepsHeard(Init(options, workers, now), steps);
  }
}
