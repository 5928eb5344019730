/**
 Three promises the scheduler makes to one key, each with a word about its environment.

 - No rotation is lost, provided the key is never given back the AK/SK last reconciled after it
   was given another one that the main loop has not seen.
 - No refresh is lost, provided the key is not re-added before the main loop has seen its removal.
 - Every deadline is kept up to the time a refresh takes between its clock reading and `AddAfter`.

 Each is an invariant of the key together with what a worker holding the key must preserve.
 `SchedulerLosses` shows that no more can be promised for the first two.
 */
module SchedulerPromises {
  import opened Wrappers
  import opened ConfigTypes
  import opened CredentialTypes
  import opened WorkQueue
  import opened SchedulerModel
  import opened SchedulerBase
  import opened SchedulerSafety

  datatype Promise = NoLostRotation | NoLostRefresh | DeadlineWithin(lag: nat)

  /** The configuration gives the key another AK/SK than the main loop knows. */
  predicate Strays(known: Option<RegistryConfig>, config: Option<RegistryConfig>) {
    known.Some? && config.Some? && !SameAuthentication(config.value, known.value)
  }

  /** The configuration gives the key the AK/SK the main loop knows. */
  predicate Returns(known: Option<RegistryConfig>, config: Option<RegistryConfig>) {
    known.Some? && config.Some? && SameAuthentication(config.value, known.value)
  }

  /** The worker carries a clock reading. */
  predicate HasRead(pc: Worker) {
    || pc.Clocked? || pc.Forced? || pc.Validated? || pc.Installed?
    || pc.Publishing? || pc.FanningOut? || pc.FannedOut? || pc.Scheduling?
  }

  predicate Carrying(pc: Worker) {
    pc.Installed? || pc.Publishing? || pc.FanningOut? || pc.FannedOut? || pc.Scheduling?
  }

  /** The configuration gives the key no other AK/SK than the main loop knows. */
  predicate Settled(v: View) {
    v.cell.known.Some? && !Strays(v.cell.known, v.cell.config)
  }

  /** The entry does not belong to the AK/SK settled on. */
  predicate Obsolete(v: View, e: Entry) {
    Settled(v) && !e.MatchesRegistry(v.cell.known.value)
  }

  /** A timer in time for the entry, or a failure retry within the retry cap. */
  predicate OnTime(v: View, e: Entry, lag: nat, o: Options) {
    && v.cell.ticket.due.Some?
    && (|| v.cell.ticket.due.value <= e.credential.expiresAt - o.refreshBefore + lag
        || (v.retryFrom.Some? && v.cell.ticket.due.value <= v.retryFrom.value + o.retryMaxDelay))
  }

  predicate KeyPromise(g: Promise, v: View, o: Options) {
    match g
    case NoLostRotation => v.cell.stored.Some? && Obsolete(v, v.cell.stored.value) ==> v.Urgent()
    case NoLostRefresh => v.cell.config.Some? && v.cell.known.Some? ==> v.Outstanding()
    case DeadlineWithin(lag) =>
      v.cell.stored.Some? && !v.cell.ticket.dirty && !v.cell.ticket.processing && !v.owed ==>
        OnTime(v, v.cell.stored.value, lag, o)
  }

  predicate PcPromise(g: Promise, pc: Worker, v: View, now: Time, o: Options) {
    match g
    case NoLostRotation =>
      (match pc
       case Loaded(_, registry) => Superseded(v, registry) ==> v.Pressing()
       case Clocked(_, registry, _) => Superseded(v, registry) ==> v.Pressing()
       case Forced(_, registry, _, _) => Superseded(v, registry) ==> v.Pressing()
       case Checked(_, registry, _, _) => Superseded(v, registry) ==> v.Pressing()
       case Validated(_, registry, _, _, _) => Superseded(v, registry) ==> v.Pressing()
       case Returning(_, ok) => ok && v.cell.stored.Some? && Obsolete(v, v.cell.stored.value) ==> v.Pressing()
       case _ => Carrying(pc) && Obsolete(v, pc.entry) ==> v.Pressing())
    case NoLostRefresh =>
      pc.DropStored? || pc.DropPublished? || pc.DropForced? || (pc.Returning? && pc.ok) ==>
        v.cell.config.Some? && v.cell.known.Some? ==> v.Queued()
    case DeadlineWithin(lag) =>
      && (HasRead(pc) ==> now - pc.at <= lag)
      && (pc.Returning? && pc.ok && v.cell.stored.Some? && !v.cell.ticket.dirty && !v.owed ==>
            OnTime(v, v.cell.stored.value, lag, o))
  }

  predicate Superseded(v: View, registry: RegistryConfig) {
    Settled(v) && !SameAuthentication(registry, v.cell.known.value)
  }

  /** The promise to `k` is kept, and every worker holding `k` will keep it. */
  ghost predicate Kept(g: Promise, k: RegistryKey, s: System) {
    && KeyPromise(g, ViewOf(s, k), s.options)
    && forall w | 0 <= w < |s.workers| :: WorkerKeeps(g, k, s, s.workers[w])
  }

  ghost predicate WorkerKeeps(g: Promise, k: RegistryKey, s: System, pc: Worker) {
    HeldBy(pc, k) ==> PcPromise(g, pc, ViewOf(s, k), s.now, s.options)
  }

  // Seen from the key

  predicate PromiseAfter(g: Promise, e: Effect, v': View, now: Time, o: Options) {
    KeyPromise(g, v', o) && (e.pc.Holds() ==> PcPromise(g, e.pc, v', now, o))
  }

  lemma AcquiringKeepsRotation(k: RegistryKey, pc: Worker, v: View, s: System, reply: Reply, e: Effect, v': View, t: System)
    requires ActsOn(k, pc, v, s, reply, e, v', t) && Acquiring(pc)
    requires KeyPromise(NoLostRotation, v, s.options)
    requires pc.Holds() ==> PcPromise(NoLostRotation, pc, v, s.now, s.options)
    ensures PromiseAfter(NoLostRotation, e, v', s.now, s.options)
  {
    hide Records, Provenance, Ledgered, RetriesSoon;
  }

  lemma CarryingKeepsRotation(k: RegistryKey, pc: Worker, v: View, s: System, reply: Reply, e: Effect, v': View, t: System)
    requires ActsOn(k, pc, v, s, reply, e, v', t) && Carrying(pc)
    requires KeyPromise(NoLostRotation, v, s.options)
    requires pc.Holds() ==> PcPromise(NoLostRotation, pc, v, s.now, s.options)
    ensures PromiseAfter(NoLostRotation, e, v', s.now, s.options)
  {
    hide Records, Provenance, Ledgered, RetriesSoon;
  }

  lemma RestKeepsRotation(k: RegistryKey, pc: Worker, v: View, s: System, reply: Reply, e: Effect, v': View, t: System)
    requires ActsOn(k, pc, v, s, reply, e, v', t) && !Acquiring(pc) && !Carrying(pc)
    requires KeyPromise(NoLostRotation, v, s.options)
    requires pc.Holds() ==> PcPromise(NoLostRotation, pc, v, s.now, s.options)
    ensures PromiseAfter(NoLostRotation, e, v', s.now, s.options)
  {
    hide Records, Provenance, Ledgered, RetriesSoon;
  }

  lemma ActKeepsRotation(k: RegistryKey, pc: Worker, v: View, s: System, reply: Reply, e: Effect, v': View, t: System)
    requires ActsOn(k, pc, v, s, reply, e, v', t)
    requires KeyPromise(NoLostRotation, v, s.options)
    requires pc.Holds() ==> PcPromise(NoLostRotation, pc, v, s.now, s.options)
    ensures PromiseAfter(NoLostRotation, e, v', s.now, s.options)
  {
    hide ActsOn, KeyPromise, PcPromise, PromiseAfter;
    if Acquiring(pc) {
      AcquiringKeepsRotation(k, pc, v, s, reply, e, v', t);
    } else if Carrying(pc) {
      CarryingKeepsRotation(k, pc, v, s, reply, e, v', t);
    } else {
      RestKeepsRotation(k, pc, v, s, reply, e, v', t);
    }
  }

  lemma ActKeepsRefresh(k: RegistryKey, pc: Worker, v: View, s: System, reply: Reply, e: Effect, v': View, t: System)
    requires ActsOn(k, pc, v, s, reply, e, v', t)
    requires KeyPromise(NoLostRefresh, v, s.options)
    requires pc.Holds() ==> PcPromise(NoLostRefresh, pc, v, s.now, s.options)
    ensures PromiseAfter(NoLostRefresh, e, v', s.now, s.options)
  {
    hide Records, Provenance, Ledgered, RetriesSoon, EntryOk, PcBase;
  }

  lemma AcquiringKeepsDeadline(lag: nat, k: RegistryKey, pc: Worker, v: View, s: System, reply: Reply, e: Effect, v': View, t: System)
    requires ActsOn(k, pc, v, s, reply, e, v', t) && Acquiring(pc)
    requires KeyPromise(DeadlineWithin(lag), v, s.options)
    requires pc.Holds() ==> PcPromise(DeadlineWithin(lag), pc, v, s.now, s.options)
    ensures PromiseAfter(DeadlineWithin(lag), e, v', s.now, s.options)
  {
    hide Records, Provenance, Ledgered;
  }

  lemma CarryingKeepsDeadline(lag: nat, k: RegistryKey, pc: Worker, v: View, s: System, reply: Reply, e: Effect, v': View, t: System)
    requires ActsOn(k, pc, v, s, reply, e, v', t) && Carrying(pc)
    requires KeyPromise(DeadlineWithin(lag), v, s.options)
    requires pc.Holds() ==> PcPromise(DeadlineWithin(lag), pc, v, s.now, s.options)
    ensures PromiseAfter(DeadlineWithin(lag), e, v', s.now, s.options)
  {
    hide Records, Provenance, Ledgered;
  }

  lemma RestKeepsDeadline(lag: nat, k: RegistryKey, pc: Worker, v: View, s: System, reply: Reply, e: Effect, v': View, t: System)
    requires ActsOn(k, pc, v, s, reply, e, v', t) && !Acquiring(pc) && !Carrying(pc)
    requires KeyPromise(DeadlineWithin(lag), v, s.options)
    requires pc.Holds() ==> PcPromise(DeadlineWithin(lag), pc, v, s.now, s.options)
    ensures PromiseAfter(DeadlineWithin(lag), e, v', s.now, s.options)
  {
    hide Records, Provenance, Ledgered;
    if pc.Settling? {
      BackoffBounds(v.cell.ticket.failures, s.options.retryBaseDelay, s.options.retryMaxDelay);
    }
  }

  lemma ActKeepsDeadline(lag: nat, k: RegistryKey, pc: Worker, v: View, s: System, reply: Reply, e: Effect, v': View, t: System)
    requires ActsOn(k, pc, v, s, reply, e, v', t)
    requires KeyPromise(DeadlineWithin(lag), v, s.options)
    requires pc.Holds() ==> PcPromise(DeadlineWithin(lag), pc, v, s.now, s.options)
    ensures PromiseAfter(DeadlineWithin(lag), e, v', s.now, s.options)
  {
    hide ActsOn, KeyPromise, PcPromise, PromiseAfter;
    if Acquiring(pc) {
      AcquiringKeepsDeadline(lag, k, pc, v, s, reply, e, v', t);
    } else if Carrying(pc) {
      CarryingKeepsDeadline(lag, k, pc, v, s, reply, e, v', t);
    } else {
      RestKeepsDeadline(lag, k, pc, v, s, reply, e, v', t);
    }
  }

  lemma RequeueKeepsPromise(g: Promise, v: View, v': View, o: Options)
    requires Requeued(v, v', o) && KeyPromise(g, v, o)
    ensures KeyPromise(g, v', o)
  {
  }

  lemma RequeueKeepsPcPromise(g: Promise, pc: Worker, v: View, v': View, now: Time, o: Options)
    requires Requeued(v, v', o) && PcPromise(g, pc, v, now, o)
    ensures PcPromise(g, pc, v', now, o)
  {
  }

  /** `config` replaces the configuration of the key, in a way that keeps a promise kept so far. */
  predicate HarmlessChange(g: Promise, v: View, config: Option<RegistryConfig>) {
    match g
    case NoLostRotation => Strays(v.cell.known, v.cell.config) ==> Strays(v.cell.known, config)
    case NoLostRefresh => config.Some? && v.cell.known.Some? ==> v.cell.config.Some?
    case DeadlineWithin(_) => true
  }

  lemma ConfigKeepsPromise(g: Promise, k: RegistryKey, v: View, config: Option<RegistryConfig>, s: System)
    requires KeyBase(k, v, s) && KeyPromise(g, v, s.options) && HarmlessChange(g, v, config)
    requires config.Some? ==> config.value.Key() == k
    ensures KeyPromise(g, v.(cell := v.cell.(config := config)), s.options)
  {
  }

  lemma ConfigKeepsPcPromise(g: Promise, k: RegistryKey, pc: Worker, v: View, config: Option<RegistryConfig>, s: System)
    requires KeyBase(k, v, s) && PcBase(k, pc, v, s)
    requires PcPromise(g, pc, v, s.now, s.options) && HarmlessChange(g, v, config)
    requires config.Some? ==> config.value.Key() == k
    ensures PcPromise(g, pc, v.(cell := v.cell.(config := config)), s.now, s.options)
  {
  }

  lemma ReconcileKeepsPromise(g: Promise, k: RegistryKey, v: View, s: System)
    requires KeyBase(k, v, s) && KeyPromise(g, v, s.options)
    ensures KeyPromise(g, v.(cell := ReconciledCell(v.cell)), s.options)
  {
  }

  lemma ReconcileKeepsPcPromise(g: Promise, k: RegistryKey, pc: Worker, v: View, s: System)
    requires KeyBase(k, v, s) && PcBase(k, pc, v, s) && PcPromise(g, pc, v, s.now, s.options)
    ensures PcPromise(g, pc, v.(cell := ReconciledCell(v.cell)), s.now, s.options)
  {
  }

  /** Whatever became of a rotation the main loop had not seen: once it sees it, the key is queued. */
  lemma ReconcileRestores(v: View, now: Time, o: Options)
    requires !Returns(v.cell.known, v.cell.config)
    ensures var v' := v.(cell := ReconciledCell(v.cell));
            && KeyPromise(NoLostRotation, v', o)
            && (forall pc: Worker :: PcPromise(NoLostRotation, pc, v', now, o))
            && !Strays(v'.cell.known, v'.cell.config)
  {
    var v' := v.(cell := ReconciledCell(v.cell));
    assert v'.cell.known.None? || v'.Pressing();
  }

  // Seen from the whole system

  /** A step that keeps a promise kept so far. */
  ghost predicate Harmless(g: Promise, k: RegistryKey, s: System, step: Step) {
    match step
    case ApplyConfig(registries) => HarmlessChange(g, ViewOf(s, k), Find(registries, k))
    case Tick(elapsed) =>
      g.DeadlineWithin? ==>
        forall w | 0 <= w < |s.workers| && HasRead(s.workers[w]) && s.workers[w].key == k ::
          s.now + elapsed - s.workers[w].at <= g.lag
    case _ => true
  }

  lemma AdvanceKeeps(g: Promise, k: RegistryKey, s: System, w: nat, reply: Reply)
    requires Base(s) && Kept(g, k, s) && w < |s.workers| && !s.workers[w].Idle?
    ensures Kept(g, k, AdvanceWorker(s, w, reply))
  {
    hide KeyPromise, PcPromise, ActsOn, Act, KeyBase;
    var t, pc, e := AdvanceWorker(s, w, reply), s.workers[w], EffectOf(s, w, reply);
    AdvanceViews(s, w, reply);
    ActKeepsHolding(pc.key, pc, ViewOf(s, pc.key), s, reply, e, ViewOf(t, pc.key), t);
    if pc.key == k {
      AdvanceKeepsHere(g, s, w, reply);
    }
    forall x | 0 <= x < |t.workers| ensures WorkerKeeps(g, k, t, t.workers[x]) {
      if x != w {
        OthersKeep(g, k, s, w, reply, x);
      }
    }
  }

  lemma AdvanceKeepsHere(g: Promise, s: System, w: nat, reply: Reply)
    requires Base(s) && w < |s.workers| && !s.workers[w].Idle? && Kept(g, s.workers[w].key, s)
    ensures var t, k := AdvanceWorker(s, w, reply), s.workers[w].key;
            PromiseAfter(g, EffectOf(s, w, reply), ViewOf(t, k), s.now, s.options)
  {
    hide KeyPromise, PcPromise, ActsOn, Act, PromiseAfter;
    var t, pc, e := AdvanceWorker(s, w, reply), s.workers[w], EffectOf(s, w, reply);
    var v, v' := ViewOf(s, pc.key), ViewOf(t, pc.key);
    AdvanceViews(s, w, reply);
    assert WorkerKeeps(g, pc.key, s, pc);
    match g
    case NoLostRotation => ActKeepsRotation(pc.key, pc, v, s, reply, e, v', t);
    case NoLostRefresh => ActKeepsRefresh(pc.key, pc, v, s, reply, e, v', t);
    case DeadlineWithin(lag) => ActKeepsDeadline(lag, pc.key, pc, v, s, reply, e, v', t);
  }

  lemma OthersKeep(g: Promise, k: RegistryKey, s: System, w: nat, reply: Reply, x: nat)
    requires Base(s) && Kept(g, k, s) && w < |s.workers| && !s.workers[w].Idle? && x < |s.workers| && x != w
    ensures WorkerKeeps(g, k, AdvanceWorker(s, w, reply), s.workers[x])
  {
    hide PcPromise, Act;
    var t, pc, q := AdvanceWorker(s, w, reply), s.workers[w], s.workers[x];
    if HeldBy(q, k) {
      AdvanceViews(s, w, reply);
      assert WorkerKeeps(g, k, s, q);
      if pc.key == k {
        OwedWhenSettled(s, w, reply);
        SettlingRequeues(k, pc, ViewOf(s, k), s, reply, EffectOf(s, w, reply), ViewOf(t, k), t);
        RequeueKeepsPcPromise(g, q, ViewOf(s, k), ViewOf(t, k), s.now, s.options);
      }
    }
  }

  /** A step that moves no worker: what it keeps for the key and its holders, it keeps. */
  lemma StillKeeps(g: Promise, k: RegistryKey, s: System, t: System)
    requires Still(s, t) && KeyPromise(g, ViewOf(t, k), s.options)
    requires forall w | 0 <= w < |s.workers| && HeldBy(s.workers[w], k) ::
               PcPromise(g, s.workers[w], ViewOf(t, k), t.now, s.options)
    ensures Kept(g, k, t)
  {
  }

  lemma ApplyConfigKeeps(g: Promise, k: RegistryKey, s: System, registries: Registries)
    requires Base(s) && Kept(g, k, s) && Enabled(s, ApplyConfig(registries)) && Harmless(g, k, s, ApplyConfig(registries))
    ensures Kept(g, k, Next(s, ApplyConfig(registries)))
  {
    hide KeyPromise, PcPromise, KeyBase, HarmlessChange;
    var t, config := Next(s, ApplyConfig(registries)), Find(registries, k);
    StillOwed(s, t, k);
    assert ViewOf(t, k) == ViewOf(s, k).(cell := CellOf(s.core, k).(config := config));
    ConfigKeepsPromise(g, k, ViewOf(s, k), config, s);
    forall w | 0 <= w < |s.workers| && HeldBy(s.workers[w], k)
      ensures PcPromise(g, s.workers[w], ViewOf(t, k), t.now, s.options)
    {
      assert WorkerBase(s, s.workers[w]) && WorkerKeeps(g, k, s, s.workers[w]);
      ConfigKeepsPcPromise(g, k, s.workers[w], ViewOf(s, k), config, s);
    }
    StillKeeps(g, k, s, t);
  }

  lemma ReconcileViews(s: System, k: RegistryKey)
    requires s.core.config.Some?
    ensures var t := s.(core := ReconcileConfiguration(s.core), main := Waiting);
            ViewOf(t, k) == ViewOf(s, k).(cell := ReconciledCell(CellOf(s.core, k)))
  {
    ReconcileCells(s.core, k);
    StillOwed(s, s.(core := ReconcileConfiguration(s.core), main := Waiting), k);
  }

  lemma ReconcileKeeps(g: Promise, k: RegistryKey, s: System)
    requires Base(s) && Kept(g, k, s)
    ensures Kept(g, k, s.(core := ReconcileConfiguration(s.core), main := Waiting))
  {
    hide KeyPromise, PcPromise, KeyBase, ReconciledCell;
    var t := s.(core := ReconcileConfiguration(s.core), main := Waiting);
    if s.core.config.None? {
      QuietKeeps(g, k, s, t);
    } else {
      ReconcileViews(s, k);
      ReconcileKeepsPromise(g, k, ViewOf(s, k), s);
      forall w | 0 <= w < |s.workers| && HeldBy(s.workers[w], k)
        ensures PcPromise(g, s.workers[w], ViewOf(t, k), t.now, s.options)
      {
        assert WorkerBase(s, s.workers[w]) && WorkerKeeps(g, k, s, s.workers[w]);
        ReconcileKeepsPcPromise(g, k, s.workers[w], ViewOf(s, k), s);
      }
      StillKeeps(g, k, s, t);
    }
  }

  lemma QuietKeeps(g: Promise, k: RegistryKey, s: System, t: System)
    requires Kept(g, k, s) && Still(s, t) && t.core == s.core && t.retryFrom == s.retryFrom && t.now == s.now
    ensures Kept(g, k, t)
  {
    StillOwed(s, t, k);
    assert forall w | 0 <= w < |s.workers| :: WorkerKeeps(g, k, s, s.workers[w]);
  }

  lemma TickKeeps(g: Promise, k: RegistryKey, s: System, elapsed: nat)
    requires Kept(g, k, s) && Harmless(g, k, s, Tick(elapsed))
    ensures Kept(g, k, s.(now := s.now + elapsed))
  {
    var t := s.(now := s.now + elapsed);
    StillOwed(s, t, k);
    forall w | 0 <= w < |s.workers| && HeldBy(s.workers[w], k)
      ensures PcPromise(g, s.workers[w], ViewOf(t, k), t.now, s.options)
    {
      assert WorkerKeeps(g, k, s, s.workers[w]);
    }
    StillKeeps(g, k, s, t);
  }

  lemma TicketKeeps(g: Promise, k: RegistryKey, s: System, step: Step)
    requires Base(s) && Kept(g, k, s) && (step.Fire? || step.WakeUp?) && Enabled(s, step)
    ensures Kept(g, k, Next(s, step))
  {
    hide KeyPromise, PcPromise;
    var t := Next(s, step);
    TicketStep(s, step);
    if k == step.key {
      RequeueKeepsPromise(g, ViewOf(s, k), ViewOf(t, k), s.options);
    }
    forall w | 0 <= w < |s.workers| && HeldBy(s.workers[w], k)
      ensures PcPromise(g, s.workers[w], ViewOf(t, k), t.now, s.options)
    {
      assert WorkerKeeps(g, k, s, s.workers[w]);
      if k == step.key {
        RequeueKeepsPcPromise(g, s.workers[w], ViewOf(s, k), ViewOf(t, k), s.now, s.options);
      }
    }
    StillKeeps(g, k, s, t);
  }

  lemma TakenKeepsPromise(g: Promise, k: RegistryKey, v: View, now: Time, o: Options)
    requires KeyPromise(g, v, o)
    ensures var v' := v.(cell := v.cell.(ticket := v.cell.ticket.Get()));
            KeyPromise(g, v', o) && PcPromise(g, Entered(k), v', now, o)
  {
  }

  lemma GetKeeps(g: Promise, k: RegistryKey, s: System, w: nat, j: RegistryKey)
    requires Base(s) && Kept(g, k, s) && Enabled(s, Get(w, j))
    ensures Kept(g, k, Next(s, Get(w, j)))
  {
    hide KeyPromise, PcPromise;
    var t := Next(s, Get(w, j));
    GetStep(s, w, j);
    TakenKeepsPromise(g, k, ViewOf(s, k), s.now, s.options);
    forall x | 0 <= x < |t.workers| ensures WorkerKeeps(g, k, t, t.workers[x]) {
      if x != w {
        assert WorkerKeeps(g, k, s, s.workers[x]) && !HeldBy(s.workers[x], j);
      }
    }
  }

  /** Every harmless step keeps the promise. */
  lemma HarmlessStepKeeps(g: Promise, k: RegistryKey, s: System, step: Step)
    requires Base(s) && Kept(g, k, s) && Enabled(s, step) && Harmless(g, k, s, step)
    ensures Kept(g, k, Next(s, step))
  {
    hide Kept, Base, Harmless;
    match step
    case ApplyConfig(registries) => ApplyConfigKeeps(g, k, s, registries);
    case Reconcile => ReconcileKeeps(g, k, s);
    case Tick(elapsed) => TickKeeps(g, k, s, elapsed);
    case Fire(_) => TicketKeeps(g, k, s, step);
    case WakeUp(_) => TicketKeeps(g, k, s, step);
    case Get(w, j) => GetKeeps(g, k, s, w, j);
    case Advance(w, reply) => AdvanceKeeps(g, k, s, w, reply);
    case _ => QuietKeeps(g, k, s, Next(s, step));
  }

  // Along a run

  /** Whether some configuration since the last reconciliation has given the key another AK/SK. */
  function StrayedAfter(k: RegistryKey, s: System, step: Step, strayed: bool): bool {
    match step
    case ApplyConfig(registries) => strayed || Strays(Find(s.core.known, k), Find(registries, k))
    case Reconcile => false
    case _ => strayed
  }

  /**
   What each promise asks of the environment at one step, for the key it is made to: no way
   back to the AK/SK last reconciled once the key has strayed from it; no re-addition of a key
   whose removal the main loop has not seen; no more than `lag` between reading and using a clock.
   */
  ghost predicate Fair(g: Promise, k: RegistryKey, s: System, step: Step, strayed: bool) {
    match step
    case ApplyConfig(registries) =>
      (match g
       case NoLostRotation => strayed ==> !Returns(Find(s.core.known, k), Find(registries, k))
       case NoLostRefresh => k in registries && k in s.core.known ==> k in Configured(s.core)
       case DeadlineWithin(_) => true)
    case _ => Harmless(g, k, s, step)
  }

  /** The promise is kept; for a rotation, unless the key has strayed, and then it is not yet back. */
  ghost predicate Holds(g: Promise, k: RegistryKey, s: System, strayed: bool) {
    var known, config := Find(s.core.known, k), Find(Configured(s.core), k);
    if g.NoLostRotation? then
      if strayed then s.core.config.Some? && !Returns(known, config) else Kept(g, k, s) && !Strays(known, config)
    else Kept(g, k, s)
  }

  /** Every step the promise's hypothesis allows keeps the promise. */
  lemma StepKeeps(g: Promise, k: RegistryKey, s: System, step: Step, strayed: bool)
    requires Base(s) && Holds(g, k, s, strayed) && Enabled(s, step) && Fair(g, k, s, step, strayed)
    ensures Holds(g, k, Next(s, step), StrayedAfter(k, s, step, strayed))
  {
    if g.NoLostRotation? && strayed {
      if step.Reconcile? {
        ReconcileRestoresKept(k, s);
      } else {
        StepKeepsConfiguration(s, step);
      }
    } else {
      StepKeepsConfiguration(s, step);
      hide Kept, Base;
      if g.NoLostRotation? && StrayedAfter(k, s, step, strayed) {
        assert Strays(Find(s.core.known, k), Find(step.registries, k));
      } else {
        HarmlessStepKeeps(g, k, s, step);
      }
    }
  }

  lemma ReconcileRestoresKept(k: RegistryKey, s: System)
    requires Base(s) && s.core.config.Some? && !Returns(Find(s.core.known, k), Find(Configured(s.core), k))
    ensures var t := s.(core := ReconcileConfiguration(s.core), main := Waiting);
            Kept(NoLostRotation, k, t) && !Strays(Find(t.core.known, k), Find(Configured(t.core), k))
  {
    hide KeyPromise, PcPromise, ReconciledCell;
    var t := s.(core := ReconcileConfiguration(s.core), main := Waiting);
    ReconcileViews(s, k);
    ReconcileRestores(ViewOf(s, k), s.now, s.options);
    assert CellOf(t.core, k) == ViewOf(t, k).cell;
  }

  /** A run all of whose steps respect the promise's hypothesis. */
  ghost predicate FairRun(g: Promise, k: RegistryKey, s: System, steps: seq<Step>, strayed: bool)
    requires Runs(s, steps)
    decreases |steps|
  {
    steps == []
    || (&& Fair(g, k, s, steps[0], strayed)
        && FairRun(g, k, Next(s, steps[0]), steps[1..], StrayedAfter(k, s, steps[0], strayed)))
  }

  lemma {:induction false} RunKeeps(g: Promise, k: RegistryKey, s: System, steps: seq<Step>, strayed: bool)
    requires Base(s) && Holds(g, k, s, strayed) && Runs(s, steps) && FairRun(g, k, s, steps, strayed)
    ensures Base(Final(s, steps)) && exists last :: Holds(g, k, Final(s, steps), last)
    decreases |steps|
  {
    hide Fair, Holds, Base, StrayedAfter;
    if steps != [] {
      StepKeepsBase(s, steps[0]);
      StepKeeps(g, k, s, steps[0], strayed);
      RunKeeps(g, k, Next(s, steps[0]), steps[1..], StrayedAfter(k, s, steps[0], strayed));
    }
  }

  lemma InitKeeps(g: Promise, k: RegistryKey, options: Options, workers: nat, now: Time)
    requires ValidOptions(options)
    ensures Base(Init(options, workers, now)) && Kept(g, k, Init(options, workers, now))
    ensures Holds(g, k, Init(options, workers, now), false)
  {
    InitIsBase(options, workers, now);
    assert TicketOf(Init(options, workers, now).core, k) == NoTicket;
  }

  // The main results

  /** A state reached by a run that respected the promise's hypothesis throughout. */
  ghost predicate Promised(g: Promise, k: RegistryKey, s: System) {
    exists options, workers: nat, now, steps ::
      && ValidOptions(options) && Runs(Init(options, workers, now), steps)
      && FairRun(g, k, Init(options, workers, now), steps, false) && s == Final(Init(options, workers, now), steps)
  }

  /** In such a state the promise is kept, unless the key has another AK/SK or none than the one last reconciled. */
  lemma PromisedIsKept(g: Promise, k: RegistryKey, s: System)
    requires Promised(g, k, s)
    ensures Base(s) && Reachable(s)
    ensures !g.NoLostRotation? || Returns(Find(s.core.known, k), Find(Configured(s.core), k)) ==> Kept(g, k, s)
  {
    var options, workers: nat, now, steps :|
      && ValidOptions(options) && Runs(Init(options, workers, now), steps)
      && FairRun(g, k, Init(options, workers, now), steps, false) && s == Final(Init(options, workers, now), steps);
    InitKeeps(g, k, options, workers, now);
    RunKeeps(g, k, Init(options, workers, now), steps, false);
  }

  /**
   No lost rotation. If the key was never given back the AK/SK last reconciled after it was
   given another one the main loop had not seen, then whenever the configuration and the main
   loop agree on its AK/SK, a stored entry of another AK/SK means that the key is ready, dirty,
   held by a worker, owed a retry, or on a failure retry within the retry cap: it is never left
   to its refresh timer alone. Removals and re-additions with the same AK/SK, changes to yet
   another AK/SK, and other keys are free.
   */
  lemma RotationIsNotLost(k: RegistryKey, s: System)
    requires Promised(NoLostRotation, k, s)
    requires k in Configured(s.core) && k in s.core.known && SameAuthentication(Configured(s.core)[k], s.core.known[k])
    requires k in s.core.store && !s.core.store[k].MatchesRegistry(Configured(s.core)[k])
    ensures TicketOf(s.core, k).dirty || Held(s, k) || Owed(s, k) || OnRetry(s, k)
  {
    PromisedIsKept(NoLostRotation, k, s);
    assert KeyBase(k, ViewOf(s, k), s);
    assert TicketOf(s.core, k).processing <==> Held(s, k);
  }

  /**
   No lost refresh. If the key was never re-added before the main loop had seen its removal,
   then, configured and known to the main loop, it is ready, dirty, held by a worker, owed a
   retry, or waiting for a timer. Nothing is assumed of other keys.
   */
  lemma RefreshIsNotLost(k: RegistryKey, s: System)
    requires Promised(NoLostRefresh, k, s)
    requires k in Configured(s.core) && k in s.core.known
    ensures TicketOf(s.core, k).dirty || Held(s, k) || Owed(s, k) || TicketOf(s.core, k).due.Some?
  {
    PromisedIsKept(NoLostRefresh, k, s);
    assert TicketOf(s.core, k).processing <==> Held(s, k);
  }

  /**
   Deadline. If a refresh of the key takes at most `lag` between its clock reading and
   `AddAfter`, a stored entry outlives its refresh window, and the timer of a key that is not
   ready, held or owed is due by the later of `lag` past the start of the entry's refresh
   window and the retry cap past the last failure. With `lag` zero a refresh is instantaneous.
   */
  lemma DeadlineIsKept(k: RegistryKey, lag: nat, s: System)
    requires Promised(DeadlineWithin(lag), k, s) && k in s.core.store
    ensures var c := s.core.store[k].credential;
            && c.expiresAt > c.refreshedAt + s.options.refreshBefore
            && (TicketOf(s.core, k).dirty || Held(s, k) || Owed(s, k)
                || (&& TicketOf(s.core, k).due.Some?
                    && (|| TicketOf(s.core, k).due.value <= c.expiresAt - s.options.refreshBefore + lag
                        || (k in s.retryFrom && TicketOf(s.core, k).due.value <= s.retryFrom[k] + s.options.retryMaxDelay))))
  {
    PromisedIsKept(DeadlineWithin(lag), k, s);
    assert KeyBase(k, ViewOf(s, k), s);
    assert TicketOf(s.core, k).processing <==> Held(s, k);
  }
}
