/**
 What holds in every reachable state of the scheduler, whatever the configuration writer
 does: one worker per key, provenance of every stored entry, the revision ledger, and work
 outstanding for every stored entry.
 */
module SchedulerBase {
  import opened Wrappers
  import opened ConfigTypes
  import opened CredentialTypes
  import opened WorkQueue
  import opened SchedulerModel

  /** The stored credential is what a provider call for exactly this key and AK/SK granted. */
  predicate Provenance(k: RegistryKey, e: Entry, calls: seq<Call>) {
    && e.authenticationHash.HashOf?
    && e.authenticationHash.regionID == k.regionID
    && e.authenticationHash.instanceID == k.instanceID
    && Call(k, e.authenticationHash.accessKeyID, e.authenticationHash.accessKeySecret,
            Granted(Token(e.credential.username, e.credential.password, e.credential.expiresAt))) in calls
  }

  /** Revision numbers name installs: entry `e` is install number `e.revision`, made for `k`. */
  predicate Ledgered(k: RegistryKey, e: Entry, installs: seq<Install>) {
    1 <= e.revision <= |installs| && installs[e.revision - 1] == Install(k, e)
  }

  predicate UsableCredential(c: Credential, refreshBefore: Time) {
    c.username != "" && c.password != "" && c.expiresAt > c.refreshedAt + refreshBefore
  }

  predicate EntryOk(k: RegistryKey, e: Entry, s: System) {
    Provenance(k, e, s.calls) && Ledgered(k, e, s.installs) && UsableCredential(e.credential, s.options.refreshBefore)
  }

  predicate KeyBase(k: RegistryKey, v: View, s: System) {
    && (v.cell.config.Some? ==> v.cell.config.value.Key() == k)
    && (v.cell.known.Some? ==> v.cell.known.value.Key() == k)
    && (v.cell.stored.Some? ==> EntryOk(k, v.cell.stored.value, s))
    && (v.cell.stored.Some? ==> v.Outstanding())
    && (v.cell.stored.Some? && v.cell.published != v.cell.stored.value.revision ==> v.Urgent())
    && v.cell.published <= s.fannedOut
    && (v.cell.published > 0 ==>
          v.cell.published <= |s.installs| && s.installs[v.cell.published - 1].key == k)
    && RetriesSoon(v, s.options)
  }

  /** A failure retry is a timer within the retry cap of the failure. */
  predicate RetriesSoon(v: View, o: Options) {
    v.retryFrom.Some? ==>
      v.cell.ticket.due.Some? && v.cell.ticket.due.value <= v.retryFrom.value + o.retryMaxDelay
  }

  /** A worker that carries an entry sees it in the store, or sees nothing there. */
  predicate Carries(k: RegistryKey, entry: Entry, v: View, s: System) {
    EntryOk(k, entry, s) && (v.cell.stored.Some? ==> v.cell.stored.value == entry)
  }

  predicate Answered(k: RegistryKey, registry: RegistryConfig, token: Token, s: System) {
    registry.Key() == k && Call(k, registry.accessKeyID, registry.accessKeySecret, Granted(token)) in s.calls
  }

  predicate PcBase(k: RegistryKey, pc: Worker, v: View, s: System) {
    match pc
    case Loaded(_, registry) => registry.Key() == k
    case Clocked(_, registry, _) => registry.Key() == k
    case Forced(_, registry, _, _) => registry.Key() == k
    case Calling(_, registry, _) => registry.Key() == k
    case Called(_, registry, _, token) => Answered(k, registry, token, s)
    case Checked(_, registry, _, token) => Answered(k, registry, token, s)
    case Validated(_, registry, _, token, at) =>
      Answered(k, registry, token, s) && ValidToken(token, at, s.options.refreshBefore)
    case Installed(_, entry, _, _) => Carries(k, entry, v, s)
    case Publishing(_, entry, _) => Carries(k, entry, v, s)
    case FanningOut(_, entry, _, since) => Carries(k, entry, v, s) && entry.revision <= since <= |s.installs|
    case FannedOut(_, entry, _) => Carries(k, entry, v, s) && entry.revision <= s.fannedOut
    case Scheduling(_, entry, _) =>
      Carries(k, entry, v, s) && (v.cell.stored.Some? ==> v.cell.published == entry.revision)
    case DropPublished(_) => v.cell.stored.None?
    case DropForced(_) => v.cell.stored.None?
    case Returning(_, ok) =>
      ok && v.cell.stored.Some? ==>
        v.Queued() && (v.cell.published != v.cell.stored.value.revision ==> v.Pressing())
    case _ => true
  }

  /** Two workers never hold the same key, and the queue knows exactly which keys are held. */
  ghost predicate Exclusive(s: System) {
    && (forall w, x | 0 <= w < |s.workers| && 0 <= x < |s.workers| && w != x ::
          s.workers[w].Holds() && s.workers[x].Holds() ==> s.workers[w].key != s.workers[x].key)
    && (forall k :: TicketOf(s.core, k).processing <==> Held(s, k))
  }

  ghost predicate Held(s: System, k: RegistryKey) {
    exists w :: 0 <= w < |s.workers| && HeldBy(s.workers[w], k)
  }

  predicate HeldBy(pc: Worker, k: RegistryKey) {
    pc.Holds() && pc.key == k
  }

  ghost predicate Base(s: System) {
    && ValidOptions(s.options)
    && Exclusive(s)
    && |s.installs| == s.core.nextRevision
    && s.fannedOut <= |s.installs|
    && (forall k :: KeyBase(k, ViewOf(s, k), s))
    && (forall w | 0 <= w < |s.workers| :: WorkerBase(s, s.workers[w]))
  }

  ghost predicate WorkerBase(s: System, pc: Worker) {
    pc.Holds() ==> PcBase(pc.key, pc, ViewOf(s, pc.key), s)
  }

  /** The history only grows. */
  predicate Grows(s: System, t: System) {
    s.options == t.options && s.calls <= t.calls && s.installs <= t.installs && s.fannedOut <= t.fannedOut
  }

  lemma KeyBaseGrows(k: RegistryKey, v: View, s: System, t: System)
    requires Grows(s, t) && KeyBase(k, v, s)
    ensures KeyBase(k, v, t)
  {
  }

  lemma PcBaseGrows(k: RegistryKey, pc: Worker, v: View, s: System, t: System)
    requires Grows(s, t) && t.fannedOut <= |t.installs| && PcBase(k, pc, v, s)
    ensures PcBase(k, pc, v, t)
  {
  }

  /** The history of `t` is that of `s` and what `e` adds. */
  predicate Records(s: System, e: Effect, t: System) {
    && t.options == s.options
    && t.calls == s.calls + e.calls
    && t.installs == s.installs + e.installs
    && t.fannedOut == if s.fannedOut < e.fannedOut then e.fannedOut else s.fannedOut
  }

  /** How the view of the acting worker's key changes outside the cell. */
  predicate Follows(pc: Worker, v: View, e: Effect, now: Time, v': View)
    requires !pc.Idle?
  {
    && v'.cell == e.cell
    && (v'.retryFrom == if pc == Settling(pc.key, false) then Some(now) else v.retryFrom)
    && (if pc == Returning(pc.key, false) then v'.owed else pc != Settling(pc.key, false) ==> v'.owed == v.owed)
  }

  /** A worker at `pc` acts on its own key `k` with effect `e`; `v` becomes `v'` and `s` becomes `t`. */
  predicate ActsOn(k: RegistryKey, pc: Worker, v: View, s: System, reply: Reply, e: Effect, v': View, t: System) {
    && ValidOptions(s.options) && |s.installs| == s.core.nextRevision && s.fannedOut <= |s.installs|
    && !pc.Idle? && pc.key == k
    && KeyBase(k, v, s)
    && (pc.Holds() ==> v.cell.ticket.processing && PcBase(k, pc, v, s))
    && e == Act(pc, v.cell, s.now, s.options, s.core.nextRevision, reply)
    && Records(s, e, t)
    && Follows(pc, v, e, s.now, v')
  }

  predicate BaseAfter(k: RegistryKey, e: Effect, v': View, t: System) {
    && t.fannedOut <= |t.installs|
    && KeyBase(k, v', t)
    && (e.pc.Holds() ==> PcBase(k, e.pc, v', t))
  }

  /** Which keys are held changes only with `Done`. */
  lemma ActKeepsHolding(k: RegistryKey, pc: Worker, v: View, s: System, reply: Reply, e: Effect, v': View, t: System)
    requires ActsOn(k, pc, v, s, reply, e, v', t)
    ensures !e.pc.Idle? ==> e.pc.key == k
    ensures e.pc.Holds() ==> pc.Holds() && v'.cell.ticket.processing
    ensures pc.Holds() && !e.pc.Holds() ==> !v'.cell.ticket.processing
    ensures !pc.Holds() ==> v'.cell.ticket.processing == v.cell.ticket.processing
    ensures v'.cell.config == v.cell.config && v'.cell.known == v.cell.known
    ensures |e.installs| <= 1
  {
    hide KeyBase, PcBase, Records;
  }

  predicate Acquiring(pc: Worker) {
    pc.Entered? || pc.Loaded? || pc.Clocked? || pc.Forced? || pc.Calling? || pc.Called? || pc.Checked?
  }

  predicate Publication(pc: Worker) {
    pc.Installed? || pc.Publishing? || pc.FanningOut?
  }

  lemma AcquiringKeepsBase(k: RegistryKey, pc: Worker, v: View, s: System, reply: Reply, e: Effect, v': View, t: System)
    requires ActsOn(k, pc, v, s, reply, e, v', t) && Acquiring(pc)
    ensures BaseAfter(k, e, v', t)
  {
  }

  lemma InstallKeepsBase(k: RegistryKey, pc: Worker, v: View, s: System, reply: Reply, e: Effect, v': View, t: System)
    requires ActsOn(k, pc, v, s, reply, e, v', t) && pc.Validated?
    ensures BaseAfter(k, e, v', t)
  {
  }

  lemma PublicationKeepsBase(k: RegistryKey, pc: Worker, v: View, s: System, reply: Reply, e: Effect, v': View, t: System)
    requires ActsOn(k, pc, v, s, reply, e, v', t) && Publication(pc)
    ensures BaseAfter(k, e, v', t)
  {
  }

  predicate Delivery(pc: Worker) {
    pc.FannedOut? || pc.Scheduling?
  }

  predicate Dropping(pc: Worker) {
    pc.DropStored? || pc.DropPublished? || pc.DropForced? || pc.RotatedMark? || pc.RotatedAdd?
  }

  lemma DeliveryKeepsBase(k: RegistryKey, pc: Worker, v: View, s: System, reply: Reply, e: Effect, v': View, t: System)
    requires ActsOn(k, pc, v, s, reply, e, v', t) && Delivery(pc)
    ensures BaseAfter(k, e, v', t)
  {
  }

  lemma DroppingKeepsBase(k: RegistryKey, pc: Worker, v: View, s: System, reply: Reply, e: Effect, v': View, t: System)
    requires ActsOn(k, pc, v, s, reply, e, v', t) && Dropping(pc)
    ensures BaseAfter(k, e, v', t)
  {
    assert s.calls + [] == s.calls && s.installs + [] == s.installs;
    hide Provenance, Ledgered, UsableCredential;
  }

  lemma LeavingKeepsBase(k: RegistryKey, pc: Worker, v: View, s: System, reply: Reply, e: Effect, v': View, t: System)
    requires ActsOn(k, pc, v, s, reply, e, v', t) && (pc.Returning? || pc.Settling?)
    ensures BaseAfter(k, e, v', t)
  {
    assert s.calls + [] == s.calls && s.installs + [] == s.installs;
    hide Provenance, Ledgered, UsableCredential;
    if pc.Settling? {
      BackoffBounds(v.cell.ticket.failures, s.options.retryBaseDelay, s.options.retryMaxDelay);
    }
  }

  lemma ActKeepsBase(k: RegistryKey, pc: Worker, v: View, s: System, reply: Reply, e: Effect, v': View, t: System)
    requires ActsOn(k, pc, v, s, reply, e, v', t)
    ensures BaseAfter(k, e, v', t)
  {
    assert !pc.Idle?;
    hide ActsOn, BaseAfter;
    if Acquiring(pc) {
      AcquiringKeepsBase(k, pc, v, s, reply, e, v', t);
    } else if Publication(pc) {
      PublicationKeepsBase(k, pc, v, s, reply, e, v', t);
    } else if pc.Validated? {
      InstallKeepsBase(k, pc, v, s, reply, e, v', t);
    } else if Delivery(pc) {
      DeliveryKeepsBase(k, pc, v, s, reply, e, v', t);
    } else if Dropping(pc) {
      DroppingKeepsBase(k, pc, v, s, reply, e, v', t);
    } else {
      LeavingKeepsBase(k, pc, v, s, reply, e, v', t);
    }
  }

  // From one key to the whole system

  /** Writing back one cell leaves every other cell alone. */
  lemma PutCell(c: Core, k: RegistryKey, cell: Cell, revision: nat, j: RegistryKey)
    requires cell.config == CellOf(c, k).config && cell.known == CellOf(c, k).known
    ensures CellOf(Put(c, k, cell).(nextRevision := revision), j) == if j == k then cell else CellOf(c, j)
  {
  }

  lemma ActKeepsConfiguration(pc: Worker, v: Cell, now: Time, o: Options, nextRevision: nat, reply: Reply)
    requires !pc.Idle?
    ensures var e := Act(pc, v, now, o, nextRevision, reply); e.cell.config == v.config && e.cell.known == v.known
  {
  }

  lemma OwedElsewhere(s: System, t: System, w: nat, k: RegistryKey)
    requires w < |s.workers| && |t.workers| == |s.workers| && t.workers == s.workers[w := t.workers[w]]
    requires s.workers[w] != Settling(k, false) && t.workers[w] != Settling(k, false)
    ensures Owed(t, k) == Owed(s, k)
  {
    if Owed(s, k) {
      var x :| 0 <= x < |s.workers| && s.workers[x] == Settling(k, false);
      assert t.workers[x] == Settling(k, false);
    }
    if Owed(t, k) {
      var x :| 0 <= x < |t.workers| && t.workers[x] == Settling(k, false);
      assert s.workers[x] == Settling(k, false);
    }
  }

  lemma HeldElsewhere(s: System, t: System, w: nat, k: RegistryKey)
    requires w < |s.workers| && |t.workers| == |s.workers| && t.workers == s.workers[w := t.workers[w]]
    requires HeldBy(s.workers[w], k) == HeldBy(t.workers[w], k)
    ensures Held(t, k) == Held(s, k)
  {
    if Held(s, k) {
      var x :| 0 <= x < |s.workers| && HeldBy(s.workers[x], k);
      assert HeldBy(t.workers[x], k);
    }
    if Held(t, k) {
      var x :| 0 <= x < |t.workers| && HeldBy(t.workers[x], k);
      assert HeldBy(s.workers[x], k);
    }
  }

  lemma AdvanceCells(s: System, w: nat, reply: Reply, k: RegistryKey)
    requires w < |s.workers| && !s.workers[w].Idle?
    ensures CellOf(AdvanceWorker(s, w, reply).core, k) ==
            if k == s.workers[w].key then EffectOf(s, w, reply).cell else CellOf(s.core, k)
  {
    var pc, e := s.workers[w], EffectOf(s, w, reply);
    ActKeepsConfiguration(pc, CellOf(s.core, pc.key), s.now, s.options, s.core.nextRevision, reply);
    PutCell(s.core, pc.key, e.cell, s.core.nextRevision + |e.installs|, k);
  }

  lemma AdvanceOwed(s: System, w: nat, reply: Reply, k: RegistryKey)
    requires w < |s.workers| && !s.workers[w].Idle?
    ensures var t, pc := AdvanceWorker(s, w, reply), s.workers[w];
            if pc == Returning(k, false) then Owed(t, k)
            else pc != Settling(k, false) ==> Owed(t, k) == Owed(s, k)
  {
    hide CellOf, Put;
    var t := AdvanceWorker(s, w, reply);
    if s.workers[w] == Returning(k, false) {
      assert t.workers[w] == Settling(k, false);
    } else if s.workers[w] != Settling(k, false) {
      OwedElsewhere(s, t, w, k);
    }
  }

  /** The step of worker `w` is the action `Act` on its own key and invisible to every other key. */
  lemma AdvanceViews(s: System, w: nat, reply: Reply)
    requires Base(s) && w < |s.workers| && !s.workers[w].Idle?
    ensures
      var t, pc, e := AdvanceWorker(s, w, reply), s.workers[w], EffectOf(s, w, reply);
      && ActsOn(pc.key, pc, ViewOf(s, pc.key), s, reply, e, ViewOf(t, pc.key), t)
      && forall k :: k != pc.key ==> ViewOf(t, k) == ViewOf(s, k)
  {
    var t, pc, e := AdvanceWorker(s, w, reply), s.workers[w], EffectOf(s, w, reply);
    AdvanceCells(s, w, reply, pc.key);
    AdvanceOwed(s, w, reply, pc.key);
    assert WorkerBase(s, pc);
    assert KeyBase(pc.key, ViewOf(s, pc.key), s);
    assert pc.Holds() ==> TicketOf(s.core, pc.key).processing by {
      assert pc.Holds() ==> HeldBy(s.workers[w], pc.key);
    }
    forall k | k != pc.key ensures ViewOf(t, k) == ViewOf(s, k) {
      AdvanceCells(s, w, reply, k);
      AdvanceOwed(s, w, reply, k);
    }
  }

  /** Only the queue side of a key moved, and no work was lost. */
  predicate Requeued(v: View, v': View, o: Options) {
    && v'.cell == v.cell.(ticket := v'.cell.ticket)
    && v.cell.ticket.processing == v'.cell.ticket.processing
    && RetriesSoon(v', o)
    && (v'.Pressing() || v' == v.(cell := v.cell.(ticket := v.cell.ticket.(failures := v'.cell.ticket.failures))))
  }

  lemma RequeueKeepsBase(k: RegistryKey, v: View, v': View, s: System)
    requires Requeued(v, v', s.options) && KeyBase(k, v, s)
    ensures KeyBase(k, v', s)
    ensures forall pc: Worker :: PcBase(k, pc, v, s) ==> PcBase(k, pc, v', s)
  {
    forall pc: Worker | PcBase(k, pc, v, s) ensures PcBase(k, pc, v', s) {
      RequeueKeepsPc(k, pc, v, v', s);
    }
  }

  lemma RequeueKeepsPc(k: RegistryKey, pc: Worker, v: View, v': View, s: System)
    requires Requeued(v, v', s.options) && PcBase(k, pc, v, s)
    ensures PcBase(k, pc, v', s)
  {
  }

  /** Settling a failure or a success loses no work of a worker that meanwhile holds the key. */
  lemma SettlingRequeues(k: RegistryKey, pc: Worker, v: View, s: System, reply: Reply, e: Effect, v': View, t: System)
    requires ActsOn(k, pc, v, s, reply, e, v', t) && pc.Settling?
    requires pc.ok ==> v'.owed == v.owed
    ensures Requeued(v, v', s.options)
  {
    BackoffBounds(v.cell.ticket.failures, s.options.retryBaseDelay, s.options.retryMaxDelay);
  }

  lemma AdvanceKeepsExclusive(s: System, w: nat, reply: Reply)
    requires Base(s) && w < |s.workers| && !s.workers[w].Idle?
    ensures Exclusive(AdvanceWorker(s, w, reply))
  {
    hide KeyBase, WorkerBase, ActsOn, Act;
    var t, pc, e := AdvanceWorker(s, w, reply), s.workers[w], EffectOf(s, w, reply);
    AdvanceViews(s, w, reply);
    ActKeepsHolding(pc.key, pc, ViewOf(s, pc.key), s, reply, e, ViewOf(t, pc.key), t);
    forall k ensures TicketOf(t.core, k).processing <==> Held(t, k) {
      assert TicketOf(t.core, k) == ViewOf(t, k).cell.ticket && TicketOf(s.core, k) == ViewOf(s, k).cell.ticket;
      assert TicketOf(s.core, k).processing <==> Held(s, k);
      if HeldBy(t.workers[w], k) {
        assert Held(t, k);
      } else if HeldBy(pc, k) {
        forall x | 0 <= x < |t.workers| ensures !HeldBy(t.workers[x], k) {
        }
      } else {
        HeldElsewhere(s, t, w, k);
      }
    }
  }

  lemma AdvanceKeepsBase(s: System, w: nat, reply: Reply)
    requires Base(s) && w < |s.workers| && !s.workers[w].Idle?
    ensures Base(AdvanceWorker(s, w, reply))
  {
    var t, pc, e := AdvanceWorker(s, w, reply), s.workers[w], EffectOf(s, w, reply);
    var v, v' := ViewOf(s, pc.key), ViewOf(t, pc.key);
    AdvanceViews(s, w, reply);
    ActKeepsHolding(pc.key, pc, v, s, reply, e, v', t);
    ActKeepsBase(pc.key, pc, v, s, reply, e, v', t);
    forall k ensures KeyBase(k, ViewOf(t, k), t) {
      if k != pc.key {
        KeyBaseGrows(k, ViewOf(s, k), s, t);
      }
    }
    forall x | 0 <= x < |t.workers| ensures WorkerBase(t, t.workers[x]) {
      if x != w {
        OthersKeepBase(s, w, reply, x);
      }
    }
    AdvanceKeepsExclusive(s, w, reply);
  }

  lemma OthersKeepBase(s: System, w: nat, reply: Reply, x: nat)
    requires Base(s) && w < |s.workers| && !s.workers[w].Idle? && x < |s.workers| && x != w
    requires var t := AdvanceWorker(s, w, reply); Grows(s, t) && t.fannedOut <= |t.installs|
    ensures WorkerBase(AdvanceWorker(s, w, reply), s.workers[x])
  {
    var t, pc, q := AdvanceWorker(s, w, reply), s.workers[w], s.workers[x];
    if q.Holds() {
      AdvanceViews(s, w, reply);
      assert WorkerBase(s, q);
      if q.key == pc.key {
        OwedWhenSettled(s, w, reply);
        SettlingRequeues(pc.key, pc, ViewOf(s, pc.key), s, reply, EffectOf(s, w, reply), ViewOf(t, pc.key), t);
        RequeueKeepsPc(q.key, q, ViewOf(s, q.key), ViewOf(t, q.key), s);
      }
      PcBaseGrows(q.key, q, ViewOf(t, q.key), s, t);
    }
  }

  lemma OwedWhenSettled(s: System, w: nat, reply: Reply)
    requires w < |s.workers| && !s.workers[w].Idle?
    ensures var pc := s.workers[w];
            pc == Settling(pc.key, true) ==> Owed(AdvanceWorker(s, w, reply), pc.key) == Owed(s, pc.key)
  {
    if s.workers[w].Settling? && s.workers[w].ok {
      OwedElsewhere(s, AdvanceWorker(s, w, reply), w, s.workers[w].key);
    }
  }
}
