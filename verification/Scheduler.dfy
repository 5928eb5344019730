/**
 The scheduler of internal/credential/scheduler.go as the program has it: maps that methods
 update, loops over snapshots, and `refresh` from top to bottom. `ReconcileConfiguration`
 implements the step of the system of the same name; a worker's turn, run without
 interference, implements the worker's atomic actions one after the other. `SchedulerTurns`
 shows that a whole round of a worker is a run of the system.
 */
module Scheduler {
  import opened Wrappers
  import opened ConfigTypes
  import opened CredentialTypes
  import opened WorkQueue
  import opened SchedulerModel
  import ConfigStore
  import CredentialStore

  /** What the world answers during one turn: three clock readings, the provider, the publisher. */
  datatype World = World(entered: Time, granted: Time, scheduled: Time, provider: Reply, publisher: Reply)

  /** A worker and its key's cell. */
  datatype Turn = Turn(pc: Worker, cell: Cell, nextRevision: nat)

  function Reading(pc: Worker, world: World): Time {
    if pc.Loaded? then world.entered else if pc.Checked? then world.granted else world.scheduled
  }

  function Answer(pc: Worker, world: World): Reply {
    if pc.Calling? then world.provider else world.publisher
  }

  /** How far a worker is from being idle again. */
  function Remaining(pc: Worker): nat {
    match pc
    case Idle => 0
    case Entered(_) => 20
    case Loaded(_, _) => 19
    case Clocked(_, _, _) => 18
    case Forced(_, _, _, _) => 17
    case Calling(_, _, _) => 16
    case Called(_, _, _, _) => 15
    case Checked(_, _, _, _) => 14
    case Validated(_, _, _, _, _) => 13
    case Installed(_, _, _, _) => 12
    case Publishing(_, _, _) => 11
    case FanningOut(_, _, _, _) => 10
    case FannedOut(_, _, _) => 9
    case Scheduling(_, _, _) => 8
    case DropStored(_) => 7
    case DropPublished(_) => 6
    case DropForced(_) => 5
    case RotatedMark(_) => 4
    case RotatedAdd(_) => 3
    case Returning(_, _) => 2
    case Settling(_, _) => 1
  }

  function Act1(x: Turn, world: World, o: Options): Turn
    requires !x.pc.Idle?
  {
    var e := Act(x.pc, x.cell, Reading(x.pc, world), o, x.nextRevision, Answer(x.pc, world));
    Turn(e.pc, e.cell, x.nextRevision + |e.installs|)
  }

  lemma ActComesNearer(x: Turn, world: World, o: Options)
    requires !x.pc.Idle?
    ensures Remaining(Act1(x, world, o).pc) < Remaining(x.pc)
  {
  }

  /** The worker's atomic actions, one after the other, until `refresh` returns. */
  function Refreshed(x: Turn, world: World, o: Options): Turn
    decreases Remaining(x.pc)
  {
    if x.pc.Idle? || x.pc.Settling? || x.pc.Returning? then x
    else
      ActComesNearer(x, world, o);
      Refreshed(Act1(x, world, o), world, o)
  }

  /** The state after a turn: the key's cell is written back, all else is as before. */
  function Write(c: Core, k: RegistryKey, x: Turn): Core {
    Put(c, k, x.cell).(nextRevision := x.nextRevision)
  }

  /** The state of the key at the start of an action. */
  function TurnAt(c: Core, pc: Worker): Turn
    requires !pc.Idle?
  {
    Turn(pc, CellOf(c, pc.key), c.nextRevision)
  }

  /** No revision in the maps is zero, and the worker's key has a ticket. */
  predicate Tidy(c: Core, k: RegistryKey) {
    && k in c.queue
    && (k in c.force ==> c.force[k] > 0)
    && (k in c.published ==> c.published[k] > 0)
  }

  lemma WriteSame(c: Core, k: RegistryKey, pc: Worker)
    requires Tidy(c, k) && !pc.Idle? && pc.key == k
    ensures Write(c, k, TurnAt(c, pc)) == c
  {
    var d := Write(c, k, TurnAt(c, pc));
    assert d.store == c.store;
    assert d.force == c.force;
    assert d.published == c.published;
    assert d.queue == c.queue;
  }

  lemma WriteCell(c: Core, k: RegistryKey, x: Turn)
    requires x.cell.config == CellOf(c, k).config && x.cell.known == CellOf(c, k).known
    ensures CellOf(Write(c, k, x), k) == x.cell && Write(c, k, x).nextRevision == x.nextRevision
    ensures Tidy(Write(c, k, x), k)
  {
  }

  lemma AssignTwice<V>(m: map<RegistryKey, V>, k: RegistryKey, v: Option<V>, w: Option<V>)
    ensures Assign(Assign(m, k, v), k, w) == Assign(m, k, w)
  {
  }

  lemma WriteTwice(c: Core, k: RegistryKey, x: Turn, y: Turn)
    ensures Write(Write(c, k, x), k, y) == Write(c, k, y)
  {
    AssignTwice(c.store, k, x.cell.stored, y.cell.stored);
    AssignTwice(c.force, k, Revision(x.cell.force), Revision(y.cell.force));
    AssignTwice(c.published, k, Revision(x.cell.published), Revision(y.cell.published));
  }

  // What one action changes, field by field

  lemma WriteStored(c: Core, k: RegistryKey, pc: Worker, stored: Option<Entry>, revision: nat)
    requires Tidy(c, k)
    ensures Write(c, k, Turn(pc, CellOf(c, k).(stored := stored), revision)) ==
            c.(store := Assign(c.store, k, stored), nextRevision := revision)
  {
    var d := Write(c, k, Turn(pc, CellOf(c, k).(stored := stored), revision));
    assert d.force == c.force && d.published == c.published && d.queue == c.queue;
  }

  lemma WriteForce(c: Core, k: RegistryKey, pc: Worker, force: nat)
    requires Tidy(c, k)
    ensures Write(c, k, Turn(pc, CellOf(c, k).(force := force), c.nextRevision)) ==
            c.(force := Assign(c.force, k, Revision(force)))
  {
    var d := Write(c, k, Turn(pc, CellOf(c, k).(force := force), c.nextRevision));
    assert d.store == c.store && d.published == c.published && d.queue == c.queue;
  }

  lemma WritePublished(c: Core, k: RegistryKey, pc: Worker, published: nat)
    requires Tidy(c, k)
    ensures Write(c, k, Turn(pc, CellOf(c, k).(published := published), c.nextRevision)) ==
            c.(published := Assign(c.published, k, Revision(published)))
  {
    var d := Write(c, k, Turn(pc, CellOf(c, k).(published := published), c.nextRevision));
    assert d.store == c.store && d.force == c.force && d.queue == c.queue;
  }

  lemma WriteTicket(c: Core, k: RegistryKey, pc: Worker, ticket: Ticket)
    requires Tidy(c, k)
    ensures Write(c, k, Turn(pc, CellOf(c, k).(ticket := ticket), c.nextRevision)) == c.(queue := c.queue[k := ticket])
  {
    var d := Write(c, k, Turn(pc, CellOf(c, k).(ticket := ticket), c.nextRevision));
    assert d.store == c.store && d.force == c.force && d.published == c.published;
  }

  /** A worker at `pc` that is let run until `refresh` returns turns `c` into `d` and returns `ok`. */
  predicate Runs1(c: Core, pc: Worker, world: World, o: Options, d: Core, ok: bool)
    requires !pc.Idle?
  {
    var r := Refreshed(TurnAt(c, pc), world, o);
    r.pc == Returning(pc.key, ok) && d == Write(c, pc.key, r)
  }

  lemma RunsNot(c: Core, k: RegistryKey, ok: bool, world: World, o: Options)
    requires Tidy(c, k)
    ensures Runs1(c, Returning(k, ok), world, o, c, ok)
  {
    WriteSame(c, k, Returning(k, ok));
  }

  /** One action first, then the rest. */
  lemma RunsOn(c: Core, pc: Worker, world: World, o: Options, b: Core, d: Core, ok: bool)
    requires pc.Holds() && !pc.Returning?
    requires b == Write(c, pc.key, Act1(TurnAt(c, pc), world, o))
    requires var q := Act1(TurnAt(c, pc), world, o).pc; !q.Idle? && Runs1(b, q, world, o, d, ok)
    ensures Runs1(c, pc, world, o, d, ok)
  {
    var x := TurnAt(c, pc);
    var y := Act1(x, world, o);
    ActStaysOnKey(x, world, o);
    WriteCell(c, pc.key, y);
    assert TurnAt(b, y.pc) == y;
    WriteTwice(c, pc.key, y, Refreshed(y, world, o));
  }

  /** The entry an installation makes. */
  function InstalledEntry(c: Core, registry: RegistryConfig, token: Token, at: Time): Entry {
    Entry(Credential(token.username, token.password, at, token.expiresAt), c.nextRevision + 1,
          RegistryAuthenticationHash(registry))
  }

  // The actions of `refresh`, last to first: what remains to run after each

  lemma DropForcedRuns(c: Core, k: RegistryKey, world: World, o: Options, d: Core, ok: bool)
    requires Tidy(c, k)
    requires Runs1(c.(force := c.force - {k}), Returning(k, true), world, o, d, ok)
    ensures Runs1(c, DropForced(k), world, o, d, ok)
  {
    WriteForce(c, k, Returning(k, true), 0);
    RunsOn(c, DropForced(k), world, o, c.(force := c.force - {k}), d, ok);
  }

  lemma DropPublishedRuns(c: Core, k: RegistryKey, world: World, o: Options, d: Core, ok: bool)
    requires Tidy(c, k)
    requires Runs1(c.(published := c.published - {k}), DropForced(k), world, o, d, ok)
    ensures Runs1(c, DropPublished(k), world, o, d, ok)
  {
    WritePublished(c, k, DropForced(k), 0);
    RunsOn(c, DropPublished(k), world, o, c.(published := c.published - {k}), d, ok);
  }

  lemma DropStoredRuns(c: Core, k: RegistryKey, world: World, o: Options, d: Core, ok: bool)
    requires Tidy(c, k)
    requires Runs1(c.(store := c.store - {k}), DropPublished(k), world, o, d, ok)
    ensures Runs1(c, DropStored(k), world, o, d, ok)
  {
    WriteStored(c, k, DropPublished(k), None, c.nextRevision);
    RunsOn(c, DropStored(k), world, o, c.(store := c.store - {k}), d, ok);
  }

  lemma RotatedAddRuns(c: Core, k: RegistryKey, world: World, o: Options, d: Core, ok: bool)
    requires Tidy(c, k)
    requires Runs1(c.(queue := c.queue[k := TicketOf(c, k).Add()]), Returning(k, true), world, o, d, ok)
    ensures Runs1(c, RotatedAdd(k), world, o, d, ok)
  {
    WriteTicket(c, k, Returning(k, true), TicketOf(c, k).Add());
    RunsOn(c, RotatedAdd(k), world, o, c.(queue := c.queue[k := TicketOf(c, k).Add()]), d, ok);
  }

  lemma RotatedMarkRuns(c: Core, k: RegistryKey, world: World, o: Options, d: Core, ok: bool)
    requires Tidy(c, k)
    requires Runs1(c.(force := c.force[k := ForceRevision(c, k) + 1]), RotatedAdd(k), world, o, d, ok)
    ensures Runs1(c, RotatedMark(k), world, o, d, ok)
  {
    hide Tidy;
    WriteForce(c, k, RotatedAdd(k), ForceRevision(c, k) + 1);
    RunsOn(c, RotatedMark(k), world, o, c.(force := c.force[k := ForceRevision(c, k) + 1]), d, ok);
  }

  /** The state after the refresh timer of an entry was set. */
  function Timed(c: Core, k: RegistryKey, entry: Entry, at: Time, world: World, o: Options): Core {
    c.(queue := c.queue[k := TicketOf(c, k).AddAfter(entry.credential.expiresAt - o.refreshBefore - at, world.scheduled)])
  }

  lemma SchedulingRuns(c: Core, k: RegistryKey, entry: Entry, at: Time, world: World, o: Options, d: Core, ok: bool)
    requires Tidy(c, k)
    requires Runs1(Timed(c, k, entry, at, world, o), Returning(k, true), world, o, d, ok)
    ensures Runs1(c, Scheduling(k, entry, at), world, o, d, ok)
  {
    WriteTicket(c, k, Returning(k, true),
                TicketOf(c, k).AddAfter(entry.credential.expiresAt - o.refreshBefore - at, world.scheduled));
    RunsOn(c, Scheduling(k, entry, at), world, o, Timed(c, k, entry, at, world, o), d, ok);
  }

  lemma FannedOutRuns(c: Core, k: RegistryKey, entry: Entry, at: Time, world: World, o: Options, d: Core, ok: bool)
    requires Tidy(c, k) && entry.revision > 0
    requires Runs1(c.(published := c.published[k := entry.revision]), Scheduling(k, entry, at), world, o, d, ok)
    ensures Runs1(c, FannedOut(k, entry, at), world, o, d, ok)
  {
    WritePublished(c, k, Scheduling(k, entry, at), entry.revision);
    RunsOn(c, FannedOut(k, entry, at), world, o, c.(published := c.published[k := entry.revision]), d, ok);
  }

  lemma FanningOutRuns(c: Core, k: RegistryKey, entry: Entry, at: Time, since: nat, world: World, o: Options, d: Core, ok: bool)
    requires Tidy(c, k)
    requires Runs1(c, (if world.publisher.Granted? then FannedOut(k, entry, at) else Returning(k, false)), world, o, d, ok)
    ensures Runs1(c, FanningOut(k, entry, at, since), world, o, d, ok)
  {
    WriteSame(c, k, FanningOut(k, entry, at, since));
    RunsOn(c, FanningOut(k, entry, at, since), world, o, c, d, ok);
  }

  lemma PublishingRuns(c: Core, k: RegistryKey, entry: Entry, at: Time, world: World, o: Options, d: Core, ok: bool)
    requires Tidy(c, k)
    requires Runs1(c, (if PublishedRevision(c, k) == entry.revision then Scheduling(k, entry, at)
                       else FanningOut(k, entry, at, c.nextRevision)), world, o, d, ok)
    ensures Runs1(c, Publishing(k, entry, at), world, o, d, ok)
  {
    WriteSame(c, k, Publishing(k, entry, at));
    RunsOn(c, Publishing(k, entry, at), world, o, c, d, ok);
  }

  lemma InstalledRuns(c: Core, k: RegistryKey, entry: Entry, force: nat, at: Time, world: World, o: Options, d: Core, ok: bool)
    requires Tidy(c, k)
    requires Runs1(c.(force := if ForceRevision(c, k) == force then c.force - {k} else c.force),
                   Publishing(k, entry, at), world, o, d, ok)
    ensures Runs1(c, Installed(k, entry, force, at), world, o, d, ok)
  {
    if ForceRevision(c, k) == force {
      WriteForce(c, k, Publishing(k, entry, at), 0);
    } else {
      WriteSame(c, k, Installed(k, entry, force, at));
    }
    RunsOn(c, Installed(k, entry, force, at), world, o,
           c.(force := if ForceRevision(c, k) == force then c.force - {k} else c.force), d, ok);
  }

  lemma ValidatedRuns(c: Core, k: RegistryKey, registry: RegistryConfig, force: nat, token: Token, at: Time,
                      world: World, o: Options, d: Core, ok: bool)
    requires Tidy(c, k) && registry.Key() == k
    requires Runs1(c.(store := c.store[k := InstalledEntry(c, registry, token, at)], nextRevision := c.nextRevision + 1),
                   Installed(k, InstalledEntry(c, registry, token, at), force, at), world, o, d, ok)
    ensures Runs1(c, Validated(k, registry, force, token, at), world, o, d, ok)
  {
    WriteStored(c, k, Installed(k, InstalledEntry(c, registry, token, at), force, at),
                Some(InstalledEntry(c, registry, token, at)), c.nextRevision + 1);
    RunsOn(c, Validated(k, registry, force, token, at), world, o,
           c.(store := c.store[k := InstalledEntry(c, registry, token, at)], nextRevision := c.nextRevision + 1), d, ok);
  }

  lemma CheckedRuns(c: Core, k: RegistryKey, registry: RegistryConfig, force: nat, token: Token,
                    world: World, o: Options, d: Core, ok: bool)
    requires Tidy(c, k)
    requires Runs1(c, (if ValidToken(token, world.granted, o.refreshBefore) then Validated(k, registry, force, token, world.granted)
                       else Returning(k, false)), world, o, d, ok)
    ensures Runs1(c, Checked(k, registry, force, token), world, o, d, ok)
  {
    WriteSame(c, k, Checked(k, registry, force, token));
    RunsOn(c, Checked(k, registry, force, token), world, o, c, d, ok);
  }

  lemma CalledRuns(c: Core, k: RegistryKey, registry: RegistryConfig, force: nat, token: Token, world: World, o: Options, d: Core, ok: bool)
    requires Tidy(c, k)
    requires Runs1(c, (if k !in Configured(c) then DropStored(k)
                         else if !SameAuthentication(registry, Configured(c)[k]) then RotatedMark(k)
                         else Checked(k, Configured(c)[k], force, token)), world, o, d, ok)
    ensures Runs1(c, Called(k, registry, force, token), world, o, d, ok)
  {
    WriteSame(c, k, Called(k, registry, force, token));
    RunsOn(c, Called(k, registry, force, token), world, o, c, d, ok);
  }

  lemma CallingRuns(c: Core, k: RegistryKey, registry: RegistryConfig, force: nat, world: World, o: Options, d: Core, ok: bool)
    requires Tidy(c, k)
    requires Runs1(c, (if world.provider.Granted? then Called(k, registry, force, world.provider.token)
                       else Returning(k, false)), world, o, d, ok)
    ensures Runs1(c, Calling(k, registry, force), world, o, d, ok)
  {
    WriteSame(c, k, Calling(k, registry, force));
    RunsOn(c, Calling(k, registry, force), world, o, c, d, ok);
  }

  lemma ForcedRuns(c: Core, k: RegistryKey, registry: RegistryConfig, at: Time, force: nat, world: World, o: Options, d: Core, ok: bool)
    requires Tidy(c, k)
    requires Runs1(c, (if CellOf(c, k).Reusable(registry, at, force, o.refreshBefore) then Publishing(k, c.store[k], at)
                       else Calling(k, registry, force)), world, o, d, ok)
    ensures Runs1(c, Forced(k, registry, at, force), world, o, d, ok)
  {
    WriteSame(c, k, Forced(k, registry, at, force));
    RunsOn(c, Forced(k, registry, at, force), world, o, c, d, ok);
  }

  lemma LoadedRuns(c: Core, k: RegistryKey, registry: RegistryConfig, world: World, o: Options, d: Core, ok: bool)
    requires Tidy(c, k)
    requires Runs1(c, Clocked(k, registry, world.entered), world, o, d, ok)
    ensures Runs1(c, Loaded(k, registry), world, o, d, ok)
  {
    WriteSame(c, k, Loaded(k, registry));
    RunsOn(c, Loaded(k, registry), world, o, c, d, ok);
  }

  lemma ClockedRuns(c: Core, k: RegistryKey, registry: RegistryConfig, at: Time, world: World, o: Options, d: Core, ok: bool)
    requires Tidy(c, k)
    requires Runs1(c, Forced(k, registry, at, ForceRevision(c, k)), world, o, d, ok)
    ensures Runs1(c, Clocked(k, registry, at), world, o, d, ok)
  {
    WriteSame(c, k, Clocked(k, registry, at));
    RunsOn(c, Clocked(k, registry, at), world, o, c, d, ok);
  }

  lemma EnteredRuns(c: Core, k: RegistryKey, world: World, o: Options, d: Core, ok: bool)
    requires Tidy(c, k)
    requires Runs1(c, (if k in Configured(c) then Loaded(k, Configured(c)[k]) else DropStored(k)), world, o, d, ok)
    ensures Runs1(c, Entered(k), world, o, d, ok)
  {
    WriteSame(c, k, Entered(k));
    RunsOn(c, Entered(k), world, o, c, d, ok);
  }

  /** The state after an entry was published and its timer set. */
  function Delivered(c: Core, k: RegistryKey, entry: Entry, at: Time, world: World, o: Options): Core {
    c.(published := c.published[k := entry.revision],
       queue := c.queue[k := TicketOf(c, k).AddAfter(entry.credential.expiresAt - o.refreshBefore - at, world.scheduled)])
  }

  lemma DeliveryRuns(c: Core, k: RegistryKey, entry: Entry, at: Time, world: World, o: Options)
    requires Tidy(c, k) && entry.revision > 0
    requires PublishedRevision(c, k) == entry.revision || world.publisher.Granted?
    ensures Runs1(c, Publishing(k, entry, at), world, o, Delivered(c, k, entry, at, world, o), true)
  {
    var d := Delivered(c, k, entry, at, world, o);
    RunsNot(d, k, true, world, o);
    SchedulingRuns(c.(published := d.published), k, entry, at, world, o, d, true);
    PublicationRuns(c, k, entry, at, world, o, d);
  }

  lemma DeliveryFails(c: Core, k: RegistryKey, entry: Entry, at: Time, world: World, o: Options)
    requires Tidy(c, k) && PublishedRevision(c, k) != entry.revision && world.publisher.Refused?
    ensures Runs1(c, Publishing(k, entry, at), world, o, c, false)
  {
    RunsNot(c, k, false, world, o);
    FanningOutRuns(c, k, entry, at, c.nextRevision, world, o, c, false);
    PublishingRuns(c, k, entry, at, world, o, c, false);
  }

  /** Publication, fan-out and mark together: published either way, then the timer. */
  lemma PublicationRuns(c: Core, k: RegistryKey, entry: Entry, at: Time, world: World, o: Options, d: Core)
    requires Tidy(c, k) && entry.revision > 0
    requires PublishedRevision(c, k) == entry.revision || world.publisher.Granted?
    requires Runs1(c.(published := c.published[k := entry.revision]), Scheduling(k, entry, at), world, o, d, true)
    ensures Runs1(c, Publishing(k, entry, at), world, o, d, true)
  {
    if PublishedRevision(c, k) == entry.revision {
      assert c.published[k := entry.revision] == c.published;
    } else {
      FannedOutRuns(c, k, entry, at, world, o, d, true);
      FanningOutRuns(c, k, entry, at, c.nextRevision, world, o, d, true);
    }
    PublishingRuns(c, k, entry, at, world, o, d, true);
  }

  /** The state after a token was stored and the force revision settled. */
  function Stored(c: Core, registry: RegistryConfig, force: nat, token: Token, at: Time): Core {
    var k := registry.Key();
    c.(store := c.store[k := InstalledEntry(c, registry, token, at)], nextRevision := c.nextRevision + 1,
       force := if ForceRevision(c, k) == force then c.force - {k} else c.force)
  }

  lemma InstallRuns(c: Core, registry: RegistryConfig, force: nat, token: Token, at: Time, world: World, o: Options, d: Core, ok: bool)
    requires var k := registry.Key();
             && Tidy(c, k)
             && Runs1(Stored(c, registry, force, token, at), Publishing(k, InstalledEntry(c, registry, token, at), at), world, o, d, ok)
    ensures Runs1(c, Validated(registry.Key(), registry, force, token, at), world, o, d, ok)
  {
    var k, entry := registry.Key(), InstalledEntry(c, registry, token, at);
    var c1 := c.(store := c.store[k := entry], nextRevision := c.nextRevision + 1);
    InstalledRuns(c1, k, entry, force, at, world, o, d, ok);
    ValidatedRuns(c, k, registry, force, token, at, world, o, d, ok);
  }

  lemma RotationRuns(c: Core, k: RegistryKey, world: World, o: Options)
    requires Tidy(c, k)
    ensures Runs1(c, RotatedMark(k), world, o,
                  c.(force := c.force[k := ForceRevision(c, k) + 1], queue := c.queue[k := TicketOf(c, k).Add()]), true)
  {
    var c1 := c.(force := c.force[k := ForceRevision(c, k) + 1]);
    var d := c1.(queue := c.queue[k := TicketOf(c, k).Add()]);
    RunsNot(d, k, true, world, o);
    RotatedAddRuns(c1, k, world, o, d, true);
    RotatedMarkRuns(c, k, world, o, d, true);
  }

  lemma ActStaysOnKey(x: Turn, world: World, o: Options)
    requires !x.pc.Idle? && !x.pc.Settling? && !x.pc.Returning?
    ensures var y := Act1(x, world, o);
            y.pc.Holds() && y.pc.key == x.pc.key && y.cell.config == x.cell.config && y.cell.known == x.cell.known
  {
  }

  predicate Rotated(registries: Registries, known: Registries, k: RegistryKey) {
    k in registries && k in known && !SameAuthentication(known[k], registries[k])
  }

  predicate ToSchedule(registries: Registries, known: Registries, k: RegistryKey) {
    k in registries && (k !in known || Rotated(registries, known, k))
  }

  /** The queue after the new and rotated keys among `seen` were added. */
  function ScheduledQueue(queue: map<RegistryKey, Ticket>, registries: Registries, known: Registries, seen: set<RegistryKey>)
    : map<RegistryKey, Ticket>
  {
    map k | k in queue.Keys + seen && (k in queue || ToSchedule(registries, known, k)) ::
      if k in seen && ToSchedule(registries, known, k) then (if k in queue then queue[k] else NoTicket).Add() else queue[k]
  }

  /** The force revisions after the rotated keys among `seen` were marked. */
  function MarkedForce(force: map<RegistryKey, nat>, registries: Registries, known: Registries, seen: set<RegistryKey>)
    : map<RegistryKey, nat>
  {
    map k | k in force.Keys + seen && (k in force || Rotated(registries, known, k)) ::
      if k in seen && Rotated(registries, known, k) then (if k in force then force[k] else 0) + 1 else force[k]
  }

  function ForgottenQueue(queue: map<RegistryKey, Ticket>, removed: set<RegistryKey>): map<RegistryKey, Ticket> {
    map k | k in queue :: if k in removed then queue[k].Forget() else queue[k]
  }

  lemma ScheduleOne(queue: map<RegistryKey, Ticket>, registries: Registries, known: Registries, seen: set<RegistryKey>, key: RegistryKey)
    requires key !in seen
    ensures ScheduledQueue(queue, registries, known, seen + {key}) ==
            if ToSchedule(registries, known, key)
            then ScheduledQueue(queue, registries, known, seen)[key := (if key in queue then queue[key] else NoTicket).Add()]
            else ScheduledQueue(queue, registries, known, seen)
    ensures key in ScheduledQueue(queue, registries, known, seen) <==> key in queue
    ensures key in queue ==> ScheduledQueue(queue, registries, known, seen)[key] == queue[key]
  {
  }

  lemma MarkOne(force: map<RegistryKey, nat>, registries: Registries, known: Registries, seen: set<RegistryKey>, key: RegistryKey)
    requires key !in seen
    ensures MarkedForce(force, registries, known, seen + {key}) ==
            if Rotated(registries, known, key)
            then MarkedForce(force, registries, known, seen)[key := (if key in force then force[key] else 0) + 1]
            else MarkedForce(force, registries, known, seen)
    ensures key in MarkedForce(force, registries, known, seen) <==> key in force
    ensures key in force ==> MarkedForce(force, registries, known, seen)[key] == force[key]
  {
  }

  lemma ForgetOne(queue: map<RegistryKey, Ticket>, removed: set<RegistryKey>, key: RegistryKey)
    requires key !in removed
    ensures ForgottenQueue(queue, removed + {key}) ==
            if key in queue then ForgottenQueue(queue, removed)[key := queue[key].Forget()] else ForgottenQueue(queue, removed)
    ensures key in ForgottenQueue(queue, removed) <==> key in queue
    ensures key in queue ==> ForgottenQueue(queue, removed)[key] == queue[key]
  {
  }

  lemma Without<V>(m: map<RegistryKey, V>, removed: set<RegistryKey>, key: RegistryKey)
    ensures m - (removed + {key}) == (m - removed) - {key}
  {
  }

  lemma QueueReconciled(c: Core)
    requires c.config.Some?
    ensures SchedulerModel.ReconcileConfiguration(c).queue ==
            ForgottenQueue(ScheduledQueue(c.queue, c.config.value, c.known, c.config.value.Keys),
                           c.known.Keys - c.config.value.Keys)
  {
    var registries, removed := c.config.value, c.known.Keys - c.config.value.Keys;
    var scheduled := ScheduledQueue(c.queue, registries, c.known, registries.Keys);
    var d, q := SchedulerModel.ReconcileConfiguration(c), ForgottenQueue(scheduled, removed);
    assert removed == RemovedKeys(c);
    assert forall k :: k in AddedKeys(c) + RotatedKeys(c) <==> ToSchedule(registries, c.known, k);
    assert q.Keys == d.queue.Keys;
    forall k | k in q ensures q[k] == d.queue[k] {
      assert d.queue[k] == ReconciledTicket(c, k);
    }
  }

  lemma ForceReconciled(c: Core)
    requires c.config.Some?
    ensures SchedulerModel.ReconcileConfiguration(c).force ==
            MarkedForce(c.force, c.config.value, c.known, c.config.value.Keys) - (c.known.Keys - c.config.value.Keys)
  {
    var registries, removed := c.config.value, c.known.Keys - c.config.value.Keys;
    var d, f := SchedulerModel.ReconcileConfiguration(c), MarkedForce(c.force, registries, c.known, registries.Keys) - removed;
    assert removed == RemovedKeys(c);
    assert forall k :: k in RotatedKeys(c) <==> Rotated(registries, c.known, k);
    assert f.Keys == d.force.Keys;
  }

  class Scheduler {
    const configStore: ConfigStore.Store
    const credentialStore: CredentialStore.Store
    const options: Options
    var queue: map<RegistryKey, Ticket>
    var configurationChanges: bool
    var knownRegistries: Registries
    var publishedRevisions: map<RegistryKey, nat>
    var forceRefreshRevision: map<RegistryKey, nat>

    constructor (configStore: ConfigStore.Store, credentialStore: CredentialStore.Store, options: Options)
      requires ValidOptions(options)
      ensures this.configStore == configStore && this.credentialStore == credentialStore && this.options == options
      ensures queue == map[] && !configurationChanges
      ensures knownRegistries == map[] && publishedRevisions == map[] && forceRefreshRevision == map[]
    {
      this.configStore, this.credentialStore, this.options := configStore, credentialStore, options;
      queue, configurationChanges := map[], false;
      knownRegistries, publishedRevisions, forceRefreshRevision := map[], map[], map[];
    }

    function State(): Core
      reads this, configStore, credentialStore
    {
      Core(configStore.Registries(), knownRegistries, credentialStore.current, credentialStore.nextRevision,
           forceRefreshRevision, publishedRevisions, queue)
    }

    /** A second notification before the first is received is one notification. */
    method NotifyConfigurationChanged()
      modifies this`configurationChanges
      ensures configurationChanges
    {
      if !configurationChanges {
        configurationChanges := true;
      }
    }

    method MarkForceRefresh(key: RegistryKey)
      modifies this`forceRefreshRevision
      ensures forceRefreshRevision == old(forceRefreshRevision)[key := ForceRevision(old(State()), key) + 1]
    {
      forceRefreshRevision := forceRefreshRevision[key := (if key in forceRefreshRevision then forceRefreshRevision[key] else 0) + 1];
    }

    method ClearForceRefresh(key: RegistryKey, handled: nat)
      modifies this`forceRefreshRevision
      ensures forceRefreshRevision ==
              if ForceRevision(old(State()), key) == handled then old(forceRefreshRevision) - {key} else old(forceRefreshRevision)
    {
      if (if key in forceRefreshRevision then forceRefreshRevision[key] else 0) == handled {
        forceRefreshRevision := forceRefreshRevision - {key};
      }
    }

    /** The first loop: new and rotated keys are put on the queue, rotated ones marked as well. */
    method ScheduleChanges(registries: Registries)
      modifies this`queue, this`forceRefreshRevision
      ensures queue == ScheduledQueue(old(queue), registries, knownRegistries, registries.Keys)
      ensures forceRefreshRevision == MarkedForce(old(forceRefreshRevision), registries, knownRegistries, registries.Keys)
    {
      var known := knownRegistries;
      ghost var queue0, force0 := queue, forceRefreshRevision;
      var left, seen := registries.Keys, {};
      while left != {}
        invariant seen + left == registries.Keys && seen * left == {}
        invariant queue == ScheduledQueue(queue0, registries, known, seen)
        invariant forceRefreshRevision == MarkedForce(force0, registries, known, seen)
        decreases left
      {
        var key :| key in left;
        ScheduleOne(queue0, registries, known, seen, key);
        MarkOne(force0, registries, known, seen, key);
        if key !in known {
          Add(key);
        } else if !SameAuthentication(known[key], registries[key]) {
          MarkForceRefresh(key);
          Add(key);
        }
        left, seen := left - {key}, seen + {key};
      }
      assert seen == registries.Keys;
    }

    /** The second loop: whatever belongs to a key no longer configured is dropped. */
    method DropRemoved(registries: Registries)
      modifies this`queue, this`forceRefreshRevision, this`publishedRevisions, credentialStore`current
      ensures var removed := knownRegistries.Keys - registries.Keys;
              && credentialStore.current == old(credentialStore.current) - removed
              && publishedRevisions == old(publishedRevisions) - removed
              && forceRefreshRevision == old(forceRefreshRevision) - removed
              && queue == ForgottenQueue(old(queue), removed)
    {
      ghost var store0, published0, force0, queue0 := credentialStore.current, publishedRevisions, forceRefreshRevision, queue;
      var removed: set<RegistryKey> := {};
      var left := knownRegistries.Keys;
      ghost var known := left;
      while left != {}
        invariant left <= known
        invariant removed == known - left - registries.Keys
        invariant credentialStore.current == store0 - removed
        invariant publishedRevisions == published0 - removed
        invariant forceRefreshRevision == force0 - removed
        invariant queue == ForgottenQueue(queue0, removed)
        decreases left
      {
        var key :| key in left;
        if key !in registries {
          ForgetOne(queue0, removed, key);
          Without(store0, removed, key);
          Without(published0, removed, key);
          Without(force0, removed, key);
          var _ := credentialStore.Delete(key);
          publishedRevisions := publishedRevisions - {key};
          forceRefreshRevision := forceRefreshRevision - {key};
          Forget(key);
          removed := removed + {key};
        }
        left := left - {key};
      }
    }

    /** Compares the whole configuration with the one last seen, key by key in any order. */
    method ReconcileConfiguration()
      modifies this, credentialStore
      ensures State() == SchedulerModel.ReconcileConfiguration(old(State()))
      ensures configurationChanges == old(configurationChanges)
    {
      var snapshot := configStore.Load();
      if snapshot.None? {
        return;
      }
      var registries := snapshot.value.registries;
      ghost var before := State();
      ScheduleChanges(registries);
      DropRemoved(registries);
      knownRegistries := registries;
      QueueReconciled(before);
      ForceReconciled(before);
      assert knownRegistries.Keys == registries.Keys && RemovedKeys(before) == before.known.Keys - registries.Keys;
    }

    /** The three deletions of `refresh` for a key that is not configured. */
    method Drop(key: RegistryKey, ghost world: World)
      requires Tidy(State(), key)
      modifies this, credentialStore
      ensures Runs1(old(State()), DropStored(key), world, options, State(), true)
      ensures configurationChanges == old(configurationChanges)
    {
      hide Runs1;
      ghost var c0 := State();
      var _ := credentialStore.Delete(key);
      ghost var c1 := State();
      publishedRevisions := publishedRevisions - {key};
      ghost var c2 := State();
      forceRefreshRevision := forceRefreshRevision - {key};
      RunsNot(State(), key, true, world, options);
      DropForcedRuns(c2, key, world, options, State(), true);
      DropPublishedRuns(c1, key, world, options, State(), true);
      DropStoredRuns(c0, key, world, options, State(), true);
    }

    /** A response of an obsolete AK/SK: force a refresh and put the key back on the queue. */
    method RetryRotated(key: RegistryKey, ghost world: World)
      requires Tidy(State(), key)
      modifies this
      ensures Runs1(old(State()), RotatedMark(key), world, options, State(), true)
      ensures configurationChanges == old(configurationChanges)
    {
      hide Runs1, Tidy;
      RotationRuns(State(), key, world, options);
      MarkForceRefresh(key);
      Add(key);
    }

    /** Fans out unless this very revision was fanned out before; a failed fan-out changes nothing. */
    method PublishCredential(key: RegistryKey, entry: Entry, publisher: Reply) returns (ok: bool)
      requires entry.revision > 0
      modifies this`publishedRevisions
      ensures ok <==> PublishedRevision(old(State()), key) == entry.revision || publisher.Granted?
      ensures publishedRevisions == if ok then old(publishedRevisions)[key := entry.revision] else old(publishedRevisions)
    {
      if key in publishedRevisions && publishedRevisions[key] == entry.revision {
        return true;
      }
      if publisher.Refused? {
        return false;
      }
      publishedRevisions := publishedRevisions[key := entry.revision];
      ok := true;
    }

    /** Publishes an entry and sets its refresh timer. */
    method Deliver(key: RegistryKey, entry: Entry, at: Time, world: World) returns (ok: bool)
      requires Tidy(State(), key) && entry.revision > 0
      modifies this
      ensures Runs1(old(State()), Publishing(key, entry, at), world, options, State(), ok)
      ensures configurationChanges == old(configurationChanges)
    {
      hide Runs1, Tidy;
      ghost var c0 := State();
      ok := PublishCredential(key, entry, world.publisher);
      if !ok {
        assert State() == c0;
        DeliveryFails(c0, key, entry, at, world, options);
        return;
      }
      AddAfter(key, entry.credential.expiresAt - options.refreshBefore - at, world.scheduled);
      assert State() == Delivered(c0, key, entry, at, world, options);
      DeliveryRuns(c0, key, entry, at, world, options);
    }

    method AddAfter(key: RegistryKey, delay: Time, now: Time)
      modifies this`queue
      ensures queue == old(queue)[key := TicketOf(old(State()), key).AddAfter(delay, now)]
    {
      queue := queue[key := TicketOf(State(), key).AddAfter(delay, now)];
    }

    /** Stores a validated token, settles the force revision it was acquired under, and delivers it. */
    method Install(key: RegistryKey, registry: RegistryConfig, force: nat, token: Token, now: Time, world: World) returns (ok: bool)
      requires Tidy(State(), key) && registry.Key() == key
      modifies this, credentialStore
      ensures Runs1(old(State()), Validated(key, registry, force, token, now), world, options, State(), ok)
      ensures configurationChanges == old(configurationChanges)
    {
      hide Runs1;
      ghost var c0 := State();
      var entry := credentialStore.Apply(registry, Credential(token.username, token.password, now, token.expiresAt));
      ClearForceRefresh(key, force);
      assert State() == Stored(c0, registry, force, token, now);
      ok := Deliver(key, entry, now, world);
      InstallRuns(c0, registry, force, token, now, world, options, State(), ok);
    }

    method LoadRegistry(key: RegistryKey) returns (registry: Option<RegistryConfig>)
      ensures registry == Find(Configured(State()), key)
    {
      var snapshot := configStore.Load();
      registry := if snapshot.Some? && key in snapshot.value.registries then Some(snapshot.value.registries[key]) else None;
    }

    /** Asks the provider and, if the registry still stands with the same AK/SK, installs the token. */
    method Acquire(key: RegistryKey, registry: RegistryConfig, force: nat, world: World) returns (ok: bool)
      requires Tidy(State(), key) && KeysMatch(Configured(State()))
      modifies this, credentialStore
      ensures Runs1(old(State()), Calling(key, registry, force), world, options, State(), ok)
      ensures configurationChanges == old(configurationChanges)
    {
      hide Runs1, Tidy;
      ghost var c0 := State();
      if world.provider.Refused? {
        RunsNot(c0, key, false, world, options);
        CallingRuns(c0, key, registry, force, world, options, c0, false);
        return false;
      }
      var token := world.provider.token;
      var current := LoadRegistry(key);
      if current.None? {
        Drop(key, world);
        ok := true;
      } else if !SameAuthentication(registry, current.value) {
        RetryRotated(key, world);
        ok := true;
      } else if !ValidToken(token, world.granted, options.refreshBefore) {
        RunsNot(c0, key, false, world, options);
        CheckedRuns(c0, key, current.value, force, token, world, options, c0, false);
        ok := false;
      } else {
        ok := Install(key, current.value, force, token, world.granted, world);
        CheckedRuns(c0, key, current.value, force, token, world, options, State(), ok);
      }
      CalledRuns(c0, key, registry, force, token, world, options, State(), ok);
      CallingRuns(c0, key, registry, force, world, options, State(), ok);
    }

    /**
     `refresh`, run without interference: exactly the worker's atomic actions from `Entered`
     to `Returning`, with nothing else of the state touched.
     */
    method Refresh(key: RegistryKey, world: World) returns (ok: bool)
      requires Tidy(State(), key) && KeysMatch(Configured(State()))
      requires key in credentialStore.current ==> credentialStore.current[key].revision > 0
      modifies this, credentialStore
      ensures Runs1(old(State()), Entered(key), world, options, State(), ok)
      ensures configurationChanges == old(configurationChanges)
    {
      ghost var c0 := State();
      var loaded := LoadRegistry(key);
      if loaded.None? {
        Drop(key, world);
        EnteredRuns(c0, key, world, options, State(), true);
        return true;
      }
      var registry, now := loaded.value, world.entered;
      var force := if key in forceRefreshRevision then forceRefreshRevision[key] else 0;
      var entry := credentialStore.Load(key);
      if entry.Some? && entry.value.MatchesRegistry(registry) && force == 0
         && entry.value.credential.expiresAt - options.refreshBefore > now {
        ok := Deliver(key, entry.value, now, world);
      } else {
        ok := Acquire(key, registry, force, world);
      }
      ForcedRuns(c0, key, registry, now, force, world, options, State(), ok);
      ClockedRuns(c0, key, registry, now, world, options, State(), ok);
      LoadedRuns(c0, key, registry, world, options, State(), ok);
      EnteredRuns(c0, key, world, options, State(), ok);
    }

    /**
     One round of `runWorker`: take a ready key, refresh it, call `Done`, and then forget its
     failures or re-add it after the backoff. `returned` is the state when `refresh` returned.
     A failure counts once more and is due after the backoff of the failures before it, unless
     an earlier timer stands; a success leaves no failures, so that the next one waits the base
     delay again. A key made dirty meanwhile stays dirty and is ready.
     */
    method RunWorkerOnce(key: RegistryKey, world: World) returns (ok: bool, ghost returned: Core)
      requires ValidOptions(options)
      requires TicketOf(State(), key).Ready() && Tidy(State(), key) && KeysMatch(Configured(State()))
      requires key in credentialStore.current ==> credentialStore.current[key].revision > 0
      modifies this, credentialStore
      ensures Runs1(WithTicket(old(State()), key, TicketOf(old(State()), key).Get()), Entered(key), world, options, returned, ok)
      ensures State() == WithTicket(returned, key,
                                    if ok then TicketOf(returned, key).Done().Forget()
                                    else TicketOf(returned, key).Done().AddRateLimited(world.scheduled, options.retryBaseDelay, options.retryMaxDelay))
      ensures key in returned.queue && key in queue && !queue[key].processing && queue[key].dirty == returned.queue[key].dirty
      ensures ok ==> queue[key].failures == 0 && queue[key].due == returned.queue[key].due
      ensures !ok ==>
                var before, retryAt := returned.queue[key],
                                       world.scheduled + Backoff(returned.queue[key].failures, options.retryBaseDelay, options.retryMaxDelay);
                && queue[key].failures == before.failures + 1
                && queue[key].due == Some(if before.due.Some? && before.due.value <= retryAt then before.due.value else retryAt)
    {
      Take(key);
      ok := Refresh(key, world);
      returned := State();
      BackoffBounds(TicketOf(returned, key).failures, options.retryBaseDelay, options.retryMaxDelay);
      Settle(key, ok, world.scheduled);
    }

    method Take(key: RegistryKey)
      requires TicketOf(State(), key).Ready() && Tidy(State(), key)
      modifies this`queue
      ensures State() == WithTicket(old(State()), key, TicketOf(old(State()), key).Get())
      ensures Tidy(State(), key)
    {
      queue := queue[key := TicketOf(State(), key).Get()];
    }

    method Settle(key: RegistryKey, ok: bool, now: Time)
      modifies this`queue
      ensures State() == WithTicket(old(State()), key,
                                    if ok then TicketOf(old(State()), key).Done().Forget()
                                    else TicketOf(old(State()), key).Done().AddRateLimited(now, options.retryBaseDelay, options.retryMaxDelay))
    {
      queue := queue[key := TicketOf(State(), key).Done()];
      if ok {
        queue := queue[key := TicketOf(State(), key).Forget()];
      } else {
        queue := queue[key := TicketOf(State(), key).AddRateLimited(now, options.retryBaseDelay, options.retryMaxDelay)];
      }
    }

    method Add(key: RegistryKey)
      modifies this`queue
      ensures queue == old(queue)[key := TicketOf(old(State()), key).Add()]
    {
      queue := queue[key := TicketOf(State(), key).Add()];
    }

    method Forget(key: RegistryKey)
      modifies this`queue
      ensures queue == if key in old(queue) then old(queue)[key := old(queue)[key].Forget()] else old(queue)
    {
      if key in queue {
        queue := queue[key := queue[key].Forget()];
      }
    }
  }
}
