/**
 The credential scheduler of internal/credential/scheduler.go as a system of interleaved
 steps: the configuration writer, the main loop, any number of workers each at a program
 point inside `refresh`, the delay heap and the clock.
 */
module SchedulerModel {
  import opened Wrappers
  import opened ConfigTypes
  import opened CredentialTypes
  import opened WorkQueue

  datatype Options = Options(refreshBefore: Time, retryBaseDelay: Time, retryMaxDelay: Time)

  predicate ValidOptions(o: Options) {
    o.refreshBefore > 0 && 0 < o.retryBaseDelay <= o.retryMaxDelay
  }

  /** Everything the scheduler and the two stores keep between their atomic actions. */
  datatype Core = Core(
    config: Option<Registries>,
    known: Registries,
    store: map<RegistryKey, Entry>,
    nextRevision: nat,
    force: map<RegistryKey, nat>,
    published: map<RegistryKey, nat>,
    queue: map<RegistryKey, Ticket>)

  /** The configured registries; none before the first valid configuration. */
  function Configured(c: Core): Registries {
    c.config.GetOr(map[])
  }

  function ForceRevision(c: Core, k: RegistryKey): nat {
    if k in c.force then c.force[k] else 0
  }

  function PublishedRevision(c: Core, k: RegistryKey): nat {
    if k in c.published then c.published[k] else 0
  }

  function TicketOf(c: Core, k: RegistryKey): Ticket {
    if k in c.queue then c.queue[k] else NoTicket
  }

  /** The keys `reconcileConfiguration` treats as new, as rotated and as removed. */
  function AddedKeys(c: Core): set<RegistryKey> {
    set k | k in Configured(c) && k !in c.known
  }

  function RotatedKeys(c: Core): set<RegistryKey> {
    set k | k in Configured(c) && k in c.known && !SameAuthentication(c.known[k], Configured(c)[k])
  }

  function RemovedKeys(c: Core): set<RegistryKey> {
    set k | k in c.known && k !in Configured(c)
  }

  /** What `reconcileConfiguration` does to the ticket of one key. */
  function ReconciledTicket(c: Core, k: RegistryKey): Ticket {
    if k in AddedKeys(c) + RotatedKeys(c) then TicketOf(c, k).Add()
    else if k in RemovedKeys(c) then TicketOf(c, k).Forget()
    else TicketOf(c, k)
  }

  function ReconcileConfiguration(c: Core): Core {
    if c.config.None? then
      c
    else
      var rotated, removed := RotatedKeys(c), RemovedKeys(c);
      c.(known := c.config.value,
         store := c.store - removed,
         published := c.published - removed,
         force := (map k | k in c.force.Keys + rotated && k !in removed ::
                     if k in rotated then ForceRevision(c, k) + 1 else c.force[k]),
         queue := map k | k in c.queue.Keys + AddedKeys(c) + rotated :: ReconciledTicket(c, k))
  }

  /** The part of the state that belongs to one key: what a worker holding it reads and writes. */
  datatype Cell = Cell(
    config: Option<RegistryConfig>,
    known: Option<RegistryConfig>,
    stored: Option<Entry>,
    force: nat,
    published: nat,
    ticket: Ticket)
  {
    /** The stored entry may be reused: it matches, nothing forces a refresh, and its timer is still ahead. */
    predicate Reusable(registry: RegistryConfig, now: Time, force: nat, refreshBefore: Time) {
      && stored.Some?
      && stored.value.MatchesRegistry(registry)
      && force == 0
      && stored.value.credential.expiresAt - refreshBefore > now
    }
  }

  function CellOf(c: Core, k: RegistryKey): Cell {
    Cell(Find(Configured(c), k), Find(c.known, k), Find(c.store, k), ForceRevision(c, k), PublishedRevision(c, k),
         TicketOf(c, k))
  }

  /** Sets or removes one entry of a map. */
  function Assign<V>(m: map<RegistryKey, V>, k: RegistryKey, v: Option<V>): map<RegistryKey, V> {
    if v.Some? then m[k := v.value] else m - {k}
  }

  /** A revision as its maps hold it: zero is an absent entry. */
  function Revision(n: nat): Option<nat> {
    if n > 0 then Some(n) else None
  }

  /** Writes back a cell. Configurations are never written this way. */
  function Put(c: Core, k: RegistryKey, cell: Cell): Core {
    c.(store := Assign(c.store, k, cell.stored),
       force := Assign(c.force, k, Revision(cell.force)),
       published := Assign(c.published, k, Revision(cell.published)),
       queue := c.queue[k := cell.ticket])
  }

  /** One provider call: the request and what came back. */
  datatype Reply = Refused | Granted(token: Token)

  datatype Call = Call(key: RegistryKey, accessKeyID: string, accessKeySecret: string, reply: Reply)

  datatype Install = Install(key: RegistryKey, entry: Entry)

  /**
   What a worker does next. `at` is a clock reading it carries, `force` the force-refresh
   revision it read. `Returning` and `Settling` carry whether `refresh` succeeded; a worker
   in `Settling` has called `Done` and still owes the queue its answer.
   */
  datatype Worker =
    | Idle
    | Entered(key: RegistryKey)
    | Loaded(key: RegistryKey, registry: RegistryConfig)
    | Clocked(key: RegistryKey, registry: RegistryConfig, at: Time)
    | Forced(key: RegistryKey, registry: RegistryConfig, at: Time, force: nat)
    | Calling(key: RegistryKey, registry: RegistryConfig, force: nat)
    | Called(key: RegistryKey, registry: RegistryConfig, force: nat, token: Token)
    | Checked(key: RegistryKey, registry: RegistryConfig, force: nat, token: Token)
    | Validated(key: RegistryKey, registry: RegistryConfig, force: nat, token: Token, at: Time)
    | Installed(key: RegistryKey, entry: Entry, force: nat, at: Time)
    | Publishing(key: RegistryKey, entry: Entry, at: Time)
    | FanningOut(key: RegistryKey, entry: Entry, at: Time, since: nat)
    | FannedOut(key: RegistryKey, entry: Entry, at: Time)
    | Scheduling(key: RegistryKey, entry: Entry, at: Time)
    | DropStored(key: RegistryKey)
    | DropPublished(key: RegistryKey)
    | DropForced(key: RegistryKey)
    | RotatedMark(key: RegistryKey)
    | RotatedAdd(key: RegistryKey)
    | Returning(key: RegistryKey, ok: bool)
    | Settling(key: RegistryKey, ok: bool)
  {
    /** Between `Get` and `Done` the worker holds its key. */
    predicate Holds() {
      !Idle? && !Settling?
    }
  }

  datatype MainLoop = NotStarted | Starting | Waiting | Reconciling

  /** What one atomic action of a worker does: its next program point, its key's cell, and the history it adds. */
  datatype Effect = Effect(pc: Worker, cell: Cell, calls: seq<Call>, installs: seq<Install>, fannedOut: nat)

  function Quietly(pc: Worker, cell: Cell): Effect {
    Effect(pc, cell, [], [], 0)
  }

  /** The next atomic action of a worker at `pc` on its own cell; `reply` answers a provider or publisher call. */
  function Act(pc: Worker, v: Cell, now: Time, o: Options, nextRevision: nat, reply: Reply): Effect
    requires !pc.Idle?
  {
    match pc
    case Entered(k) =>
      Quietly(if v.config.Some? then Loaded(k, v.config.value) else DropStored(k), v)
    case Loaded(k, registry) =>
      Quietly(Clocked(k, registry, now), v)
    case Clocked(k, registry, at) =>
      Quietly(Forced(k, registry, at, v.force), v)
    case Forced(k, registry, at, force) =>
      Quietly(if v.Reusable(registry, at, force, o.refreshBefore) then Publishing(k, v.stored.value, at)
              else Calling(k, registry, force), v)
    case Calling(k, registry, force) =>
      Quietly(if reply.Granted? then Called(k, registry, force, reply.token) else Returning(k, false), v)
      .(calls := [Call(k, registry.accessKeyID, registry.accessKeySecret, reply)])
    case Called(k, registry, force, token) =>
      Quietly(if v.config.None? then DropStored(k)
              else if !SameAuthentication(registry, v.config.value) then RotatedMark(k)
              else Checked(k, v.config.value, force, token), v)
    case Checked(k, registry, force, token) =>
      Quietly(if ValidToken(token, now, o.refreshBefore) then Validated(k, registry, force, token, now)
              else Returning(k, false), v)
    case Validated(k, registry, force, token, at) =>
      var entry := Entry(Credential(token.username, token.password, at, token.expiresAt), nextRevision + 1,
                         RegistryAuthenticationHash(registry));
      Effect(Installed(k, entry, force, at), v.(stored := Some(entry)), [], [Install(k, entry)], 0)
    case Installed(k, entry, force, at) =>
      Quietly(Publishing(k, entry, at), if v.force == force then v.(force := 0) else v)
    case Publishing(k, entry, at) =>
      Quietly(if v.published == entry.revision then Scheduling(k, entry, at) else FanningOut(k, entry, at, nextRevision), v)
    case FanningOut(k, entry, at, since) =>
      if reply.Granted? then Effect(FannedOut(k, entry, at), v, [], [], since) else Quietly(Returning(k, false), v)
    case FannedOut(k, entry, at) =>
      Quietly(Scheduling(k, entry, at), v.(published := entry.revision))
    case Scheduling(k, entry, at) =>
      Quietly(Returning(k, true),
              v.(ticket := v.ticket.AddAfter(entry.credential.expiresAt - o.refreshBefore - at, now)))
    case DropStored(k) =>
      Quietly(DropPublished(k), v.(stored := None))
    case DropPublished(k) =>
      Quietly(DropForced(k), v.(published := 0))
    case DropForced(k) =>
      Quietly(Returning(k, true), v.(force := 0))
    case RotatedMark(k) =>
      Quietly(RotatedAdd(k), v.(force := v.force + 1))
    case RotatedAdd(k) =>
      Quietly(Returning(k, true), v.(ticket := v.ticket.Add()))
    case Returning(k, ok) =>
      Quietly(Settling(k, ok), v.(ticket := v.ticket.Done()))
    case Settling(k, ok) =>
      Quietly(Idle, v.(ticket := if ok then v.ticket.Forget()
                                 else v.ticket.AddRateLimited(now, o.retryBaseDelay, o.retryMaxDelay)))
  }

  /**
   The whole system. The last four fields are history: every provider call, every install
   (revision r is install number r), the newest revision a completed fan-out started after,
   and, for a key whose pending timer is a failure retry, when that failure was settled.
   */
  datatype System = System(
    core: Core,
    options: Options,
    now: Time,
    main: MainLoop,
    notified: bool,
    announcing: bool,
    workers: seq<Worker>,
    calls: seq<Call>,
    installs: seq<Install>,
    fannedOut: nat,
    retryFrom: map<RegistryKey, Time>)

  datatype Step =
    | ApplyConfig(registries: Registries)
    | Notify
    | Start
    | Receive
    | Reconcile
    | Tick(elapsed: nat)
    | Fire(key: RegistryKey)
    | WakeUp(key: RegistryKey)
    | Get(worker: nat, key: RegistryKey)
    | Advance(worker: nat, reply: Reply)

  function Init(options: Options, workers: nat, now: Time): System {
    System(
      Core(None, map[], map[], 0, map[], map[], map[]),
      options, now, NotStarted, false, false, seq(workers, _ => Idle), [], [], 0, map[])
  }

  predicate Enabled(s: System, step: Step) {
    match step
    case ApplyConfig(registries) => !s.announcing && WellFormedRegistries(registries)
    case Notify => s.announcing
    case Start => s.main.NotStarted?
    case Receive => s.main.Waiting? && s.notified
    case Reconcile => s.main.Starting? || s.main.Reconciling?
    case Tick(_) => true
    case Fire(k) => TicketOf(s.core, k).due.Some? && TicketOf(s.core, k).due.value <= s.now
    case WakeUp(_) => true
    case Get(w, k) =>
      && w < |s.workers| && s.workers[w].Idle? && (s.main.Waiting? || s.main.Reconciling?)
      && TicketOf(s.core, k).Ready()
    case Advance(w, _) => w < |s.workers| && !s.workers[w].Idle?
  }

  function WithTicket(c: Core, k: RegistryKey, ticket: Ticket): Core {
    c.(queue := c.queue[k := ticket])
  }

  function Next(s: System, step: Step): System
    requires Enabled(s, step)
  {
    match step
    case ApplyConfig(registries) => s.(core := s.core.(config := Some(registries)), announcing := true)
    case Notify => s.(announcing := false, notified := true)
    case Start => s.(main := Starting)
    case Receive => s.(main := Reconciling, notified := false)
    case Reconcile => s.(core := ReconcileConfiguration(s.core), main := Waiting)
    case Tick(elapsed) => s.(now := s.now + elapsed)
    case Fire(k) => s.(core := WithTicket(s.core, k, TicketOf(s.core, k).Fire()), retryFrom := s.retryFrom - {k})
    case WakeUp(k) => s.(core := WithTicket(s.core, k, TicketOf(s.core, k).Add()))
    case Get(w, k) =>
      s.(core := WithTicket(s.core, k, TicketOf(s.core, k).Get()), workers := s.workers[w := Entered(k)])
    case Advance(w, reply) => AdvanceWorker(s, w, reply)
  }

  function EffectOf(s: System, w: nat, reply: Reply): Effect
    requires w < |s.workers| && !s.workers[w].Idle?
  {
    var pc := s.workers[w];
    Act(pc, CellOf(s.core, pc.key), s.now, s.options, s.core.nextRevision, reply)
  }

  function AdvanceWorker(s: System, w: nat, reply: Reply): System
    requires w < |s.workers| && !s.workers[w].Idle?
  {
    var pc, e := s.workers[w], EffectOf(s, w, reply);
    s.(core := Put(s.core, pc.key, e.cell).(nextRevision := s.core.nextRevision + |e.installs|),
       workers := s.workers[w := e.pc],
       calls := s.calls + e.calls,
       installs := s.installs + e.installs,
       fannedOut := if s.fannedOut < e.fannedOut then e.fannedOut else s.fannedOut,
       retryFrom := if pc == Settling(pc.key, false) then s.retryFrom[pc.key := s.now] else s.retryFrom)
  }

  /** `steps` can be taken one after the other from `s`. */
  predicate Runs(s: System, steps: seq<Step>)
    decreases |steps|
  {
    steps == [] || (Enabled(s, steps[0]) && Runs(Next(s, steps[0]), steps[1..]))
  }

  function Final(s: System, steps: seq<Step>): System
    requires Runs(s, steps)
    decreases |steps|
  {
    if steps == [] then s else Final(Next(s, steps[0]), steps[1..])
  }

  /** What one key can see of the system: its cell, debts of workers past `Done`, and the retry mark of its timer. */
  datatype View = View(cell: Cell, owed: bool, retryFrom: Option<Time>) {
    /** Work that does not count the worker holding the key, nor a far refresh timer. */
    predicate Pressing() {
      cell.ticket.dirty || owed || retryFrom.Some?
    }

    /** Ready, dirty, held by a worker, or on a failure retry. */
    predicate Urgent() {
      cell.ticket.processing || Pressing()
    }

    /** Dirty or waiting for any timer, or owed by a worker past `Done`. */
    predicate Queued() {
      cell.ticket.dirty || owed || cell.ticket.due.Some?
    }

    /** Ready, dirty, held by a worker, or waiting for any timer. */
    predicate Outstanding() {
      cell.ticket.processing || Queued()
    }
  }

  /** A worker has called `Done` on `k` after a failure and has not yet re-added it. */
  ghost predicate Owed(s: System, k: RegistryKey) {
    exists w :: 0 <= w < |s.workers| && s.workers[w] == Settling(k, false)
  }

  ghost function ViewOf(s: System, k: RegistryKey): View {
    View(CellOf(s.core, k), Owed(s, k), Find(s.retryFrom, k))
  }
}
