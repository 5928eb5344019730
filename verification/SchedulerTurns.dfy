/**
 A worker's round as the program has it (`RunWorkerOnce`: take a key, refresh it, call `Done`,
 settle) is a run of the system in which only that worker and the clock move.
 */
module SchedulerTurns {
  import opened ConfigTypes
  import opened CredentialTypes
  import opened WorkQueue
  import opened SchedulerModel
  import opened SchedulerBase
  import opened SchedulerSafety
  import opened Scheduler

  // Runs in pieces

  lemma RunsCons(s: System, step: Step, rest: seq<Step>)
    requires Enabled(s, step) && Runs(Next(s, step), rest)
    ensures Runs(s, [step] + rest) && Final(s, [step] + rest) == Final(Next(s, step), rest)
  {
    hide Enabled, Next;
    assert ([step] + rest)[1..] == rest;
  }

  lemma {:induction false} RunsConcat(s: System, a: seq<Step>, b: seq<Step>)
    requires Runs(s, a) && Runs(Final(s, a), b)
    ensures Runs(s, a + b) && Final(s, a + b) == Final(Final(s, a), b)
    decreases |a|
  {
    hide Enabled, Next;
    if a == [] {
      assert a + b == b;
    } else {
      RunsConcat(Next(s, a[0]), a[1..], b);
      assert (a + b)[1..] == a[1..] + b;
    }
  }

  // What the maps of a reachable state look like

  /** Absent revisions are absent entries, never zeroes. */
  predicate NoZeroes(c: Core) {
    && (forall j :: j in c.force ==> c.force[j] > 0)
    && (forall j :: j in c.published ==> c.published[j] > 0)
  }

  lemma StepKeepsNoZeroes(s: System, step: Step)
    requires NoZeroes(s.core) && Enabled(s, step)
    ensures NoZeroes(Next(s, step).core)
  {
    hide Act, CellOf;
  }

  lemma {:induction false} RunKeepsNoZeroes(s: System, steps: seq<Step>)
    requires NoZeroes(s.core) && Runs(s, steps)
    ensures NoZeroes(Final(s, steps).core)
    decreases |steps|
  {
    if steps != [] {
      StepKeepsNoZeroes(s, steps[0]);
      RunKeepsNoZeroes(Next(s, steps[0]), steps[1..]);
    }
  }

  lemma ReachableHasNoZeroes(s: System)
    requires Reachable(s)
    ensures NoZeroes(s.core)
  {
    hide ValidOptions;
    var options, workers: nat, now, steps :|
      ValidOptions(options) && Runs(Init(options, workers, now), steps) && s == Final(Init(options, workers, now), steps);
    RunKeepsNoZeroes(Init(options, workers, now), steps);
  }

  /** For a key that is held or ready, a reachable state meets what `Refresh` and `RunWorkerOnce` require. */
  lemma WorkedIsTidy(s: System, k: RegistryKey)
    requires Reachable(s) && (Held(s, k) || TicketOf(s.core, k).dirty)
    ensures Tidy(s.core, k)
    ensures k in s.core.store ==> s.core.store[k].revision > 0
    ensures KeysMatch(Configured(s.core))
  {
    ReachableHasNoZeroes(s);
    ReachableIsBase(s);
    assert TicketOf(s.core, k).processing <==> Held(s, k);
    forall j | j in Configured(s.core) ensures Configured(s.core)[j].Key() == j {
      assert KeyBase(j, ViewOf(s, j), s);
    }
    assert KeyBase(k, ViewOf(s, k), s);
  }

  // One turn

  /** The clock readings of a turn come in order. */
  predicate Ordered(world: World) {
    world.entered <= world.granted <= world.scheduled
  }

  /** The next reading a worker may take. */
  function NextReading(pc: Worker, world: World): Time {
    if pc.Entered? || pc.Loaded? then world.entered
    else if pc.Clocked? || pc.Forced? || pc.Calling? || pc.Called? || pc.Checked? then world.granted
    else world.scheduled
  }

  predicate ReadsClock(pc: Worker) {
    pc.Loaded? || pc.Checked? || pc.Scheduling?
  }

  lemma ActIgnoresClock(pc: Worker, v: Cell, at: Time, now: Time, o: Options, nextRevision: nat, reply: Reply)
    requires !pc.Idle? && !ReadsClock(pc) && !pc.Settling?
    ensures Act(pc, v, at, o, nextRevision, reply) == Act(pc, v, now, o, nextRevision, reply)
  {
  }

  lemma ReadingsComeLater(x: Turn, world: World, o: Options)
    requires Ordered(world) && !x.pc.Idle? && !x.pc.Returning? && !x.pc.Settling?
    ensures NextReading(x.pc, world) <= NextReading(Act1(x, world, o).pc, world)
    ensures ReadsClock(x.pc) ==> Reading(x.pc, world) == NextReading(x.pc, world)
  {
  }

  /** All steps are actions of worker `w`, or time passing. */
  predicate OnlyWorker(w: nat, steps: seq<Step>) {
    forall i | 0 <= i < |steps| :: steps[i].Tick? || (steps[i].Advance? && steps[i].worker == w)
  }

  /** Nothing but the clock, worker `w` and what it writes has changed. */
  predicate OnlyMoved(s: System, w: nat, t: System)
    requires w < |s.workers|
  {
    && t.options == s.options && t.main == s.main && t.notified == s.notified && t.announcing == s.announcing
    && s.now <= t.now && |t.workers| == |s.workers| && t.workers == s.workers[w := t.workers[w]]
  }

  /** How long to wait for the reading the worker takes next. */
  function Pause(s: System, w: nat, world: World): (elapsed: nat)
    requires w < |s.workers| && s.now <= NextReading(s.workers[w], world)
  {
    if ReadsClock(s.workers[w]) then NextReading(s.workers[w], world) - s.now else 0
  }

  /** The system after a pause and one action of a turn. */
  function Acted(s: System, w: nat, world: World): System
    requires w < |s.workers| && !s.workers[w].Idle? && s.now <= NextReading(s.workers[w], world)
  {
    AdvanceWorker(s.(now := s.now + Pause(s, w, world)), w, Answer(s.workers[w], world))
  }

  /** After the pause the worker reads what the turn says, or no clock at all. */
  lemma PauseIsRight(s: System, w: nat, world: World)
    requires w < |s.workers| && s.workers[w].Holds() && !s.workers[w].Returning?
    requires Ordered(world) && s.now <= NextReading(s.workers[w], world)
    ensures var pc, v := s.workers[w], CellOf(s.core, s.workers[w].key);
            Act(pc, v, s.now + Pause(s, w, world), s.options, s.core.nextRevision, Answer(pc, world))
            == Act(pc, v, Reading(pc, world), s.options, s.core.nextRevision, Answer(pc, world))
  {
    var x := TurnAt(s.core, s.workers[w]);
    ReadingsComeLater(x, world, s.options);
    if !ReadsClock(x.pc) {
      ActIgnoresClock(x.pc, x.cell, Reading(x.pc, world), s.now + Pause(s, w, world), s.options, x.nextRevision, Answer(x.pc, world));
    }
  }

  /** What the worker's action makes of its turn. */
  lemma ActionMoves(s: System, w: nat, world: World)
    requires w < |s.workers| && s.workers[w].Holds() && !s.workers[w].Returning?
    requires Ordered(world) && s.now <= NextReading(s.workers[w], world)
    ensures var pc, t, y := s.workers[w], Acted(s, w, world), Act1(TurnAt(s.core, s.workers[w]), world, s.options);
            && t.core == Write(s.core, pc.key, y) && t.workers == s.workers[w := y.pc] && OnlyMoved(s, w, t)
            && t.now <= NextReading(y.pc, world) && t.retryFrom == s.retryFrom
  {
    hide Act, CellOf, Put, Answer, Reading;
    PauseIsRight(s, w, world);
    ReadingsComeLater(TurnAt(s.core, s.workers[w]), world, s.options);
  }

  /** And where that leaves the worker. */
  lemma ActionLeaves(c: Core, pc: Worker, world: World, o: Options)
    requires pc.Holds() && !pc.Returning?
    ensures var y := Act1(TurnAt(c, pc), world, o);
            var d := Write(c, pc.key, y);
            && y.pc.Holds() && y.pc.key == pc.key && Tidy(d, pc.key) && TurnAt(d, y.pc) == y
            && Remaining(y.pc) < Remaining(pc)
            && Refreshed(TurnAt(c, pc), world, o) == Refreshed(y, world, o)
            && Write(d, pc.key, Refreshed(y, world, o)) == Write(c, pc.key, Refreshed(y, world, o))
  {
    var x := TurnAt(c, pc);
    ActStaysOnKey(x, world, o);
    ActComesNearer(x, world, o);
    hide Act;
    WriteCell(c, pc.key, Act1(x, world, o));
    WriteTwice(c, pc.key, Act1(x, world, o), Refreshed(Act1(x, world, o), world, o));
  }

  lemma ActionIsRun(s: System, w: nat, world: World) returns (steps: seq<Step>)
    requires w < |s.workers| && !s.workers[w].Idle? && s.now <= NextReading(s.workers[w], world)
    ensures Runs(s, steps) && OnlyWorker(w, steps) && Final(s, steps) == Acted(s, w, world)
  {
    hide AdvanceWorker;
    var pause, reply := Pause(s, w, world), Answer(s.workers[w], world);
    var late := s.(now := s.now + pause);
    RunsCons(late, Advance(w, reply), []);
    assert Next(s, Tick(pause)) == late;
    RunsCons(s, Tick(pause), [Advance(w, reply)] + []);
    steps := [Tick(pause)] + ([Advance(w, reply)] + []);
  }

  /**
   A turn is a run of the system: from any point of `refresh`, with time passing between its
   clock readings, the worker's atomic actions until `refresh` returns are steps of the system.
   */
  lemma {:induction false} TurnsAreRuns(s: System, w: nat, world: World) returns (steps: seq<Step>)
    requires w < |s.workers| && s.workers[w].Holds() && Tidy(s.core, s.workers[w].key)
    requires Ordered(world) && s.now <= NextReading(s.workers[w], world)
    ensures Runs(s, steps) && OnlyWorker(w, steps)
    ensures var r, t := Refreshed(TurnAt(s.core, s.workers[w]), world, s.options), Final(s, steps);
            && t.workers == s.workers[w := r.pc] && t.core == Write(s.core, s.workers[w].key, r)
            && OnlyMoved(s, w, t) && t.now <= world.scheduled && t.retryFrom == s.retryFrom
    decreases Remaining(s.workers[w])
  {
    hide Act, Act1, Acted, Write, Enabled, Next, Tidy;
    var pc := s.workers[w];
    if pc.Returning? {
      WriteSame(s.core, pc.key, pc);
      steps := [];
    } else {
      ActionMoves(s, w, world);
      ActionLeaves(s.core, pc, world, s.options);
      var t := Acted(s, w, world);
      var first := ActionIsRun(s, w, world);
      var rest := TurnsAreRuns(t, w, world);
      RunsConcat(s, first, rest);
      steps := first + rest;
    }
  }

  // One round

  /** The ticket after `Done` and the queue's answer to how `refresh` went. */
  function SettledTicket(t: Ticket, ok: bool, now: Time, o: Options): Ticket {
    if ok then t.Done().Forget() else t.Done().AddRateLimited(now, o.retryBaseDelay, o.retryMaxDelay)
  }

  lemma DoneIsStep(s: System, w: nat, k: RegistryKey, ok: bool)
    requires w < |s.workers| && s.workers[w] == Returning(k, ok) && Tidy(s.core, k)
    ensures var t := AdvanceWorker(s, w, Refused);
            t.workers == s.workers[w := Settling(k, ok)] && OnlyMoved(s, w, t) && t.now == s.now
            && t.core == WithTicket(s.core, k, TicketOf(s.core, k).Done()) && Tidy(t.core, k)
            && t.retryFrom == s.retryFrom
  {
    WriteTicket(s.core, k, Settling(k, ok), TicketOf(s.core, k).Done());
  }

  lemma AnswerIsStep(s: System, w: nat, k: RegistryKey, ok: bool, ticket: Ticket)
    requires w < |s.workers| && s.workers[w] == Settling(k, ok) && Tidy(s.core, k)
    requires ticket == if ok then TicketOf(s.core, k).Forget()
                       else TicketOf(s.core, k).AddRateLimited(s.now, s.options.retryBaseDelay, s.options.retryMaxDelay)
    ensures var t := AdvanceWorker(s, w, Refused);
            t.workers == s.workers[w := Idle] && OnlyMoved(s, w, t) && t.now == s.now && t.core == WithTicket(s.core, k, ticket)
            && (ok ==> t.retryFrom == s.retryFrom)
  {
    WriteTicket(s.core, k, Idle, ticket);
  }

  /** `Done`, then the queue's answer. */
  lemma SettlingIsRun(s: System, w: nat, k: RegistryKey, ok: bool, at: Time) returns (steps: seq<Step>)
    requires w < |s.workers| && s.workers[w] == Returning(k, ok) && Tidy(s.core, k) && s.now <= at
    ensures Runs(s, steps) && OnlyWorker(w, steps)
    ensures var t := Final(s, steps);
            && t.workers == s.workers[w := Idle] && OnlyMoved(s, w, t) && t.now == at
            && t.core == WithTicket(s.core, k, SettledTicket(TicketOf(s.core, k), ok, at, s.options))
            && (ok ==> t.retryFrom == s.retryFrom)
  {
    hide AdvanceWorker, Tidy;
    var ticket := SettledTicket(TicketOf(s.core, k), ok, at, s.options);
    var t1 := AdvanceWorker(s, w, Refused);
    DoneIsStep(s, w, k, ok);
    var late := t1.(now := at);
    AnswerIsStep(late, w, k, ok, ticket);
    var rest := PauseThenStep(t1, w, at);
    RunsCons(s, Advance(w, Refused), rest);
    steps := [Advance(w, Refused)] + rest;
  }

  lemma PauseThenStep(s: System, w: nat, at: Time) returns (steps: seq<Step>)
    requires w < |s.workers| && !s.workers[w].Idle? && s.now <= at
    ensures Runs(s, steps) && OnlyWorker(w, steps) && Final(s, steps) == AdvanceWorker(s.(now := at), w, Refused)
  {
    hide AdvanceWorker;
    var pause: nat := at - s.now;
    RunsCons(s.(now := at), Advance(w, Refused), []);
    assert Next(s, Tick(pause)) == s.(now := at);
    RunsCons(s, Tick(pause), [Advance(w, Refused)] + []);
    steps := [Tick(pause)] + ([Advance(w, Refused)] + []);
  }

  /** A round of worker `w` on `k`: `Get`, and then the worker's own actions and time. */
  predicate OneRound(w: nat, k: RegistryKey, steps: seq<Step>) {
    steps != [] && steps[0] == Get(w, k) && OnlyWorker(w, steps[1..])
  }

  /**
   `RunWorkerOnce` is a run of the system: what the method promises of the state when
   `refresh` returned and of the state at its end, the system reaches by a `Get`, the worker's
   atomic actions and time passing in between.
   */
  lemma RoundsAreRuns(s: System, w: nat, k: RegistryKey, world: World, returned: Core, ok: bool) returns (steps: seq<Step>)
    requires Enabled(s, Get(w, k)) && NoZeroes(s.core) && Ordered(world) && s.now <= world.entered
    requires Runs1(WithTicket(s.core, k, TicketOf(s.core, k).Get()), Entered(k), world, s.options, returned, ok)
    ensures Runs(s, steps) && OneRound(w, k, steps)
    ensures var t := Final(s, steps);
            && t.workers == s.workers && OnlyMoved(s, w, t) && t.now == world.scheduled
            && t.core == WithTicket(returned, k, SettledTicket(TicketOf(returned, k), ok, world.scheduled, s.options))
            && (ok ==> t.retryFrom == s.retryFrom)
  {
    var s1 := Next(s, Get(w, k));
    TakenIsTidy(s, w, k);
    hide Refreshed, SettledTicket, Enabled, Next, Tidy, TurnAt, Write, NoZeroes;
    var turn := TurnsAreRuns(s1, w, world);
    var s2 := Final(s1, turn);
    var r := Refreshed(TurnAt(s1.core, Entered(k)), world, s.options);
    assert s2.workers[w] == Returning(k, ok) && s2.core == returned;
    WrittenIsTidy(s1.core, k, r);
    var settling := SettlingIsRun(s2, w, k, ok, world.scheduled);
    RunsConcat(s1, turn, settling);
    RunsCons(s, Get(w, k), turn + settling);
    steps := [Get(w, k)] + (turn + settling);
    assert steps[1..] == turn + settling;
    assert Final(s, steps).workers == s.workers;
  }

  lemma TakenIsTidy(s: System, w: nat, k: RegistryKey)
    requires Enabled(s, Get(w, k)) && NoZeroes(s.core)
    ensures var t := Next(s, Get(w, k));
            && Tidy(t.core, k) && t.workers == s.workers[w := Entered(k)] && s.workers[w].Idle?
            && OnlyMoved(s, w, t) && t.now == s.now && t.retryFrom == s.retryFrom
            && t.core == WithTicket(s.core, k, TicketOf(s.core, k).Get())
  {
  }

  lemma WrittenIsTidy(c: Core, k: RegistryKey, x: Turn)
    ensures Tidy(Write(c, k, x), k)
  {
  }
}
