/**
 What a worker's undisturbed turn comes to, told in the fields of the stores and of the queue:
 which tokens are taken, what is stored, marked and timed for them, and what stays as it was.
 `Runs1` from `Entered` is what `Scheduler.Refresh` promises; from `Calling` it is the rest of a
 turn whose configuration, store and queue may have changed before the provider answered.
 */
module SchedulerOutcomes {
  import opened Wrappers
  import opened ConfigTypes
  import opened CredentialTypes
  import opened WorkQueue
  import opened SchedulerModel
  import opened Scheduler

  /** A turn has one outcome. */
  lemma OneOutcome(c: Core, pc: Worker, world: World, o: Options, d: Core, ok: bool, d': Core, ok': bool)
    requires !pc.Idle? && Runs1(c, pc, world, o, d, ok) && Runs1(c, pc, world, o, d', ok')
    ensures d == d' && ok == ok'
  {
  }

  /** What remains of a turn after its first action. */
  lemma RunsPast(c: Core, pc: Worker, world: World, o: Options, b: Core, d: Core, ok: bool)
    requires pc.Holds() && !pc.Returning? && Runs1(c, pc, world, o, d, ok)
    requires b == Write(c, pc.key, Act1(TurnAt(c, pc), world, o))
    ensures var q := Act1(TurnAt(c, pc), world, o).pc; !q.Idle? && q.key == pc.key && Runs1(b, q, world, o, d, ok)
  {
    var x := TurnAt(c, pc);
    var y := Act1(x, world, o);
    ActStaysOnKey(x, world, o);
    WriteCell(c, pc.key, y);
    assert TurnAt(b, y.pc) == y;
    WriteTwice(c, pc.key, y, Refreshed(y, world, o));
  }

  /**
   How fanning out revision `r` of key `k` and setting its timer to `refreshAt` takes `c` to `d`:
   the fan-out is skipped if the revision was fanned out before; without it nothing changes.
   */
  predicate FansOut(c: Core, k: RegistryKey, r: nat, refreshAt: Time, granted: bool, d: Core, ok: bool) {
    && (ok <==> granted || (k in c.published && c.published[k] == r))
    && (!ok ==> d == c)
    && (ok ==>
          && k in c.queue && k in d.queue
          && d == c.(published := c.published[k := r], queue := c.queue[k := d.queue[k]])
          && d.queue[k] == c.queue[k].(due := d.queue[k].due)
          && d.queue[k].due == Some(if c.queue[k].due.Some? && c.queue[k].due.value <= refreshAt
                                    then c.queue[k].due.value else refreshAt))
  }

  lemma DeliveryFansOut(c: Core, k: RegistryKey, entry: Entry, at: Time, world: World, o: Options, d: Core, ok: bool)
    requires Tidy(c, k) && entry.revision > 0 && Runs1(c, Publishing(k, entry, at), world, o, d, ok)
    requires entry.credential.expiresAt > at + o.refreshBefore
    ensures FansOut(c, k, entry.revision, world.scheduled + (entry.credential.expiresAt - o.refreshBefore - at),
                    world.publisher.Granted?, d, ok)
  {
    hide Runs1;
    if PublishedRevision(c, k) == entry.revision || world.publisher.Granted? {
      DeliveryRuns(c, k, entry, at, world, o);
      OneOutcome(c, Publishing(k, entry, at), world, o, d, ok, Delivered(c, k, entry, at, world, o), true);
    } else {
      DeliveryFails(c, k, entry, at, world, o);
      OneOutcome(c, Publishing(k, entry, at), world, o, d, ok, c, false);
    }
  }

  // After the provider answered, whatever happened to the configuration during the call

  /** Everything the key left behind is dropped, and nothing else. */
  lemma Dropped(c: Core, k: RegistryKey, world: World, o: Options, d: Core, ok: bool)
    requires Tidy(c, k) && Runs1(c, DropStored(k), world, o, d, ok)
    ensures ok && d == c.(store := c.store - {k}, published := c.published - {k}, force := c.force - {k})
  {
    hide Runs1;
    var c1 := c.(store := c.store - {k});
    var c2 := c1.(published := c.published - {k});
    var c3 := c2.(force := c.force - {k});
    RunsNot(c3, k, true, world, o);
    DropForcedRuns(c2, k, world, o, c3, true);
    DropPublishedRuns(c1, k, world, o, c3, true);
    DropStoredRuns(c, k, world, o, c3, true);
    OneOutcome(c, DropStored(k), world, o, d, ok, c3, true);
  }

  /** The registry is gone: the answer is thrown away with all the key left behind. */
  lemma AnswerForRemoved(c: Core, k: RegistryKey, registry: RegistryConfig, force: nat, world: World, o: Options, d: Core, ok: bool)
    requires Tidy(c, k) && Runs1(c, Calling(k, registry, force), world, o, d, ok)
    requires world.provider.Granted? && k !in Configured(c)
    ensures ok && d == c.(store := c.store - {k}, published := c.published - {k}, force := c.force - {k})
  {
    AfterCall(c, k, registry, force, world, o, d, ok);
    Dropped(c, k, world, o, d, ok);
  }

  /** The AK/SK is another one: the answer is thrown away, and the key is forced and ready again. */
  lemma AnswerForRotated(c: Core, k: RegistryKey, registry: RegistryConfig, force: nat, world: World, o: Options, d: Core, ok: bool)
    requires Tidy(c, k) && Runs1(c, Calling(k, registry, force), world, o, d, ok)
    requires world.provider.Granted? && k in Configured(c)
    requires var current := Configured(c)[k];
             current.accessKeyID != registry.accessKeyID || current.accessKeySecret != registry.accessKeySecret
    ensures ok && d == c.(force := c.force[k := (if k in c.force then c.force[k] else 0) + 1],
                          queue := c.queue[k := c.queue[k].(dirty := true)])
  {
    AfterCall(c, k, registry, force, world, o, d, ok);
    RotationRuns(c, k, world, o);
    OneOutcome(c, RotatedMark(k), world, o, d, ok,
               c.(force := c.force[k := ForceRevision(c, k) + 1], queue := c.queue[k := TicketOf(c, k).Add()]), true);
  }

  /** A refusal changes nothing. */
  lemma NoAnswer(c: Core, k: RegistryKey, registry: RegistryConfig, force: nat, world: World, o: Options, d: Core, ok: bool)
    requires Tidy(c, k) && Runs1(c, Calling(k, registry, force), world, o, d, ok)
    requires world.provider.Refused?
    ensures !ok && d == c
  {
    hide Runs1;
    RunsNot(c, k, false, world, o);
    CallingRuns(c, k, registry, force, world, o, c, false);
    OneOutcome(c, Calling(k, registry, force), world, o, d, ok, c, false);
  }

  /**
   A token is taken exactly if it has a username and a password and expires after the refresh
   window has begun: then it is stored for the registry as configured now, the force revision
   it was acquired under is settled, and the entry is fanned out. Otherwise nothing changes.
   */
  lemma AnswerIsTaken(c: Core, k: RegistryKey, registry: RegistryConfig, force: nat, world: World, o: Options, d: Core, ok: bool)
    requires Tidy(c, k) && Runs1(c, Calling(k, registry, force), world, o, d, ok)
    requires world.provider.Granted? && k in Configured(c) && Configured(c)[k].Key() == k
    requires var current := Configured(c)[k];
             current.accessKeyID == registry.accessKeyID && current.accessKeySecret == registry.accessKeySecret
    ensures var token, r := world.provider.token, c.nextRevision + 1;
            if token.username != "" && token.password != "" && token.expiresAt > world.granted + o.refreshBefore then
              var credential := Credential(token.username, token.password, world.granted, token.expiresAt);
              var entry := Entry(credential, r, HashOf(k.regionID, k.instanceID, registry.accessKeyID, registry.accessKeySecret));
              FansOut(c.(store := c.store[k := entry], nextRevision := r,
                         force := if force == (if k in c.force then c.force[k] else 0) then c.force - {k} else c.force),
                      k, r, world.scheduled + (token.expiresAt - o.refreshBefore - world.granted), world.publisher.Granted?, d, ok)
            else
              !ok && d == c
  {
    hide Runs1;
    AfterCall(c, k, registry, force, world, o, d, ok);
    var current, token := Configured(c)[k], world.provider.token;
    if ValidToken(token, world.granted, o.refreshBefore) {
      AfterCheck(c, current, force, token, world, o, d, ok);
      DeliveryFansOut(Stored(c, current, force, token, world.granted), k, InstalledEntry(c, current, token, world.granted),
                      world.granted, world, o, d, ok);
    } else {
      RunsNot(c, k, false, world, o);
      CheckedRuns(c, k, current, force, token, world, o, c, false);
      OneOutcome(c, Checked(k, current, force, token), world, o, d, ok, c, false);
    }
  }

  /** Where the second look at the configuration leads. */
  lemma AfterCall(c: Core, k: RegistryKey, registry: RegistryConfig, force: nat, world: World, o: Options, d: Core, ok: bool)
    requires Tidy(c, k) && Runs1(c, Calling(k, registry, force), world, o, d, ok) && world.provider.Granted?
    ensures Runs1(c, (if k !in Configured(c) then DropStored(k)
                      else if !SameAuthentication(registry, Configured(c)[k]) then RotatedMark(k)
                      else Checked(k, Configured(c)[k], force, world.provider.token)), world, o, d, ok)
  {
    hide Runs1;
    WriteSame(c, k, Calling(k, registry, force));
    RunsPast(c, Calling(k, registry, force), world, o, c, d, ok);
    WriteSame(c, k, Called(k, registry, force, world.provider.token));
    RunsPast(c, Called(k, registry, force, world.provider.token), world, o, c, d, ok);
  }

  lemma PastCheck(c: Core, k: RegistryKey, registry: RegistryConfig, force: nat, token: Token, world: World, o: Options, d: Core, ok: bool)
    requires Tidy(c, k) && ValidToken(token, world.granted, o.refreshBefore)
    requires Runs1(c, Checked(k, registry, force, token), world, o, d, ok)
    ensures Runs1(c, Validated(k, registry, force, token, world.granted), world, o, d, ok)
  {
    hide Runs1;
    WriteSame(c, k, Checked(k, registry, force, token));
    RunsPast(c, Checked(k, registry, force, token), world, o, c, d, ok);
  }

  lemma ActInstalls(c: Core, k: RegistryKey, registry: RegistryConfig, force: nat, token: Token, at: Time, entry: Entry, world: World, o: Options)
    requires entry == InstalledEntry(c, registry, token, at)
    ensures Act1(TurnAt(c, Validated(k, registry, force, token, at)), world, o) ==
            Turn(Installed(k, entry, force, at), CellOf(c, k).(stored := Some(entry)), c.nextRevision + 1)
  {
    hide CellOf;
  }

  lemma PastInstallation(c: Core, k: RegistryKey, registry: RegistryConfig, force: nat, token: Token, at: Time, entry: Entry,
                         world: World, o: Options, d: Core, ok: bool)
    requires Tidy(c, k) && entry == InstalledEntry(c, registry, token, at)
    requires Runs1(c, Validated(k, registry, force, token, at), world, o, d, ok)
    ensures Runs1(c.(store := c.store[k := entry], nextRevision := c.nextRevision + 1), Installed(k, entry, force, at), world, o, d, ok)
  {
    ActInstalls(c, k, registry, force, token, at, entry, world, o);
    hide Runs1, Tidy, Act1, TurnAt, Write, InstalledEntry;
    WriteStored(c, k, Installed(k, entry, force, at), Some(entry), c.nextRevision + 1);
    RunsPast(c, Validated(k, registry, force, token, at), world, o,
             c.(store := c.store[k := entry], nextRevision := c.nextRevision + 1), d, ok);
  }

  lemma PastSettlement(c: Core, k: RegistryKey, entry: Entry, force: nat, at: Time, world: World, o: Options, d: Core, ok: bool)
    requires Tidy(c, k) && Runs1(c, Installed(k, entry, force, at), world, o, d, ok)
    ensures Runs1(c.(force := if ForceRevision(c, k) == force then c.force - {k} else c.force), Publishing(k, entry, at), world, o, d, ok)
  {
    hide Runs1, Tidy;
    if ForceRevision(c, k) == force {
      WriteForce(c, k, Publishing(k, entry, at), 0);
    } else {
      WriteSame(c, k, Installed(k, entry, force, at));
    }
    RunsPast(c, Installed(k, entry, force, at), world, o,
             c.(force := if ForceRevision(c, k) == force then c.force - {k} else c.force), d, ok);
  }

  /** A valid token is stored, its force revision settled, and what remains is to deliver it. */
  lemma AfterCheck(c: Core, registry: RegistryConfig, force: nat, token: Token, world: World, o: Options, d: Core, ok: bool)
    requires var k := registry.Key(); Tidy(c, k) && Runs1(c, Checked(k, registry, force, token), world, o, d, ok)
    requires ValidToken(token, world.granted, o.refreshBefore)
    ensures var b := Stored(c, registry, force, token, world.granted);
            && Tidy(b, registry.Key())
            && Runs1(b, Publishing(registry.Key(), InstalledEntry(c, registry, token, world.granted), world.granted), world, o, d, ok)
  {
    hide Runs1, ValidToken;
    var k, at, entry := registry.Key(), world.granted, InstalledEntry(c, registry, token, world.granted);
    PastCheck(c, k, registry, force, token, world, o, d, ok);
    PastInstallation(c, k, registry, force, token, at, entry, world, o, d, ok);
    PastSettlement(c.(store := c.store[k := entry], nextRevision := c.nextRevision + 1), k, entry, force, at, world, o, d, ok);
  }

  // A whole turn

  /** A key that is not configured leaves nothing behind. */
  lemma RefreshOfUnconfigured(c: Core, k: RegistryKey, world: World, o: Options, d: Core, ok: bool)
    requires Tidy(c, k) && Runs1(c, Entered(k), world, o, d, ok) && k !in Configured(c)
    ensures ok && d == c.(store := c.store - {k}, published := c.published - {k}, force := c.force - {k})
  {
    WriteSame(c, k, Entered(k));
    RunsPast(c, Entered(k), world, o, c, d, ok);
    Dropped(c, k, world, o, d, ok);
  }

  /** The stored entry is of the registry's AK/SK, nothing forces a refresh, and its window has not begun. */
  predicate MayStay(c: Core, k: RegistryKey, now: Time, refreshBefore: Time)
    requires k in Configured(c)
  {
    && k in c.store && k !in c.force
    && c.store[k].authenticationHash == HashOf(k.regionID, k.instanceID, Configured(c)[k].accessKeyID, Configured(c)[k].accessKeySecret)
    && c.store[k].credential.expiresAt > now + refreshBefore
  }

  /** An entry that may stay is fanned out again if it has to be, and timed; the provider is not asked. */
  lemma RefreshKeeps(c: Core, k: RegistryKey, world: World, o: Options, d: Core, ok: bool)
    requires Tidy(c, k) && Runs1(c, Entered(k), world, o, d, ok) && k in Configured(c) && Configured(c)[k].Key() == k
    requires MayStay(c, k, world.entered, o.refreshBefore) && c.store[k].revision > 0
    ensures FansOut(c, k, c.store[k].revision, world.scheduled + (c.store[k].credential.expiresAt - o.refreshBefore - world.entered),
                    world.publisher.Granted?, d, ok)
  {
    LooksAtStore(c, k, world, o, d, ok);
    DeliveryFansOut(c, k, c.store[k], world.entered, world, o, d, ok);
  }

  lemma LooksAtStore(c: Core, k: RegistryKey, world: World, o: Options, d: Core, ok: bool)
    requires Tidy(c, k) && Runs1(c, Entered(k), world, o, d, ok) && k in Configured(c) && Configured(c)[k].Key() == k
    ensures Runs1(c, (if MayStay(c, k, world.entered, o.refreshBefore) then Publishing(k, c.store[k], world.entered)
                      else Calling(k, Configured(c)[k], ForceRevision(c, k))), world, o, d, ok)
  {
    hide Runs1;
    var r, at, force := Configured(c)[k], world.entered, ForceRevision(c, k);
    WriteSame(c, k, Entered(k));
    RunsPast(c, Entered(k), world, o, c, d, ok);
    WriteSame(c, k, Loaded(k, r));
    RunsPast(c, Loaded(k, r), world, o, c, d, ok);
    WriteSame(c, k, Clocked(k, r, at));
    RunsPast(c, Clocked(k, r, at), world, o, c, d, ok);
    WriteSame(c, k, Forced(k, r, at, force));
    RunsPast(c, Forced(k, r, at, force), world, o, c, d, ok);
  }

  /**
   The token is refreshed: without an entry that may stay, a granted token with username and
   password that expires after the refresh window has begun is what the key has afterwards,
   stored for the configured AK/SK under a new revision, with no refresh forced any more; with
   the fan-out it is marked and timed, and without it the turn fails. On any other answer the
   turn fails and changes nothing.
   */
  lemma RefreshTakesToken(c: Core, k: RegistryKey, world: World, o: Options, d: Core, ok: bool)
    requires Tidy(c, k) && Runs1(c, Entered(k), world, o, d, ok) && k in Configured(c) && Configured(c)[k].Key() == k
    requires !(&& k in c.store && k !in c.force
               && c.store[k].authenticationHash ==
                    HashOf(k.regionID, k.instanceID, Configured(c)[k].accessKeyID, Configured(c)[k].accessKeySecret)
               && c.store[k].credential.expiresAt > world.entered + o.refreshBefore)
    ensures match world.provider
            case Refused => !ok && d == c
            case Granted(Token(username, password, expiresAt)) =>
              if username == "" || password == "" || expiresAt <= world.granted + o.refreshBefore then !ok && d == c
              else
                && k in d.store && d.store == c.store[k := d.store[k]]
                && d.store[k].credential == Credential(username, password, world.granted, expiresAt)
                && d.store[k].authenticationHash ==
                     HashOf(k.regionID, k.instanceID, Configured(c)[k].accessKeyID, Configured(c)[k].accessKeySecret)
                && d.store[k].revision == c.nextRevision + 1 == d.nextRevision && d.force == c.force - {k}
                && (world.publisher.Granted? ==> ok && d.published == c.published[k := c.nextRevision + 1])
                && FansOut(c.(store := d.store, nextRevision := d.nextRevision, force := d.force), k, c.nextRevision + 1,
                           world.scheduled + (expiresAt - o.refreshBefore - world.granted), world.publisher.Granted?, d, ok)
  {
    hide Runs1;
    var r, force := Configured(c)[k], ForceRevision(c, k);
    LooksAtStore(c, k, world, o, d, ok);
    if world.provider.Refused? {
      NoAnswer(c, k, r, force, world, o, d, ok);
    } else {
      AnswerIsTaken(c, k, r, force, world, o, d, ok);
    }
  }

  // A reconciliation

  /** What `k` has in both states is the same, apart from its ticket. */
  predicate Untouched(c: Core, d: Core, k: RegistryKey) {
    Find(d.store, k) == Find(c.store, k) && Find(d.published, k) == Find(c.published, k) && Find(d.force, k) == Find(c.force, k)
  }

  /**
   A reconciliation takes the configuration over, and for each key: a removed one loses entry,
   marks and failures, keeping its place in the queue; a new one is made ready; one with another
   AK/SK is forced once more and made ready; any other is left as it is.
   */
  lemma ReconciledKey(c: Core, k: RegistryKey)
    requires c.config.Some?
    ensures var d, r := SchedulerModel.ReconcileConfiguration(c), c.config.value;
            var ready := if k in c.queue then c.queue[k].(dirty := true) else Ticket(true, false, None, 0);
            && d.config == c.config && d.known == r && d.nextRevision == c.nextRevision
            && (if k in c.known && k !in r then
                  && k !in d.store && k !in d.published && k !in d.force
                  && Find(d.queue, k) == if k in c.queue then Some(c.queue[k].(failures := 0)) else None
                else if k !in c.known && k in r then
                  Untouched(c, d, k) && Find(d.queue, k) == Some(ready)
                else if k in r && (r[k].accessKeyID != c.known[k].accessKeyID || r[k].accessKeySecret != c.known[k].accessKeySecret) then
                  && Untouched(c.(force := d.force), d, k)
                  && Find(d.force, k) == Some(if k in c.force then c.force[k] + 1 else 1)
                  && Find(d.queue, k) == Some(ready)
                else
                  Untouched(c, d, k) && Find(d.queue, k) == Find(c.queue, k))
  {
    ReconciledPlace(c, k);
    ReconciledRecords(c, k);
    hide SchedulerModel.ReconcileConfiguration;
  }

  /** What becomes of entry, marks and forced revisions of the key. */
  lemma ReconciledRecords(c: Core, k: RegistryKey)
    requires c.config.Some?
    ensures var d, r := SchedulerModel.ReconcileConfiguration(c), c.config.value;
            var removed := k in c.known && k !in r;
            && d.config == c.config && d.known == r && d.nextRevision == c.nextRevision
            && Find(d.store, k) == (if removed then None else Find(c.store, k))
            && Find(d.published, k) == (if removed then None else Find(c.published, k))
            && Find(d.force, k) == (if removed then None
                                    else if k in r && k in c.known && !SameAuthentication(c.known[k], r[k])
                                    then Some(if k in c.force then c.force[k] + 1 else 1)
                                    else Find(c.force, k))
  {
    hide ReconciledTicket;
    assert k in RemovedKeys(c) <==> k in c.known && k !in Configured(c);
    assert k in RotatedKeys(c) <==> k in Configured(c) && k in c.known && !SameAuthentication(c.known[k], Configured(c)[k]);
  }

  /** What becomes of the key's place in the queue. */
  lemma ReconciledPlace(c: Core, k: RegistryKey)
    requires c.config.Some?
    ensures var r, ready := c.config.value, if k in c.queue then c.queue[k].(dirty := true) else Ticket(true, false, None, 0);
            Find(SchedulerModel.ReconcileConfiguration(c).queue, k) ==
            if k in r && (k !in c.known || !SameAuthentication(c.known[k], r[k])) then Some(ready)
            else if k !in c.queue then None
            else Some(if k in c.known && k !in r then c.queue[k].(failures := 0) else c.queue[k])
  {
    assert k in RemovedKeys(c) <==> k in c.known && k !in Configured(c);
    assert k in AddedKeys(c) <==> k in Configured(c) && k !in c.known;
    assert k in RotatedKeys(c) <==> k in Configured(c) && k in c.known && !SameAuthentication(c.known[k], Configured(c)[k]);
  }
}
