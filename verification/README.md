# A verified model of the registry-secret controller

The controller keeps one image pull Secret in every selected namespace, filled with short-lived
registry credentials, and adds it to the selected ServiceAccounts. This project models how it
converges and proves what that rests on:

* **The credential scheduler.** `SchedulerModel` is the scheduler as a system of interleaved steps:
  the configuration writer, the main loop, any number of workers that stop between any two of the
  21 points of `refresh` and of their round around it, the delay heap and the clock. Invariants are stated key by
  key and carried over every run (`SchedulerBase`, `SchedulerSafety`, `SchedulerPromises`,
  `SchedulerEconomy`). Two promises need a hypothesis on the configurations between two reconciliations;
  `SchedulerLosses` says exactly which configurations can break them, and `SchedulerTraces` that the losses last.
  `Scheduler` is the program's own form, a class over the two stores: its `ReconcileConfiguration` is
  the system's step of that name, `Refresh` is exactly a worker's atomic actions in a row, and
  `SchedulerTurns` makes a worker's whole round a run of the system. `SchedulerOutcomes` tells what a
  turn and a reconciliation come to in the fields of stores and queue: which tokens are taken, and what
  is stored, marked, timed and dropped for them.
* **The Secret.** `Builder` says domain by domain and registry by registry what the payload is, and
  `BuildLoops.Build` computes it with the program's loops. `Inspection` is the classification of a
  Secret, `Syncer` one reconciliation against an API server, `SyncerRuns` whole runs with stale caches,
  late and lost requests and third-party edits, and `SyncerOrders` convergence over all orders in which
  the program may walk its maps. `Versions` is the versioned object behind `ApiServer` and the ServiceAccounts.
  `SecretRecords` tells payload, retention, complaints and status in the raw records of the Secret.
  `Metrics` is the counting loop over inspections.
  `EndToEnd` joins the scheduler's store to the Secret.
* **Configuration.** `Texts`, `ConfigParser`, `RegistryMerge`, `RegistryParser` and `Parser` are the
  parser, whose results meet the preconditions of everything above, and `ParserFields` says in the
  characters written what is accepted and what it means. `ConfigStore`, `KubeRuntime`,
  `ReconcilerModel` and `ConfigReconciler` keep the last good configuration and fan it out, and
  `ConfiguredScheduler` runs them together with the scheduler.
* **ServiceAccounts.** `References` and `ServiceAccounts` are the reference list and its patches under
  optimistic locking.

JSON, SHA-256 and base64 (section 4 of RFC 4648) are injective constructors (`SecretTypes`,
`CredentialTypes`); a document that is not the program's own carries what the decoder makes of it,
record by record. The YAML decoder and the number parsers are parameters of `Parser.Parse`. Provider
and publisher answers, clock readings, cached reads and publication outcomes are parameters too.

Three findings:

* The comment at internal/credential/scheduler.go:156-157 says that no semantic update can be lost
  because whole snapshots are compared. The model follows the code: no *difference* between snapshots is
  lost (`CoalescingLosesNoChange`), but what happens between two comparisons can be: a registry that is absent
  and then configured again can be left without work, and one that is given another AK/SK and then its
  previous one back can be left with the credential of the other. Nothing else between two comparisons can do
  either (`RefreshIsLostExactly`, `RotationIsLostExactly`).
* Identifiers may contain "/", so two registries may share their name in the state document
  (`NamesMayCollide`). State and auth go together exactly for registries without such a collision
  (`StateGoesWithAuthExactly`).
* With such a collision the state document depends on the order of Go's map iteration, and a namespace that
  was just updated may be updated again by the next reconciliation; without one it settles after the first (`SettlesExactly`).

## Model

| member | source | states |
|---|---|---|
| SchedulerSafety.OneWorkerPerKey | internal/credential/scheduler.go:227-254 | In every reachable state at most one worker is inside `refresh` for a key. |
| SchedulerSafety.StoredIsScheduled | internal/credential/scheduler.go:191-330 | With nothing assumed of configuration changes, a key with a stored entry always has outstanding queue work, so it is still due for cleanup after its registry was removed. |
| SchedulerSafety.StoredTokensBelong | internal/credential/scheduler.go:281-316 | An entry that matches a registry is what the provider granted to a call with exactly that key and AK/SK, and it outlives the refresh window. |
| SchedulerSafety.RevisionsAreUnique | internal/credential/store.go:22-37 | Revisions name installs: strictly increasing, never shared by two stored entries. |
| SchedulerSafety.PublicationIsNotSuppressed | internal/credential/scheduler.go:332-368 | A published revision equals an entry's only if a fan-out begun after that entry was installed completed; every stored entry is published or has urgent work, despite concurrent forgetting. |
| SchedulerSafety.CoalescingLosesNoChange | internal/credential/scheduler.go:156-189 | While the registries in force differ from those last reconciled, another reconciliation is ahead. |
| SchedulerSafety.RunKeepsBase | internal/credential/scheduler.go:165-330 | The invariant behind these survives every step of every run. |
| SchedulerSafety.ReconcileCells | internal/credential/scheduler.go:191-225 | Reconciling acts on each key by itself, whatever the order of the program's maps. |
| SchedulerPromises.RotationIsNotLost | internal/credential/scheduler.go:191-330 | If a key was never given back the AK/SK last reconciled after it was given another one the main loop had not seen, a stored entry of a superseded AK/SK is never left to its refresh timer: the key is ready, dirty, held, owed or on a retry within the cap. Removals and re-additions with the same AK/SK, changes to yet another AK/SK, and other keys are free. |
| SchedulerPromises.RefreshIsNotLost | internal/credential/scheduler.go:191-330 | If a key was never re-added before the main loop had seen its removal, it has outstanding work whenever it is configured and known, over all interleavings. |
| SchedulerLosses.RefreshIsLostExactly | internal/credential/scheduler.go:191-263 | From every reachable state where the promise is kept, a series of configurations with any work around them and no reconciliation can leave a key configured, known and without work if and only if the main loop knows the key and one of the configurations lacks it while a later one has it. |
| SchedulerLosses.RotationIsLostExactly | internal/credential/scheduler.go:198-330 | From every reachable state where the promise is kept, such a series can leave an entry of another AK/SK with only its far timer if and only if one of the configurations gives the key another AK/SK than the main loop knows while a later one gives the known one back, and, unless spurious wake-ups are allowed, the key still has work left. |
| SchedulerPromises.DeadlineIsKept | internal/credential/scheduler.go:265-330 | Timers are due by the start of the refresh window (plus how long a refresh takes) or by the retry cap after the last failure. |
| SchedulerPromises.StepKeeps | internal/credential/scheduler.go:191-330 | Each of the three promises to a key survives every step its hypothesis allows; for a rotation, from the moment the key strays until the main loop sees it, it is enough that the key does not come back. |
| SchedulerEconomy.NoRedundantAcquisition | internal/credential/scheduler.go:265-277 | While a key's entry matches, nothing forces a refresh and its window has not begun, no run of failures, wake-ups and changes elsewhere calls the provider for it. |
| SchedulerTraces.RefreshCanBeLost | internal/credential/scheduler.go:156-263 | From the start, for every registry and number of workers, a removal and re-addition can end with everything announced and reconciled and the key without work. |
| SchedulerTraces.RotationCanBeLost | internal/credential/scheduler.go:156-330 | From the start, for every registry and other AK/SK, a rotation and back, with or without a removal in between, can end with everything announced and reconciled and the other pair's credential left to its far timer. |
| WorkQueue.BackoffBounds | internal/credential/scheduler.go:125-128 | The first retry waits the base delay, each further failure doubles it, up to the cap. |
| Scheduler.Scheduler.ReconcileConfiguration | internal/credential/scheduler.go:191-225 | The two loops over snapshots leave exactly the state of the system's reconcile step. |
| Scheduler.Scheduler.ScheduleChanges | internal/credential/scheduler.go:198-210 | New keys are queued, rotated ones marked and queued, in any order. |
| Scheduler.Scheduler.DropRemoved | internal/credential/scheduler.go:212-222 | Store, published and force revisions and failures of removed keys are dropped, and nothing else. |
| Scheduler.Scheduler.Refresh | internal/credential/scheduler.go:256-330 | Run without interference it is exactly the worker's atomic actions from entry to return. |
| Scheduler.Scheduler.PublishCredential | internal/credential/scheduler.go:332-341 | Succeeds at once for a revision already fanned out; otherwise marks it only after a successful fan-out. |
| Scheduler.Scheduler.RunWorkerOnce | internal/credential/scheduler.go:227-254 | After `Done`, a success leaves no failures; a failure counts once more and is due after the backoff of the failures before it, or at the earlier timer that stands; a key made dirty meanwhile stays dirty. |
| SchedulerOutcomes.RefreshTakesToken | internal/credential/scheduler.go:256-330 | Unless the stored entry may stay, a granted token with username and password that expires after the refresh window has begun is what the key has afterwards, under a new revision, for the configured AK/SK and with nothing forced any more; with the fan-out it is marked and timed. Any other answer fails and changes nothing. |
| SchedulerOutcomes.RefreshKeeps | internal/credential/scheduler.go:265-277 | An entry of the configured AK/SK that nothing forces and whose window has not begun is fanned out if its revision was not, and timed to its window; nothing else changes. |
| SchedulerOutcomes.RefreshOfUnconfigured | internal/credential/scheduler.go:257-263 | A key that is not configured leaves nothing behind. |
| SchedulerOutcomes.AnswerIsTaken | internal/credential/scheduler.go:279-329 | Whatever changed during the call: a good token is stored for the registry as configured then, and settles only the force revision it was acquired under. |
| SchedulerOutcomes.AnswerForRotated | internal/credential/scheduler.go:298-304 | An answer to another AK/SK than configured is thrown away, and the key is forced and ready again. |
| SchedulerOutcomes.AnswerForRemoved | internal/credential/scheduler.go:291-297 | An answer for a registry that is gone is thrown away with all the key left behind. |
| SchedulerOutcomes.ReconciledKey | internal/credential/scheduler.go:191-225 | Key by key: a removed one loses entry, marks and failures, a new one is made ready, one with another AK/SK is forced once more and made ready, any other stays as it is. |
| SchedulerTurns.TurnsAreRuns | internal/credential/scheduler.go:256-330 | A worker's uninterrupted turn, with time passing between its clock readings, is a run of the system in which only that worker and the clock move. |
| SchedulerTurns.RoundsAreRuns | internal/credential/scheduler.go:227-254 | What `RunWorkerOnce` promises, the system reaches: `Get`, the turn, `Done`, and the queue's answer. |
| SchedulerTurns.WorkedIsTidy | internal/credential/scheduler.go:352-394 | For a key that is ready or held, every reachable state meets what `Refresh` requires. |
| CredentialStore.Store.Apply | internal/credential/store.go:22-37 | Replaces one key's entry under a fresh revision. |
| CredentialStore.Store.Snapshot | internal/credential/store.go:82-91 | The copy loop copies everything. |
| CredentialStore.MatchesIdentityAndKeys | internal/credential/types.go:52-54 | An entry matches exactly the registries of the same identity and AK/SK, whatever their domains. |
| BuildLoops.Build | internal/registrysecret/builder.go:68-117 | The auth records are the same for every order of the maps, the state records are those of the walk taken, with injective names there is one payload, and the retention problems are exactly the described ones. |
| BuildLoops.RetainPending | internal/registrysecret/builder.go:186-234 | One pending registry keeps its self-consistent records if its state is complete, and complains of the others. |
| BuildLoops.ParseExisting | internal/registrysecret/builder.go:140-184 | Records are decoded independently; a malformed one is dropped and reported. |
| BuilderProperties.RenderedPerRegistry | internal/registrysecret/builder.go:79-138 | The payload, domain by domain and registry by registry, independent of map order. |
| BuilderProperties.AuthsAreBacked | internal/registrysecret/builder.go:79-102 | Each domain with auth belongs to exactly one registry and carries its fresh credential, or a self-consistent one backed by complete state. |
| BuilderProperties.StateGoesWithAuthExactly | internal/registrysecret/builder.go:119-138 | For all credentials and Secrets a registry has state if and only if one of its domains has auth; this holds exactly when no two registries share a name. |
| BuilderProperties.CollisionBreaksState | internal/config/types.go:22-24 | With a shared name, a registry without any auth appears with state. |
| SecretRecords.AvailableIsShown | internal/registrysecret/builder.go:119-138 | Whatever the walk, each domain of an available registry shows username, password and the base64 of both of its credential, and its state the two times and the hash of the nine inputs. |
| SecretRecords.PendingIsRetained | internal/registrysecret/builder.go:186-234 | A pending registry retains for a domain exactly the self-consistent record of the Secret, provided the Secret holds complete state for it. |
| SecretRecords.PendingKeepsState | internal/registrysecret/builder.go:230-232 | With auth retained it keeps its state record as it was, and otherwise it has none. |
| SecretRecords.ComplainsExactly | internal/registrysecret/builder.go:140-234 | Retention complains exactly of a Secret with either document, while a registry is pending, unless both documents decode record by record and no pending registry finds auth without state, incomplete state or inconsistent auth. |
| BuilderFixpoint.BuildIsFixpoint | internal/registrysecret/builder.go:68-234 | Building from a Secret that holds a built payload gives the same payload and no problem, whatever the first build started from. |
| BuilderFixpoint.DamageIsContained | internal/registrysecret/builder.go:146-182 | Damage to other registries' records never changes what one registry gets. |
| Inspection.RegistryStatus | internal/registrysecret/inspection.go:44-97 | The loop with its early returns classifies as the loop-free description does. |
| Inspection.InspectionAgrees | internal/registrysecret/inspection.go:44-97 | A written Secret is never in conflict, invalid only for a credential that cannot be shown, synced exactly for a matching unexpired one, and a pending registry is pending or expired. |
| SecretRecords.UnreadableStatus | internal/registrysecret/inspection.go:23-56 | A foreign Secret, and no other, is a conflict; an absent or vanishing one is pending; one of another type or without both documents is invalid. |
| SecretRecords.ReadableStatus | internal/registrysecret/inspection.go:57-97 | For a readable Secret each status, and the expiration reported, exactly from the records of the registry. |
| Syncer.Syncer.SyncNamespaceSecret | internal/registrysecret/syncer.go:64-159 | Sends exactly the request decided on the observed Secret and the payload built, fails without effect if a read fails, reports errors accordingly, and raises an ownership event once per conflicting object. |
| Syncer.Syncer.DeleteObserved | internal/registrysecret/syncer.go:167-175 | Deletes the observed version or nothing. |
| SyncerRuns.OwnershipIsSafe | internal/registrysecret/syncer.go:79-220 | In every run with stale reads, late requests and third-party edits, no update or deletion takes effect on a version that is not managed; every Secret written has auth and holds exactly the payload decided on; an update leaves identity, deletion mark and every other label and annotation as observed; and no deletion in scope comes with a retention error. |
| SyncerRuns.OneSyncIsEnough | internal/registrysecret/syncer.go:86-159 | With injective names and nothing in between, a reconciliation sends at most one request, it is accepted, and the next one sends none. |
| SyncerOrders.SettlesExactly | internal/registrysecret/builder.go:79-138 | Over all walks of the maps, the second of two undisturbed reconciliations always sends nothing if and only if no two registries share a name. |
| SyncerRuns.AfterOneSync | internal/registrysecret/syncer.go:86-220 | What is live afterwards in every case: scope, ownership, empty payload, retention error; a Secret written has the payload as its only data, and what others put on it is still there. |
| SyncerRuns.SuccessMeansDone | internal/registrysecret/syncer.go:98-158 | An error is reported exactly for a refused request, unless it was to delete what is gone, or a retention error in scope without conflict; success there means the payload is held, or nothing is left if it has no auth. |
| SyncerRuns.EveryChangeIsRecorded | internal/registrysecret/syncer.go:98-175 | The object changes only by a third party or by a request recorded as taking effect. |
| SyncerRuns.SyncedAfterwards | internal/registrysecret/syncer.go:123-158 | Afterwards a registry is synced exactly if its credential is available, can be shown and has not expired. |
| EndToEnd.SecretsShowGrantedTokens | internal/registrysecret/builder.go:79-87 | Whatever the scheduler did, auth shown as current is username, password and their base64 of a token granted to a call with the configured AK/SK. |
| EndToEnd.FannedOutTokensArrive | internal/credential/scheduler.go:310-341 | Once a credential was installed, as it is before its fan-out begins, every reconciliation decided later wants that token or a later one of the key in the Secret, while the registry keeps its AK/SK. |
| EndToEnd.PublishedWasInstalled | internal/credential/scheduler.go:332-362 | A revision marked published was installed for that key before a fan-out that completed. |
| EndToEnd.StoredIsPresentable | internal/credential/scheduler.go:306-315 | Every stored credential that matches can be shown. |
| EndToEnd.ReconciledIsSound | internal/registrysecret/inspection.go:44-97 | With the scheduler's store, after a reconciliation no configured registry is invalid, and synced means matching and unexpired. |
| Metrics.Count | internal/observability/metrics.go:145-170 | Counts and earliest expirations per registry are those over all live namespaces in scope. |
| Metrics.EveryTargetIsCountedOnce | internal/observability/metrics.go:157-170 | The five states of a registry add up to the number of target namespaces. |
| Metrics.TallyIsCount | internal/observability/metrics.go:157-170 | A tally is the number of live namespaces in scope whose Secret, or its absence, puts the registry in that state. |
| Metrics.OldestIsEarliest | internal/observability/metrics.go:166-168 | The expiration reported is one observed, and no observed one is earlier. |
| Parser.Parse | internal/config/parser.go:14-66 | Exactly the acceptable ConfigMaps are accepted, and for what they mean. |
| Parser.ParseRuntime | internal/config/runtime.go:35-54 | Numbers are valid or absent, and zero means absent. |
| Parser.MeaningIsUnique | internal/config/parser.go:14-66 | A ConfigMap means one snapshot, whatever the order of the program's maps. |
| Parser.AcceptedIsUsable | internal/config/parser.go:136-162 | An accepted snapshot has well-formed registries in normal form, sorted lists and valid tuning. |
| Parser.ScopeIsAsWritten | internal/config/types.go:84-86 | A namespace is in scope exactly if it, or the wildcard, is written as selected and it is not written as excluded. |
| ParserFields.AcceptedExactly | internal/config/parser.go:14-66 | A ConfigMap is accepted exactly if its fields are known, the names written are valid, a wildcard stands alone, the registries decode to entries that are each well-formed and do not contradict each other, and the numbers are valid. |
| ParserFields.SelectorsAsWritten | internal/config/parser.go:23-45 | A ServiceAccount, or a namespace, is selected exactly if it or the wildcard is written in its own field, and a namespace if it is not written as excluded. |
| ParserFields.RegistriesAsWritten | internal/config/parser.go:136-162 | One registry for each key written, with the AK/SK of its entries and exactly the domains of all of them. |
| ParserFields.NumbersAsWritten | internal/config/runtime.go:35-54 | Rate, burst and workers are the numbers of their own fields, or zero. |
| ParserFields.NamesAreWritten | internal/config/parser.go:106-119 | The names of a list are the texts between its commas, space around them taken away. |
| ParserFields.DomainExactly | internal/config/parser.go:191-206 | Texts mean a valid domain exactly if they spell it up to space around it, case, and one dot at its end. |
| ConfigParser.ParseNameList | internal/config/parser.go:100-121 | All names are acceptable, or the first that is not is reported; the result is sorted without duplicates. |
| ConfigParser.ParseNameSelector | internal/config/parser.go:68-91 | A wildcard stands alone and matches all. |
| ConfigParser.SelectorSelects | internal/config/parser.go:83-90 | A parsed selector matches exactly the names written. |
| ConfigParser.SelectorIsOrderIndependent | internal/config/parser.go:100-121 | Order and repetition of names make no difference. |
| ConfigParser.ParsedNamesParseBack | internal/config/parser.go:100-121 | A parsed list, written out, parses to itself. |
| ConfigParser.NormalizeRegistry | internal/config/parser.go:165-207 | Accepts exactly the entries with bare credentials and valid domains, gives their normal form, and explains a refusal truly. |
| ConfigParser.NormalizedIsNormal | internal/config/parser.go:165-207 | Normalising again changes nothing; domains are sorted and valid. |
| ConfigParser.SortUnique | internal/config/parser.go:209-221 | Collecting first occurrences and sorting gives the one sorted list of the strings. |
| RegistryMerge.MergeEntry | internal/config/parser.go:144-159 | The checks of one entry succeed exactly if it is compatible with all entries before, and the merge stays exact. |
| RegistryMerge.MergeIsUnique | internal/config/parser.go:136-162 | The set of entries determines the result. |
| RegistryParser.ParseRegistries | internal/config/parser.go:123-163 | Accepts exactly the non-empty lists of acceptable, compatible entries, and merges them by key. |
| RegistryParser.ParsingIsOrderIndependent | internal/config/parser.go:136-162 | Order and repetition of entries and of their domains make no difference. |
| RegistryParser.ParsedIsWellFormed | internal/config/parser.go:136-162 | Keys match, domains are non-empty, sorted, valid, and owned by one registry. |
| RegistryParser.ParsingIsIdempotent | internal/config/parser.go:123-163 | The registries of a result, listed in any order, parse to the same result. |
| RegistryParser.NamesMayCollide | internal/config/types.go:22-24 | An accepted list may give two keys of one name. |
| NameLists.ContainsSorted | internal/config/types.go:54-57 | Binary search on a sorted list is membership. |
| NameLists.CheckNamespace | internal/config/types.go:84-86 | The namespace gate as computed is the one the model uses. |
| Strings.AscendingIsUnique | internal/config/parser.go:219-220 | There is one sorted duplicate-free list of given strings. |
| ConfigStore.Store.Apply | internal/config/store.go:20-43 | An equivalent candidate changes nothing; otherwise the generation advances, and the result tells tuning from business changes. |
| KubeRuntime.Runtime.Apply | internal/kubeclient/runtime.go:81-106 | The rate follows, worker counts in force stay, an invalid configuration changes nothing. |
| KubeRuntime.Runtime.NewRuntime | internal/kubeclient/runtime.go:54-63 | Starts exactly with a valid fallback and a valid resolved configuration. |
| KubeRuntime.ResolvedExactly | internal/kubeclient/runtime.go:24-41 | On a valid fallback exactly the overrides the parser lets through are resolved; those present take effect and nothing else changes. |
| KubeRuntime.FallbackExactly | internal/kubeclient/runtime.go:54-57 | Without overrides exactly the settings with a representable positive rate and positive counts are resolved, unchanged. |
| ReconcilerModel.ParsedIsAccepted | internal/controller/configuration_reconciler.go:60-64 | On a valid fallback a parsed configuration is never rejected for its tuning, whatever came before. |
| ConfigReconciler.Reconciler.Reconcile | internal/controller/configuration_reconciler.go:38-117 | One reconciliation of store, runtime and fan-out is a step of the replica; a rejected version raises its event unless it was the one rejected last. |
| ReconcilerModel.LastKnownGood | internal/controller/configuration_reconciler.go:45-82 | After any sequence of observations the stored snapshot is the last accepted one, the generation counts semantic changes and notifications count business changes. |
| ReconcilerModel.LiveTuning | internal/kubeclient/runtime.go:81-106 | The tuning in force is that of the last accepted configuration over the fallback; worker counts are those of the startup. |
| ReconcilerModel.RateInForce | internal/kubeclient/runtime.go:24-41 | The rate in force, in numbers, is valid. |
| ReconcilerModel.RejectionsLeaveNoTrace | internal/controller/configuration_reconciler.go:45-76 | Path independence: without the rejected observations the outcome is the same. |
| ReconcilerModel.ValidityIsOfTheLastRead | internal/config/store.go:45-51 | The configuration counts as valid exactly if the ConfigMap, when last read, was accepted. |
| ReconcilerModel.FanoutIsNotLost | internal/controller/configuration_reconciler.go:79-116 | A fan-out is pending exactly if a business change has not been followed by a reconciliation completing both publications; otherwise what was last announced is what is in force. |
| ReconcilerModel.FanoutIsNotRepeated | internal/controller/configuration_reconciler.go:97-102 | A complete fan-out always announces a change not announced before. |
| ReconcilerModel.TuningIsNoNews | internal/config/types.go:76-82 | An accepted configuration that differs in tuning alone notifies nobody and begins no fan-out; one that differs in a selector, an exclusion or a registry notifies once, and its fan-out completes or is pending. |
| ReconcilerModel.RejectionIsOfTheLastRead | internal/controller/configuration_reconciler.go:47-77 | What is remembered as rejected is the version rejected, or the absence found, at the last read, and nothing after an acceptance. |
| ReconcilerModel.SilenceMeansDone | internal/controller/configuration_reconciler.go:97-116 | A failure is reported exactly if the ConfigMap cannot be read or a fan-out stays pending that was not given up for a missing or rejected ConfigMap or a cancellation. |
| ConfiguredScheduler.TogetherIsRun | internal/controller/configuration_reconciler.go:79-83 | Reconciliations and scheduler together are a run of the scheduler's system: a business change is the change of the configuration followed by one notification, anything else is neither. |
| ConfiguredScheduler.LastAcceptedIsKnownOrAhead | internal/credential/scheduler.go:156-189 | After any ConfigMaps and any run around them, the main loop knows the registries accepted last or another reconciliation is ahead; it was notified once per business change. |
| References.ReconcileReferences | internal/serviceaccount/syncer.go:88-109 | The loop gives the one promised list. |
| References.PromiseIsUnique | internal/serviceaccount/syncer.go:88-109 | Keeping the references of others in order and having the managed name once at its first position, or not at all, determines the list. |
| References.DesiredIsStable | internal/serviceaccount/syncer.go:88-109 | Reconciling the result again changes nothing. |
| References.EqualReferences | internal/serviceaccount/syncer.go:111-121 | Compares the lists. |
| ServiceAccounts.SyncServiceAccount | internal/serviceaccount/syncer.go:42-86 | Sends the decided patch, waits exactly if a Secret in scope is not ready, and fails exactly if a read it needs fails or the patch is refused. |
| ServiceAccounts.WaitsExactly | internal/serviceaccount/syncer.go:56-75 | In scope a reconciliation waits exactly for a Secret that is absent, or ours and being deleted, of another type or without Docker document; otherwise the name is there afterwards exactly if the Secret is ours. |
| ServiceAccounts.EveryCommitIsSafe | internal/serviceaccount/syncer.go:56-86 | Under optimistic locking, with stale reads and concurrent edits, every commit keeps everyone else's references and removes the managed name only out of scope or for a Secret that is not ours. |
| ServiceAccounts.ForeignReferencesSurvive | internal/serviceaccount/syncer.go:73-85 | Over a run only third parties change third parties' references. |
| ServiceAccounts.OneSyncIsEnough | internal/serviceaccount/syncer.go:73-85 | One undisturbed reconciliation leaves the promised list, and a second one does nothing. |

## Left out

- SchedulerPromises.DeadlineIsKept: `lag` bounds the time from a worker's clock reading to `AddAfter`; without a bound the program promises no due time.
- SchedulerSafety.RevisionsAreUnique: does not model wrap-around of 64-bit revisions, generations and force revisions, which are unbounded here.
- Scheduler.Scheduler.ReconcileConfiguration: one step of the system; workers do not run between two keys of its loops.
- WorkQueue.BackoffBounds: the ready list has no order and the channel in front of the delay heap no delay of its own.
- Inspection.InspectionAgrees: times are integers without zones; times outside the years 0 to 9999, which JSON cannot render, are not excluded.
- SyncerRuns.OneSyncIsEnough: the API server checks preconditions only; its validation (a Secret's type is immutable) and finalizers are not modelled.
- ConfigParser.NormalizeRegistry: lower-casing outside ASCII is modelled where the result can be accepted (U+0130 and U+212A), and otherwise as the identity; such domains are refused either way.
- BuildLoops.Build: a payload that cannot be marshalled does not occur, as encoders are total here.
- ConfigReconciler.Reconciler.Reconcile: requests for other objects are dropped before it; log lines are not modelled.
- Context cancellation and shutdown inside the scheduler, request timeouts, leader election and clocks that run backwards.
- Deep copies: snapshots are values, so that a reader never aliases the store.
- The token bucket of the business client, event handlers with their priority queues, Prometheus emission, Event recording, the ACR client, `cmd/`, charts and scripts: wiring or thin wrappers.
- Recovery of credentials from Secrets after a change of leader, which the documentation describes and the source does not implement.
