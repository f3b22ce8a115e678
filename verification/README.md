# Clusterpedia, verified models

Clusterpedia copies resources of many Kubernetes clusters into one storage and serves them again.
This project models the parts of it whose correctness is hard to see from the code and proves, for
all inputs, all interleavings or all reachable states, what they promise. `dafny verify dfyconfig.toml`
checks everything.

| file | part of the system |
|---|---|
| ShardOwnership, ShardHandover, ShardProgress | which of several managers synchronizes a cluster, whether a reassigned cluster arrives, and that a manager left alone gets its work done |
| StartHandshake | concurrent Start, Run and Close of a resource synchro |
| VersionInformer, EventQueue, SyncPipeline, ResourceSynchro | from informer deltas through the queue into storage |
| GroupStatus, SyncRefresh | what a cluster synchronizes: negotiation, status, clean-up |
| DiscoveryCache | what a synchronized cluster serves |
| ServedDiscovery | what the aggregated API serves for all clusters |
| DependentResources | informers for policies and lifecycles |
| WatchDelivery | watch events of the memory storage |
| SelectorSql, OwnerQuery, Paging | queries of the internal storage |

Objects that the program updates in place are classes whose methods are proved against functions or
predicates on values. Protocols between goroutines or processes are step systems on values, with runs
as sequences of states. Nothing outside the cited code is modelled: clocks, the network, the database
and the apiserver appear as parameters that may behave in any way the code allows for.

## Where the code does less than one might expect

Each of these is a lemma: a run in which the code falls short, or the exact condition under which it
does what it promises, and in most cases both.

- An informer that hides from a manager, by a relist that ends where it began, that its work was done for
  a while can leave a cluster unclaimed or unreleased (`ShardHandover.HiddenChangeIsMissed`); one that does
  not cannot.
- The internal storage answers success when it updates a row that does not exist, so the mirror of
  stored versions can claim a row that is not there (`SyncPipeline.SilentUpdateBreaksMirror`,
  `SyncPipeline.MirrorHoldsExactlyWhen`), and an addition folded into a pending delete can be lost
  (`SyncPipeline.FoldingKeepsResult`).
- A cache that Start rebuilds after the storage was stopped again keeps objects that are never stored
  (`SyncPipeline.LateStartDiverges`, `SyncPipeline.LateStartRun`).
- An informer that outlives a discard may pass events on that the next cache knows nothing of
  (`SyncPipeline.StaleCallDiverges`, `SyncPipeline.StaleCallRun`), and a delete among them swallows a later
  update (`SyncPipeline.SwallowedUpdateRun`).
- An event that cannot be converted, or a cancelled one, may end the queue without waking the informer
  (`SyncPipeline.StallsExactlyOn`, `SyncPipeline.StallRun`).
- Reput strands a key that has a newer event, and PopAll drops events of keys being processed
  (`EventQueue.ReputKeepsValid`, `EventQueue.EmptyingLosesPending`). Nothing in the repository calls either.
- A policy that gets another source and is removed leaves an entry behind that makes the event handler
  dereference nil (`DependentResources.StaleSourcePanics`).
- A label selector that selects nothing, and operators beyond the six common ones, select too much
  (`SelectorSql.SelectorOverselects`); quotes in JSON path keys are not escaped (`SelectorSql.PathRoundTrip`).
- A singular name that a resource no longer has may lead a lookup to the wrong resource
  (`DiscoveryCache.StaleNameMisleads`).
- A list without limit that matches nothing hands out the same continue token again and again
  (`Paging.StopsExactlyWhen`).
- A group of which the source knows no offered version has an entry for its cluster and none in the
  global list (`ServedDiscovery.RebuiltGroupsAreUnion`).

## Model

| member | source | states |
|---|---|---|
| ShardOwnership.OneSyncer | pkg/synchromanager/clustersynchro_manager.go:360-600 | in every state of every interleaving, a manager whose synchro runs is the live owner; two managers never run one at the same time and none runs two |
| ShardOwnership.OwnerTransitions | pkg/synchromanager/clustersynchro_manager.go:694-793 | the owner changes only by a status write that lands: from none to the writer while the spec names it, or from the writer to none while the spec names another shard and the writer's synchro is stopped; every landed status write is by the owner before or after it |
| ShardOwnership.OwnerWriteLands | pkg/synchromanager/clustersynchro_manager.go:694-793 | only a write of the reconcile routine that lands moves the owner, and giving it up happens only in the release phase |
| ShardOwnership.RejectionIsLive | pkg/synchromanager/clustersynchro_manager.go:694-769 | "not owned" is answered only after a read from the apiserver at or after the start of the call, on a version that the caller neither owned nor could claim |
| ShardOwnership.HandoverTracked | pkg/synchromanager/clustersynchro_manager.go:239-281 | a registered or running synchro that the informer cache no longer justifies has its key queued, its reconcile under way, or an enqueueing notification pending |
| ShardOwnership.RunKeepsInv | pkg/synchromanager/clustersynchro_manager.go:312-600 | range, bookkeeping, ownership and tracking invariants of every manager in every state of every run |
| ShardOwnership.StepKeepsInv | pkg/synchromanager/clustersynchro_manager.go:312-600 | one step of any manager or user keeps the invariants of all managers |
| ShardOwnership.StepKeepsManager | pkg/synchromanager/clustersynchro_manager.go:312-600 | a step of a manager keeps its own invariant |
| ShardOwnership.RelyKeepsManager | pkg/synchromanager/clustersynchro_manager.go:674-793 | the invariant of a manager survives any change of the object that appends versions and does not take its ownership away |
| ShardOwnership.OthersRely | pkg/synchromanager/clustersynchro_manager.go:674-793 | no step of another manager takes ownership away or touches an object that is gone |
| ShardOwnership.StepGuarantee | pkg/synchromanager/clustersynchro_manager.go:674-793 | a step of a manager appends at most one version, keeps spec and deletion mark, and moves the owner only between none and itself under the right spec |
| ShardOwnership.BackgroundKeepsOwner | pkg/synchromanager/clustersynchro_manager.go:602-672 | status updates other than claim and release leave the owner as it is, whatever stale version they read |
| ShardOwnership.ReconcileBookkeeping | pkg/synchromanager/clustersynchro_manager.go:360-600 | in every phase of a reconcile the synchros map and the number of running synchros agree as stated |
| ShardOwnership.ReconcileOwnership | pkg/synchromanager/clustersynchro_manager.go:360-542 | a reconcile step keeps "at most one synchro, and only while owner" |
| ShardOwnership.ReconcileTracked | pkg/synchromanager/clustersynchro_manager.go:312-357 | a reconcile step does not lose the key of a synchro that has to go |
| ShardOwnership.DeliverTracked | pkg/synchromanager/clustersynchro_manager.go:239-281 | a delivery that makes the cluster irrelevant in the cache puts an enqueueing notification in line |
| ShardOwnership.HandleNoteTracked | pkg/synchromanager/clustersynchro_manager.go:262-281 | handling a notification keeps a tracked key tracked |
| ShardHandover.HandoverCompletes | pkg/synchromanager/clustersynchro_manager.go:243-281 | as long as no informer hides from its own manager that what it has to claim or release was not so for a while, a system at rest owns the cluster where the spec says, as far as the two managers run |
| ShardHandover.RunKeepsPrompt | pkg/synchromanager/clustersynchro_manager.go:312-542 | along every such run a pending claim or release is queued, noted, in progress or already overtaken |
| ShardHandover.CallOutdates | pkg/synchromanager/clustersynchro_manager.go:694-793 | a claim or release that ends without retry leaves a version behind that does not ask the same of the manager as the one that started it |
| ShardHandover.InformerPrompt | pkg/synchromanager/clustersynchro_manager.go:239-281 | a delivery keeps the pending work of the manager noticed, unless it hides such a change |
| ShardHandover.ReconcilePrompt | pkg/synchromanager/clustersynchro_manager.go:312-542 | a reconcile step keeps the pending work noticed or makes its view obsolete |
| ShardHandover.HiddenChangeIsMissed | pkg/synchromanager/clustersynchro_manager.go:243-256 | the other half, for every shard, every version it has to claim or release and every change of the spec to a version that does not ask the same: a run in which the informer hides it ends at rest with the handover undone |
| ShardProgress.SynchroComesUp | pkg/synchromanager/clustersynchro_manager.go:360-538 | in every reachable state with an idle routine and a current cache, whose live object is assigned to m, not deleting and owned by m or by nobody, steps of m alone make m the owner with exactly one synchro running and registered |
| ShardProgress.ClaimEndsRunning | pkg/synchromanager/clustersynchro_manager.go:420-538 | in every run, a reconcile whose claim went through ends with exactly one synchro running and registered and m the live owner, unless its owned part returned early or m crashed |
| ShardProgress.ClaimSurvivesConflict | pkg/synchromanager/clustersynchro_manager.go:420-538 | in every reachable state with a claim under way that has an attempt left, where m may have both the version it read and the live one, steps of m alone bring the synchro up: a conflict is read again and retried |
| ShardProgress.ClusterIsReleased | pkg/synchromanager/clustersynchro_manager.go:404-416 | in every such state whose object is owned by m and assigned elsewhere, steps of m alone stop the synchro and leave the object without owner |
| ShardProgress.DeletionIsFinished | pkg/synchromanager/clustersynchro_manager.go:374-392 | in every such state whose object is deleting and concerns m, steps of m alone stop the synchro and remove the finalizer; the object goes exactly if that was the last one |
| ShardProgress.OwnerPhaseStep | pkg/synchromanager/clustersynchro_manager.go:430-538 | after a claim every step keeps to the owned part or ends it with the synchro up |
| ShardProgress.Proceeds | pkg/synchromanager/clustersynchro_manager.go:394-428 | an object that is to stay gets its finalizer, and the routine goes on to the claim or, with its synchro unregistered, to the release |
| StartHandshake.AtMostOneAdmitted | pkg/synchromanager/clustersynchro/default_resource_synchro.go:197-240 | in every interleaving of any number of Start calls with Run and Close at most one Start is past the admission loop |
| StartHandshake.NeverClosedTwice | pkg/synchromanager/clustersynchro/default_resource_synchro.go:153-240 | in every state of every interleaving no channel has been closed twice |
| StartHandshake.NoneAfterRun | pkg/synchromanager/clustersynchro/default_resource_synchro.go:153-187 | once Run has returned no Start is past the loop, then or ever after |
| StartHandshake.WaitingRunCanReturn | pkg/synchromanager/clustersynchro/default_resource_synchro.go:176-179 | while Run holds the lock and waits, the remaining Start can finish without that lock and Run then returns |
| StartHandshake.StartGetsToRun | pkg/synchromanager/clustersynchro/default_resource_synchro.go:197-254 | in every reachable state in which events are processed, the synchro is not closed and no other Start is past the loop, a Start that is not told to stop runs its informer after its own steps alone |
| StartHandshake.RunWaitsForMade | pkg/synchromanager/clustersynchro/default_resource_synchro.go:197-254 | in every run all channels but the current one are closed, and a Start waits only for one that was made |
| StartHandshake.RunKeepsInv | pkg/synchromanager/clustersynchro/default_resource_synchro.go:153-240 | the current channel is open exactly while one Start is past the loop, along every run |
| StartHandshake.StepKeepsInv | pkg/synchromanager/clustersynchro/default_resource_synchro.go:153-240 | every step of Start, Run and Close keeps that invariant |
| StartHandshake.ReturnedIsFinal | pkg/synchromanager/clustersynchro/default_resource_synchro.go:153-187 | a returned Run stays returned |
| VersionInformer.CallsRebuildCache | pkg/runtime/informer/resourceversion_informer.go:85-130 | over any sequence of delta batches, with errors and markers anywhere, the handler calls alone rebuild exactly the version cache, with adds only for absent and updates and syncs only for present keys |
| VersionInformer.BatchReplays | pkg/runtime/informer/resourceversion_informer.go:85-130 | the same for one batch |
| VersionInformer.DeltaReplays | pkg/runtime/informer/resourceversion_informer.go:85-130 | one delta makes at most one call, and the call tells exactly what happened to the cache |
| VersionInformer.RelistNeverLowers | pkg/runtime/informer/resourceversion_informer.go:107-156 | no number of relist deltas removes a key or lowers its version |
| VersionInformer.RelistOfOne | pkg/runtime/informer/resourceversion_informer.go:107-156 | a relisted object with a greater version leaves that version and makes exactly one update, with the same version exactly one sync, and otherwise does nothing |
| VersionInformer.RelistTakesGreatest | pkg/runtime/informer/resourceversion_informer.go:107-156 | after any relist the entry of a key stands at the greatest of the versions stored and delivered, in whatever order they came |
| VersionInformer.BatchIsPerKey | pkg/runtime/informer/resourceversion_informer.go:85-130 | without markers and broken items the entry of a key depends on the deltas of that key alone, the last one winning unless it is a relist without a greater version |
| VersionInformer.MarkerEndsBatch | pkg/runtime/informer/resourceversion_informer.go:86-92 | a key marker from a relist hides the rest of its batch and nothing before it |
| VersionInformer.Informer.HandleDeltas | pkg/runtime/informer/resourceversion_informer.go:85-130 | the loop over the deltas has the cache, the calls and the verdict of the batch function |
| VersionInformer.Informer.HandleOne | pkg/runtime/informer/resourceversion_informer.go:86-128 | the same for one delta |
| VersionInformer.VersionStore.Put | pkg/runtime/informer/resourceversion_storage.go:23-49 | an object with a key stores its version, anything else is an error and changes nothing |
| VersionInformer.VersionStore.Delete | pkg/runtime/informer/resourceversion_storage.go:51-59 | the key goes, also for tombstones |
| VersionInformer.VersionStore.Get | pkg/runtime/informer/resourceversion_storage.go:61-71 | the version of the key, if there is one |
| VersionInformer.VersionStore.Replace | pkg/runtime/informer/resourceversion_storage.go:82-86 | the whole table is replaced |
| EventQueue.CompactKeepsNewest | pkg/synchromanager/resourcesynchro/queue/event.go:22-58 | folding keeps the effect of the newer event if and only if it is not an update on a pending delete |
| EventQueue.PlaceInLine | pkg/synchromanager/resourcesynchro/queue/pressurequeue.go:89-157 | keys are handed out in the order in which they got in line: a key keeps its place whatever is put in or finished, moves up with every key handed out, and a new one goes to the end |
| EventQueue.PutValid | pkg/synchromanager/resourcesynchro/queue/pressurequeue.go:60-104 | each key is in line once, has one event and is not handed out while it is processed: kept by a new event |
| EventQueue.PoppedValid | pkg/synchromanager/resourcesynchro/queue/pressurequeue.go:132-157 | kept by Pop, which hands out the event of the first key |
| EventQueue.FinishedValid | pkg/synchromanager/resourcesynchro/queue/pressurequeue.go:106-124 | kept by Done, which puts a key with a newer event back in line |
| EventQueue.RetainedValid | pkg/synchromanager/resourcesynchro/queue/pressurequeue.go:187-201 | kept by a discard, which keeps the first keys with their events and nothing else |
| EventQueue.ReputKeepsValid | pkg/synchromanager/resourcesynchro/queue/pressurequeue.go:69-104 | handing an event back keeps it if and only if no other event of the key has come in; otherwise the key is stranded |
| EventQueue.StrandedForever | pkg/synchromanager/resourcesynchro/queue/pressurequeue.go:69-157 | no later Put, Pop or Done brings a stranded key back in line |
| EventQueue.EmptyingLosesPending | pkg/synchromanager/resourcesynchro/queue/pressurequeue.go:159-179 | taking all events hands out exactly the events of the keys in line and drops exactly those of the keys being processed; nothing is lost if and only if there are none of those |
| EventQueue.PressureQueue.Put | pkg/synchromanager/resourcesynchro/queue/pressurequeue.go:60-104 | the queue object does what the queue value does |
| EventQueue.PressureQueue.Pop | pkg/synchromanager/resourcesynchro/queue/pressurequeue.go:132-157 | the same; an empty queue hands out nothing |
| EventQueue.PressureQueue.PopAll | pkg/synchromanager/resourcesynchro/queue/pressurequeue.go:159-179 | the events of the keys in line, in their order; an empty closed queue answers with none |
| EventQueue.PressureQueue.Done | pkg/synchromanager/resourcesynchro/queue/pressurequeue.go:106-124 | the same |
| EventQueue.PressureQueue.Reput | pkg/synchromanager/resourcesynchro/queue/pressurequeue.go:69-87 | the same, without the invariant |
| EventQueue.PressureQueue.DiscardAndRetain | pkg/synchromanager/resourcesynchro/queue/pressurequeue.go:187-201 | the same, and whether anything was discarded |
| EventQueue.PressureQueue.Close | pkg/synchromanager/resourcesynchro/queue/pressurequeue.go:203-209 | only marks the queue as closed |
| SyncPipeline.PipelineConverges | pkg/synchromanager/clustersynchro/default_resource_synchro.go:241-616 | in every run without late starts and stale calls (of an informer that outlived a discard, saying something else than what is stored), whenever the queue is worked off, rvs is the stored content and storage equals the informer cache on every key whose latest event was not given up; retries, fallbacks, folded events and discards make no difference |
| SyncPipeline.HarmlessRunConverges | pkg/synchromanager/clustersynchro/default_resource_synchro.go:426-537 | in every such run whose conversions succeed and whose failures are all recoverable, however many there are, nothing is given up, and whenever the queue is worked off the storage is exactly the informer cache |
| SyncPipeline.GivenUpExactlyWhen | pkg/synchromanager/clustersynchro/default_resource_synchro.go:426-537 | a key becomes a given-up one if and only if its event cannot be converted or meets a failure that is not recoverable, and no newer event of it is pending |
| SyncPipeline.RetriesWithoutBound | pkg/synchromanager/clustersynchro/default_resource_synchro.go:475-535 | an attempt that meets a recoverable failure is followed by another one, whatever their number, with nothing stored; every other attempt is the last |
| SyncPipeline.StorageCatchesUp | pkg/synchromanager/clustersynchro/default_resource_synchro.go:404-537 | from every state of such a run, a working storage and the processor alone lead to an empty queue and to a storage that equals the cache on every key not given up |
| SyncPipeline.HarmlessGivesNothingUp | pkg/synchromanager/clustersynchro/default_resource_synchro.go:426-537 | the same conclusion about given-up keys for runs of any kind and either storage |
| SyncPipeline.FoldingKeepsResult | pkg/synchromanager/resourcesynchro/queue/event.go:22-58 | storing a folded event leaves what storing its two events leaves, except, under the storage contract, for an update after a delete and, with a storage that takes an update of a missing row for done, for an addition after a delete of a row that is not there |
| SyncPipeline.MirrorHolds | pkg/synchromanager/clustersynchro/default_resource_synchro.go:426-537 | in every run, also with late starts and stale calls, rvs holds exactly the stored keys and versions |
| SyncPipeline.MirrorHoldsExactlyWhen | pkg/storage/internalstorage/resource_storage.go:110-143 | with a storage whose Update answers success for a missing row that is so all along a run if and only if no key is updated while it is not stored |
| SyncPipeline.StepKeepsMirror | pkg/synchromanager/clustersynchro/default_resource_synchro.go:278-537 | the same for one step and both kinds of storage; a new cache starts from the stored content |
| SyncPipeline.SilentUpdateBreaksMirror | pkg/storage/internalstorage/resource_storage.go:110-143 | for every storage content and every key not in it a run of the pipeline after which rvs has the key and the storage has not |
| SyncPipeline.HandleIsUpsert | pkg/synchromanager/clustersynchro/default_resource_synchro.go:598-616 | with a storage that reports missing and existing rows the two fallbacks make each event do what it asks for, or nothing |
| SyncPipeline.RunKeepsInv | pkg/synchromanager/clustersynchro/default_resource_synchro.go:241-573 | cache, queue, current event and storage tell the same story for every key along every run without late starts and stale calls |
| SyncPipeline.StepKeepsInv | pkg/synchromanager/clustersynchro/default_resource_synchro.go:241-573 | every such step keeps that |
| SyncPipeline.EnqueueKeepsInv | pkg/synchromanager/clustersynchro/default_resource_synchro.go:350-400 | a new event keeps it, however it is folded |
| SyncPipeline.AttemptKeepsInv | pkg/synchromanager/clustersynchro/default_resource_synchro.go:426-537 | a storage attempt keeps it, whatever the storage answers |
| SyncPipeline.UpdateNeverMeetsPendingDelete | pkg/synchromanager/clustersynchro/default_resource_synchro.go:372-400 | in those runs the one case in which folding loses an event never occurs |
| SyncPipeline.LateStartDiverges | pkg/synchromanager/clustersynchro/default_resource_synchro.go:242-291 | every late start (a new cache while the storage is stopped) makes a run that ends with an object in the cache but not in storage, the synchro running, the queue empty and no event given up |
| SyncPipeline.LateRebuildLosesObject | pkg/synchromanager/clustersynchro/default_resource_synchro.go:242-291 | such a run exists from every state about to discard without an informer |
| SyncPipeline.InformerOutlivesDiscard | pkg/synchromanager/clustersynchro/default_resource_synchro.go:309-322 | from every state about to discard with an informer the retained events may be stored before that informer has ended: runnable, without cache, with the informer on its own store |
| SyncPipeline.StaleCallDiverges | pkg/synchromanager/clustersynchro/default_resource_synchro.go:350-400 | every event of such an informer makes an otherwise timely run after which the storage has what it says and the cache what was stored before: they agree if and only if the call was not stale |
| SyncPipeline.StaleDeleteSwallowsUpdate | pkg/synchromanager/clustersynchro/default_resource_synchro.go:350-400 | a stale delete swallows the update of the next informer: the object is in the cache and gone from the storage |
| SyncPipeline.ComesToDiscard | pkg/synchromanager/clustersynchro/default_resource_synchro.go:426-531 | from every new synchro, a timely run of an unavailable storage leads to a state about to discard |
| SyncPipeline.StaleCallRun | pkg/synchromanager/clustersynchro/default_resource_synchro.go:241-537 | a run of a new synchro with a stale call that ends with an object stored and unknown to the cache |
| SyncPipeline.SwallowedUpdateRun | pkg/synchromanager/clustersynchro/default_resource_synchro.go:241-537 | a run of a new synchro that ends with a stored object gone while the cache has it |
| SyncPipeline.LateStartRun | pkg/synchromanager/clustersynchro/default_resource_synchro.go:241-537 | a run of a new synchro with a late start that ends with an object in the cache and not stored |
| SyncPipeline.StallRun | pkg/synchromanager/clustersynchro/default_resource_synchro.go:437-531 | a timely run of a new synchro that ends in a stall |
| SyncPipeline.StaysApart | pkg/synchromanager/clustersynchro/default_resource_synchro.go:350-537 | storage and cache then stay apart until the informer speaks of the key or a discard takes the cache |
| SyncPipeline.Drain | pkg/synchromanager/clustersynchro/default_resource_synchro.go:426-537 | from every state with events in line there is a run that stores them all and wakes the informer |
| SyncPipeline.StallsExactlyOn | pkg/synchromanager/clustersynchro/default_resource_synchro.go:437-498 | the synchro stalls if and only if the last event in line ends by a failed conversion or a cancelled context while the storage is stopped |
| SyncPipeline.StalledForever | pkg/synchromanager/clustersynchro/default_resource_synchro.go:426-573 | no step ends a stall or changes what is stored |
| ResourceSynchro.Synchro.HandleResourceEvent | pkg/synchromanager/clustersynchro/default_resource_synchro.go:426-537 | the retry loop ends where the sequence of attempts of the pipeline ends, for every behaviour of the storage |
| ResourceSynchro.Synchro.TryOnce | pkg/synchromanager/clustersynchro/default_resource_synchro.go:475-536 | one round of the loop is one attempt of the pipeline, and the loop goes on exactly where the storage failed recoverably, whatever the number of the round |
| ResourceSynchro.Synchro.SetRunnableForStorage | pkg/synchromanager/clustersynchro/default_resource_synchro.go:539-555 | the open and closed channels agree with the flag, and no channel is closed twice |
| ResourceSynchro.Synchro.SetStopForStorage | pkg/synchromanager/clustersynchro/default_resource_synchro.go:557-573 | the same for stopping |
| ResourceSynchro.Synchro.WakeWhenDrained | pkg/synchromanager/clustersynchro/default_resource_synchro.go:488-491 | the informer is woken exactly when nothing is left in line |
| ResourceSynchro.Synchro.End | pkg/synchromanager/clustersynchro/default_resource_synchro.go:427-427 | the deferred Done settles the event |
| ResourceSynchro.Synchro.EnsureCache | pkg/synchromanager/clustersynchro/default_resource_synchro.go:278-309 | a missing cache is rebuilt from rvs, an existing one is kept, and the informer works on it |
| ResourceSynchro.Synchro.RetryLater | pkg/synchromanager/clustersynchro/default_resource_synchro.go:514-535 | too many retries with a long queue stop the informer, shorten the queue and take the cache away, as in the pipeline |
| ResourceSynchro.AttemptsKeepInv | pkg/synchromanager/clustersynchro/default_resource_synchro.go:426-537 | any sequence of attempts keeps the pipeline invariant |
| WatchDelivery.ReplayShowsFilteredStore | pkg/storage/memorystorage/v2/cache_watcher.go:90-111 | for every filter and history, a client that replays the converted events from the filtered store holds the filtered store at the end, and never meets an event it cannot apply |
| WatchDelivery.OneEventKeepsView | pkg/storage/memorystorage/v2/cache_watcher.go:90-111 | the same for one event, with objects entering and leaving the filter |
| WatchDelivery.StreamIsHistory | pkg/storage/memorystorage/v2/cache_watcher.go:144-178 | however much interval and input overlap, the stream is the history after the requested index, each event once and in order |
| WatchDelivery.PortionIsHistory | pkg/storage/memorystorage/v2/cache_watcher.go:144-178 | the first n events of interval and input make up the history from the requested index to an exact position |
| WatchDelivery.PortionIsPrefix | pkg/storage/memorystorage/v2/cache_watcher.go:144-178 | what they become is a prefix of the converted stream |
| WatchDelivery.ClientHoldsSomeMoment | pkg/storage/memorystorage/v2/cache_watcher.go:113-178 | whatever prefix of the converted events was delivered, the client holds the filtered store of some moment of the history |
| WatchDelivery.WatchHistory | pkg/storage/memorystorage/v2/cache_watcher.go:90-178 | the watcher on a history, with interval and input overlapping and any schedule of stops, ends and selects: delivered is the conversion of the history up to exactly the position that the schedule determines, all of it if and only if nothing happens, and the client holds the filtered store of that moment |
| WatchDelivery.CacheWatcher.ProcessInterval | pkg/storage/memorystorage/v2/cache_watcher.go:113-178 | for every schedule, delivered are exactly the converted events before its first stop or end, and the one at that moment if the select sends it; the end is reached if and only if there is no such moment; the watcher is stopped |
| WatchDelivery.CacheWatcher.SendInterval | pkg/storage/memorystorage/v2/cache_watcher.go:150-163 | the interval is delivered exactly as far as the schedule lets it, and the last index is its greatest |
| WatchDelivery.CacheWatcher.SendInput | pkg/storage/memorystorage/v2/cache_watcher.go:165-177 | of the input exactly the events above that index follow, as far as the schedule lets them |
| WatchDelivery.CacheWatcher.SendNewer | pkg/storage/memorystorage/v2/cache_watcher.go:167-173 | one event of the input |
| WatchDelivery.CacheWatcher.SendWatchCacheEvent | pkg/storage/memorystorage/v2/cache_watcher.go:113-142 | an event is sent unless the watcher was stopped before it or the last select drops it, and nothing follows a stop |
| WatchDelivery.CacheWatcher.StopLocked | pkg/storage/memorystorage/v2/cache_watcher.go:48-54 | the channels are closed once however often the watcher is stopped |
| WatchDelivery.AboveOfAscending | pkg/storage/memorystorage/v2/cache_watcher.go:165-177 | on an ascending input the filter by index cuts a suffix |
| WatchDelivery.LastOfInterval | pkg/storage/memorystorage/v2/cache_watcher.go:160-162 | the last index of an interval separates it from what follows |
| SelectorSql.SelectorKeeps | pkg/storage/internalstorage/util.go:227-251 | in all three dialects the compiled WHERE clause, read by precedence with three-valued logic, keeps a row if and only if its labels satisfy every requirement with a supported operator |
| SelectorSql.SelectorIsExact | pkg/storage/internalstorage/util.go:227-251 | a matching row is never lost; over the six supported operators the clause is the selector |
| SelectorSql.SelectorOverselects | pkg/storage/internalstorage/util.go:227-251 | a row is kept wrongly if and only if the selector selects nothing, or an unsupported requirement fails while all supported ones hold |
| SelectorSql.WhereParses | pkg/storage/internalstorage/json_builder.go:120-208 | the clauses of a list of requirements parse as their conjunction |
| SelectorSql.RequirementParses | pkg/storage/internalstorage/json_builder.go:120-208 | the tokens of one requirement parse as one condition with the truth value of the requirement |
| SelectorSql.NegatedParses | pkg/storage/internalstorage/json_builder.go:120-208 | the parentheses of a negated requirement keep a following AND out |
| SelectorSql.VerdictMatches | pkg/storage/internalstorage/json_builder.go:120-208 | with a missing label as NULL the condition is true if and only if the requirement matches |
| SelectorSql.WhereTruthMatches | pkg/storage/internalstorage/util.go:227-251 | the conjunction is true if and only if all supported requirements match |
| SelectorSql.PathRoundTrip | pkg/storage/internalstorage/json_builder.go:88-96 | a JSON path denotes the keys it was built from if and only if there is a key and none has a quote |
| SelectorSql.QuoteBreaksPath | pkg/storage/internalstorage/json_builder.go:88-96 | for any two keys, one key with a quoted dot between them has the path of both |
| SelectorSql.JsonQuery.Build | pkg/storage/internalstorage/json_builder.go:120-208 | the piecewise writer produces the tokens of the expression |
| SelectorSql.JsonQuery.In | pkg/storage/internalstorage/json_builder.go:78-81 | sets the values, not negated |
| SelectorSql.JsonQuery.NotIn | pkg/storage/internalstorage/json_builder.go:83-86 | sets the values, negated |
| SelectorSql.JsonQuery.Exist | pkg/storage/internalstorage/json_builder.go:58-61 | not negated, values untouched |
| SelectorSql.JsonQuery.NotExist | pkg/storage/internalstorage/json_builder.go:63-66 | negated, values untouched |
| SelectorSql.CompileSelector | pkg/storage/internalstorage/util.go:227-251 | the loop over the requirements compiles the selector |
| OwnerQuery.OwnerSearch | pkg/storage/internalstorage/resource_storage.go:381-418 | negative seniorities and only those are refused; otherwise a row passes if and only if a chain of owners through stored rows of the cluster reaches the owner with the wanted UID, or with the wanted name, group, resource and namespaces, in seniority + 1 steps |
| OwnerQuery.UidQueryFindsChains | pkg/storage/internalstorage/json_builder.go:214-225 | the nested query by UID answers exactly the starts of chains of that length |
| OwnerQuery.NameQueryFindsChains | pkg/storage/internalstorage/json_builder.go:227-245 | the nested query by name answers exactly the starts of chains to a row with that name |
| OwnerQuery.NameIsUidOneCloser | pkg/storage/internalstorage/json_builder.go:214-245 | a search by name is a search for the UIDs that carry the name |
| Paging.FollowTokens | pkg/storage/internalstorage/resource_storage.go:244-255 | a client that follows the tokens sees every row once, in order, on the number of pages that the rows fill, for every way of writing offsets that reads them back |
| Paging.FollowDecimalTokens | pkg/storage/internalstorage/resource_storage.go:244-255 | the same for the decimal tokens of the program |
| Paging.DecimalStopsExactlyWhen | pkg/storage/internalstorage/resource_storage.go:244-248 | with decimal tokens, following them ends if and only if the limit is not zero or there is a row |
| Paging.NextPage | pkg/storage/internalstorage/resource_storage.go:222-255 | the page at an offset extends what was seen up to the next offset, and a token comes with it if and only if the page was full |
| Paging.PageAt | pkg/storage/internalstorage/util.go:339-349 | items, token and remaining count of the page at an offset, with 64-bit arithmetic; the counts add up to the total |
| Paging.PageWithoutLimit | pkg/storage/internalstorage/util.go:341-349 | without a positive limit the page has all rows from the offset, and all rows at all if there is no offset |
| Paging.CountsAddUp | pkg/storage/internalstorage/resource_storage.go:250-255 | offset, page and remaining count add up for every token, readable or not, while the difference fits 64 bits |
| Paging.StopsExactlyWhen | pkg/storage/internalstorage/resource_storage.go:244-248 | following tokens ends if and only if the limit is not zero or there is a row |
| Paging.ZeroLimitRepeats | pkg/storage/internalstorage/resource_storage.go:244-248 | without limit and rows the same token comes again and again |
| Paging.DecimalSound | pkg/storage/internalstorage/util.go:345-349 | decimal tokens are read back as the offsets they were made from |
| Paging.TokenRoundTrip | pkg/storage/internalstorage/util.go:345-349 | the same for one offset |
| DiscoveryCache.Discovery.SetGroupVersions | pkg/runtime/discovery/discovery_cache.go:96-157 | custom groups are left alone, groups with new versions get exactly what they serve, groups that lost their versions lose their resources, others stay; "updated" is said if and only if an entry changed |
| DiscoveryCache.Discovery.RefetchGroups | pkg/runtime/discovery/discovery_cache.go:159-234 | the resources of the groups are exactly those that some version serves, with the serving versions in group order; others stay; "updated" if and only if an entry changed |
| DiscoveryCache.FetchEntries | pkg/runtime/discovery/discovery_cache.go:180-231 | the fetched entries are exactly the served resources of the asked groups, each described by the first version of the group whose list has it |
| DiscoveryCache.PreferredIsFirst | pkg/runtime/discovery/discovery_cache.go:205-231 | the description of a served resource is the completed last one of its name in the list of the first version that has it; no earlier version has it |
| DiscoveryCache.RefetchedFromLists | pkg/runtime/discovery/discovery_cache.go:159-234 | after a refetch a resource of the asked groups is there if and only if some list has it; its versions are exactly those whose lists have it, in group order, and the first of them describes it |
| DiscoveryCache.AdoptedByLists | pkg/runtime/discovery/discovery_cache.go:96-157 | after the group versions were set, a group with another version list has exactly what its lists have now, one with the same list stays, one without versions has nothing |
| DiscoveryCache.LookupRefetches | pkg/runtime/discovery/discovery_cache.go:404-448 | a failed lookup asks its own group again if that is aggregated, all groups that are not custom if the cluster version has changed, and none otherwise |
| DiscoveryCache.ByNameIsLast | pkg/runtime/discovery/discovery_cache.go:186-199 | of a name in a list the last one counts, and subresources never |
| DiscoveryCache.ComputeEntries | pkg/runtime/discovery/discovery_cache.go:182-231 | every found resource gets its entry, with the serving versions and the description of the first version that offers it |
| DiscoveryCache.FoundIsServed | pkg/runtime/discovery/discovery_cache.go:182-199 | a resource of an asked group is found if and only if some version serves it |
| DiscoveryCache.ServingIsSubsequence | pkg/runtime/discovery/discovery_cache.go:221-227 | the versions of a resource are a subsequence of the versions of its group |
| DiscoveryCache.RefetchIsExact | pkg/runtime/discovery/discovery_cache.go:204-233 | deleting and overlaying gives exactly the served resources, and reports a change if and only if there is one |
| DiscoveryCache.RefetchKeepsUpToDate | pkg/runtime/discovery/discovery_cache.go:159-234 | every entry keeps a non-empty subsequence of the current group versions |
| DiscoveryCache.SetKeepsUpToDate | pkg/runtime/discovery/discovery_cache.go:96-157 | the same under new group versions |
| DiscoveryCache.SetAdopts | pkg/runtime/discovery/discovery_cache.go:96-157 | what setting group versions does to each resource |
| DiscoveryCache.CompareVersions | pkg/runtime/discovery/discovery_cache.go:111-128 | the loops find exactly the vanished and the changed groups |
| DiscoveryCache.Discovery.Refresh | pkg/runtime/discovery/discovery_cache.go:236-275 | a refetch of aggregated or all groups is exact and keeps the cache valid |
| DiscoveryCache.Discovery.UpdateCustomResource | pkg/runtime/discovery/discovery_cache.go:277-320 | the entry of a definition, and when a change is reported |
| DiscoveryCache.Discovery.RemoveCustomResource | pkg/runtime/discovery/discovery_cache.go:322-336 | a group stops being custom exactly with its last resource |
| DiscoveryCache.Discovery.UpdateResource | pkg/runtime/discovery/discovery_cache.go:338-360 | the three tables change together; a change is reported if and only if there is one |
| DiscoveryCache.Discovery.StoreResource | pkg/runtime/discovery/discovery_cache.go:352-359 | all four tables take the new description, also under its singular name |
| DiscoveryCache.Discovery.RemoveResource | pkg/runtime/discovery/discovery_cache.go:362-369 | the resource leaves all tables |
| DiscoveryCache.Discovery.Lookup | pkg/runtime/discovery/discovery_cache.go:371-379 | a name that is found, in whatever letter case, leads to a resource of its group that is there |
| DiscoveryCache.Discovery.FoundByPlural | pkg/runtime/discovery/discovery_cache.go:371-379 | a resource is found by its plural name if and only if that is not taken for the singular name of another one |
| DiscoveryCache.StaleNameMisleads | pkg/runtime/discovery/discovery_cache.go:352-379 | three definitions after which the lookup of one resource answers with another, through a singular name that is no longer in use |
| DiscoveryCache.Discovery.GetAPIResourceAndVersions | pkg/runtime/discovery/discovery_cache.go:404-448 | an answer is a current entry with versions; unknown groups get none and change nothing; a known resource is answered without a fetch; otherwise exactly the groups of its kind are fetched again, and when there is no answer |
| DiscoveryCache.Reach | pkg/runtime/discovery/discovery_cache.go:96-448 | after any sequence of calls the three per-resource tables have the same resources and together are a cache that follows from the calls |
| DiscoveryCache.Operate | pkg/runtime/discovery/discovery_cache.go:96-448 | each call does to the tables what the operation does to the cache |
| DiscoveryCache.AlwaysUpToDate | pkg/runtime/discovery/discovery_cache.go:96-369 | in every cache that follows from a sequence of calls each resource has a version, and the versions of a resource of a group that is not custom are a subsequence of the current versions of its group |
| DiscoveryCache.DoesOneThing | pkg/runtime/discovery/discovery_cache.go:96-360 | every operation but a lookup leaves one possible cache |
| ServedDiscovery.EnabledAfter | pkg/kubeapiserver/discovery/discovery.go:86-257 | after any sequence of settings and removals a resource is enabled for a cluster, or for all, if and only if the last settings of the remaining clusters offer it |
| ServedDiscovery.ListedAfter | pkg/kubeapiserver/discovery/discovery.go:162-257 | after any sequence a version of a group is listed for a cluster if and only if its last setting offers it and the source of its groups knows it, and for all if and only if that is so for some cluster and the global source knows it; which settings those sources come from |
| ServedDiscovery.Operate | pkg/kubeapiserver/discovery/discovery.go:162-257 | the same, kept by one operation |
| ServedDiscovery.OneSource | pkg/kubeapiserver/discovery/discovery.go:162-257 | with one source in all operations there is no other |
| ServedDiscovery.GroupHandler.VersionListed | pkg/kubeapiserver/discovery/group.go:55-70 | listed for a cluster, or for all, as the origins of the groups say |
| ServedDiscovery.GroupHandler.ClusterVersions | pkg/kubeapiserver/discovery/group.go:134-176 | the groups of a cluster list a version if and only if it is offered and their source knows it |
| ServedDiscovery.VersionHandler.ResourceEnabled | pkg/kubeapiserver/discovery/discovery.go:86-95 | enabled if and only if the cluster, or some cluster, offers it |
| ServedDiscovery.Manager.SetClusterGroupResource | pkg/kubeapiserver/discovery/discovery.go:162-195 | the tables of the cluster and of all clusters follow the setting, also where an unchanged table is left alone |
| ServedDiscovery.Manager.RemoveCluster | pkg/kubeapiserver/discovery/discovery.go:236-257 | the cluster leaves every table, and the global ones are those of the rest |
| ServedDiscovery.VersionHandler.SetCluster | pkg/kubeapiserver/discovery/version.go:102-123 | the table is stored and the global table rebuilt |
| ServedDiscovery.VersionHandler.RemoveCluster | pkg/kubeapiserver/discovery/version.go:125-138 | the same for a removal |
| ServedDiscovery.RebuildTable | pkg/kubeapiserver/discovery/version.go:140-167 | the global table lists what some cluster lists, each resource once |
| ServedDiscovery.TableOf | pkg/kubeapiserver/discovery/discovery.go:163-168 | the table of a cluster has exactly the offered resources and versions |
| ServedDiscovery.BuildAPIGroups | pkg/kubeapiserver/discovery/group.go:134-176 | the loops build the groups of the source that have an offered version |
| ServedDiscovery.RebuiltGroupsAreUnion | pkg/kubeapiserver/discovery/group.go:115-176 | rebuilding global groups from the filtered groups of the clusters gives, with versions and their order, what the union of offered versions gives, except exactly for groups of which the source knows no offered version |
| ServedDiscovery.GroupHandler.GlobalVersions | pkg/kubeapiserver/discovery/group.go:115-132 | whatever sources the groups of the clusters were built from, a version is listed globally if and only if the global source knows it and some cluster offers it and had it in its source |
| ServedDiscovery.GroupHandler.GlobalGroupsAreUnion | pkg/kubeapiserver/discovery/group.go:115-132 | with one source for all, the global groups of the handler are that union |
| ServedDiscovery.GroupHandler.SetCluster | pkg/kubeapiserver/discovery/discovery.go:183-194 | the groups of the cluster and of all clusters follow; unchanged groups are not rebuilt |
| ServedDiscovery.GroupHandler.RemoveCluster | pkg/kubeapiserver/discovery/group.go:100-132 | the same for a removal |
| ServedDiscovery.BuiltVersions | pkg/kubeapiserver/discovery/group.go:134-176 | a built group lists exactly the offered versions that the source knows, or all if it lists none |
| ServedDiscovery.BuiltInOrder | pkg/kubeapiserver/discovery/group.go:134-176 | a built group keeps the order of the source for exactly the offered versions and prefers the first of them |
| DependentResources.EventAfter | pkg/controller/dependentresource_manager.go:96-317 | after any sequence of calls an event is passed on as the abstract state says, informers run for exactly the resources some policy depends on, and each informer ever started runs for one of them or was stopped once |
| DependentResources.EventsReachTheirPolicy | pkg/controller/dependentresource_manager.go:96-132 | while no policy gets another source, an event reaches exactly the synced policy it is the source of and the lifecycles that refer to it |
| DependentResources.CouldExactlyAfterSync | pkg/controller/dependentresource_manager.go:208-264 | after any sequence of calls a policy may be enqueued if and only if a check has found everything synced that it depends on since it was last set |
| DependentResources.PolicyIsLastSetting | pkg/controller/dependentresource_manager.go:208-239 | after any sequence of calls a policy is there if and only if it was set since its last removal, with the source and references of the last setting |
| DependentResources.LifecycleIsLastSetting | pkg/controller/dependentresource_manager.go:266-316 | after any sequence of calls a lifecycle depends on what its last setting says, or is not there |
| DependentResources.PanicsExactlyOnDangling | pkg/controller/dependentresource_manager.go:113-118 | handling an event dereferences a missing flag if and only if its resource leads to a policy that is not there |
| DependentResources.StaleSourcePanics | pkg/controller/dependentresource_manager.go:208-239 | four calls after which an event of a watched resource panics, and every other policy is refused that source |
| DependentResources.ExactExactlyWithoutMoves | pkg/controller/dependentresource_manager.go:208-239 | the two source tables are inverse to each other all along a run if and only if no policy gets another source before it is removed |
| DependentResources.RemovalsAreSafe | pkg/controller/dependentresource_manager.go:225-239 | every removal leaves all sources leading to a policy if and only if the two tables are inverse before |
| DependentResources.AlwaysBound | pkg/controller/dependentresource_manager.go:208-239 | in every run the source of a policy is bound to it and among its resources, and the per-policy tables have the same policies |
| DependentResources.SourcesDiffer | pkg/controller/dependentresource_manager.go:208-223 | no two policies have the same source |
| DependentResources.DropInverse | pkg/controller/dependentresource_manager.go:159-174 | dropping one binding keeps forward and reverse tables inverse, without empty entries |
| DependentResources.AddInverse | pkg/controller/dependentresource_manager.go:195-204 | adding one binding does too |
| DependentResources.StartAccounted | pkg/controller/dependentresource_manager.go:134-157 | a started informer is accounted for |
| DependentResources.StopAccounted | pkg/controller/dependentresource_manager.go:163-173 | a stopped one is, and its channel was open |
| DependentResources.Manager.SetPolicyDependentGVRs | pkg/controller/dependentresource_manager.go:208-223 | the new state, and failure if and only if another policy has the source |
| DependentResources.Manager.RemovePolicy | pkg/controller/dependentresource_manager.go:225-239 | the new state |
| DependentResources.Manager.SetGVRs | pkg/controller/dependentresource_manager.go:176-206 | tables stay inverse and informers exact while the resources of a policy are replaced or removed |
| DependentResources.Manager.UnbindPolicyDependentGVR | pkg/controller/dependentresource_manager.go:159-174 | one binding goes, and its informer stops with the last one |
| DependentResources.Manager.BindPolicyDependentGVR | pkg/controller/dependentresource_manager.go:195-204 | one binding comes, and its informer starts with the first one |
| DependentResources.Manager.EnsureResourceController | pkg/controller/dependentresource_manager.go:134-157 | an informer is started only where there is none |
| DependentResources.Manager.HasSyncedPolicyDependentResources | pkg/controller/dependentresource_manager.go:241-264 | true if and only if the policy is there and all its resources have synced; the error for a missing controller never occurs |
| DependentResources.Manager.SetReferences | pkg/controller/dependentresource_manager.go:266-303 | the references of a lifecycle are replaced or removed with the tables inverse |
| DependentResources.Manager.SetLifecycleDependentResources | pkg/controller/dependentresource_manager.go:305-310 | the new state |
| DependentResources.Manager.RemoveLifecycle | pkg/controller/dependentresource_manager.go:312-317 | the new state |
| DependentResources.Manager.HandleEvent | pkg/controller/dependentresource_manager.go:96-132 | the queues an event goes to are those of the abstract state |
| GroupStatus.DeletingAdditionsRestores | pkg/synchromanager/clustersynchro/resource_negotiator.go:290-416 | merging another status and deleting what came with it gives the conditions back, and resources, versions and listing if and only if no resource without versions gained one |
| GroupStatus.GroupResourceStatus.Merge | pkg/synchromanager/clustersynchro/resource_negotiator.go:361-416 | the union with the own entries winning, the additions exactly what only the other has |
| GroupStatus.GroupResourceStatus.MergeResource | pkg/synchromanager/clustersynchro/resource_negotiator.go:381-413 | the same for one resource |
| GroupStatus.GroupResourceStatus.DeleteVersion | pkg/synchromanager/clustersynchro/resource_negotiator.go:290-308 | the condition goes, and with the last version the resource |
| GroupStatus.GroupResourceStatus.DeleteVersions | pkg/synchromanager/clustersynchro/cluster_synchro.go:485-487 | the same for a set |
| GroupStatus.GroupResourceStatus.AddResource | pkg/synchromanager/clustersynchro/resource_negotiator.go:253-264 | the resource is there, listed once if the listing was tidy |
| GroupStatus.GroupResourceStatus.AddSyncCondition | pkg/synchromanager/clustersynchro/resource_negotiator.go:266-273 | version and condition together, and nothing for an unknown resource |
| GroupStatus.GroupResourceStatus.UpdateSyncCondition | pkg/synchromanager/clustersynchro/resource_negotiator.go:275-288 | phase and reason of an existing condition, nothing else |
| GroupStatus.GroupResourceStatus.LoadGroupResourcesStatuses | pkg/synchromanager/clustersynchro/resource_negotiator.go:310-337 | the loop with its index map produces the listing |
| GroupStatus.ListingByGroup | pkg/synchromanager/clustersynchro/resource_negotiator.go:310-337 | a listing has every group once, and under it the entries of its resources in their order |
| GroupStatus.EntryShowsConditions | pkg/synchromanager/clustersynchro/resource_negotiator.go:310-337 | an entry has for each version of its resource, in order, the condition that the status has for it, and leaves none out |
| SyncRefresh.RefreshAll | pkg/synchromanager/clustersynchro/cluster_synchro.go:346-488 | any number of rounds: they go through if and only if the cluster is not closed while a synchro has to stop; then the synchros, the stored resources and the versions in the status are exactly determined, a version beyond the last requests being there if and only if the round before asked for it and the last could not clean what it was stored as |
| SyncRefresh.RefreshOnce | pkg/synchromanager/clustersynchro/cluster_synchro.go:346-488 | the same for one more round |
| SyncRefresh.ClusterSynchro.RefreshSyncResources | pkg/synchromanager/clustersynchro/cluster_synchro.go:346-488 | one refresh: synchros, stored resources, what is cleaned (each once, none with a synchro), the versions kept and the conditions of the negotiated ones; a closed refresh cleans nothing and loses no version |
| SyncRefresh.ClusterSynchro.CreateSynchros | pkg/synchromanager/clustersynchro/cluster_synchro.go:368-438 | which synchros and stored entries exist after the first loop and what the conditions say |
| SyncRefresh.ClusterSynchro.CreateSynchro | pkg/synchromanager/clustersynchro/cluster_synchro.go:374-428 | the same for one configuration |
| SyncRefresh.ClusterSynchro.CloseRemoved | pkg/synchromanager/clustersynchro/cluster_synchro.go:440-460 | synchros without configuration are gone, unless the cluster is closed first |
| SyncRefresh.ClusterSynchro.CleanUnstored | pkg/synchromanager/clustersynchro/cluster_synchro.go:462-483 | what is stored without configuration is cleaned once, and versions whose cleaning failed are kept |
| SyncRefresh.ClusterSynchro.CleanClusterResource | pkg/synchromanager/clustersynchro/cluster_synchro.go:471-471 | is called only for resources without a registered synchro |
| SyncRefresh.ClusterSynchro.Adopt | pkg/synchromanager/clustersynchro/cluster_synchro.go:353-361 | the earlier status goes into the negotiated one |
| SyncRefresh.KeptAfter | pkg/synchromanager/clustersynchro/cluster_synchro.go:479-487 | the versions that remain are the negotiated ones and those stored as something that could not be cleaned |
| SyncRefresh.UpdateSyncConditions | pkg/synchromanager/clustersynchro/cluster_synchro.go:362-366 | exactly the conditions of the storage resource change |
| SyncRefresh.GetStorageGVRToSyncGVRs | pkg/synchromanager/clustersynchro/resource_negotiator.go:339-359 | the versions by the resource they are stored as |
| SyncRefresh.Negotiate | pkg/synchromanager/clustersynchro/resource_negotiator.go:90-171 | the status has exactly the negotiated versions of all requests, is complete, and each storage resource has one configuration |
| SyncRefresh.NegotiateResource | pkg/synchromanager/clustersynchro/resource_negotiator.go:126-167 | the same for the versions of one resource |
| SyncRefresh.NegotiateVersions | pkg/synchromanager/clustersynchro/resource_negotiator.go:173-218 | eligible versions of the cluster, none if and only if there are none: the first known one for legacy resources, the first three where nothing is asked for, all for a wildcard, and otherwise all asked for |

## Left out

- VersionInformer.BatchIsPerKey: is stated for batches without markers and broken items, since those end a batch for all keys; CallsRebuildCache covers the rest.
- SelectorSql.PathRoundTrip: gives a backslash in a key no meaning; label keys have none.
- SelectorSql.SelectorKeeps: takes the labels of an object as strings, and equality of strings as that of the database (no collation).
- Paging.FollowTokens: needs an order of the rows that does not change between pages, which the program gets only from an explicit order.
- DiscoveryCache.Discovery.Lookup: does not say that a name leads to the resource meant, which is not so; FoundByPlural and StaleNameMisleads say when it is.
- DiscoveryCache.Reach: leaves open whether a lookup fetches again, which depends on the table of singular names.
- SyncPipeline.PipelineConverges: takes a delta, its change of the store and its handler call as one step, and the check of a handler and its enqueueing too.
- ResourceSynchro.Synchro.EnsureCache: is one step, like the start of an informer in the pipeline; the program releases its lock before it reads the cache again for the informer, and a discard in between would hand the informer no store at all.
- EventQueue.PressureQueue.Pop: does not model blocking; an empty queue answers with no event. The count of initial events is left out.
- GroupStatus.GroupResourceStatus.LoadGroupResourcesStatuses: takes the order of versions as a parameter.
- ServedDiscovery.BuildAPIGroups: takes the order of versions of groups without a list as a parameter; sets of group version resources hold values, not rendered strings; handlers and HTTP are left out.
- SyncRefresh.Negotiate: starts from resources as discovery has found them; wildcards, feature gates, kinds, verbs and event synchronization are left out.
- SyncRefresh.ClusterSynchro.RefreshSyncResources: does not model the runner that starts synchros meanwhile, nor what synchros write into conditions.
- DependentResources.Manager.SetPolicyDependentGVRs: takes the references as a value; the program keeps the caller's map and adds the source to it.
- The shard protocol and the Start handshake are step systems on values, not classes; the event handler's check and its enqueueing are one step there.
- Health checks, secrets, credentials, kubeconfig handling and the other conditions of a cluster.
- Conversion, pruning and encoding of objects; events of resources.
- Field selectors, fuzzy names, raw SQL conditions and the other list filters.
- The ring buffer and the intervals of the watch cache; the first memory storage.
- Collection resources, metrics, the webhooks and the command-line programs.
