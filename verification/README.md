# Verified model of the marketplace operator's metering core

A Dafny model of the parts of the operator that keep several copies of the same facts in
agreement while many goroutines run: the metering stores and the metrics scraped from them, the
namespaces being watched, the definitions' status, the data reporter's events and uploads, and
the air-gap file service with its client.

`dafny verify dfyconfig.toml` checks the whole project.

## How it is organised

| module | what it models |
|---|---|
| ViewPipeline | a generic machine: a store that emits changes and writes an index, a queue of changes per key, a broadcast over unbuffered channels, listeners, a cache |
| DeltaFifo | the queue both stores use (client-go's DeltaFIFO), on values |
| MeteringTypes, Wrappers | shared values |
| PrometheusData, Mailbox | the scraped cache with its two processors; registration and broadcast |
| Dictionary, ObjectStore | the two stores as classes, each operation also as a function |
| ObjectView, Dictionary | the two instances of the machine: object metrics and definition metrics |
| DefinitionWatcher | definition changes that drive re-matching; no reference to a definition that is gone |
| EventAccumulator, EventProtocol | the event engine: accumulator, digesters, senders, ticker |
| NamespaceWatcher, LookupFilter, ListerPlanner, WatchCoverage | from a definition's filters to the running listers |
| OwnerSearch | the owner filter's recursive search |
| StatusProcessor, StatusOfObjects | tracked workloads and their write-back; what the store's changes make of them |
| Paging | paged listing, from the client's loop down to offset and limit |
| ChunkTransfer | chunked upload and download |
| UploadFanout, EventRouting | the fork-join of uploads and the event handler around it |

Code that changes state is a class whose methods are proved against functions on values; the
theorems about whole runs are lemmas about those functions. Filters, cluster calls, uploads,
the checksum and the data service are parameters, so every result holds for all their answers.
Go map iteration is an arbitrary choice of the next key. Steps of a machine are the smallest
the locks and channels allow: a store call emits its change and writes its index in two steps,
and producer and listeners may run in between. That allows more interleavings than the code has,
since the queue's own lock excludes some of them.

## What the code does not do

Each of these is a theorem: a concrete state or input that shows it, and the condition under
which the property one would want does hold.

* `Add` on the object store emits nothing for an object without a match. Re-adding an object
  that used to match leaves its metrics in the cache (`BareAddKeepsStaleMetrics`). Of all store
  operations only this one breaks the view, and only then (`StoreOpAgreesIff`,
  `StoreRunAgreesIff`); `Replace` avoids it by deleting first (`ReAddIsPermitted`).
* The dictionary's `Replace` overwrites its contents before it queues changes, so a dropped
  definition is never retracted. It keeps the view if and only if nothing is dropped
  (`ReplaceAgreesIff`, `DefinitionViewAgreesIff`).
* Three things can leave an object naming a definition that is gone, with nothing left to remove
  it: a look-up error while the deletion is handled, which is only logged
  (`FailedHandlingDangles`); the dictionary's `Replace`, which drops a definition without a
  deletion (`ReplaceDangles`); and an `Add` or `Update`, which matches before it takes the store
  lock and may write a match whose deletion was handled meanwhile (`LateWriteDangles`). A
  re-match can only if a Replace comes between its look-up and its write
  (`RematchWritesAreSafe`). Nothing else can, and these exactly when the definition is not back,
  not listed and has no other deletion pending (`NeverDanglesIff`).
* A lister whose start fails leaves an empty entry behind. The retry finds the key, reports
  success and starts nothing (`RetryAfterFailedStart`, `WantedRunsIff`). The listers in the
  repository fail to start only when they were built without a store
  (metering/v2/pkg/engine/engine.go:90-93), so none of them shows it today.
* The loop variable of the owner search shadows its depth argument, so `maxDepth` limits
  positions in owner lists and not the depth (`FilterReach`, `DepthIsNotLimited`,
  `FifthOwnerIsCutShort`).
* The status write-back compares length and inclusion. With a duplicate UID on the cluster it
  takes an outdated list for current (`LooksEqualIsExact`, `DuplicateHidesMissing`). A failed
  write is not repeated, and a definition removed and created again between two changes is not
  written; nothing else makes a status stale (`StatusStaysUpToDateIff`).
* The upload loop drops bytes that a reader returns together with EOF, which Go's reader
  contract permits. The round trip holds if and only if there are none (`RoundTrip`). The only
  caller of `Upload` in the repository reads from memory, which never does that. A file with a
  wrong checksum is refused, but it has been saved by then (`UploadFile`).
* A page token advances if and only if its page is not 0 and the 64-bit product of page - 1 and the
  size is not negative (`TokenAdvancesIff`). So tokens "0" and below list the first rows again, and
  so do huge ones whose product wraps below zero (`HugeTokenGoesBack`). Of pages from 1 on, exactly those
  whose product fits or wraps behind the last row list what they should
  (`ClampedPageIsAPageIff`). Tokens the server hands out from page 1 on are never of that kind
  (`ListFiles`). A page size set without `Paginate` is right if and only if it is between 1 and
  100; -1 on an empty table slices out of range (`DirectSizeWorksIff`).
* With n digesters and n senders a report can hold 2n - 1 events more than the configured maximum,
  one for the configured n = 1 (`BoundIsReached`), and never more than that (`ReportsAreBounded`).
* A 502 answer does not mean that the event was not queued: without delivery confirmation it is
  queued before the destinations are tried (`HandleEvent`).

## Model

| member | source | states |
|---|---|---|
| ViewPipeline.EmitAgreesIff | metering/v2/pkg/stores/store.go:90-258 | whatever is queued, popped, being broadcast or half handled, an operation's change keeps "cache plus changes on their way = index" exactly when the change turns the view of the old entry into the view of the new one |
| ViewPipeline.StepKeepsInv | metering/v2/pkg/mailbox/producers.go:72-114 | emit, index write, pop, send to one listener and handling by one listener, in any order, keep the agreement, the per-key order and the equal sequences of all listeners |
| ViewPipeline.RunKeepsInv | metering/v2/pkg/mailbox/producers.go:72-114 | the same at every state of every run of harmless operations |
| ViewPipeline.RunAgreesIff | metering/v2/pkg/mailbox/producers.go:72-114 | a run agrees at every state if and only if all its operations are harmless: the first harmful one breaks the agreement at once |
| ViewPipeline.ReplayDedup | metering/v2/pkg/mailbox/producers.go:99-114 | merging consecutive deletions in the queue never changes what a replay leaves in the cache |
| ViewPipeline.SendKeepsSequence | metering/v2/pkg/mailbox/mailbox.go:72-95 | at every moment each listener has received the broadcast changes in order, the earlier listeners at most one ahead |
| ViewPipeline.DrainedCacheIsTheView | metering/v2/internal/metrics/prometheus_data.go:64-154 | when nothing is on its way the cache is exactly the view of the index, no key more or less |
| ViewPipeline.DeliveryNeverStuck | metering/v2/pkg/processors/processor.go:53-81 | as long as a change is queued or in flight some pop, send or handling is possible, although channels are unbuffered and listeners slow |
| ViewPipeline.DeliveryStepCounts | metering/v2/pkg/mailbox/producers.go:72-114 | each delivery step uses up exactly one unit of the remaining work |
| ViewPipeline.DeliveryEnds | metering/v2/pkg/mailbox/producers.go:72-114 | if the store stays quiet, no schedule of deliveries exceeds the initial work, and one of that length leaves cache = view |
| PrometheusData.PrometheusDataMap.Add | metering/v2/internal/metrics/prometheus_data.go:128-154 | replaces the object's metrics if the type is the expected one, else fails and changes nothing |
| PrometheusData.PrometheusDataMap.Remove | metering/v2/internal/metrics/prometheus_data.go:109-121 | forgets the object's metrics and no other |
| PrometheusData.PrometheusData.Add | metering/v2/internal/metrics/prometheus_data.go:64-83 | after the loop over all maps the object's slot holds its rendering, no other slot changed; fails exactly for types no map renders |
| PrometheusData.PrometheusData.Remove | metering/v2/internal/metrics/prometheus_data.go:85-107 | the object's slot is empty in whichever map it was, every other slot is untouched |
| PrometheusData.PrometheusProcessor.Process | metering/v2/pkg/processors/prometheus_processor.go:72-108 | handling one change on the real maps is one replay step on the object's slot and touches no other slot |
| PrometheusData.PrometheusMdefProcessor.Process | metering/v2/pkg/processors/prometheus_processor.go:149-191 | the remove-then-add fallthrough is one replay step on the definition's slot; a tombstone is an error without effect |
| Mailbox.Mailbox.RegisterListener | metering/v2/pkg/mailbox/mailbox.go:54-70 | adds the channel behind those already registered under that name |
| Mailbox.Mailbox.Broadcast | metering/v2/pkg/mailbox/mailbox.go:72-95 | every listener of the name gets the change once, nobody else does; an unknown name is an error |
| Mailbox.Mailbox.HandlePop | metering/v2/pkg/mailbox/producers.go:99-114 | every listener of the name receives all popped changes in order, nobody else receives any |
| Dictionary.MeterDefinitionDictionary.FindObjectMatches | metering/v2/pkg/stores/dictionary.go:76-114 | each matching definition exactly once; access problems skip, any other filter error fails the whole look-up |
| Dictionary.MeterDefinitionDictionary.Add | metering/v2/pkg/stores/dictionary.go:135-160 | queues the change and stores the definition, or does nothing if no filter can be built |
| Dictionary.MeterDefinitionDictionary.Update | metering/v2/pkg/stores/dictionary.go:162-198 | an unchanged generation of a known key changes nothing; otherwise the definition is stored and an Updated change of it is the last of its queue, and no other key changes; it does nothing if no filter can be built |
| Dictionary.MeterDefinitionDictionary.Delete | metering/v2/pkg/stores/dictionary.go:200-217 | removes the definition; the deletion is queued unless dictionary and queue both never heard of the key |
| Dictionary.MeterDefinitionDictionary.Replace | metering/v2/pkg/stores/dictionary.go:276-304 | all or nothing; the new contents are the list (last duplicate wins) and the queue is synced against them |
| Dictionary.LastListedWins | metering/v2/pkg/stores/dictionary.go:292-303 | a listed definition is stored as listed last, and its Sync is the last change queued for it |
| Dictionary.DefinitionViewAgrees | metering/v2/pkg/stores/dictionary.go:135-304 | over every run of dictionary calls, Replace among them in its two halves, pops and deliveries: while no Replace drops a definition, the scraped definitions plus the changes on their way are what was queued, and once drained exactly the contents |
| Dictionary.DefinitionViewAgreesIff | metering/v2/pkg/stores/dictionary.go:135-304 | a run agrees at every state if and only if no Replace of it drops a definition |
| Dictionary.SyncAllReplay | metering/v2/pkg/stores/dictionary.go:292-303 | replaying the Sync changes of a Replace shows the last listed version of a listed definition and leaves every other slot alone |
| Dictionary.ReplaceAgreesIff | metering/v2/pkg/stores/dictionary.go:276-304 | Replace keeps the definition view if and only if it drops no definition |
| Dictionary.ReplaceKeepsDroppedMetrics | metering/v2/pkg/stores/dictionary.go:292-298 | a reachable drained state where a dropped definition is still scraped |
| ObjectStore.MeterDefinitionStore.Add | metering/v2/pkg/stores/store.go:90-168 | the entry becomes the object with exactly its current matches; only a match emits; a failed look-up changes nothing |
| ObjectStore.MeterDefinitionStore.Update | metering/v2/pkg/stores/store.go:170-212 | no-op for an unknown object or unchanged generation; else the entry is the object with exactly its current matches and the last change queued is that entry, Added with a match and Deleted without |
| ObjectStore.MeterDefinitionStore.Delete | metering/v2/pkg/stores/store.go:214-258 | no-op for an unknown object, else the stored entry is removed and a deletion carrying that entry with its definitions is the last change queued |
| ObjectStore.MeterDefinitionStore.Replace | metering/v2/pkg/stores/store.go:366-381 | deletes and re-adds the listed objects in order up to the first failed look-up, which leaves that object deleted |
| ObjectStore.MeterDefinitionStore.Resync | metering/v2/pkg/stores/store.go:383-415 | re-matches every indexed object once, in some order, up to the first failed look-up |
| ObjectStore.MeterDefinitionStore.SyncByIndex | metering/v2/pkg/stores/store.go:417-453 | re-matches exactly the objects selected by the index value, once each, up to the first failed look-up |
| StatusOfObjects.DeletedObjectIsUntracked | metering/v2/pkg/stores/store.go:237-246 | once the deletion of an object is processed, no definition of its removed entry tracks it and the others track what they did |
| StatusOfObjects.MatchedObjectIsTracked | metering/v2/pkg/stores/store.go:90-212 | once the change of a written match is processed, each definition of the new entry tracks the object |
| ObjectView.HarmlessIffPermitted | metering/v2/pkg/stores/store.go:90-258 | of all store operations only a bare Add that turns a matched entry into an unmatched one breaks the view |
| ObjectView.StoreOpAgreesIff | metering/v2/pkg/stores/store.go:90-258 | a whole store call keeps the agreement if and only if it is not such an Add |
| ObjectView.BareAddKeepsStaleMetrics | metering/v2/pkg/stores/store.go:98-111 | a reachable drained state where such an Add leaves metrics of an object without a match |
| ObjectView.StoreRunAgreesIff | metering/v2/pkg/stores/store.go:90-258 | a run of any store operations agrees at every state if and only if none of them is a bare Add that drops a match |
| ObjectView.ReAddIsPermitted | metering/v2/pkg/stores/store.go:366-381 | the Add of a Replace never drops a match, whatever pops, deliveries and calls on other keys ran since its Delete released the lock |
| ObjectView.ObjectViewAgrees | metering/v2/pkg/stores/store.go:90-258 | over every interleaving and any answers of the filters, with every unmatched Add on an unmatched key or the second half of a Replace, the agreement holds, and the drained cache holds the metrics of exactly the matched objects |
| ObjectView.RematchKeepsView | metering/v2/pkg/stores/store.go:383-453 | re-matching any objects with any outcome keeps the view without side condition |
| ObjectView.ReplaceKeepsView | metering/v2/pkg/stores/store.go:366-381 | an uninterrupted Replace keeps the view whatever was indexed before, even when it stops half-way |
| ObjectView.ReplacedIsIndexed | metering/v2/pkg/stores/store.go:366-381 | an object listed last under its key is indexed as listed, with exactly its current matches |
| ObjectView.ReplaceLeavesOthersAlone | metering/v2/pkg/stores/store.go:366-381 | keys not listed keep their entry and their queued changes |
| DefinitionWatcher.MeterDefinitionRemovalWatcher.Process | metering/v2/pkg/processors/mdef_processor.go:67-145 | a deletion withdraws the definition's demand and re-matches the objects naming it; an added, updated or synced one adds its demand and re-matches its own namespace, each object once; other changes do nothing; without error all entries concerned are exact, without alert the listing is as before |
| DefinitionWatcher.HandlingAsSteps | metering/v2/pkg/processors/mdef_processor.go:91-145 | what one call of the watcher does to the store is a path of the system: it takes the lock, looks up and writes each object, and ends or fails |
| DefinitionWatcher.WriteKeepsInvIff | metering/v2/pkg/stores/store.go:90-212 | an Add or Update written after its look-up leaves no dangling reference if and only if every definition it matched is still present or its deletion still to be handled |
| DefinitionWatcher.WriteNextKeepsInvIff | metering/v2/pkg/stores/store.go:383-453 | the same for each object a re-match writes, while dictionary calls run in between |
| DefinitionWatcher.FailKeepsInvIff | metering/v2/pkg/stores/store.go:383-453 | a re-match that fails half-way leaves no dangling reference if and only if it handles no deletion, or the definition is back or deleted once more |
| DefinitionWatcher.ReplaceKeepsInvIff | metering/v2/pkg/stores/dictionary.go:276-304 | Replace leaves no dangling reference if and only if every referenced definition it replaces is listed or has a deletion pending or under way for the object |
| DefinitionWatcher.StepKeepsInvIff | metering/v2/pkg/processors/mdef_processor.go:67-145 | the same for every kind of step, with look-ups outside the store lock; calls, pops, look-ups, and beginning or ending a re-match never leave one |
| DefinitionWatcher.NeverDangling | metering/v2/pkg/processors/mdef_processor.go:104-122 | while all steps are safe in that sense, every referenced definition is in the dictionary or its deletion is pending or under way; with nothing left to handle it is in the dictionary |
| DefinitionWatcher.NeverDanglesIff | metering/v2/pkg/processors/mdef_processor.go:104-122 | a run never has a dangling reference if and only if all its steps are safe |
| DefinitionWatcher.RematchWritesAreSafe | metering/v2/pkg/stores/store.go:383-453 | in runs without Replace every write of a re-match is safe, because the store lock is held from its look-up on |
| DefinitionWatcher.FailedHandlingDangles | metering/v2/pkg/processors/mdef_processor.go:104-122 | a run from the start in which one failed look-up while a deletion is handled leaves a dangling reference with nothing left to remove it |
| DefinitionWatcher.ReplaceDangles | metering/v2/pkg/stores/dictionary.go:292-303 | a run from the start in which Replace leaves one, without any error |
| DefinitionWatcher.LateWriteDangles | metering/v2/pkg/stores/store.go:90-112 | a run from the start in which an object matched before a deletion is handled and written after it leaves one, without Replace or error |
| DefinitionWatcher.HandledDeletionIsForgotten | metering/v2/pkg/processors/mdef_processor.go:104-122 | an undisturbed, error-free handling of a deletion leaves no reference to the definition unless it is back in the dictionary |
| DefinitionWatcher.RematchIsExact | metering/v2/pkg/stores/store.go:417-453 | an error-free SyncByIndex leaves in every selected entry exactly the current matches and every other entry as it was |
| DefinitionWatcher.HandledChangeRematchesNamespace | metering/v2/pkg/processors/mdef_processor.go:91-145 | an undisturbed, error-free handling of an added, updated or synced definition makes its own namespace exact and touches nothing outside |
| DefinitionWatcher.DedupKeepsDeletion | metering/v2/pkg/stores/dictionary.go:200-217 | merging deletions in the queue never loses the last one |
| EventAccumulator.EventAccumulator.Add | datareporter/v2/pkg/events/event_accumulator.go:29-39 | appends the message behind those waiting for the same user and manifest type, leaves all others alone and returns the new number |
| EventAccumulator.AccumulatedByFields | datareporter/v2/pkg/events/event_accumulator.go:29-39 | two events wait together exactly if their user and their manifest type are equal |
| EventAccumulator.EventAccumulator.Flush | datareporter/v2/pkg/events/event_accumulator.go:41-48 | returns the key's events in order and forgets the key |
| EventAccumulator.EventAccumulator.FlushAll | datareporter/v2/pkg/events/event_accumulator.go:50-57 | returns everything and leaves nothing |
| EventProtocol.ProcessorSender.Process | datareporter/v2/pkg/events/event_processor.go:161-173 | has the effect of the protocol's Process step on the accumulator, and hands the key over exactly when it is full |
| EventProtocol.ProcessorSender.Send | datareporter/v2/pkg/events/event_processor.go:176-190 | has the effect of the protocol's Flush step and reports exactly that batch |
| EventProtocol.ProcessorSender.SendAll | datareporter/v2/pkg/events/event_processor.go:193-210 | has the effect of the protocol's FlushAll step followed by its ticker steps with the reporter's answers: the batches before the first failure delivered, the rest lost |
| EventProtocol.EventsConserved | datareporter/v2/pkg/events/event_processor.go:161-210 | for every key and interleaving, its batches in flush order followed by what waits are the processed events of that user and manifest type, in order |
| EventProtocol.BatchIsASlice | datareporter/v2/pkg/events/event_processor.go:161-210 | each batch is one slice of its key's events and a later batch starts behind it, so no event is in two |
| EventProtocol.NothingSilentlyLost | datareporter/v2/pkg/events/event_processor.go:176-210 | each undelivered batch has exactly one owner reporting it, or its report failed or was abandoned |
| EventProtocol.ReportIsRecorded | datareporter/v2/pkg/events/event_processor.go:176-210 | a report changes no batch's contents; a successful one delivers its own batch and no other, a failed one of a sender loses its own, one of the ticker all that it still had to report |
| EventProtocol.ReportsAreBounded | datareporter/v2/pkg/events/event_processor.go:107-173 | for any number of digesters and senders a key waits with at most max - 1 + (digesters handing it off) + (senders about to flush it) events; with one of each no report exceeds max + 1 |
| EventProtocol.BoundIsReached | datareporter/v2/pkg/events/event_processor.go:107-173 | for every max and every n there is a run of n digesters and n senders with a report of max - 1 + n + n events |
| NamespaceWatcher.MergeTypeSlice | metering/v2/pkg/filter/namespace_watcher.go:185-199 | the union of two type lists, each type once |
| NamespaceWatcher.FilterTypeSlice | metering/v2/pkg/filter/namespace_watcher.go:201-224 | the types of the first list that are not in the second, each once |
| NamespaceWatcher.MergeMap | metering/v2/pkg/filter/namespace_watcher.go:164-183 | asks for a type in a namespace exactly if one of the two maps does |
| NamespaceWatcher.Collapse | metering/v2/pkg/filter/namespace_watcher.go:129-153 | drops from each specific namespace exactly the types also asked for in all namespaces |
| NamespaceWatcher.NamespaceWatcher.ListNamespaces | metering/v2/pkg/filter/namespace_watcher.go:129-153 | for any map order, lists exactly the demanded pairs less those covered by all namespaces |
| NamespaceWatcher.NamespaceWatcher.AddNamespace | metering/v2/pkg/filter/namespace_watcher.go:67-96 | stored demand stays the union of everything added since the last removal; no alert implies the listed demand did not change |
| NamespaceWatcher.NamespaceWatcher.RemoveNamespace | metering/v2/pkg/filter/namespace_watcher.go:106-119 | forgets exactly this definition's demand; no alert implies the listed demand did not change |
| NamespaceWatcher.ListingByFields | metering/v2/pkg/filter/namespace_watcher.go:129-153 | what is listed in terms of the definitions' own demands: asked for there by one of them, and not by any in all namespaces |
| NamespaceWatcher.CollapseIsExact | metering/v2/pkg/filter/namespace_watcher.go:129-153 | a type is covered in a namespace exactly if some definition asks for it there or everywhere, and is never listed both ways |
| LookupFilter.Test | metering/v2/pkg/filter/filter.go:38-61 | the first filter that does not pass decides, and its index is returned; an empty group fails |
| LookupFilter.Matches | metering/v2/pkg/filter/lookup.go:107-139 | first group that does not simply fail decides; a vanished object does not match, access problems are kept apart; no group left means no match |
| LookupFilter.MatchedIff | metering/v2/pkg/filter/lookup.go:107-139 | an object is matched exactly if some group is not empty, all its filters let the object pass, and every group before it fails; a namespace filter lets pass what lies in a listed namespace or, with "" listed, everything |
| LookupFilter.GroupFailsIff | metering/v2/pkg/filter/filter.go:38-61 | a group fails exactly if it is empty or one of its filters fails behind filters that pass |
| LookupFilter.DecidingGroup | metering/v2/pkg/filter/lookup.go:107-139 | the first group that does not fail decides: matched, unmatched, access denied or failed exactly as that group passes, does not find the object, is denied or is broken |
| LookupFilter.GetNamespaces | metering/v2/pkg/filter/lookup.go:89-101 | asks for every type of a group in every namespace of the same group and for nothing else |
| LookupFilter.DemandByFields | metering/v2/pkg/filter/lookup.go:89-101 | for groups as they are created: a type is asked for in a namespace exactly if one group lists both |
| LookupFilter.CreateFilters | metering/v2/pkg/filter/lookup.go:265-333 | every group is the namespaces, one workload type, then the other filters; the first failed look-up, unknown workload type or bad selector is the error |
| LookupFilter.MatchImpliesDemand | metering/v2/pkg/filter/lookup.go:89-139 | an object a definition matches lies in what the same definition asks to be watched |
| ListerPlanner.CachedListerKeyInjective | metering/v2/pkg/engine/watcher.go:127-129 | the key of a lister names exactly one namespace and type, for all namespaces |
| ListerPlanner.NamespacedCachedListers.NamespaceChange | metering/v2/pkg/engine/watcher.go:131-183 | succeeds exactly if every missing demanded lister starts; then the running keys are the demanded ones, exactly the missing were started, exactly the undemanded stopped, the rest kept; a failure stops nothing and leaves an empty entry |
| ListerPlanner.StartedAndStopped | metering/v2/pkg/engine/watcher.go:131-183 | after success the listers started are those that run now and did not before, and the stopped ones those that did and do not |
| ListerPlanner.StartAllEnters | metering/v2/pkg/engine/watcher.go:139-165 | what the start phase leaves behind in any order of the demand, with and without a failing start |
| ListerPlanner.ReconcileIsIdempotent | metering/v2/pkg/engine/watcher.go:131-183 | a second reconciliation with the same demand starts, stops and changes nothing |
| ListerPlanner.WantedRunsIff | metering/v2/pkg/engine/watcher.go:131-183 | after a successful reconciliation a demanded lister runs if and only if no earlier failed start left its key behind |
| ListerPlanner.RetryAfterFailedStart | metering/v2/pkg/engine/watcher.go:139-165 | after a first call whose start fails, the retry succeeds and starts nothing: that lister never runs |
| WatchCoverage.MatchedObjectIsWatched | metering/v2/pkg/engine/watcher.go:131-183 | from registration over remembered demand, collapse and reconciliation: every object a registered definition can match is in the scope of a running lister |
| WatchCoverage.RegisteredDemandIsKept | metering/v2/pkg/filter/namespace_watcher.go:67-119 | what a definition was registered with is still asked for, whatever was added or removed since for other definitions or added for it |
| WatchCoverage.WatchedIsDemanded | metering/v2/pkg/engine/watcher.go:131-183 | nothing is watched without demand, and no type is watched both in a namespace and everywhere |
| OwnerSearch.SearchIsSound | metering/v2/pkg/filter/filter.go:171-213 | a positive answer always comes with a chain of owners to a matching reference |
| OwnerSearch.SearchIsComplete | metering/v2/pkg/filter/filter.go:171-213 | without look-up errors every chain the depth test lets through is found |
| OwnerSearch.FilterReach | metering/v2/pkg/filter/filter.go:171-213 | found if and only if some chain leads to a match whose positions in the owner lists, but the last two, are below maxDepth - 1 |
| OwnerSearch.ShortListsAreExhaustive | metering/v2/pkg/filter/filter.go:171-213 | exhaustive at any depth when no owner list has maxDepth or more entries |
| OwnerSearch.DepthIsNotLimited | metering/v2/pkg/filter/filter.go:171-213 | chains of every length are followed to the end: maxDepth does not limit depth |
| OwnerSearch.FifthOwnerIsCutShort | metering/v2/pkg/filter/filter.go:171-213 | an owner three steps away is missed because the way to it starts at the fifth entry of a list |
| StatusProcessor.StatusProcessor.Process | metering/v2/pkg/processors/status_processor.go:190-239 | the tracked workloads stay those of the history; each named definition drops the object's UID on a deletion, else tracks it under its key, and is marked for update; the others keep what they track |
| StatusProcessor.AliveIffLatestIsNotDeleted | metering/v2/pkg/processors/status_processor.go:225-235 | a workload is tracked for a definition exactly if the last change naming both since the definition was dropped is no deletion |
| StatusProcessor.StatusProcessor.Flush | metering/v2/pkg/processors/status_processor.go:112-185 | writes exactly the marked definitions that exist and whose calls succeed, with exactly the tracked workloads; forgets exactly the marked ones that are gone, clears every mark |
| StatusProcessor.LooksEqualIsExact | metering/v2/pkg/processors/status_processor.go:147-162 | length plus inclusion decides equality of the UID sets exactly when the cluster's list names no UID twice |
| StatusProcessor.DuplicateHidesMissing | metering/v2/pkg/processors/status_processor.go:147-162 | a list with a duplicate passes the test although a tracked workload is missing |
| StatusProcessor.FlushedStatusAgrees | metering/v2/pkg/processors/status_processor.go:112-185 | after a successful flush of an existing definition its listed UIDs are the tracked ones, each once |
| StatusProcessor.StatusStaysUpToDate | metering/v2/pkg/processors/status_processor.go:112-239 | over runs of changes, flushes and definitions coming and going: every existing tracked definition not marked for update lists exactly the tracked UIDs |
| StatusProcessor.StatusStaysUpToDateIff | metering/v2/pkg/processors/status_processor.go:112-239 | and that if and only if no flush fails on a definition whose list is wrong, and no flushed definition that tracks workloads is removed and created again |
| Paging.TokenRoundTrip | airgap/v2/pkg/database/list_options.go:58-73 | a token written for a page reads back as that page, for every 64-bit page number |
| Paging.AtoiIff | airgap/v2/pkg/database/list_options.go:66-71 | a token is read as a page number exactly if it is an optional sign and digits that denote it and it fits into 64 bits |
| Paging.PaginateReads | airgap/v2/pkg/database/list_options.go:58-73 | a readable token is the page, every other and the empty one is page 1 |
| Paging.ClampedPageIsAPageIff | airgap/v2/pkg/database/scopes.go:32-56 | from page 1 on, with a clamped size, a page is its rows in order with a token exactly when rows follow, if and only if its offset fits into 64 bits or wraps to one behind the last row |
| Paging.DirectSizeWorksIff | airgap/v2/pkg/database/filestore.go:285-324 | a page size set without Paginate acts like its clamped value if and only if it is between 1 and 100 |
| Paging.TokenAdvancesIff | airgap/v2/pkg/database/filestore.go:315-321 | for every 64-bit page number, following a token leads to the row after the last one returned if and only if the page is not 0 and its 64-bit offset product is not negative |
| Paging.HugeTokenGoesBack | airgap/v2/pkg/database/scopes.go:52-54 | a huge page number whose product wraps lists the first rows, and its token leads back to row 84 |
| Paging.ServerListFiles | airgap/v2/internal/server/fileserver.go:136-194 | size 0 means 100, sizes above 100 mean 100, negative ones 10; the size reported back is the size served exactly for 0 to 100 |
| Paging.ListFiles | reporter/v2/pkg/dataservice/dataservice.go:111-139 | for every requested size: all rows in order, none missing or repeated, with just enough requests; a failing request returns the rows of the pages before it |
| Paging.JustEnoughIsCeiling | reporter/v2/pkg/dataservice/dataservice.go:111-139 | that number is max(1, rows / size rounded up) |
| ChunkTransfer.Upload | reporter/v2/pkg/dataservice/dataservice.go:224-309 | sends the info with the id found by key and then every read without error, in order, up to a failing open, send or read; the id of the closing reply is returned exactly on success |
| ChunkTransfer.UploadFile | airgap/v2/internal/server/fileserver.go:48-134 | reassembles the chunks, the last info wins; a broken stream saves nothing and is refused, as are a missing info and missing content; a failing save is reported; a wrong checksum is refused only after saving |
| ChunkTransfer.LastInfoIs | airgap/v2/internal/server/fileserver.go:60-90 | the info used is that of an info message with none behind it, and there is one if any was sent |
| ChunkTransfer.UploadedContent | airgap/v2/internal/server/fileserver.go:48-104 | the server reassembles what the reader held, less the bytes read together with the end |
| ChunkTransfer.ContentsAre | reporter/v2/pkg/dataservice/dataservice.go:270-292 | what a reader holds is the bytes of all reads before the first that ends it, and those read with the end |
| ChunkTransfer.DownloadFile | airgap/v2/internal/server/fileserver.go:297-332 | sends the chunks of the content in order up to a failing send |
| ChunkTransfer.ChunksShape | airgap/v2/internal/server/fileserver.go:295-332 | chunks are non-empty, at most 1024 bytes, full except the last, and ceil(n/1024) many |
| ChunkTransfer.ChunksReassemble | airgap/v2/internal/server/fileserver.go:295-332 | the chunks joined are the content |
| ChunkTransfer.Download | reporter/v2/pkg/dataservice/dataservice.go:149-220 | writes the chunks joined up to a failing write; succeeds exactly if call, file, stream and close are fine and the checksum fits, and reports which was not |
| ChunkTransfer.RoundTrip | reporter/v2/pkg/dataservice/dataservice.go:224-292 | upload, reassembly, chunking and download give back the reader's content if and only if the end came with no bytes; otherwise a prefix |
| ChunkTransfer.AcceptedUploads | airgap/v2/internal/server/fileserver.go:115-124 | with the client's checksum over the whole content, a complete upload is accepted and an incomplete one only on a hash collision |
| UploadFanout.StepKeepsInv | datareporter/v2/pkg/datafilter/datafilter.go:147-168 | no schedule sends on the closed channel or takes the wait group below zero; handed-off codes, counter and closing stay consistent |
| UploadFanout.NeverStuck | datareporter/v2/pkg/datafilter/datafilter.go:147-168 | until the call has returned some goroutine can go on or an upload is in flight |
| UploadFanout.ReturnedHasAllCodes | datareporter/v2/pkg/datafilter/datafilter.go:147-168 | once returned, the codes are exactly one per destination |
| UploadFanout.EverySchedule | datareporter/v2/pkg/datafilter/datafilter.go:147-168 | every schedule of n uploads returns with its (4n + 3)rd step, not before and not later, with one code per destination |
| UploadFanout.FanOut | datareporter/v2/pkg/datafilter/datafilter.go:147-168 | for any choice of steps, ends with the codes of all destinations behind the given ones |
| EventRouting.Upload | datareporter/v2/pkg/uploader/uploader.go:135-268 | the code is in the 2xx range exactly if the destination itself accepted, at once or after a new token; no answer of the authorization endpoint is passed off as acceptance |
| EventRouting.CodesTellAcceptance | datareporter/v2/pkg/server/server.go:101-112 | all gathered codes are 2xx exactly if every destination accepted, in whatever order they came |
| EventRouting.ForDataServiceIs | datareporter/v2/pkg/datafilter/datafilter.go:116-188 | the data service gets the event under the first matching filter's manifest type, "dataReporter" if that is empty or nothing matches, with the message transformed if the transformation succeeds |
| EventRouting.ExchangesAre | datareporter/v2/pkg/datafilter/datafilter.go:147-168 | each destination of the first matching filter, and no other, gets the untransformed message |
| EventRouting.DataFilters.FilterAndUpload | datareporter/v2/pkg/datafilter/datafilter.go:116-188 | first match routes; data service and destinations get the right message; behind the data service's code one code per destination in some order, or [502] alone after a refused confirmation; all are 2xx exactly if all accepted |
| EventRouting.DataFilters.HandleEvent | datareporter/v2/pkg/server/server.go:59-120 | status 200 exactly if the request was admissible, the data service took or queued the event and every destination accepted; the event is queued exactly once even when the answer is 502 |

## Left out

- DeltaFIFO internals: client-go's queue is not part of the repository; the model gives its documented behaviour. Replace on the queue is modelled as the dictionary calls it, after its contents were replaced.
- MeterDefinitionStore.Add: one atomic method here; that the source matches before it takes the lock is in the steps of DefinitionWatcher, and the view theorem allows any match outcome.
- NeverDangling: one look-up reads the dictionary once, as the source's List does; a look-up that fails outside a re-match changes nothing and is no step. A dangling reference left by an unsafe step is mended by the object's next re-match, which is not claimed here.
- HandledChangeRematchesNamespace: a definition that also selects other namespaces is re-matched there only by Resync or by changes of the objects, as in the source.
- ReplaceKeepsView: takes Replace as one uninterrupted block; interleaved with other calls its two halves are separate operations of ObjectViewAgrees, tied by ReAddIsPermitted. That no other reflector adds the same object between the halves is assumed there.
- DefinitionViewAgrees: between the two halves of Replace the view is that of the contents before it; no delivery step reads the contents.
- AddIfNotPresent, DeleteFromIndex, Get, GetByKey, ListKeys: plain look-ups or unused by the pipeline.
- Store errors about unexpected object types and keys: the model's types rule them out, except for tombstones, which are modelled.
- The producer's re-add after a failed pop: it happens only while a channel name has no listener at all, and then puts the change list itself into the store.
- Processor.Start: closing channels, shutdown and error logging; the receive loop is the machine's Handle step. DeliveryEnds is about delivery while the stores are quiet, not about fairness of the Go scheduler.
- Rendering of metrics, labels and WriteAll: an arbitrary function of object and definitions.
- NamespaceWatcher alerts: the channel fan-out behind a true alert; a true alert may be spurious because Go compares list order.
- AddNamespace: the guard of the source compares demands as Go slices, the model as Dafny sequences; nil and empty slices are not told apart.
- NamespaceChange: assumes a maker for every demanded type and namespaces without '*', as the source does; stop functions and goroutines of listers are only counted.
- Namespace look-ups through OperatorGroups and CSVs, label, annotation and owner filters inside LookupFilter: answers of an oracle per resource filter.
- GetOwners: the owner graph is given with a rank, so that it has no cycle; on a cyclic graph the source can run forever.
- StatusProcessor.Process: objects of a kind that NewWorkloadResource does not know are an error in the source; every watched kind is known to it.
- StatusProcessor.Flush: each definition's read-compare-write with its retries is one step that succeeds or fails; the order of the written list (alphabetical in the source) is not modelled.
- Status of lost matches: a change emitted because an object stopped matching names no definitions, so the tracked workload stays; no claim is made that the status equals the current matches.
- EventProtocol: timers, retries inside a report and the error status are not modelled; only safety is claimed, not that a sender ever runs.
- EventRouting: EventChan is an unbounded sequence here; in the source a full engine blocks the request.
- DataFilters.Build: swapping the filters under the write lock, and building them from secrets and configuration; requests hold the read lock, so each sees one list of filters.
- Paging.List: SQL is a fixed ordered sequence of rows; an offset that is not positive is ignored by the query, as in gorm. Filters, deleted rows and conversion errors are left out. Rows are assumed not to exceed the 64-bit int range.
- ChunkTransfer.UploadFile: saving, file identity and metadata are reduced to a file with content and checksum under a given id, or a failure to save; sizes wrap at 32 bits as in the reply.
- ChunkTransfer.Upload: the look-up by key is its answer, an id or none; a look-up error counts as none, as in the source.
- ChunkTransfer.Download: a failing write is taken to write nothing of its chunk.
- Dafny integers are unbounded elsewhere (generations, counters, depths), which no property here depends on.
- TLS, tokens, secrets, JSON parsing, configuration, manifests, PromQL templates, migrations, command lines: plumbing without a property across functions.
- ChunkBy, FindDiff and similar helpers would only add easy members.
