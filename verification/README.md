# A verified model of client-go

This project states what some of the stateful parts of client-go promise and proves it, in Dafny.
`dafny verify dfyconfig.toml` checks all of it.

## What is modelled

**The informer pipeline** (`tools/cache/delta_fifo.go`, `tools/cache/controller.go`). Producers call
Add, Update, Delete, Replace and Resync on a `DeltaFIFO`; `Pop` hands one key's deltas to
`processDeltas`, which updates the client store and notifies handlers.

- `DeltaModel`: items, tombstones, deltas, `dedupDeltas` on its slice, and an independent definition
  (`Collapse`) of what the compression is meant to achieve.
- `FifoSpec`: every locked operation as a function on the state; runs of calls. The specification of
  Replace is the documented one: put the list, then delete what was there and is not listed. The code
  does it in three loops that each look at the state they find.
- `FifoInvariant`, `FifoRuns`: the documented invariant, ordering, bounded waiting and the accounting of
  the initial list, over every run.
- `ProcessSpec`, `InformerSpec`, `InformerProof`, `InformerTheorems`: the informer refines a plain map.
  The *view* of a key is its newest pending delta, or the stored object if nothing is pending. Producer
  calls act on the view as on a map; Resync, Close and Pop do not change it; draining makes the store equal
  to it; notifications always rebuild the store; filtered notifications rebuild the filtered store in
  every history if and only if the filter gives one answer for all items of a key.
- `ClientStore`, `DeltaQueue`, `Controller`: the classes themselves (`Store`, `DeltaFIFO`,
  `FilteringResourceEventHandler`, the informer), each method proved to do what the specification says.
- `FifoContents`, `InformerNotes`: what single operations leave queued, which objects are announced as
  initial, which object a relist reports as deleted, and what passes a filter.
- `InformerSession`: any sequence of producer calls and Pops on these classes is a run of the specification.

Hypotheses, where they are needed: the key function is deterministic; a transformer does not change the
key of an object (`Config.KeyPreserving`), which is enough for the invariant, sound notifications and
convergence; for the refinement it is also idempotent and leaves tombstones alone
(`Config.WellBehaved`); the store is changed by `processDeltas` only; `AddIfNotPresent` is given what an
earlier Pop handed out. Key functions and transformers may fail, and calls that fail are part of every run.

**The fake object tracker** (`testing/fixture.go`). `TrackerSpec` and `TrackerList` hold its meaning on
values: what is stored, what each watcher is sent, the list+watch contract and the order of lists.
`FakeTracker` is the tracker on the heap, with objects as references and with the channels of its
watchers. `TrackerClient` describes a client that only has values; `ClientSession` is one that has
references, overwrites what it can reach and takes events out of channels, and is proved to behave as
the former.

**The retry loops** (`rest/with_retry.go`, `rest/request.go`). `RetrySpec` describes an exchange with a
server attempt by attempt for an arbitrary world (replies, cancellations, limiter, backoff); `Retry` holds
the retry object and the loops of `request`, `Watch` and `Stream`.

**Smaller parts.** `PreferredResources` (selecting and regrouping preferred versions,
`discovery/discovery_client.go`), `Shortcuts` (`restmapper/shortcut.go`), `HeaderEscape`
(`transport/round_trippers.go`) and `ApiPaths` (`openapi3/root.go`).

## Where the code and its documentation differ

- `TransformFunc` is said to see an object before any other actor (`tools/cache/delta_fifo.go:153-155`), but every
  Resync transforms the objects that are already in the store once more.
  `InformerTheorems.ResyncTransformsAgain` says exactly when that is invisible.
- A deletion may report another item than the stored one: a relist that misses an object reports a
  tombstone, and Delete reports whatever it was given. A filter that answers differently for the two
  leaves its handler with a wrong view (`InformerTheorems.FilterLeak`, `InformerTheorems.Inconsistent`).
  `InformerTheorems.FilterIsSafe` says which filters can be installed, and
  `InformerTheorems.FilterIsSafeForObjects` which ones if producers only put real objects.
- `Watch` says it is not rate limited (`rest/request.go:704-705`). It waits for the limiter exactly if there is one,
  the first attempt is sent, its reply calls for another one, and the context is not done by then, because
  `Before` throttles the retries of every caller (`Retry.Request.WatchWaits`, `RetrySpec.WaitsAtAll`).
  `RetrySpec.BusyServer` is an instance; without a limiter, without retries or with an opaque reader as
  body there is never a wait (`RetrySpec.NeverWaits`).
- `WrapPreviousError` is to keep what `errors.Unwrap` gives for a final error that implements Unwrap, and to
  unwrap to a final error that does not (`rest/with_retry.go:93-97`). The first holds exactly if nothing is wrapped,
  the second exactly if something is (`RetrySpec.WrapPromises`).
- A retry sleeps at least as long as the Retry-After header asks only up to 9223372036 seconds;
  a larger number overflows `time.Duration` (`RetrySpec.SleepsLongEnough`).
- Printing a group version as an API path loses information exactly if one of its parts holds a slash
  (`ApiPaths.PrintThenParse`).

## Model

| member | source | states |
|---|---|---|
| DeltaModel.DedupDeltas | tools/cache/delta_fifo.go:403-418 | in place, the slice becomes its deduplicated form, at most one slot shorter |
| DeltaModel.DedupIsCollapse | tools/cache/delta_fifo.go:403-438 | appending one delta and deduplicating the tail equals collapsing the whole longer log, where a collapse turns each maximal run of deletions into one entry and keeps the rest |
| DeltaModel.RepresentativeMeaning | tools/cache/delta_fifo.go:426-438 | a run of deletions is represented by its first deletion with a real object, or by its last tombstone if there is none |
| DeltaModel.RealDeletionStays | tools/cache/delta_fifo.go:433-437 | once a real final state is the newest delta, no later deletion displaces it |
| DeltaModel.CollapseKeepsTheRest | tools/cache/delta_fifo.go:400-402 | compression drops no delta other than deletions and keeps their order |
| DeltaModel.CollapseSeparates | tools/cache/delta_fifo.go:400-402 | a compressed list never has two deletions side by side and starts with the same kind as its log |
| DeltaModel.CollapseFixes | tools/cache/delta_fifo.go:390-398 | a list without adjacent deletions is its own compression, so a requeued list needs no further compression |
| DeltaModel.CollapseSubset | tools/cache/delta_fifo.go:400-402 | compression invents no delta |
| FifoInvariant.QueueActionInv | tools/cache/delta_fifo.go:442-485 | queueActionLocked keeps the invariant (also when it fails) and only ever adds keys at the back of the queue |
| FifoInvariant.ReplaceKeys | tools/cache/delta_fifo.go:623-702 | after a successful Replace exactly the listed keys and the keys that were queued or known before are queued |
| FifoInvariant.ReplaceCounts | tools/cache/delta_fifo.go:694-700 | a Replace that populates the queue records exactly the length of the queue it leaves |
| FifoInvariant.ReplaceInv | tools/cache/delta_fifo.go:623-702 | Replace keeps the invariant, also when it stops half-way with an error |
| FifoInvariant.PopInv | tools/cache/delta_fifo.go:563-612 | Pop keeps the invariant with and without a requeue, and the head of the queue is always in items |
| FifoInvariant.StepInv | tools/cache/delta_fifo.go:101-143 | every operation keeps the invariant |
| FifoInvariant.RunInv | tools/cache/delta_fifo.go:106-113 | over every run: queue and items have the same keys without duplicates, every list is non-empty, has no adjacent deletions, holds only objects of its key, and is the collapse of everything applied to the key since it was last popped |
| FifoRuns.Belt | tools/cache/delta_fifo.go:563-612 | over every run keys are delivered in queue order, one per Pop, whatever producers, requeues and Close do in between |
| FifoRuns.BoundedWait | tools/cache/delta_fifo.go:553-612 | the key at index i is delivered by exactly the (i+1)-th later Pop, and before that is still queued, that much closer to the front |
| FifoRuns.InitialFlags | tools/cache/delta_fifo.go:577-583 | from any populated state the next initialPopulationCount deliveries are flagged isInInitialList and no later one is; synced stays synced |
| FifoRuns.InitialSync | tools/cache/delta_fifo.go:298-308 | if a Replace populates the queue, the deliveries flagged isInInitialList are exactly its queue in order, the rest of it stays at the front, and HasSynced is true exactly once all of it has been popped |
| FifoRuns.OtherFirstCalls | tools/cache/delta_fifo.go:298-362 | exactly which first calls populate the queue: Add, Update, a Delete or AddIfNotPresent that gets to a key, a Replace that succeeds, a requeue; all but Replace count as synced at once |
| FifoRuns.OnlyCloseCloses | tools/cache/delta_fifo.go:276-281 | Close closes the queue, nothing else does, and nothing opens it |
| FifoContents.PutContents | tools/cache/delta_fifo.go:312-325 | Add and Update have the last word on their key, with their own delta type and the transformed item, and touch no other key; which error they return |
| FifoContents.DeleteContents | tools/cache/delta_fifo.go:332-362 | Delete records a deletion of the given item unless one was the last word already, nothing for a key that is neither queued nor known, and touches no other key |
| FifoContents.AddIfNotPresentContents | tools/cache/delta_fifo.go:390-398 | a queued key keeps its deltas and its place, an absent key gets exactly the given ones at the back |
| FifoContents.PopContents | tools/cache/delta_fifo.go:590-607 | Pop takes the head off the queue; a requeue puts the same deltas back, at the back |
| FifoContents.ResyncContents | tools/cache/delta_fifo.go:724-750 | a Resync queues the stored object of each known key that was not queued, as Sync, and nothing else |
| FifoContents.ListedContents | tools/cache/delta_fifo.go:632-650 | the last word of a Replace on a listed key is of type Replaced or Sync, as the queue was set up |
| FifoContents.GoneContents | tools/cache/delta_fifo.go:652-692 | a key that a Replace deletes gets one more entry, a tombstone |
| DeltaQueue.DeltaFIFO.QueueActionLocked | tools/cache/delta_fifo.go:442-485 | the new state and the error are those of the specification; the branch for an empty compressed list is unreachable |
| DeltaQueue.DeltaFIFO.Add | tools/cache/delta_fifo.go:312-317 | the new state and the error are those of an Add step |
| DeltaQueue.DeltaFIFO.Update | tools/cache/delta_fifo.go:320-325 | the new state and the error are those of an Update step |
| DeltaQueue.DeltaFIFO.Delete | tools/cache/delta_fifo.go:332-362 | the new state and the error are those of a Delete step; deleting a key that is neither queued nor known only populates |
| DeltaQueue.DeltaFIFO.AddIfNotPresent | tools/cache/delta_fifo.go:373-398 | the new state and the error are those of an AddIfNotPresent step: a queued key keeps its newer deltas |
| DeltaQueue.DeltaFIFO.TakeHead | tools/cache/delta_fifo.go:563-597 | the part of Pop before the process function; it reports closed only on an empty queue, and its missing-item branch is unreachable |
| DeltaQueue.DeltaFIFO.Pop | tools/cache/delta_fifo.go:563-612 | Pop is a Pop step, with a requeue if the process function asked for one; it returns the deltas of the head of the queue and the process function's error, or only ErrFIFOClosed on an empty queue |
| DeltaQueue.DeltaFIFO.Close | tools/cache/delta_fifo.go:276-281 | Close changes the closed flag and nothing else, so it discards no key |
| DeltaQueue.DeltaFIFO.HasSynced | tools/cache/delta_fifo.go:300-308 | synced exactly if populated and no initial item is left |
| DeltaQueue.DeltaFIFO.Resync | tools/cache/delta_fifo.go:707-750 | a Resync step over the known keys, in the order in which the store lists them |
| DeltaQueue.DeltaFIFO.Replace | tools/cache/delta_fifo.go:623-702 | the three loops together are one Replace step: put the list, then one tombstone, wrapping the latest known object, for each queued or known key that is not listed |
| DeltaQueue.StagedIsAtOnce | tools/cache/delta_fifo.go:635-692 | deletion sweeps that look at the state they find queue what the specification computes from the state before the call |
| ClientStore.Store.Put | tools/cache/store.go:169-186 | the entry of the object's key is replaced, or a key error leaves the store alone |
| ClientStore.Store.Delete | tools/cache/store.go:189-196 | the entry of the object's key is removed, or a key error leaves the store alone |
| ClientStore.Store.ListKeys | tools/cache/store.go:206-208 | all keys, each once, in no particular order |
| ProcessSpec.ProcessGood | tools/cache/controller.go:436-468 | processing the pending deltas of a key never fails, leaves in the store what the newest one says, and sends notifications that rebuild the store |
| ProcessSpec.FilteredView | tools/cache/controller.go:292-327 | a nested handler can rebuild the passing part of the store after every notification, if and only if at each deletion the filter judges the reported object as it judges the stored one |
| ProcessSpec.FilterStep | tools/cache/controller.go:298-327 | one notification passes a filter faithfully if and only if it is coherent |
| Controller.ProcessDelta | tools/cache/controller.go:443-466 | store, notification and error after one delta |
| Controller.ProcessDeltas | tools/cache/controller.go:436-468 | store, notifications and error are those of the specification, from oldest to newest, stopping at the first error |
| Controller.FilteringResourceEventHandler.OnAdd | tools/cache/controller.go:298-303 | the nested handler gets what the filter specification says |
| Controller.FilteringResourceEventHandler.OnUpdate | tools/cache/controller.go:306-319 | an update across the filter's border becomes an add or a delete |
| Controller.FilteringResourceEventHandler.OnDelete | tools/cache/controller.go:322-327 | the nested handler gets what the filter specification says |
| Controller.ResourceEventHandler.OnAdd | tools/cache/controller.go:217-221 | whatever the informer is given as its handler is notified, and the handler behind a filter has been told exactly the filtered trace |
| Controller.ResourceEventHandler.OnUpdate | tools/cache/controller.go:217-221 | the same for updates |
| Controller.ResourceEventHandler.OnDelete | tools/cache/controller.go:217-221 | the same for deletions |
| Controller.InformerController.constructor | tools/cache/controller.go:483-515 | the parts are wired together: the store is the known objects of the queue |
| Controller.InformerController.PopProcess | tools/cache/controller.go:497-513 | one Pop with processDeltas is one Pop move of the informer |
| Controller.InformerController.ProcessLoop | tools/cache/controller.go:186-199 | after Close the loop ends with an empty queue, the store equal to the view at the start, and notifications that rebuild it |
| Controller.InformerController.PopNext | tools/cache/controller.go:186-199 | one pass of the loop takes one key off the queue without error and leaves the view alone |
| InformerSession.Session | tools/cache/controller.go:483-515 | any sequence of calls on the classes is a run of allowed moves of the specification, one for each call in order except Pops of an empty queue; the handler has been told exactly the filtered trace, and nothing that its filter rejects |
| InformerSession.FilteredInformer | tools/cache/controller.go:292-327 | a new informer after any sequence of calls, with a filter that gives one answer for all items of a key: the handler behind it rebuilds exactly the passing part of the store |
| InformerProof.QueueAllSound | tools/cache/delta_fifo.go:442-485 | with any key-preserving transformer a batch whose deletions are of queued or stored keys keeps the notifications sound |
| InformerProof.QueueAllInformer | tools/cache/delta_fifo.go:442-485 | a batch of queue actions moves the view entry by entry, up to the first error |
| InformerProof.ReplaceInformer | tools/cache/delta_fifo.go:623-702 | Replace makes the view exactly the list (last duplicate wins); with an unacceptable item it fails after putting those before it |
| InformerProof.ResyncInformer | tools/cache/delta_fifo.go:707-750 | Resync never fails and leaves the view alone |
| InformerProof.PopSound | tools/cache/controller.go:436-468 | with any transformer a Pop with processDeltas never fails, leaves the view alone and keeps the notifications sound |
| InformerProof.MoveSound | tools/cache/delta_fifo.go:312-362 | with any key-preserving transformer each move keeps the queue in order and the notifications in agreement with the store |
| InformerProof.RunSound | tools/cache/controller.go:436-468 | the same over every run |
| InformerProof.MoveRefines | tools/cache/delta_fifo.go:312-362 | each move acts on the view as the ideal map does and keeps the invariant |
| InformerProof.RunRefines | tools/cache/delta_fifo.go:59-100 | over every run the informer refines a plain map with put, delete and become-exactly-this-list |
| InformerTheorems.EveryHistory | tools/cache/controller.go:436-468 | after every history the whole notification trace replays to the store (adds of absent keys, updates of present ones with the stored old object, deletes of present ones); with a well-behaved transformer the view is what the producer's calls make of an empty map |
| InformerTheorems.Converges | tools/cache/delta_fifo.go:563-612 | as many Pops as there are queued keys empty the queue and make the store equal to the view |
| InformerTheorems.RelistConverges | tools/cache/delta_fifo.go:617-702 | any history followed by a Replace and a drain leaves the store holding exactly the list |
| InformerTheorems.PutAllIsTheList | tools/cache/delta_fifo.go:640-650 | the map a list makes has one entry per listed key, from the last item with that key |
| InformerTheorems.FilterIsSafe | tools/cache/controller.go:287-327 | a filtered view is right at every moment of every history if and only if the filter gives the same answer for any two items of one key that the transformer leaves as they are |
| InformerTheorems.FilterIsSafeForObjects | tools/cache/controller.go:287-327 | over the histories of producers that put real objects and delete with real objects or flat tombstones, a filtered view is always right if and only if the filter judges each real object like every real object and flat tombstone of its key |
| InformerTheorems.Inconsistent | tools/cache/controller.go:298-327 | for every filter that judges two settled items of one key differently, adding the one and deleting the other makes its view wrong although the store is empty |
| InformerTheorems.FilteredHistory | tools/cache/controller.go:292-327 | over every single history, the filtered view is right at all times if and only if the filter is coherent on the deletions in it |
| InformerTheorems.KeyFiltersAreCoherent | tools/cache/controller.go:287-295 | a filter that looks only at keys is always safe |
| InformerTheorems.FilterLeak | tools/cache/controller.go:322-327 | for every filter that accepts an object and rejects its tombstone, a four-step history leaves the object in the filtered view although the store is empty |
| InformerTheorems.ResyncTransformsAgain | tools/cache/delta_fifo.go:707-750 | Resync fails if and only if a stored object that is not queued cannot be transformed again, and leaves the view alone if and only if those it handled before are fixed points of the transformer |
| InformerTheorems.ResyncCanChange | tools/cache/delta_fifo.go:707-750 | after Add and Pop, a Resync fails exactly if the transformer rejects its own output and changes the view exactly if it changes it |
| InformerTheorems.TombstonesNeverNest | tools/cache/delta_fifo.go:655-692 | over every run of producers that pass real objects, and real objects or flat tombstones to Delete, no tombstone wraps a tombstone, none reaches the store, and handlers see them in deletions only |
| InformerNotes.FinalStates | tools/cache/delta_fifo.go:652-692 | after a Replace the last word on an object it misses is a tombstone around the state in which the informer last heard of it, queued or only stored; a key whose last word was a deletion keeps exactly its deltas |
| InformerNotes.RelistReports | tools/cache/delta_fifo.go:652-692 | the same over every history of disciplined producers |
| InformerNotes.StepFlags | tools/cache/controller.go:453-461 | only a Pop tells handlers anything, and each OnAdd in it carries as its flag whether the queue had not synced before |
| InformerNotes.InitialNotifications | tools/cache/controller.go:436-468 | if a Replace populates the queue, the OnAdds flagged as initial are exactly those sent by as many later Pops as keys were queued then |
| InformerNotes.SyncedNotifications | tools/cache/delta_fifo.go:298-308 | once synced, no OnAdd is ever flagged as initial again |
| InformerNotes.FirstList | tools/cache/delta_fifo.go:623-702 | a new informer given a list of different objects announces each exactly once, as initial, in the order of the list |
| InformerNotes.OnlyPassing | tools/cache/controller.go:292-327 | a handler behind a filter is never told of an object that the filter rejects |
| InformerNotes.UpdateBehindFilter | tools/cache/controller.go:306-319 | in terms of the nested handler's own copy: an update is the deletion of exactly the object it holds, an update of that object, a later add, or nothing |
| InformerNotes.InitialPassing | tools/cache/controller.go:298-319 | the nested handler hears of exactly the initial objects that pass, in order; an object that comes to pass later is not initial |
| TrackerSpec.GetWatchesExact | testing/fixture.go:363-376 | getWatches lists every watcher of the namespace or of all namespaces exactly once and no other |
| TrackerSpec.SendExact | testing/fixture.go:412-432 | every listed watcher gets the event once, nobody else gets anything |
| TrackerSpec.AddEffect | testing/fixture.go:378-435 | Create succeeds exactly on absent names and Update exactly on present ones in the right namespace; success sends one fitting event to every interested watcher, failure changes and sends nothing |
| TrackerSpec.DeleteEffect | testing/fixture.go:454-477 | Delete succeeds exactly on present names and announces the object as it was stored |
| TrackerSpec.WatchEffect | testing/fixture.go:273-284 | a new watcher starts with an empty channel and disturbs nobody |
| TrackerSpec.VisibleMoves | testing/fixture.go:363-376 | an event moves what interested watchers see exactly as it moves the objects, and nothing that others see |
| TrackerSpec.RunInStep | testing/fixture.go:273-284 | a client in step with its watcher stays in step over every run |
| TrackerSpec.ListWatch | testing/fixture.go:234-284 | list at the moment of watch, replay what the watcher is sent: after every run the result is exactly what is visible then, for one namespace and for all |
| TrackerClient.WatchingIsEnough | testing/fixture.go:234-284 | what a client has taken out of its channel always applies to the list at the moment of watch, and whenever the channel is empty the result is exactly what is visible then, after any actions of clients |
| TrackerClient.FromTheStart | testing/fixture.go:225-232 | so for every session that begins with a new tracker |
| TrackerClient.OnlyCallsCount | testing/fixture.go:273-284 | after any actions the tracker is what the create, update, delete and watch calls among them make of it, each with what its argument held at the call; overwriting, reading and receiving count for nothing |
| TrackerClient.ActAllSane | testing/fixture.go:273-284 | what a client has received from a watcher is always the beginning of what was sent, and is never changed later |
| TrackerSpec.RunInv | testing/fixture.go:209-220 | over every run objects are filed under their own names and watcher lists hold their watchers once |
| TrackerSpec.GetFinds | testing/fixture.go:286-313 | Get is NotFound exactly if no stored object has this namespace and name, and otherwise gives exactly that object, or an error exactly if it is a failed status |
| TrackerSpec.GetAfterRun | testing/fixture.go:286-313 | the same after every run |
| TrackerSpec.GetAgreesWithList | testing/fixture.go:286-313 | an object is visible in a namespace exactly if Get finds it there |
| TrackerSpec.WriteThenRead | testing/fixture.go:378-435 | which error Create and Update give, in terms of what Get finds before; afterwards Get finds the object with the namespace of the request, and everything else as before |
| TrackerSpec.DeleteThenRead | testing/fixture.go:454-477 | Delete is NotFound exactly where Get is, and afterwards Get is, with everything else as before |
| TrackerList.ListingUnique | testing/fixture.go:479-503 | a listing does not depend on the order of the map iteration |
| TrackerList.ListingDetermines | testing/fixture.go:479-503 | a listing determines the visible objects, so equal lists mean equal views |
| TrackerList.SortedUnique | testing/fixture.go:490-501 | two strictly sorted lists of the same objects are equal |
| TrackerList.ListingOrder | testing/fixture.go:490-501 | a listing goes by namespaces and by names within one, in the order of the first difference |
| TrackerList.StringLessMeaning | testing/fixture.go:490-501 | one string is less than another exactly if the first difference says so or it is a beginning of it |
| FakeTracker.FilterByNamespace | testing/fixture.go:479-503 | exactly the visible objects, each once, strictly sorted by namespace and name |
| FakeTracker.FakeWatcher.Push | testing/fixture.go:412-432 | one more event in the channel |
| FakeTracker.ObjectTracker.PushCopy | testing/fixture.go:412-432 | the channel of one watcher gets an event with a fresh copy that says what the object says now; every event waiting anywhere still says what it was sent to say |
| FakeTracker.ObjectTracker.Receive | testing/fixture.go:273-284 | the next event in a channel says what the watcher was meant to be told, and its object is in nobody else's hands |
| FakeTracker.ObjectTracker.Watch | testing/fixture.go:273-284 | a Watch step; the new watcher is fresh |
| FakeTracker.ObjectTracker.GetWatches | testing/fixture.go:363-376 | the watchers of the namespace, then those of all namespaces unless that is the namespace |
| FakeTracker.ObjectTracker.NotifyAll | testing/fixture.go:412-432 | every watcher in the list is sent the event once, and as many events are in each channel and received as the model sent, those waiting with the content they were sent with |
| FakeTracker.ObjectTracker.Add | testing/fixture.go:378-435 | an Update or Create step on the value the argument had at the call, in the objects and in every channel; only fresh objects are stored or sent |
| FakeTracker.ObjectTracker.Delete | testing/fixture.go:454-477 | a Delete step in the objects and in every channel; watchers get fresh copies of the removed object |
| FakeTracker.ObjectTracker.Get | testing/fixture.go:286-313 | a fresh copy of what Get finds, or its error; see TrackerSpec.GetFinds |
| FakeTracker.ObjectTracker.List | testing/fixture.go:234-271 | fresh copies forming the sorted listing of the visible objects |
| ClientSession.Client.Session | testing/fixture.go:225-232 | any session of a client that holds references ends exactly as that of a client on values: its objects, what it received, the tracker and the channels |
| ClientSession.Client.Act | testing/fixture.go:270-313 | each single action does to the tracker, the channels and the objects in reach exactly what it does on values |
| ClientSession.Client.InTheChannel | testing/fixture.go:273-284 | the channel on the heap is empty exactly if it is on values |
| RetrySpec.SleepsLongEnough | rest/with_retry.go:183-222 | a retry sleeps at least the backoff; it sleeps at least the server's Retry-After if and only if that is at most 9223372036 seconds, and then no longer than the longer of the two |
| RetrySpec.RetryDelayMeaning | rest/with_retry.go:309-318 | a response asks for another attempt exactly if its status is 429 or at least 500 and it says how many seconds to wait, an error exactly if it is retryable, after one second |
| Retry.RetryableMeaning | rest/request.go:1000-1012 | which errors are retryable, through any number of url.Errors: for a GET a connection reset or an unexpected end, for a Watch an unexpected end or a timeout, for anything else none |
| Retry.AnswerMeaning | rest/request.go:737-766 | Watch gives a stream exactly for a 200 that can be streamed and hides exactly the final retryable errors; Stream gives the response exactly for a 2xx |
| RetrySpec.LatestErrorMeaning | rest/with_retry.go:129-137 | the previous error is nil exactly if no earlier attempt failed and otherwise is the error of the last one that did |
| RetrySpec.Accounts | rest/with_retry.go:238-266 | n attempts make n sends, n result and n-1 retry metrics, n sleeps and n-1 waits for the limiter |
| RetrySpec.CourseBound | rest/with_retry.go:148-168 | at most maxRetries+1 attempts, and at most one with an opaque reader |
| RetrySpec.CourseUnique | rest/with_retry.go:148-191 | the world determines the attempts, their sleeps and how the exchange ends |
| RetrySpec.ExchangeTotals | rest/request.go:1010-1053 | however an exchange ends: at most maxRetries+1 sends, a reader sent at most once, one result metric per send, one retry metric per send but the first, the response handed over once if it finished with one and else never |
| RetrySpec.WaitBeforeSend | rest/with_retry.go:195-236 | at every moment of an exchange waits for the limiter and sends alternate: each send after the first has its own wait since the one before |
| RetrySpec.ExchangeInShape | rest/with_retry.go:195-266 | in every exchange each send comes straight after the sleep of its attempt, or for a retry with a limiter after the wait that follows the sleep, and its result is counted at once |
| RetrySpec.WrapPreviousMeaning | rest/with_retry.go:268-307 | the answer is the final error or unwraps to it; it mentions a second error exactly if one exists with another text, and then that is the previous error, taken out of a url.Error |
| RetrySpec.WrapPromises | rest/with_retry.go:93-98 | of the three documented conditions the one on a final error with Unwrap holds exactly if nothing is wrapped, the one on a final error without it exactly if something is, and errors.Is is kept for every target but the wrapper |
| RetrySpec.ExactWaits | rest/with_retry.go:195-236 | how often a loop waits for the limiter, however it ends: once per send but the first, and once more if a retry is given up after its wait |
| RetrySpec.WaitsAtAll | rest/with_retry.go:224-231 | a loop waits for the limiter if and only if there is one, the first attempt is sent, its reply calls for another and the context is not done by then |
| RetrySpec.NeverWaits | rest/with_retry.go:154-168 | without a limiter, without retries or with a reader as body no loop waits |
| RetrySpec.BusyServer | rest/with_retry.go:195-236 | against a server that answers 429 with a Retry-After header, a request with one retry waits once |
| RetrySpec.OneWaitPerSend | rest/request.go:987-992 | where the limiter is waited for ahead of the loop, a finished exchange waits once per send and one given up that often or once more |
| Retry.Request.EndedTotals | rest/request.go:915-935 | however any of the three loops ends: the bounds and accounts hold, the response is consumed at most once, sends are in shape, and each carried the reader's content, or else the bytes, or nothing if there are neither |
| Retry.WithRetry.TrackPreviousError | rest/with_retry.go:140-146 | currentErr is the latest outcome and previousErr the most recent error before it |
| Retry.WithRetry.IsNextRetry | rest/with_retry.go:148-191 | another attempt exactly if there is a request, no opaque reader, an attempt left and a reply that asks for one; the outcome is tracked and the wait recorded |
| Retry.Request.Before | rest/with_retry.go:195-236 | the error of a done context, or for a retry that of a refusing limiter, or none; sleeps the longer of backoff and wait unless the context is done; tracks the context's error when it aborts |
| Retry.Request.After | rest/with_retry.go:238-266 | the metrics and the backoff update of one attempt; the retry parameters are cleared |
| Retry.Request.NewHTTPRequest | rest/request.go:915-935 | the reader's content, or else the bytes, or nothing if there are neither; an error exactly if both are set or the request cannot be built |
| Retry.Request.TryOnce | rest/request.go:1011-1027 | one pass of a loop: either the attempt was refused, with exactly the error, the sleep and the wait of that refusal and nothing sent, or it is accounted for |
| Retry.Request.Execute | rest/request.go:965-1053 | terminates; the log is exactly the course the world calls for, finished or given up, with the response consumed once if there is one; the result is the last error, or the error it was given up for, with the most recent one before it |
| Retry.Request.Watch | rest/request.go:703-769 | terminates; the exact log, for status 200 a stream or the error of its content type, an empty watch exactly for a final retryable error, else the wrapped error, also when given up |
| Retry.Request.WatchWaits | rest/request.go:703-727 | when a Watch waits for the limiter although it is documented not to, and how often |
| Retry.Request.Stream | rest/request.go:831-884 | terminates; the exact log, the response exactly for a 2xx status, otherwise exactly the error of the reply, the limiter, the context or the request, unwrapped |
| PreferredResources.ServerPreferredResources | discovery/discovery_client.go:516-559 | one list per fetched version in order; each list holds exactly the resources chosen for that version, each name once and no subresource, whatever the order of the map iteration |
| PreferredResources.ListsInOrder | discovery/discovery_client.go:521-536 | the lists of some groups come before those of later groups |
| PreferredResources.VersionsInOrder | discovery/discovery_client.go:521-536 | within a group the lists of some versions come before those of later ones |
| PreferredResources.OneVersion | discovery/discovery_client.go:525-536 | a version has a list exactly if it was fetched |
| PreferredResources.PreferredOnce | discovery/discovery_client.go:516-559 | with distinct group names a served resource is in exactly one list, once: that of the preferred version if listed and serving, else of the earliest version that serves it |
| PreferredResources.GroupChoice | discovery/discovery_client.go:521-548 | a resource is chosen exactly if a version serves it, and the preferred version wins |
| PreferredResources.GroupEarliest | discovery/discovery_client.go:541-546 | what is not chosen from the preferred version is chosen from the earliest that serves it |
| PreferredResources.ChoiceIsLocal | discovery/discovery_client.go:540-546 | the choice for a resource depends on its own group only |
| PreferredResources.PreferredWins | discovery/discovery_client.go:541-546 | the last candidate of a preferred version is chosen |
| PreferredResources.EarliestWins | discovery/discovery_client.go:541-546 | without a preferred candidate the first one is chosen |
| PreferredResources.EntriesHaveLists | discovery/discovery_client.go:551-556 | the lookup that regroups a chosen resource never misses |
| PreferredResources.Selection.Regroup | discovery/discovery_client.go:551-556 | every chosen resource ends in the list of its version, once |
| Shortcuts.GetShortcutMappings | restmapper/shortcut.go:94-122 | every short name of the snapshot in its order, skipping lists whose version does not parse |
| Shortcuts.MappingsExact | restmapper/shortcut.go:94-122 | a shortcut is in the result if and only if some entry of a list with a valid version has it as a short name, for its name in its group |
| Shortcuts.ExpandResourceShortcut | restmapper/shortcut.go:128-171 | full names stay; else the first fitting shortcut; else, if a group is given, the first shortcut whose group it is a prefix of; else unchanged |
| Shortcuts.ExpansionIsListed | restmapper/shortcut.go:146-166 | the version is kept; a changed result is a full name listed under exactly its group, with the original as one of its short names and the original group as a prefix |
| Shortcuts.ExpansionUnique | restmapper/shortcut.go:128-171 | a snapshot determines the expansion |
| Shortcuts.ExpansionByPlace | restmapper/shortcut.go:128-171 | by places in the snapshot: a resource named by an entry, plural or singular, in a fitting group stays; else the earliest entry with a fitting group that has it as a short name decides; else, if a group is given, the earliest one whose group begins with it; else it stays |
| Shortcuts.ExpansionIdempotent | restmapper/shortcut.go:124-171 | expanding an expanded resource changes nothing |
| HeaderEscape.HeaderKeyEscape | transport/round_trippers.go:602-614 | the loop escapes byte by byte |
| HeaderEscape.RoundTrip | transport/round_trippers.go:600-614 | percent-decoding an escaped key gives the key back |
| HeaderEscape.Injective | transport/round_trippers.go:600-614 | different keys have different escapes |
| HeaderEscape.EscapeIsToken | transport/round_trippers.go:592-697 | an escaped key consists of token bytes, and a key is its own escape exactly if no byte of it needs escaping |
| HeaderEscape.TokenBytes | transport/round_trippers.go:592-697 | the table holds exactly the token characters of RFC 7230, and a byte is left as it is exactly if it is one other than a percent sign |
| HeaderEscape.EscapesAreUpperCase | transport/round_trippers.go:605-611 | every percent sign in the output is followed by two upper-case hexadecimal digits |
| ApiPaths.PrintThenParse | openapi3/root.go:137-172 | parsing a printed path returns the group version if and only if neither part holds a slash |
| ApiPaths.PrintInjective | openapi3/root.go:137-145 | on such group versions printing is injective |
| ApiPaths.ParseThenPrint | openapi3/root.go:152-172 | a path that parses is the printed form of its group version if and only if nothing follows the version and a group is named under apis |
| ApiPaths.ParsedIsPlain | openapi3/root.go:152-172 | what parsing returns never holds a slash |
| ApiPaths.Forms | openapi3/root.go:133-151 | the documented examples, printed and parsed |
| ApiPaths.NotParsed | openapi3/root.go:152-172 | which paths are not parsed and with which error |

## Left out

- Goroutines, mutexes and condition variables: each locked section is one atomic step, and a Pop that would block is a step that is not enabled.
- Process functions that call back into the queue: Pop takes what the function answered; PopProcess is Pop with processDeltas.
- AddIfNotPresent with something that is not a Deltas, and Deltas passed to Add, Update or Delete: the static types exclude them.
- Errors of KeyGetter.GetByKey and a knownObjects other than a store: the client store never returns such errors.
- Slices shared between a requeued delivery and items: deltas are values, except inside DeltaModel.DedupDeltas.
- The kinds of error a key function or transformer returns, and the metrics, tracing and logging around the queue.
- RetryOnError in processLoop: newInformer switches it off.
- DeltaFIFO.List, ListKeys, Get, GetByKey and IsClosed: easy members.
- The reflector, indexers of the store and the shared informer on top of the queue.
- Object reactions with JSON, merge and strategic patches, schemes and kinds of the fake tracker, its Add for objects of unknown resource and for lists: library calls that are not part of this model.
- The capacity of watcher channels and their panic when full, and Stop, after which a watcher is sent nothing: channels are unbounded and never stopped here.
- Several clients of one tracker: ClientSession has one, who may hold everything that clients hold together.
- FakeTracker.ObjectTracker.List: the conversion into a typed list object is not modelled, only its items.
- FakeTracker.FilterByNamespace: sort.Slice is represented by inserting each object into a sorted list.
- Strings are sequences of characters except in HeaderEscape, where they are bytes; StringLess compares characters.
- http.Client.Do answers with both a response and an error when a redirect is refused; here it answers with one of them.
- Filters behind filters: a handler is behind at most one.
- HTTP itself, decoding of results, warnings, latency and size metrics, timeouts: an attempt is its reply, and contexts are arbitrary values at each attempt.
- Retry.Request.Before: the backoff manager is never nil, as NewRequest makes sure.
- How Body and MaxRetries fill a Request: a Setup holds the outcome.
- PreferredResources.ServerPreferredResources: the error for failed groups and the order of resources inside a list, which depends on the map iteration; lists are named by group and version instead of the label the server printed.
- Fetching discovery documents and their caches.
- GroupVersions of openapi3 and its sort: an easy member.
