# A verified model of the Kubernetes schedule simulator

The simulator drives a Kubernetes scheduler without a cluster. A resource store holds pods, nodes, services, volumes and
claims. A fake REST client answers the scheduler's list, get and watch requests from that store. Each watch is a byte
pipe, the watch buffer, fed by the store's event handlers. A driver takes simulated pods from a stack and adds one at a
time to the store; the scheduler answers each by binding it or by reporting it unschedulable. A report sums up the
results.

This project models those parts and proves what they guarantee in every interleaving and over whole runs:
`dafny verify dfyconfig.toml` checks all of it.

## Modules

| modules | models |
|---|---|
| `WatchBuffer`, `WatchBufferSafety`, `WatchBufferProgress`, `WatchBufferShutdown` | the pipe of `pkg/framework/watch/watch.go`: one reader, any number of writers, the background loop and closers, as a labelled transition system with program counters, rendezvous sends, the RWMutex and a fault state for a send on a closed channel |
| `Json`, `JsonNewlines`, `Framing` | a parser for RFC 8259, and the framing of watch events as JSON objects without separators |
| `Objects`, `Views`, `FanOutOrder`, `ViewRuns`, `WatcherStream` | store operations, the fan-out to watchers by field selector, and the copy a watcher rebuilds from its events |
| `ApiServer`, `Lookup` | the store and the REST client as objects that change in place; request paths, routing and keyed lookup |
| `Replication`, `ReplicationProgress` | store, watch buffer, framing and a client together |
| `Simulator`, `SimulatorRuns`, `SimulatorResults` | `ClusterCapacity` and the scheduler as a transition system, with the recorder's event channel and the stop handshake |
| `ClusterCapacity`, `CallbackSteps` | `PodQueue`, the strategy and the callbacks as objects, and the proof that each callback is a run of that transition system |
| `Expansion`, `Report`, `EndToEnd` | from the simulation spec to the report |

## Assumptions

- One Read at a time per watch buffer. Writes are any number of concurrent calls.
- A step that touches only its own thread's variables is merged with the shared step before it; so is a step on the byte
  buffer, which only the loop touches. The RWMutex's reader count is the set of its read holders.
- Where a claim needs written chunks to be non-empty, it says so (`NoEmptyWrites`). Every frame is non-empty, so the
  assumption holds for every chunk the simulator writes.
- Store operations and the creation of watches run one at a time, and each emission is a Write that returns before the
  next begins. Handlers are registered before any watcher exists, as `New` does.
- Bytes are characters, and object encoding is any function that yields valid JSON text and that decoding undoes.
- A field selector is any predicate on objects.
- The scheduler is an environment that answers each pod it was given exactly once, in its own thread: by Bind with some
  node, or by Update with the Unschedulable condition. It records one event per outcome, before Update or after Bind.
- Stored objects are values. The pod handed to Update is the scheduler's own copy of the pod it was given.
- New pod names are fresh identifiers, different from each other and from those in the store. Only the claim about
  store content needs it (`FreshKeys`); `EndToEnd.ExpandedKeysAreFresh` derives it for expanded specs.

## What the code does not do

Some properties one would expect fail. For each there is a failing run from the initial state or a failing input, and
the exact condition under which the property holds.

- An empty chunk can deadlock the pipe: the loop waits for the read lock to test it while a reader holds the lock and
  waits for the loop. Whatever chunks callers may write, an open buffer can deadlock so if and only if one of them is
  empty (`WatchBufferProgress.DeadlockIffEmptyChunk`, with the run of `WatchBufferProgress.EmptyWriteDeadlocks`). It is
  the only deadlock (`WatchBufferProgress.StuckIff`).
- Close can make another thread panic. It is safe in every continuation if and only if no thread is between its closed
  check and the end of its send (`WatchBufferShutdown.CloseSafeIff`); one Write and one Close reach the panic
  (`WatchBufferShutdown.ClosePanics`).
- A Read that waits for data when Close is called returns zero bytes and no error, not EOF, in every run in which it
  returns: it receives the zero value of the closed channel. The Read in progress at a safe Close gets EOF if and only
  if it had not begun its closed check (`WatchBufferShutdown.ReadAtCloseGetsEOFIff`); one Read and one Close show the
  failure (`WatchBufferShutdown.WaitingReadGetsNoEOF`).
- A closed watcher ends an emission, so watchers visited after it miss the event, depending on the order of the map.
  All open watchers are served in every order if and only if each closed one stands behind them in the same list
  (`FanOutOrder.EveryOrderServesIff`; `FanOutOrder.ClosedWatcherStarves` is the smallest failing case).
- A view is not always the filtered store. An update that makes an object stop matching, a delete by an object that does
  not match, and Replace leave stale objects behind (`ViewRuns.ReplaceLeavesStaleObject`). A view is exact from its
  creation on if and only if at no operation a key leaves the filtered store unseen (`ViewRuns.ExactSinceCreationIff`).
- A get routed from a request path agrees with a scan of the store if and only if it is not a namespaced get of a node
  (`Lookup.RoutedGetIsScanIff`, with the failing store of `Lookup.WrongNodeGet`). Nodes are cluster-scoped, so the
  failing store needs a node that carries a namespace; the store accepts one, and the namespaced list shows it.

A get by a name with a slash after its first character would find an object of a namespace (`Lookup.WrongPlainGet`), but
no such name reaches the lookup: routed names hold no slash (`Lookup.RoutedNamesAreSlashFree`).

## Model

| member | source | states |
|---|---|---|
| `WatchBuffer.BufRead` | pkg/framework/watch/watch.go:161-161 | a buffer read takes the longest front of the buffer that fits the slice and leaves the rest; EOF exactly when the buffer is empty and the slice is not |
| `WatchBufferSafety.InvStep` | pkg/framework/watch/watch.go:59-173 | every step of every thread keeps the lock discipline, the channel states, the hand-shake between reader and loop, and the bytes |
| `WatchBufferSafety.ByteConservation` | pkg/framework/watch/watch.go:59-173 | in every run with any number of writers: before Close, bytes returned, then the reply in flight, then the buffer are the received chunks in order; across Close at any point the bytes returned stay a prefix |
| `WatchBufferSafety.WriteReceivedOnce` | pkg/framework/watch/watch.go:88-97 | in every reachable state a Write has returned its length if and only if the loop received its chunk, and no chunk was received twice |
| `WatchBufferSafety.RepliesBeforeClose` | pkg/framework/watch/watch.go:148-169 | with non-empty chunks no reply before Close has an error or too many bytes, and none is empty if the slice has room |
| `WatchBufferSafety.ReadGetsNextBytes` | pkg/framework/watch/watch.go:148-169 | in every reachable state a Read that receives its reply gets exactly the next min(len(p), available) bytes received and not yet returned, with EOF exactly if there are none for a slice with room; a reply shorter than its slice leaves nothing buffered |
| `WatchBufferProgress.MeasureFalls` | pkg/framework/watch/watch.go:59-173 | while the buffer is open every step of a call in progress makes a natural number smaller |
| `WatchBufferProgress.StuckIff` | pkg/framework/watch/watch.go:59-173 | the stuck states of an open buffer are exactly the quiescent ones and the empty-chunk deadlock |
| `WatchBufferProgress.SomebodyMoves` | pkg/framework/watch/watch.go:130-171 | in any other state some thread can move, even if waiting lockers keep new read lockers out |
| `WatchBufferProgress.ReadReturns` | pkg/framework/watch/watch.go:59-71 | from every reachable open state with a Read in progress and data ahead, every maximal run is bounded by the measure and ends with that Read returned, without error and not empty if its slice has room |
| `WatchBufferProgress.EmptyWriteDeadlocks` | pkg/framework/watch/watch.go:132-141 | a run with an empty chunk that ends in the deadlock |
| `WatchBufferProgress.DeadlockIffEmptyChunk` | pkg/framework/watch/watch.go:130-141 | for every set of chunks, a run that writes only such chunks can leave the open buffer in the deadlock if and only if the empty chunk is among them |
| `WatchBufferShutdown.CleanShutdown` | pkg/framework/watch/watch.go:74-85 | if Close takes the lock when no thread is between its closed check and its send, no later step sends on a closed channel, and the loop receives, buffers and delivers nothing more |
| `WatchBufferShutdown.CloseSafeIff` | pkg/framework/watch/watch.go:74-85 | Close is safe in every continuation if and only if no thread is between its check and its send |
| `WatchBufferShutdown.Panics` | pkg/framework/watch/watch.go:66-67 | otherwise some continuation sends on a closed channel |
| `WatchBufferShutdown.ClosePanics` | pkg/framework/watch/watch.go:74-97 | a run from the initial state, with one Write of any chunk and one Close, that sends on a closed channel |
| `WatchBufferShutdown.ReadAtCloseGetsEOFIff` | pkg/framework/watch/watch.go:59-85 | in every run the Read in progress at a safe Close either has not returned or returned no bytes, with EOF if and only if it had not begun its closed check |
| `WatchBufferShutdown.WaitingReadGetsNoEOF` | pkg/framework/watch/watch.go:69-84 | a run from the initial state, with one Read and one safe Close, in which that Read returns no bytes and no error |
| `WatchBufferShutdown.WaitingReadReleased` | pkg/framework/watch/watch.go:69-70 | after a safe Close a Read that waits for its reply can always return, with no bytes and no error |
| `WatchBufferShutdown.LoopCanExit` | pkg/framework/watch/watch.go:131-141 | after a safe Close the loop can always reach its exit, in at most five of its own steps |
| `WatchBufferShutdown.LaterCallsGetEOF` | pkg/framework/watch/watch.go:59-97 | every Read and Write called after a safe Close that has returned, returned zero and EOF, in every run |
| `WatchBufferShutdown.LaterReadReturns` | pkg/framework/watch/watch.go:59-65 | a Read called after a safe Close is never held up: two steps of its own take it to EOF |
| `WatchBufferShutdown.LaterWriteReturns` | pkg/framework/watch/watch.go:88-94 | a Write called after a safe Close is never held up: two steps of its own take it to EOF |
| `JsonNewlines.NewlinesAreInsignificant` | pkg/framework/watch/watch.go:113-114 | a JSON text that denotes a value denotes the same value once its newlines are removed (sections 2 and 7 of RFC 8259) |
| `Json.ValueExtend` | pkg/framework/watch/watch.go:113-121 | text after a complete value does not change the value, unless a number could go on |
| `Framing.FrameParses` | pkg/framework/watch/watch.go:113-123 | a frame of any valid object parses to an object of its type and its value, and leaves what follows it untouched |
| `Framing.FrameIsPrefixFree` | pkg/framework/watch/watch.go:116-121 | no proper prefix of a frame holds a complete value |
| `Framing.DecodeFrames` | pkg/framework/watch/watch.go:113-123 | concatenated frames split back into the same types and values, and an incomplete piece stays over |
| `Framing.DecodePrefix` | pkg/framework/watch/watch.go:113-123 | any number of bytes of a stream decode to exactly the events whose frames are complete in them |
| `Framing.StreamDeterminesEvents` | pkg/framework/watch/watch.go:113-123 | two event lists with the same bytes are the same events |
| `Framing.ChunkingIsInvisible` | pkg/framework/watch/watch.go:59-71 | a client that decodes as chunks arrive ends with the events of the complete frames, whatever the chunking |
| `Framing.FrameNotEmpty` | pkg/framework/watch/watch.go:116-123 | a frame is never empty, so the pipe is only given non-empty chunks |
| `Views.FanOutAnyOrder` | pkg/framework/restclient/external/restclient.go:224-234 | with no closed watcher every order of visiting the selectors gives every matching watcher the event, and no other |
| `Views.FanOutManyStream` | pkg/framework/restclient/external/restclient.go:218-236 | over any emissions a watcher is sent what matches its selector and is otherwise unchanged |
| `Views.ListingShows` | pkg/framework/restclient/external/restclient.go:399-423 | the listing a new watcher is sent replays to the objects of the store that match |
| `Views.MatchingPositions` | pkg/framework/restclient/external/restclient.go:224-227 | the events a selector matches are those at exactly the matching positions of the emission sequence, each once and in order |
| `Views.WatchStepOpens` | pkg/framework/restclient/external/restclient.go:391-397 | creating a watch appends one open watcher that has been sent the listing and leaves every other watcher as it was |
| `Views.LastItemStays` | pkg/framework/store/store.go:152-169 | the cache that Replace builds holds under each key the last item of that key |
| `FanOutOrder.StreamsAreFiltered` | pkg/framework/restclient/external/restclient.go:224-234 | with no closed watcher, for any order at each emission, each watcher's stream is the emission sequence filtered by its selector, each event once and in order |
| `FanOutOrder.EveryOrderServesIff` | pkg/framework/restclient/external/restclient.go:228-233 | every open matching watcher is served in every order if and only if each closed one stands behind all of them in the same list |
| `FanOutOrder.ClosedWatcherStarves` | pkg/framework/restclient/external/restclient.go:224-234 | with one closed and one open watcher of two matching selectors the open one is served in one map order and not in the other |
| `FanOutOrder.EmitListPrefix` | pkg/framework/restclient/external/restclient.go:228-233 | within one list exactly the watchers before the first closed one are served |
| `ViewRuns.SelectorViews` | pkg/framework/store/store.go:61-169 | in every run of Add, Update, Delete and Replace with watches created at any point, each view agrees with the store on every key whose stored object matches |
| `ViewRuns.RunsServeAll` | pkg/framework/restclient/external/restclient.go:218-236 | in every run with none closed every watcher is open, so the next operation reaches all matching watchers whatever the map orders |
| `ViewRuns.ExactViews` | pkg/framework/store/store.go:61-118 | without Replace, and when matching depends only on the key, every view equals the filtered store |
| `ViewRuns.ExactIff` | pkg/framework/store/store.go:61-169 | a view that equals the filtered store still does after an operation if and only if no key leaves the filtered store without an event the watcher sees |
| `ViewRuns.AlwaysExactIff` | pkg/framework/store/store.go:61-169 | an exact view stays exact through a whole run if and only if nothing slips away at any operation of it |
| `ViewRuns.ExactSinceCreationIff` | pkg/framework/restclient/external/restclient.go:380-426 | a watcher created at any point of any run has the exact view after every later step if and only if nothing slips away at any later operation |
| `ViewRuns.ReplaceLeavesStaleObject` | pkg/framework/store/store.go:152-169 | a run in which Replace drops an object that a view keeps |
| `Replication.ClientCopyIsStore` | pkg/framework/restclient/external/restclient.go:380-426 | in every interleaving of Add, Update and Delete with Reads of any sizes on an open everything-selector watcher: once the listing of n objects is read the decoded and replayed copy is the store after k - n operations, for k complete frames, and once everything written is read it is the current store |
| `Replication.ClientViewAgrees` | pkg/framework/restclient/external/restclient.go:380-426 | for any selector, and with Replace too: the copy agrees on what matches with the store after any operations that sent as many events as are complete, and with the current store once everything is read |
| `Replication.ClientViewIsSomeStore` | pkg/framework/restclient/external/restclient.go:218-236 | for any selector, without Replace: once the listing is read there always are such operations, and the copy is exactly what matched then if matching depends only on the key |
| `ReplicationProgress.KeepsReadingCatchesUp` | pkg/framework/watch/watch.go:59-173 | from every reachable state a client that keeps reading takes a bounded number of steps until nothing can move; then it has read everything, and its copy agrees with the current store, and is it for the everything-selector without Replace |
| `ReplicationProgress.DrainMeasureFalls` | pkg/framework/watch/watch.go:59-173 | every step but a store operation or a Read into an empty slice makes a natural number smaller |
| `ReplicationProgress.WaitingIsDrained` | pkg/framework/watch/watch.go:130-171 | when only a store operation could move anything, everything written has been read |
| `WatcherStream.SentAgrees` | pkg/framework/restclient/external/restclient.go:218-236 | after any operations the events sent to a watcher replay to a view that agrees with the store on what matches |
| `WatcherStream.SentReaches` | pkg/framework/restclient/external/restclient.go:218-236 | without Replace every number of events from the listing on is what some operations sent |
| `Replication.ReadBytesAreStream` | pkg/framework/watch/watch.go:59-173 | the bytes read are the first bytes of the frames emitted so far, and all of them once the pipe is drained |
| `Replication.CopyIsReplay` | pkg/framework/watch/watch.go:113-123 | the client's copy is the replay of the events whose frames are complete in what it has read |
| `ApiServer.RestClient.EmitToList` | pkg/framework/restclient/external/restclient.go:228-233 | the loop over one selector's watchers computes the emission up to the first closed one |
| `ApiServer.RestClient.EmitObjectWatchEvent` | pkg/framework/restclient/external/restclient.go:218-236 | for whatever order the map is visited in, the new watchers and the error are those of that order's emission |
| `ApiServer.ResourceStore.Notify` | pkg/scheduler/simulator.go:302-312 | the registered handler emits the event to the watchers of its resource, closed ones or not, in the order in which the map was visited, and touches no other client |
| `ApiServer.ResourceStore.Add` | pkg/framework/store/store.go:61-78 | the object is stored under its key and one ADDED event is emitted, in whatever order the map is visited and with closed watchers too; with none closed every matching watcher gets it; an unknown resource changes nothing |
| `ApiServer.ResourceStore.Update` | pkg/framework/store/store.go:81-98 | the object is stored under its key and one MODIFIED event is emitted in the same way |
| `ApiServer.ResourceStore.Delete` | pkg/framework/store/store.go:101-118 | the key of the object is removed and one DELETED event is emitted in the same way |
| `ApiServer.ResourceStore.Replace` | pkg/framework/store/store.go:152-169 | the cache holds the items, later ones winning, and one ADDED event for each item in order is emitted, each in its own order over the map and with closed watchers too |
| `ApiServer.ResourceStore.GetByKey` | pkg/framework/store/store.go:136-142 | the object under the key, none if there is none, an error for an unknown resource |
| `ApiServer.ResourceStore.List` | pkg/framework/store/store.go:120-125 | the objects of the cache, each once, in some order |
| `ApiServer.ResourceStore.RegisterEventHandler` | pkg/framework/store/store.go:144-147 | the handler of the resource is replaced |
| `ApiServer.ListMatching` | pkg/framework/restclient/external/restclient.go:109-126 | the typed listers give the items that match the selector, in order |
| `ApiServer.CreateWatch` | pkg/framework/restclient/external/restclient.go:380-426 | one new open watcher is appended to those of its selector and has been sent each matching object of the store once; every other watcher and resource is as it was; an unknown resource changes nothing |
| `Lookup.SplitPathJoins` | pkg/framework/restclient/external/restclient.go:304-310 | the segments of a path are slash-free and join back to the path without its outer slashes |
| `Lookup.SplitPathOfJoin` | pkg/framework/restclient/external/restclient.go:304-310 | non-empty slash-free segments survive the round trip through a path |
| `Lookup.RouteRoundTrip` | pkg/framework/restclient/external/restclient.go:428-544 | every well-formed watch, list or get request has a path that routes to it |
| `Lookup.RouteIff` | pkg/framework/restclient/external/restclient.go:428-544 | a path and the watch parameter route to a request if and only if their segments are those of that request, the five-segment status form included; every other path is refused |
| `Lookup.WatchParamRoute` | pkg/framework/restclient/external/restclient.go:464-483 | the watch parameter turns the list of a resource into a watch of it |
| `Lookup.StatusRoute` | pkg/framework/restclient/external/restclient.go:525-542 | a fifth segment "status", in any case, gives the get of the first four, and any other is refused |
| `Lookup.KnownResources` | pkg/api/api.go:60-77 | the six resource names and no other are recognised |
| `Lookup.RoutedNamesAreSlashFree` | pkg/framework/restclient/external/restclient.go:504-542 | names and namespaces that come out of a path hold no slash |
| `Lookup.NamespacedGetIsScan` | pkg/framework/restclient/external/restclient.go:332-378 | a namespaced get finds an object if and only if the store holds one of that namespace and name; it is unique |
| `Lookup.NamespacedGetIsInList` | pkg/framework/restclient/external/restclient.go:513-542 | a namespaced get finds exactly the object of that name in the namespace-filtered list |
| `Lookup.WrongNodeGet` | pkg/framework/restclient/external/restclient.go:365-375 | for every name and namespace a store on which a namespaced get of a node disagrees with the scan |
| `Lookup.GetIsScanIff` | pkg/framework/restclient/external/restclient.go:332-378 | a get agrees with the scan on every store if and only if, with a namespace, it is not of a node, or, without one, no slash follows the first character of the name |
| `Lookup.RoutedGetIsScanIff` | pkg/framework/restclient/external/restclient.go:504-542 | the get that a request path asks for agrees with the scan on every store if and only if it is not a namespaced get of a node |
| `SimulatorRuns.InvStep` | pkg/scheduler/simulator.go:108-223 | every step of Run, the scheduler, a callback or a drain keeps the invariant of the simulation |
| `SimulatorResults.PodConservation` | pkg/scheduler/simulator.go:108-223 | in every reachable state outcomes, then the pod under way, then the stack from its top are the input backwards; at most one pod is under way; the status lists are the outcomes' results split in order, changed only in the stated fields |
| `SimulatorResults.MeasureFalls` | pkg/scheduler/simulator.go:187-223 | every step of the simulation makes a natural number smaller |
| `SimulatorResults.StuckIffFinished` | pkg/scheduler/simulator.go:187-213 | a reachable state is stuck if and only if Run has returned, no callback is left and every event is consumed |
| `SimulatorResults.EveryRunEnds` | pkg/scheduler/simulator.go:134-213 | every run is bounded; at its end Run has returned after one outcome per input pod, with one stop token for a non-empty input and none for an empty one, the body of Close run once, the stop text of the last outcome, and no event left |
| `SimulatorResults.StopHandshake` | pkg/scheduler/simulator.go:134-161 | in every reachable state at most one token was received, none was sent on the closed channel, and the body of Close ran at most once |
| `SimulatorResults.RecorderNeverBlocks` | pkg/framework/record/recorder.go:37-59 | in every interleaving buffered events are at most one more than waiting drains, so a full channel of ten always has a drain ready; below ten recording is never held up |
| `SimulatorResults.StoreOverRuns` | pkg/scheduler/simulator.go:108-223 | in every reachable state bound pods are stored with only node and phase changed, failed and given ones as they were, queued ones are absent, seeded pods are unchanged, no other pod is stored, and nodes and the other resources are as seeded |
| `ClusterCapacity.PodQueue.constructor` | pkg/framework/store/store.go:235-241 | the stack holds the given pods in order |
| `ClusterCapacity.PodQueue.Pop` | pkg/framework/store/store.go:223-233 | the last pod is taken off, or none is given for an empty stack |
| `ClusterCapacity.PodQueue.Add` | pkg/framework/store/store.go:217-221 | the pod goes on top |
| `ClusterCapacity.StrategyAdd` | pkg/framework/strategy/strategy.go:47-75 | the pod is stored as running, and no other object changes |
| `ClusterCapacity.WireAll` | pkg/scheduler/simulator.go:297-313 | every resource's handler emits to the client |
| `ClusterCapacity.Seed` | pkg/scheduler/simulator.go:315-322 | adding objects one by one to an empty cache leaves exactly those objects |
| `ClusterCapacity.SeedsEachPod` | pkg/scheduler/simulator.go:319-322 | pods with distinct keys are each seeded under their own key, and nothing else is |
| `ClusterCapacity.Driver.constructor` | pkg/scheduler/simulator.go:286-322 | handlers are wired; the pod and node caches hold the given pods and nodes and the other caches are empty; the new pods are on the stack; and the state is the initial state of the transition system |
| `ClusterCapacity.Driver.NextPod` | pkg/scheduler/simulator.go:215-223 | the top pod moves from the stack to the store, or nothing changes and an error is given |
| `ClusterCapacity.Driver.Finish` | pkg/scheduler/simulator.go:134-142 | the deferred part gives the next pod, or sets the stop reason, closes and asks for a stop token |
| `ClusterCapacity.Driver.Bind` | pkg/scheduler/simulator.go:108-145 | the bound pod, changed in node and phase only, is stored and appended to the successful ones, and the next pod is stored or the driver stops with its reason; an error and no change exactly when the store has no such pod |
| `ClusterCapacity.Driver.Update` | pkg/scheduler/simulator.go:163-185 | for PodScheduled, False, Unschedulable the pod is appended to the failed ones with phase, reason and condition, and the next pod is stored or the driver stops with its reason; any other condition changes nothing |
| `CallbackSteps.FinishIsRun` | pkg/scheduler/simulator.go:134-142 | the deferred part is a run of the transition system with the same result |
| `CallbackSteps.BindIsRun` | pkg/scheduler/simulator.go:108-145 | Bind of the pod with the scheduler is a run of the transition system with the same result |
| `CallbackSteps.UpdateIsRun` | pkg/scheduler/simulator.go:163-185 | Update of the pod with the scheduler is a run of the transition system with the same result |
| `Report.GetResourceRequest` | pkg/framework/report.go:96-129 | for any order of each request map the totals are the per-name sums over the containers for CPU, memory, GPU and the scalar names requested, and no other name counts |
| `Report.RequestedAdds` | pkg/framework/report.go:96-129 | the totals add up under concatenation of container lists |
| `Report.RequestedOfOne` | pkg/framework/report.go:106-126 | the totals of one container are its own requests, scalar ones rounded up to whole units, and those of none are zero |
| `Report.GetReviewStatus` | pkg/framework/report.go:151-166 | one result per pod in order with its uid, node, name, reason and totals, and a summary that partitions them |
| `Report.SummaryPartitions` | pkg/framework/report.go:152-162 | the summary's keys are the reasons that occur, each bucket is the results with that reason in order, and none is empty |
| `Report.BucketPositions` | pkg/framework/report.go:157-160 | a bucket holds the results at exactly the positions with its reason, each once and in order |
| `Report.SizesAddUp` | pkg/framework/report.go:152-162 | the bucket sizes add up to the number of results |
| `Report.GetReview` | pkg/framework/report.go:131-149 | one requirement per pod in order with its name, totals and node selector, beside the pods and their status |
| `Report.GetReport` | pkg/framework/report.go:168-174 | the reviews of the failed, successful and scheduled pods, and the stop reason |
| `Expansion.Expand` | cmd/app/options/options.go:85-96 | the pods are one block per entry in order, of num copies or none for a negative num; a copy differs from the entry only in uid and name, which are the next identifier, in the label and in the namespace |
| `Expansion.ExpansionCounts` | cmd/app/options/options.go:86-96 | for every name the expansion holds the sum of max(0, num) over the entries of that name, and in all the sum over all entries |
| `EndToEnd.SpecToReport` | pkg/framework/report.go:168-174 | for every spec, cluster and scheduler behaviour, at the end of a run the success and failed pods of the report that carry a name are the sum of max(0, num) over the entries of that name |
| `EndToEnd.OneEntryToReport` | cmd/app/options/options.go:86-96 | for a spec of one entry the report holds max(0, num) pods that carry its name and none that carries another |
| `EndToEnd.ReportLines` | pkg/framework/report.go:151-174 | in every reachable state the success review has one line per bound outcome and the failed review one per failed outcome, in order: uid, name, totals and node selector of the input pod, and as host the bound node, or the input's own for a failed pod |
| `EndToEnd.FailedSummary` | pkg/framework/report.go:151-166 | the failed summary has at most one key, the Unschedulable reason, with all failed pods in order |
| `EndToEnd.ExpandedKeysAreFresh` | cmd/app/options/options.go:90-91 | distinct identifiers that the store does not hold give pods with fresh keys |

## Left out

- The Kubernetes scheduler, informers, reflectors and configurator: library code; the scheduler is an environment.
- HTTP requests and responses, serializers and codec lookup: library plumbing; encoding is any function that yields valid JSON text.
- The template-based field accessor and the selector parser: a selector is any predicate on objects.
- Command line, kubeconfig, cluster checkpoint reading and YAML decoding: input and output only.
- Printing, tables, timestamps and logging: output only.
- FakeResourceStore: a double for tests that keeps no state.
- The decimal representation of quantities and the int64 overflow of scalar totals: quantities are exact integers in units of 10^-9, and the whole-number value of a scalar request is its amount rounded up.
- getMainFailReason, the strategy's unimplemented Update and Delete, NewResourceReflectors and the demo main of the watch package: not part of the running simulator.
- Store operations that race with the creation of a watch: the code does not serialise them together; each is one atomic step here.
- Lookup.EqualFold: folds ASCII letters only, while the source's comparison also folds other Unicode letters, because no request path of the scheduler holds them.
- RESTClient.Close over all watchers: one buffer's Close is modelled.
- ClusterCapacity.Report's memoisation of the report: it changes no result.
- Run as a method: its steps are actions of the transition system, since it waits on a channel that the callbacks send on.
- The contents of recorded events: only their number matters to the channel.
- Fairness of the Go scheduler and of the RWMutex: progress is stated for maximal runs, and after Close as what a thread can always do.
