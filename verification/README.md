# CANScope scheduling and data path: a verified model

This project models the concurrent core of a CAN-bus oscilloscope application and proves what it keeps
in every run.

* **The dependency scheduler** (`Graphs.dfy`, `EdgeMap.dfy`, `CalcGroup.dfy`, `CalcGroupWalker.dfy`,
  `CalcExecuter.dfy`). A group of calculation items is a directed graph edited in place. The walker peels it off from
  its sources, or cuts off all that depends on a failed item. The executer drives the walker from many pool threads while
  the user may cancel and a message loop delivers the notices to the task's status machine.
* **The sequenced multi-reader queue** (`BulkQueue.dfy`, `BulkQueueProtocol.dfy`, `BulkQueueMoves.dfy`,
  `SequencedBulkQueue.dfy`, `BulkQueueEffects.dfy`). Numbered bulks, one cursor per reader, release of what every reader
  has passed, recycling for overwrite mode, and waiting readers that are served by one-shot callbacks under the lock,
  with the races between callback, timeout and cancel.
* **Its two producers**: the allocation loop that recycles queued bulks until a new buffer fits the memory pool
  (`MemoryUsagePool.dfy`, `OscDataCollecter.dfy`), and the feed of the user interface with its rate control
  (`CanscopeChnlCalc.dfy`).
* **Smaller state cores**: the start/single/stop flag protocol of a threaded loop (`ThreadedLoopRun.dfy`), the
  parts that waves of equal look share (`CommonOscWaveGroup.dfy`), the byte order and bit field codecs
  (`Digits.dfy`, `Endian.dfy`, `Uint32SubBind.dfy`), and the list of known devices (`DevicesManager.dfy`).

Every core comes in two layers. A specification on values says what each lock-protected block or call does and is
where the invariants and whole-run theorems are proved. A class with the source's fields and loops is then proved to
do exactly what the specification says: its methods' contracts give the whole new state as a function of the old one.
What those functions mean is proved apart from their bodies, in terms of the state before and after.
Interleaved systems are state machines: each block that holds the lock is one step, each thread has a program
counter, and a run is any sequence of enabled steps.

Threads, locks, events and reference counts of the library are replaced by atomic steps, a boolean event, and counts
in the state. Message loops are queues of posted notices delivered in order. Results of `CalcItem::Run`, of device
initialisation and of timeouts are arbitrary parameters. A new object's address is a parameter as well.

## Model

| member | source | states |
|---|---|---|
| `CalcGroups.CalcGroup.NoCycle` | depend_calc/calc_group.cc:225-272 | answers true if and only if no path of dependencies closes; terminates; the group is not touched |
| `CalcGroups.PeelOff` | depend_calc/calc_group.cc:241-265 | the inner loops of the sort, shared with NodeSuccess: what is erased, and exactly the targets left without incoming edges are collected, each once and in the order of their last entries |
| `CalcGroups.SortingGoesOn` | depend_calc/calc_group.cc:241-265 | one round of the sort keeps: the queue lists sources only and misses none that has edges, and the rest has a cycle just when the original has |
| `Graphs.CutSource` | depend_calc/calc_group.cc:241-265 | dropping the edges out of a source neither makes nor breaks a cycle |
| `Graphs.NoSourceMeansCycle` | depend_calc/calc_group.cc:267-271 | edges remain without a source if and only if there is a cycle (backward walk and pigeonhole) |
| `CalcGroups.CalcGroup.FreeNode` | depend_calc/calc_group.cc:112-127 | lists exactly the items without incoming edges, in order |
| `CalcGroups.SourcesInOrder` | depend_calc/calc_group.cc:112-127 | they are exactly the items without incoming edges, and stand as they stood in the group |
| `CalcGroups.CalcGroup.NodeSuccess` | depend_calc/calc_group.cc:129-153 | removes the item and its edges; returns exactly the items that waited for it alone, each once |
| `CalcGroups.CalcGroup.NodeFailed` | depend_calc/calc_group.cc:155-187 | the loop as written, on any group and item: what it leaves is FailFrom, which is undefined when an iterator is lost or an item deleted twice; for a free item that is exactly the group without what the item reaches |
| `CalcGroups.FailureExact` | depend_calc/calc_group.cc:155-187 | for a free item the written loop removes exactly the items it reaches and leaves exactly the edges between survivors if and only if every round is kept, and is undefined otherwise |
| `CalcGroups.RangeEndErased` | depend_calc/calc_group.cc:164-184 | it is undefined on a group of four dependencies without cycle or duplicate: erasing the edges into a target erases the cached range end |
| `EdgeMaps.RoundExact` | depend_calc/calc_group.cc:164-184 | the walk over one range, with its two iterators into a multimap in key order, is defined exactly when every step from an entry leads to the range end or to an entry that is not being erased; then it queues each target once and erases exactly the edges into them |
| `EdgeMaps.RoundKeptWhenDistinct` | depend_calc/calc_group.cc:164-184 | without duplicate edges that is the case exactly when no edge of the item but its last points to where the edge behind the range points |
| `EdgeMaps.SingleDependencies` | depend_calc/calc_group.cc:155-187 | when no two edges share a target all rounds of every failure are kept |
| `EdgeMaps.InsertedBehind` | depend_calc/calc_group.cc:79-83 | a new dependency stands behind the others of its key, and those of each key keep their order |
| `CalcGroups.Condemn` | depend_calc/calc_group.cc:164-184 | the two loops of one round with their iterators compute the walk, or report that it is undefined |
| `CalcGroups.FailingGoesOn` | depend_calc/calc_group.cc:159-186 | the rounds delete only reachable items, never the same one twice |
| `CalcGroups.FailingEnds` | depend_calc/calc_group.cc:155-187 | when the queue is empty the deleted items are exactly those reachable |
| `CalcGroups.CalcGroup.RemoveCalcItem` | depend_calc/calc_group.cc:39-58 | the item and every dependency that contains it are gone, nothing else is |
| `CalcGroups.CalcGroup.AddCalcItem` | depend_calc/calc_group.cc:34-37 | appends the item and keeps the dependencies |
| `CalcGroups.CalcGroup.SetDepend` | depend_calc/calc_group.cc:79-83 | inserts one dependency between two present items behind the others of its key |
| `CalcGroups.CalcGroup.Clone` | depend_calc/calc_group.cc:89-110 | the new group holds the new objects in order and exactly the redrawn dependencies, duplicates included |
| `Graphs.CopyMeansSame` | depend_calc/calc_group.cc:89-110 | a clone has a cycle just when the original has, and the same reachability |
| `CalcGroupWalkers.CalcGroupWalker.constructor` | depend_calc/calc_group_walker.cc:7-13 | starts with the sources of the clone runnable, in order, and nothing started; if no two dependencies of the group share a target, none of the clone do |
| `CalcGroupWalkers.CalcGroupWalker.StartOne` | depend_calc/calc_group_walker.cc:15-21 | moves the oldest runnable item to the started ones |
| `CalcGroupWalkers.CalcGroupWalker.StartAll` | depend_calc/calc_group_walker.cc:23-28 | moves all runnable items to the started ones and returns them in order |
| `CalcGroupWalkers.CalcGroupWalker.Mark` | depend_calc/calc_group_walker.cc:30-43 | success puts exactly the freed items behind the runnable ones, in the order of their entries; failure removes all that depends on the item and adds nothing, wherever NodeFailed is defined; and which dependencies stay, in order |
| `CalcGroupWalkers.EveryFailureDefined` | depend_calc/calc_group_walker.cc:15-43 | when no two dependencies of the group share a target, NodeFailed is defined on what is left at every failure of every run of the walker |
| `CalcGroupWalkers.CalcGroupWalker.Finish` | depend_calc/calc_group_walker.cc:45-47 | true when nothing is runnable or started |
| `WalkerSpec.FrontierKept` | depend_calc/calc_group_walker.cc:15-43 | every call keeps: runnable and started are disjoint, duplicate-free and together exactly the sources of the shrinking graph |
| `WalkerSpec.FailureKeepsFrontier` | depend_calc/calc_group_walker.cc:40-42 | a failure makes no survivor free and deletes no other started item |
| `WalkerSpec.FailureLoses` | depend_calc/calc_group.cc:155-187 | what a failure takes away now is what the item reached in the original graph |
| `WalkerSpec.RunTheorem` | depend_calc/calc_group_walker.cc:7-47 | over every sequence of calls with any results: each item starts at most once, after all its original predecessors succeeded; Finish holds exactly when every item succeeded or lies downstream of a failed one; without failures every item ran |
| `WalkerSpec.StartsInTurn` | depend_calc/calc_group_walker.cc:15-39 | over every run items start in the order in which they became free: what was free before an item was has started before it |
| `WalkerSpec.LineGrows` | depend_calc/calc_group_walker.cc:15-43 | one call: no item changes its place in that order, and exactly the freed ones join it, at the end |
| `CalcExecuters.CalcExecuter.StartRun` | depend_calc/calc_executer.cc:30-52 | the block of StartRun: a fresh walker, the start notice, the delegate reference, or an immediate finish without items |
| `CalcExecuters.CalcExecuter.Reset` | depend_calc/calc_executer.cc:48-52 | a walker over a clone of the group, with the sources runnable |
| `CalcExecuters.CalcExecuter.Open` | depend_calc/calc_executer.cc:36-43 | the start notice, then the delegate reference or an immediate finish |
| `CalcExecuters.CalcExecuter.StartAllRunnable` | depend_calc/calc_executer.cc:54-77 | takes all runnable items, or ends the run when the user cancelled |
| `CalcExecuters.CalcExecuter.RunItemBegin` | depend_calc/calc_executer.cc:79-91 | an item is not run once the user cancelled |
| `CalcExecuters.CalcExecuter.RunItemEnd` | depend_calc/calc_executer.cc:96-107 | marks the item and ends the run when nothing is left |
| `CalcExecuters.CalcExecuter.EndOnce` | depend_calc/calc_executer.cc:61-66 | the terminal notice and the release happen only for the caller that finds the end not yet notified |
| `CalcExecuters.EveryItemEndDefined` | depend_calc/calc_executer.cc:30-109 | and at every failure of every interleaving of the executer |
| `CalcExecuters.AsyncTask.RunNext` | canscope/async_task.cc:50-60 | one delivered notice moves the status to run, done or cancelled, and tells whether the CHECK held, that the old status was none or run |
| `ExecuterSpec.InvKept` | depend_calc/calc_executer.cc:30-109 | every step of every thread keeps the protocol: items in hand are exactly the started unmarked ones unless the run has ended, references and notices match |
| `ExecuterSpec.WorkShrinks` | depend_calc/calc_executer.cc:30-109 | every step but a cancel request brings the run nearer to its end |
| `ExecuterSpec.EveryExecution` | depend_calc/calc_executer.cc:30-109 | in every interleaving no CHECK fails, at most one terminal notice is posted, a reference on the delegate is held exactly from the start notice to the terminal one, the number of steps is bounded, and some step is possible until the end |
| `ExecuterSpec.CancelObeyed` | depend_calc/calc_executer.cc:54-91 | over every execution: once the user has cancelled no item is taken from the walker and none begins to compute |
| `ExecuterSpec.DelegateHeldExactly` | depend_calc/calc_executer.cc:54-107 | over every execution: each item computes with the reference on its delegate held, at every moment, if and only if neither cancel test ever ends the run while some item is computing |
| `ExecuterSpec.ReleaseExact` | depend_calc/calc_executer.cc:54-107 | one step: it takes the delegate from a computing item exactly when it is a cancel test that finds the request set, the end not yet notified and an item computing |
| `ExecuterSpec.DelegateReleasedEarly` | depend_calc/calc_executer.cc:82-94 | that happens: a run in which the delegate is released while an item is computing with it |
| `ExecuterSpec.EveryExecutionEnds` | depend_calc/calc_executer.cc:30-109 | a run that can move no more has posted and delivered exactly one of Finish and Cancel; Cancel only on request, Finish only when every item succeeded or depends on a failed one |
| `BulkQueue.FirstFrom` | device/sequenced_bulk_queue.h:444-452 | the first entry numbered as wanted or later |
| `BulkQueue.Find` | device/sequenced_bulk_queue.h:435-453 | a read returns the least retained entry at or above the cursor |
| `BulkQueue.FindMeans` | device/sequenced_bulk_queue.h:435-453 | a search succeeds exactly when some retained entry is numbered as wanted or more, and finds the least such entry |
| `BulkQueue.RecycleMeans` | device/sequenced_bulk_queue.h:298-330 | recycling succeeds exactly when a reader exists and some entry lies beyond the slowest; it takes the least entry beyond the fastest reader, else the least beyond the slowest |
| `BulkQueue.AboveIsSuffix` | device/sequenced_bulk_queue.h:332-355 | stopping at the first survivor leaves the same as filtering the whole buffer |
| `BulkQueue.ReleaseMeans` | device/sequenced_bulk_queue.h:332-355 | a release takes away exactly the entries that every reader has passed; without readers all of them, or none when the queue keeps what nobody reads |
| `BulkQueueProtocol.InvKept` | device/sequenced_bulk_queue.h:384-541 | every step keeps: retained numbers strictly increase and come from the push log, cursors and records agree with each reader's progress |
| `BulkQueueProtocol.FiredFits` | device/sequenced_bulk_queue.cc:297-318 | every callback of a firing loop finds its entry although earlier ones release buffers; afterwards no due record is left |
| `BulkQueueProtocol.EveryRun` | device/sequenced_bulk_queue.cc:152-318 | over every interleaving with recycling and skipping: no callback fires in vain, each reader gets strictly later entries of the push log, no wakeup is lost, and event and record are clear between waits |
| `BulkQueueProtocol.NoGapKept` | device/sequenced_bulk_queue.h:332-453 | without recycling and skipping every step keeps the buffer contiguous and within reach of every reader |
| `BulkQueueProtocol.EveryBulkInOrder` | device/sequenced_bulk_queue.h:384-453 | in runs without recycling and skipping a reader that registered while all bulks ever pushed were retained has received exactly the first bulks pushed, in order, and its next read delivers whenever one is outstanding |
| `BulkQueueProtocol.WaitOutcome` | device/sequenced_bulk_queue.cc:152-247 | a wait ends with one bulk consumed and the cursor just past it, or, after a timeout that won the race, with nothing changed; no record and no signal is left; an asynchronous wait ends with its callback and with nothing else, only a timed one gives up, and only one that is not asynchronous returns at once |
| `BulkQueueMoves.ReadDelivers` | device/sequenced_bulk_queue.h:455-476 | a read delivers the least retained entry numbered as wanted or more, touches no other reader and lets go of exactly what all have passed; it does nothing exactly when there is no such entry |
| `BulkQueueMoves.WaitDelivers` | device/sequenced_bulk_queue.cc:152-247 | a wait that finds an entry consumes it as a read does: an asynchronous one then has its callback posted, the others are over; one that finds none touches nothing and goes on to insert its record |
| `BulkQueueMoves.SkipPasses` | device/sequenced_bulk_queue.h:52 | the read after Skip(n) delivers the least entry beyond the n numbers |
| `BulkQueueMoves.PushServes` | device/sequenced_bulk_queue.h:422-433 | a push hands every reader whose record it meets the least entry it asks for, signals it and drops the record, and touches no other reader |
| `BulkQueueMoves.PushRetains` | device/sequenced_bulk_queue.h:422-433 | a push lets go of exactly what all readers have passed then; without readers a keeping queue keeps all and the new bulk, any other nothing |
| `BulkQueueMoves.FireServes` | device/sequenced_bulk_queue.h:532-541 | MayFireCallback wakes exactly the readers whose wish is retained, and the caller goes on to wait |
| `BulkQueueMoves.FireRetains` | device/sequenced_bulk_queue.h:532-541 | when it woke somebody exactly what all have passed then is gone, otherwise nothing |
| `BulkQueueMoves.ReaderGetsAll` | device/sequenced_bulk_queue.h:332-476 | over every run without recycling and skipping: a reader that registers while all bulks are retained receives exactly the first bulks pushed, for as long as it stays |
| `BulkQueueMoves.FirstReaderGetsAll` | device/sequenced_bulk_queue.h:332-338 | so does the first reader of a queue that keeps what nobody reads, those pushed before it came included |
| `SequencedBulkQueues.SequencedBulkQueue.RegisterReader` | device/sequenced_bulk_queue.cc:344-366 | adds the reader's progress; the cached bounds stay the true minimum and maximum |
| `SequencedBulkQueues.SequencedBulkQueue.NewReader` | device/sequenced_bulk_queue.cc:443-451 | the reader's constructor is the registering step; the buffer is not touched |
| `SequencedBulkQueues.SequencedBulkQueue.UnRegisterReader` | device/sequenced_bulk_queue.cc:368-395 | removes the progress; the cached bounds stay exact |
| `SequencedBulkQueues.SequencedBulkQueue.Bounds` | device/sequenced_bulk_queue.cc:380-394 | the scan finds the true minimum and maximum of all progress |
| `SequencedBulkQueues.SequencedBulkQueue.DeleteReader` | device/sequenced_bulk_queue.cc:453-456 | the second block of the destructor is the unregistering step; the buffer is not touched |
| `SequencedBulkQueues.SequencedBulkQueue.UpdateReaderCount` | device/sequenced_bulk_queue.cc:397-419 | raises one reader's progress; the cached bounds stay exact |
| `SequencedBulkQueues.SequencedBulkQueue.MayReleaseBuffer` | device/sequenced_bulk_queue.h:332-355 | leaves exactly the entries that some reader still has to read; without readers everything when the queue keeps it, and nothing otherwise |
| `SequencedBulkQueues.SequencedBulkQueue.FindBulk` | device/sequenced_bulk_queue.h:435-453 | the scan finds the entry that Find names, and fails exactly when there is none |
| `SequencedBulkQueues.SequencedBulkQueue.GetBulkNoLock` | device/sequenced_bulk_queue.h:384-405 | a successful read records the progress and releases; a failed one changes nothing |
| `SequencedBulkQueues.SequencedBulkQueue.ReaderGetBulk` | device/sequenced_bulk_queue.h:289-296 | the reader's cursor moves just past what it was given |
| `SequencedBulkQueues.SequencedBulkQueue.GetBulkSameThread` | device/sequenced_bulk_queue.h:455-476 | is the reading step of the protocol |
| `SequencedBulkQueues.SequencedBulkQueue.RunCallback` | device/sequenced_bulk_queue.cc:198-204 | a fired callback reads, signals and loses its record; its DCHECK holds |
| `SequencedBulkQueues.SequencedBulkQueue.FireCallbackNoLock` | device/sequenced_bulk_queue.cc:297-318 | whatever the order of the map, the loop serves exactly the due readers, as if all at once |
| `SequencedBulkQueues.ServeOneMore` | device/sequenced_bulk_queue.cc:307-317 | serving one more callback after the others is serving the larger set at once |
| `SequencedBulkQueues.StillFound` | device/sequenced_bulk_queue.cc:307-317 | releases by earlier callbacks never take the entry a later callback reads |
| `SequencedBulkQueues.SequencedBulkQueue.PushBulk` | device/sequenced_bulk_queue.h:422-433 | is the pushing step: the old entries and the new one stay exactly as far as some reader has yet to read them, and without readers all of them in a keeping queue and none in another |
| `SequencedBulkQueues.SequencedBulkQueue.PushAndFire` | device/sequenced_bulk_queue.h:426-429 | append, count, and the callbacks that the new number meets |
| `SequencedBulkQueues.SequencedBulkQueue.RecycleOne` | device/sequenced_bulk_queue.h:298-330 | the two scans take out the entry that RecycleMeans describes and hand over its bulk |
| `SequencedBulkQueues.SequencedBulkQueue.CheckReady` | device/sequenced_bulk_queue.h:515-530 | looking at the last entry only decides as FindBulk does, and a yes consumes one entry |
| `SequencedBulkQueues.LastDecides` | device/sequenced_bulk_queue.h:515-530 | the test on the last entry agrees with the search through all |
| `SequencedBulkQueues.SequencedBulkQueue.StartWait` | device/sequenced_bulk_queue.cc:206-230 | is the first step of the three kinds of wait; a wait that finds an entry takes it, and an asynchronous one then has its callback posted |
| `SequencedBulkQueues.SequencedBulkQueue.InsertRecord` | device/sequenced_bulk_queue.cc:266-277 | the first block of SetReadyCallback |
| `SequencedBulkQueues.SequencedBulkQueue.MayFireCallback` | device/sequenced_bulk_queue.h:532-541 | the second block of SetReadyCallback |
| `SequencedBulkQueues.SequencedBulkQueue.CancelCallback` | device/sequenced_bulk_queue.cc:281-294 | removes the record if there is one, and tells whether there was |
| `SequencedBulkQueues.SequencedBulkQueue.GiveUpWait` | device/sequenced_bulk_queue.cc:183-191 | the cancelling step after a timeout |
| `SequencedBulkQueues.SequencedBulkQueue.LeaveWait` | device/sequenced_bulk_queue.cc:453-456 | the first block of the destructor with a wait still open |
| `SequencedBulkQueues.DemandsMet` | device/sequenced_bulk_queue.cc:397-405 | in every reachable state a reader's progress is below its cursor, as the DCHECK of UpdateReaderCount needs |
| `MemoryUsagePools.MemoryUsagePool.Alloc` | device/memory_usage_pool.cc:8-19 | returns the new buffer, or null exactly when the limit would be exceeded; the usage stays the sum of the live sizes |
| `MemoryUsagePools.MemoryUsagePool.Free` | device/memory_usage_pool.cc:21-45 | the recorded request is notified once, at the first release that meets it |
| `MemoryUsagePools.MemoryUsagePool.SetFreeCallback` | device/memory_usage_pool.cc:52-71 | notifies at once or records; a recorded request is always one that cannot be met yet |
| `MemoryUsagePools.MemoryUsagePool.CancelCallback` | device/memory_usage_pool.cc:77-82 | nothing is notified afterwards |
| `OscDataCollecters.AllocSucceeds` | canscope/device/osc_device/osc_data_collecter.cc:194-208 | the loop succeeds if and only if the new buffer fits beside the buffers that recycling can never free |
| `OscDataCollecters.AllocSucceedsWithReader` | canscope/device/osc_device/osc_data_collecter.cc:194-208 | with a reader, nothing held elsewhere and nothing passed by all, every buffer that fits the empty pool is allocated |
| `OscDataCollecters.AllocKeeps` | canscope/device/osc_device/osc_data_collecter.cc:194-208 | usage stays within the limit, readers and unrecyclable buffers are untouched, and entries that a reader has reached go only when none beyond is left |
| `OscDataCollecters.AllocSpares` | canscope/device/osc_device/osc_data_collecter.cc:194-208 | a buffer that fits costs no queued bulk; the last bulk that goes is one with which the buffer did not fit; a call that fails leaves nothing that could be recycled |
| `OscDataCollecters.OscDataCollecter.AllocOscRawData` | canscope/device/osc_device/osc_data_collecter.cc:194-208 | undisturbed, the loop over pool and queue ends and does what the specification says; it touches no queued bulk when the buffer fits, and none that need not go |
| `OscDataCollecters.OscDataCollecter.AllocOrRecycle` | canscope/device/osc_device/osc_data_collecter.cc:199-205 | the loop itself |
| `AllocTurns.AllocEnds` | canscope/device/osc_device/osc_data_collecter.cc:194-208 | with readers reading, waiting, registering and leaving between its steps the loop still ends, after at most two steps for each entry queued at the start and two more, and the limit is kept |
| `AllocTurns.UndisturbedAlloc` | canscope/device/osc_device/osc_data_collecter.cc:194-208 | when nobody interferes the steps of the loop end in exactly what the specification of the whole call says |
| `AllocTurns.TurnDecides` | canscope/device/osc_device/osc_data_collecter.cc:199-205 | a try succeeds exactly when the buffer fits; the loop gives up exactly when no reader exists or nothing lies beyond the slowest, and that is right exactly when the buffer does not fit by then |
| `AllocTurns.GivingUpIsRight` | canscope/device/osc_device/osc_data_collecter.cc:199-205 | it is right when nobody acts between the failed try and the recycling |
| `AllocTurns.ReaderDefeatsAlloc` | canscope/device/osc_device/osc_data_collecter.cc:199-205 | otherwise it may be wrong: a reader empties the queue between the two, and the allocation fails although the buffer fits |
| `OscDataCollecters.OscDataCollecter.Recycle` | canscope/device/osc_device/osc_data_collecter.cc:199-205 | one turn: the recycled bulk's buffer is freed when that was its last reference |
| `OscDataCollecters.OscDataCollecter.Release` | canscope/device/osc_device/osc_raw_data.cc:93-98 | a buffer goes back to the pool with the last reference to it |
| `OscDataCollecters.OscDataCollecter.AllocAgain` | canscope/device/osc_device/osc_raw_data.cc:83-91 | one try to allocate |
| `UiFeed.FeedStaysBounded` | canscope/app/canscope_chnl_calc.cc:106-126 | however readers act between the locked steps of a call: never more than three results queued and the frequency within its limits, if no reader registers between a recycling that left three results and the push |
| `UiFeed.BoundExact` | canscope/app/canscope_chnl_calc.cc:106-126 | over every run, whoever registers when: never more than three results if and only if no push meets a full queue of which some reader that it does not serve needs every entry |
| `UiFeed.RateControlled` | canscope/app/canscope_chnl_calc.cc:106-123 | over every run: the frequency goes down by one step, to 5 at most, when a call finds more than two results, up by one step, to 60 at most, when it finds none, and stays otherwise |
| `UiFeed.PushLeavesRate` | canscope/app/canscope_chnl_calc.cc:124 | the push that ends the call does not touch it |
| `BulkQueueEffects.PushGrowsExactly` | device/sequenced_bulk_queue.h:422-433 | a push lengthens the queue exactly when some reader that it does not serve has yet to read all that is retained |
| `UiFeed.LateReaderOverflows` | canscope/app/canscope_chnl_calc.cc:106-126 | a whole run from a new queue that ends with four results: three published for a reader that leaves unread, and one that registers between the vain recycling and the push |
| `UiFeed.PushGrowsByOne` | device/sequenced_bulk_queue.h:422-433 | a push adds at most one entry, and leaves at most one when recycling had failed |
| `UiFeed.RecycledOrSpent` | device/sequenced_bulk_queue.h:298-330 | recycling makes room, or whatever is left goes with the next release |
| `CanscopeChnlCalcs.CANScopeChnlCalc.MayNotifyUI` | canscope/app/canscope_chnl_calc.cc:106-126 | without interference the call is the three steps of the feed, the second queue gets the result too, the frequency moves by the length of the queue at the start, and all that the next call relies on holds again |
| `LoopRunSpec.EveryLoopRun` | canscope/device/threaded_loop_run.cc:9-127 | in every interleaving start_ or single_ is set exactly while one LoopRun is live, stop_ and running_ imply it, at most one LoopRunImp begins after Stop was accepted, and each finished session called OnStop exactly once |
| `LoopRunSpec.BeginsExactly` | canscope/device/threaded_loop_run.cc:9-27 | Start and Single begin a session exactly when none is live, and otherwise change nothing |
| `LoopRunSpec.EndsExactly` | canscope/device/threaded_loop_run.cc:73-125 | a session ends at the first block after Stop was accepted, or when LoopRunImp returned false, never otherwise, and all flags are clear then |
| `LoopRunSpec.EndsOnlyWhenAsked` | canscope/device/threaded_loop_run.cc:9-127 | over every run: a session that ended had a Stop since it began, or its LoopRunImp returned false |
| `LoopRunSpec.StopAccepted` | canscope/device/threaded_loop_run.cc:29-37 | a Stop is accepted exactly while a session is live, and touches no other flag |
| `LoopRunSpec.StopTakesEffect` | canscope/device/threaded_loop_run.cc:29-127 | over every run: after a Stop that finds a session live at most ten more steps of that session are made before it ends |
| `LoopRunSpec.StopObeyed` | canscope/device/threaded_loop_run.cc:29-37 | while a Stop is pending at most ten more steps of the session happen |
| `LoopRunSpec.StopNeverStuck` | canscope/device/threaded_loop_run.cc:73-127 | and one of them is always possible |
| `ThreadedLoopRuns.ThreadedLoopRun.Start` | canscope/device/threaded_loop_run.cc:9-17 | sets start_ and has a LoopRun posted exactly when nothing is started |
| `ThreadedLoopRuns.ThreadedLoopRun.Single` | canscope/device/threaded_loop_run.cc:19-27 | sets single_ and has a LoopRun posted exactly when nothing is started |
| `ThreadedLoopRuns.ThreadedLoopRun.Stop` | canscope/device/threaded_loop_run.cc:29-37 | sets stop_ exactly when something is started, and no other flag |
| `ThreadedLoopRuns.ThreadedLoopRun.LoopRunEnter` | canscope/device/threaded_loop_run.cc:74-97 | the first block of a turn ends the session exactly when stop_ is set, and otherwise sets running_ |
| `ThreadedLoopRuns.ThreadedLoopRun.LoopRunLeave` | canscope/device/threaded_loop_run.cc:103-124 | the second block ends it exactly when stop_ is set or LoopRunImp returned false, and otherwise changes nothing |
| `WaveLayers.AddedPartition` | wave_control/osc_wave_group/common_osc_wave_group.cc:58-120 | adding a wave keeps one part for each class of equal look; a part is created exactly for a new class |
| `WaveLayers.RemovedPartition` | wave_control/osc_wave_group/common_osc_wave_group.cc:122-194 | removing a wave keeps it too; a part is deleted exactly with the last wave of its class, and otherwise shows a present member |
| `WaveLayers.AddedExactly` | wave_control/osc_wave_group/common_osc_wave_group.cc:58-107 | a wave that looks like none gets a new part at the end of the list, which shows it; any other shares the part of those it looks like, and nothing else changes |
| `WaveLayers.RemovedExactly` | wave_control/osc_wave_group/common_osc_wave_group.cc:122-172 | a removal takes the part that nobody else needs; a part that showed the removed wave shows the first wave left that looks like it, and what other parts show stays |
| `WaveLayers.SuccessorExists` | wave_control/osc_wave_group/common_osc_wave_group.cc:139-150 | the wave that takes over a surviving part exists and is of its class: the DCHECKs on it hold |
| `WaveLayers.HandedOnExact` | wave_control/osc_wave_group/common_osc_wave_group.cc:139-150 | a removal hands on at most one part of a kind: that of the removed wave, exactly when it shows that wave and another wave needs it |
| `WaveLayers.PartLayer.Add` | wave_control/osc_wave_group/common_osc_wave_group.cc:67-91 | the search shares the part of the first wave of equal look |
| `WaveLayers.PartLayer.Erase` | wave_control/osc_wave_group/common_osc_wave_group.cc:245-250 | the part leaves the list with its last record |
| `WaveLayers.PartLayer.SameWave` | wave_control/osc_wave_group/common_osc_wave_group.cc:196-207 | finds the first other wave of equal look |
| `WaveLayers.PartLayer.Repoint` | wave_control/osc_wave_group/common_osc_wave_group.cc:142-149 | every part that showed the removed wave shows the new one, and its place is noted |
| `WaveLayers.PartLayer.Remove` | wave_control/osc_wave_group/common_osc_wave_group.cc:127-150 | what a removal does to one kind of part |
| `CommonOscWaveGroups.EveryHistory` | wave_control/osc_wave_group/common_osc_wave_group.cc:58-194 | after any calls, and for each kind, two records share a part exactly when their waves look the same, the list holds just the parts in use, and each shows a present wave |
| `CommonOscWaveGroups.RemovalAnnounces` | wave_control/osc_wave_group/common_osc_wave_group.cc:174-184 | exactly which single parts a removal announces: never a vertical one, and horizontal ones at the places of the horizontal and the vertical part handed on |
| `CommonOscWaveGroups.RemovalAnnouncesExactly` | wave_control/osc_wave_group/common_osc_wave_group.cc:174-193 | all that a removal announces, in order: the parts handed on, vertical ones as horizontal, then each kind that lost a part |
| `CommonOscWaveGroups.AdditionAnnounces` | wave_control/osc_wave_group/common_osc_wave_group.cc:109-119 | all that an addition announces, in order: each kind of which no present wave looks like the new one |
| `CommonOscWaveGroups.VerticalsAnnouncedExactly` | wave_control/osc_wave_group/common_osc_wave_group.cc:182-184 | the vertical parts are announced rightly if and only if none is handed on, a test on the group before the call |
| `CommonOscWaveGroups.AnnouncesNoPartExactly` | wave_control/osc_wave_group/common_osc_wave_group.cc:182-184 | exactly when the announced index is that of no horizontal part |
| `CommonOscWaveGroups.VerticalsMisannounced` | wave_control/osc_wave_group/common_osc_wave_group.cc:182-184 | both go wrong in a group that three calls of AddOscWave build |
| `CommonOscWaveGroups.CommonOscWaveGroup.AddOscWave` | wave_control/osc_wave_group/common_osc_wave_group.cc:58-120 | the three kinds after the call, and the notices for those that grew |
| `CommonOscWaveGroups.CommonOscWaveGroup.RemoveOscWave` | wave_control/osc_wave_group/common_osc_wave_group.cc:122-194 | the three kinds after the call, and the notices in their order |
| `CommonOscWaveGroups.CommonOscWaveGroup.HasOscWave` | wave_control/osc_wave_group/common_osc_wave_group.cc:235-243 | true exactly for a present wave |
| `Endian.RoundTrip` | device/endian.h:14-64 | for every width and either byte order, reading back gives the value modulo 256 to the width, and every signed value of that width |
| `Endian.RoundTripBytes` | device/endian.h:14-64 | writing what was read restores every byte |
| `Endian.ByteOrder` | device/endian.h:27-64 | little endian puts the byte of the least weight first, big endian last, for every width |
| `Endian.ByteOrderRead` | device/endian.h:14-56 | and so they are read |
| `Endian.WriteLittleEndian` | device/endian.h:58-64 | the loop writes the byte of weight 256 to the k at place k, and nothing else |
| `Endian.WriteBigEndian` | device/endian.h:27-33 | the loop writes it at place k from the end, and nothing else |
| `Endian.ReadLittleEndian` | device/endian.h:48-56 | the loop takes the byte of weight 256 to the k from place k, although the first byte is sign-extended |
| `Endian.ReadBigEndian` | device/endian.h:14-24 | the loop takes it from place k from the end, although the first byte is sign-extended |
| `Bits.MarkValue` | device/uint32_sub_bind.cc:23-32 | mask and largest value are all ones over the field's length, also for a whole word, where the shift overflows |
| `Bits.GetBits` | device/uint32_sub_bind.cc:27-32 | reading takes out exactly the field's bits |
| `Bits.SetBits` | device/uint32_sub_bind.cc:34-45 | writing changes exactly the field's bits |
| `Bits.GetAfterSet` | device/uint32_sub_bind.cc:27-45 | what was written is read back |
| `Bits.GetOther` | device/uint32_sub_bind.cc:27-45 | a write does not change what a disjoint field reads |
| `Bits.SetsCommute` | device/uint32_sub_bind.cc:34-45 | writes to disjoint fields may be swapped |
| `Bits.SetOfGet` | device/uint32_sub_bind.cc:27-45 | writing back what was read changes nothing |
| `Uint32SubBinds.Uint32SubBind.constructor` | device/uint32_sub_bind.cc:3-17 | takes the two indices in either order |
| `Uint32SubBinds.Uint32SubBind.Word` | device/simple_type_bind.h:20-33 | where in memory the byte of each weight stands, for a big-endian and for a little-endian bind |
| `Uint32SubBinds.Uint32SubBind.GetValue` | device/uint32_sub_bind.cc:27-32 | reads the field from memory in either byte order, never above its largest value |
| `Uint32SubBinds.Uint32SubBind.SetValue` | device/uint32_sub_bind.cc:34-45 | changes the field's bits of the word in memory and no other byte |
| `DevicesSpec.MergeSettles` | canscope/device/devices_manager.cc:71-106 | a merge opens and closes nothing, and merging the same list again changes nothing and, without duplicates, sets no flag |
| `DevicesSpec.MergedMeans` | canscope/device/devices_manager.cc:71-106 | open devices become online or offline as they are listed or not, others exist just while they are listed |
| `DevicesSpec.SettledMeans` | canscope/device/devices_manager.cc:108-146 | with automatic closing only listed devices stay open, with automatic opening every listed device that comes up is open, and no listed open device is closed |
| `DevicesSpec.SettledExactly` | canscope/device/devices_manager.cc:71-146 | which devices are known, open and offline after a changed list, exactly, from what was known before, the list and which devices come up |
| `DevicesSpec.ListChangesExactly` | canscope/device/devices_manager.cc:84-149 | when a changed list is announced: a device came or went, one is listed twice, or an open one that is gone is closed |
| `DevicesSpec.StateChangesExactly` | canscope/device/devices_manager.cc:84-151 | when else a changed status is announced: a device is back or has gone, or opening one was tried |
| `DevicesManagers.DevicesManager.Merge` | canscope/device/devices_manager.cc:71-106 | the three loops compute the merge, and the flags are set exactly for a changed list (or a duplicate) and a changed status |
| `DevicesManagers.DevicesManager.OnDeviceListChanged` | canscope/device/devices_manager.cc:61-151 | merge, automatic opening and closing together, and which notice is sent; without a notice nothing changed; the first device is tried again until it comes up |
| `DevicesManagers.DevicesManager.OpenDeviceImpl` | canscope/device/devices_manager.cc:153-202 | opens exactly a device that exists unopened and comes up; the open devices stay those online or offline |
| `DevicesManagers.DevicesManager.CloseDeviceImpl` | canscope/device/devices_manager.cc:204-242 | closes exactly an open device |
| `DevicesManagers.DevicesManager.DestroyDevicesImpl` | canscope/device/devices_manager.cc:254-265 | closes every open device |

Where the code differs from what its names or documentation suggest, the model follows the code, shows an input on
which it matters, and gives the condition under which it does: `NodeFailed` may lose the end of the range it walks
(`calc_group.cc:164-184`), the vertical notices of `RemoveOscWave` are sent as horizontal ones
(`common_osc_wave_group.cc:182-184`), the queue bound of `MayNotifyUI` is one more than `kUIQueueMaxSize`
(`canscope_chnl_calc.cc:18`, `:108`) and can be exceeded by a late reader, a cancelled run releases the delegate at the
first cancel test, whoever is still computing (`calc_executer.cc:60-66`, `:82-89`), and the allocation loop does not
try again before it gives up (`osc_data_collecter.cc:199-205`).

The group that `NodeFailed` mishandles: items 2 and 3 depend on 0, and 2 and 4 depend on 1. When 0 fails, erasing the
edges into 2 erases the edge from 1 to 2, which is the end of the range of 0. The walk never meets it, goes on to the edge
from 1 to 4, and leaves the map. An iterator is modelled by the entry it stands on; iterators are compared by that, also
when the entry has just been erased, and a step from an erased entry or from the end of the map is undefined.

## Left out

- `Quit` of the queue and the pending waits it ends: on an empty buffer the callbacks are not fired, and records are
  not erased, so the proofs are about runs before `Quit`.
- CalcGroupWalkers.CalcGroupWalker.Mark: what the program does after an undefined `NodeFailed`; the run theorems of the
  walker and the executer are about runs in which every failure is defined, as all are when no two dependencies of the
  group share a target (`EveryFailureDefined`, `EveryItemEndDefined`). Comparing an erased range end is taken as
  the comparison of two addresses, which the C++ standard does not promise.
- The name, the keys and the text dump of a group, and what an item calculates.
- A second `StartRun` while items of a cancelled run are still in flight, `NotifyProgress` and `NotifyError`.
- `WaitForManyReader`: it combines the wait steps of several readers.
- A negative `Skip`, and a `Skip` or a `GetBulkSameThread` by a reader while an asynchronous wait of its own is open.
- An asynchronous reader without a callback: the posted task is modelled as the reader's event in every case.
- 64-bit and 32-bit overflow of sequence numbers, byte counts and the pool's limit.
- OscDataCollecters.OscDataCollecter.AllocOscRawData: the class method runs undisturbed; the interleaved loop is the
  state machine of `AllocTurns`.
- WaveLayers.AddedPartition: `IsSameTrigger` and its siblings are equality of what the waves show, which every
  fixed equivalence amounts to; waves that change their look while in the group are not modelled.
- `OnOscWaveChanged`, the icons and all painting of the wave group.
- The device objects, observers and the port behind the devices manager; a device is known by its path.
- Binds of `float` and `double`, and bit operators of other widths in C++ (the lemmas hold for any width).
- All user interface, layout, transport and calibration code.
