# Felis in Dafny

Felis (Caracal) is a deterministic, epoch-based, multi-versioned database. Every transaction has a
serial id. In each epoch all versions that the transactions will write are first appended to their
rows as *pending*, then the transactions execute in any interleaving, reading the version before
their own id and waiting while it is pending. This project models the parts of the C++ code on
which that scheme rests, in the form the code has (classes and array loops where it updates state
in place, atomic steps over any number of threads where it is concurrent), and proves what they
are for.

| file | what it holds |
|---|---|
| `LowerBound.dfy`, `VersionSeq.dfy`, `Merge.dfy` | the fixed-round search, insertion into sorted ids, the in-place batch merge on arrays |
| `RowLookup.dfy`, `RowGc.dfy`, `RowDrops.dfy`, `VHandle.dfy`, `LatestVersion.dfy` | reads and writes through hints, garbage collection and how much it drops, the row class, the hint under concurrent writers |
| `Serializability.dfy`, `EpochStart.dfy` | every interleaving of an execution phase equals serial execution and can be completed; the append phase leaves rows it can start from |
| `VersionBuffers.dfy`, `BufferProgress.dfy`, `FinalizeFlush.dfy`, `FlushExamples.dfy`, `BinPacking.dfy` | per-core version buffers; that no core gets stuck in them; what flushing them at the end leaves; two runs in which it goes wrong; the subset-sum packing of split rows |
| `PhaseProtocol.dfy`, `PhaseProgress.dfy`, `BufferPlan.dfy`, `PlanPaths.dfy`, `PlanSteps.dfy` | how nodes detect the end of a phase; that every phase ends; how plans are counted and exchanged; what the counters mean, by positions in the piece trees; that the exchange is steps of the first |
| `PwvGraph.dfy` | the dependency graph: class and step relation |
| `McsLock.dfy`, `SpinnerSlot.dfy`, `HashChain.dfy`, `HashProgress.dfy` | MCS lock, wake-up protocol, lock-free hash chains and that all calls on them return |
| `Balance.dfy` | the load balancer and drawing from its tables |
| `KeyHeap.dfy`, `PieceQueue.dfy`, `Scheduler.dfy` | the piece scheduler as a stable priority queue |
| `ChunkLists.dfy`, `Allocator.dfy` | the cross-core chunk allocator on intrusive lists |
| `PieceCodec.dfy` | the wire format of piece trees |
| `Basics.dfy`, `Sums.dfy` | shared constants; sums over sequences |

State machines are step relations over values: `IsRun` says what an interleaving is, an invariant is
kept by every step, and the theorems are about every state of every run: what is never violated, that
somebody always has a step until all are done, and a measure that every step lowers. `dafny verify
dfyconfig.toml` checks everything.

Where the code does not do what one would expect of it, it is modelled as it is, with the exact
condition under which the expected property holds:

- `FastLowerBound` makes twelve probe rounds, which is enough exactly for ranges shorter than 8192
  (`LowerBound.FastLowerBoundExactRange`).
- `WithVersion` looks at the word before the array exactly when `latest_version` is 0 and the id is
  not above the first version (`RowLookup.ReadSlotCorrect`, `RowLookup.StrayReadExample`).
- `WriteWithVersion` trusts the word after the last version, which may be stale memory
  (`RowLookup.WriteSlotCorrect`, `RowLookup.StrayWriteExample`).
- A flush and one-at-a-time appends build the same row in any order. They collect the same versions
  exactly unless the row has at least 512K slots, has room for the first id but not for all, is
  registered and was written since its last append, and has more than 16K versions to collect
  (`VHandle.SortedArrayVHandle.AppendAll`, `VHandle.OverflowDropsMore`).
- A core runs `FinalizeFlush` whenever its queue is empty, while other cores still append, and reads the
  counter of a head once. A version it has put at a position that the owner of the head is just
  installing is left behind. That is the only way: all rows are complete after the last scans exactly
  when no scan meets this case (`FinalizeFlush.ScanLeavesClear`, `FinalizeFlush.FinalizedRows`,
  `FlushExamples.LostVersionExample`).
- `Add` starts over on a full ring and then forgets unpublished pieces. A batch is published whole
  exactly when its keyed pieces fit at the first reading that shows room and nothing was written
  before it (`PieceQueue.AddPublishesAll`, `PieceQueue.LostPieceExample`).
- `AllocHead` writes through a null chunk when the pool of the zone is empty. In every run that is
  exactly when the zone already has as many heads as its span holds (`VersionBuffers.CrashesExactly`,
  `FlushExamples.CrashExample`).
- `1 << i` on an int names one core only below 31 (`Allocator.MaskIsOneBit`). The allocator works up to
  32 cores all the same: core 31 sets and clears bits 31 to 63 together, and the draw never goes
  beyond 31 (`Allocator.MaskHolds`, `Allocator.DrawsCore`). From 33 on `1 << 32` is undefined.
- `Node::at` takes an 8-bit index (`PwvGraph.SlotsDistinct`); a core registers itself in a pending word
  only below 32 (`SpinnerSlot.RegisterWorks`).
- `util::Align` defaults to 16 and relies on wrap-around for length 0 (`PieceCodec.AlignRoundsUp`).

## Model

| member | source | states |
|---|---|---|
| LowerBound.FastOffsetIsUpperBound | util/lowerbound.h:8-24 | on every sorted range shorter than 8192 the answer is the upper bound |
| LowerBound.FastOffsetFailsFrom8192 | util/lowerbound.h:8-24 | for every length from 8192 on there is a sorted range on which the answer is wrong |
| LowerBound.FastLowerBoundExactRange | util/lowerbound.h:8-24 | the twelve rounds are correct for all sorted ranges of a length if and only if it is below 8192 |
| LowerBound.Probe | util/lowerbound.h:19-22 | the probe loop over an array range computes the round function |
| LowerBound.Search | util/lowerbound.h:8-24 | the whole search with the number of rounds left open |
| LowerBound.FastLowerBound | util/lowerbound.h:8-24 | the search on an array range: start when empty, the upper bound when sorted and shorter than 8192 |
| LowerBound.StdLowerBound | vhandle.cc:261-261 | binary search returns the lower bound of a sorted sequence |
| VersionSeq.InsertSorted | vhandle.cc:151-170 | inserting one id keeps order and adds exactly that id |
| VersionSeq.InsertAllSorted | contention_manager.cc:147-161 | inserting a batch keeps order and adds exactly the batch |
| VersionSeq.SortedUnique | contention_manager.cc:147-161 | a sorted array is determined by what it holds |
| VersionSeq.InsertAllAnyOrder | contention_manager.cc:147-161 | appending a batch one id at a time gives the same array in every order |
| VersionSeq.MergeIsInsertAll | contention_manager.cc:147-161 | any sorted permutation of array and batch is what one-at-a-time appends build |
| VersionSeq.InsertAllKeepsPrefix | vhandle.cc:172-193 | ids above a prefix leave it in place, which is why objects need not move |
| VersionSeq.InsertAllDrop | vhandle.cc:87-170 | dropping a prefix and inserting ids above it commute |
| VersionSeq.BelowIsLowerBound | vhandle.cc:261-261 | the lookup function is std::lower_bound |
| Merge.Move | vhandle.cc:187-187 | the block move, with overlapping ranges, as a function of the old array |
| Merge.Sort | contention_manager.cc:151-151 | sorted, a permutation, nothing beyond the batch touched |
| Merge.FindSlot | vhandle.cc:179-185 | last 1024-aligned block first, earlier ones only if needed, finds the split point of the whole range |
| Merge.Absorb | vhandle.cc:172-193 | the booked id goes to its place and the rest shifts by the gap, for every gap |
| Merge.MergeStep | contention_manager.cc:152-156 | one iteration moves the next id and all ids above it to the finished tail |
| Merge.MergeLoop | contention_manager.cc:152-156 | after the backward loop the array is sorted and holds old ids plus batch |
| Merge.FlushInto | contention_manager.cc:147-161 | the in-place merge equals appending the buffered ids one at a time; memory above is untouched |
| RowLookup.BelowInPart | vhandle.cc:245-262 | searching the part the hints leave finds the same place as searching the whole row |
| RowLookup.ReadSlotCorrect | vhandle.cc:236-280 | for every hint the read slot is the greatest version below the id, or none, if and only if not (latest is 0 and the id is not above the first version) |
| RowLookup.StrayReadExample | vhandle.cc:241-262 | a concrete row on which the read goes before the array |
| RowLookup.WriteSlotCorrect | vhandle.cc:311-334 | for every hint a write finds exactly its own slot if and only if the stray word case does not apply |
| RowLookup.WriteSlotMissing | vhandle.cc:316-333 | an id the row does not hold is reported, under the same exact condition |
| RowLookup.StrayWriteExample | vhandle.cc:315-319 | a concrete row, with ids of one epoch left behind by a collection, on which the write goes to the word after the last version |
| RowGc.CollectLenBounds | gc.cc:289-292 | what the counting loop stops at |
| RowGc.CollectPreservesReads | gc.cc:285-315 | collecting changes no read in the current or a later epoch |
| RowGc.DropPreservesReads | gc.cc:285-315 | dropping any prefix up to an earlier-epoch version changes no later read |
| RowGc.AppendKeepsReads | vhandle.cc:87-170 | after dropping a prefix and inserting pending ids a read of this or a later epoch finds a pending version if one of the new ids is below it and what it found before otherwise |
| RowGc.CollectIsMaximal | gc.cc:289-292 | collecting one version more than the loop does loses a read |
| RowGc.CollectLenPrefix | vhandle.cc:87-149 | unbooked slots above the row do not change what is collected |
| VHandle.SortedArrayVHandle.constructor | vhandle.cc:27-45 | a new row is empty, with no version written |
| VHandle.SortedArrayVHandle.CountCollectable | gc.cc:289-292 | the loop counts exactly the collectable prefix |
| VHandle.SortedArrayVHandle.Collect | gc.cc:285-315 | ids and objects shift together, size and latest_version shift with them, cur_start wraps as unsigned |
| VHandle.SortedArrayVHandle.Enlarge | vhandle.cc:57-75 | both halves are copied to the larger array |
| VHandle.SortedArrayVHandle.IncreaseSize | vhandle.cc:87-149 | drops exactly the collectable prefix, keeps the rest paired and every later read unchanged, adds pending slots, repairs cur_start, grows only if full; states exactly when the row is registered afterwards |
| VHandle.SortedArrayVHandle.MakeRoom | vhandle.cc:87-149 | the same; the reads follow from `RowGc.DropSameReads` |
| VHandle.SortedArrayVHandle.CollectAndGrow | vhandle.cc:87-126 | the part up to the new pending slots |
| VHandle.SortedArrayVHandle.CollectOnOverflow | vhandle.cc:92-95 | only rows of at least 512K slots collect before growing |
| VHandle.SortedArrayVHandle.GrowAndFill | vhandle.cc:97-126 | ids and objects kept, new slots pending, room for them all |
| VHandle.SortedArrayVHandle.Grow | vhandle.cc:97-120 | the row is enlarged if and only if it is too small, ids and objects are kept |
| VHandle.SortedArrayVHandle.Fill | vhandle.cc:122-126 | the objects grow by pending ones, the ids before them are kept |
| VHandle.SortedArrayVHandle.Refresh | vhandle.cc:128-148 | cur_start moves behind the latest version, a registered row is collected, and a row written since its last append is registered again if and only if more was written than one collection takes or its latest object is garbage |
| VHandle.SortedArrayVHandle.CollectRegistered | vhandle.cc:133-138 | a registered row is collected up to its latest version and unregistered |
| VHandle.SortedArrayVHandle.AppendNewVersion | vhandle.cc:151-170 | the row keeps its invariant and its ids are the old ones with the new one inserted, pending; reads are kept; exactly when it is registered afterwards |
| VHandle.SortedArrayVHandle.AbsorbBooked | vhandle.cc:156-169 | the id booked in the last slot is inserted among the others, objects stay |
| VHandle.SortedArrayVHandle.FlushBatch | contention_manager.cc:138-144 | a batch flush keeps the row invariant and inserts exactly the batch, all pending; reads are kept; exactly when it is registered afterwards |
| VHandle.SortedArrayVHandle.AppendAll | vhandle.cc:87-170 | appending ids one at a time, collections included, ends in the row a flush of them builds; for a batch of up to 255 they drop as many versions as the flush if and only if the flush does not collect twice, and 16K otherwise |
| VHandle.SortedArrayVHandle.AppendRest | vhandle.cc:87-170 | the same after the first |
| VHandle.SortedArrayVHandle.FlushBooked | contention_manager.cc:147-161 | merging above the booked ids, objects stay |
| VHandle.SortedArrayVHandle.WithVersion | vhandle.cc:236-280 | computes the read slot, which is the greatest version below the id outside the one bad case |
| VHandle.SortedArrayVHandle.WriteWithVersion | vhandle.cc:311-361 | stores in exactly that slot, raises latest_version to the larger index, registers the row for collection if and only if the object is garbage and not the last version, keeps the invariant |
| VHandle.FlushKeepsPairs | contention_manager.cc:147-161 | every written (id, object) pair survives a flush in order, every new id is pending |
| VHandle.FlushIsAppends | contention_manager.cc:147-161 | ids, objects and latest_version after one-at-a-time appends in any order are those after a flush that drops as much |
| VHandle.RegistersAgain | vhandle.cc:128-148 | an append after a write leaves the row registered if its latest object is garbage, collected or not |
| VHandle.AppendAndWrite | vhandle.cc:87-361 | a row whose latest object is garbage is registered again after one append and its write |
| VHandle.AppendWriteAppend | vhandle.cc:87-361 | so the append of a later epoch collects what there is, up to one batch: registration survives from epoch to epoch |
| VHandle.OverflowDropsMore | vhandle.cc:92-149 | an almost full registered row of 512K slots drops 32K versions when two ids are flushed, and 16K and none when they are appended |
| RowDrops.CollectLenIs | gc.cc:289-292 | a collection drops the versions of earlier epochs but the last, up to its limit |
| RowDrops.DropCountIs | vhandle.cc:87-149 | what IncreaseSize drops depends only on how much there is to collect, on the room and on whether the row is due |
| RowDrops.LaterStep | vhandle.cc:87-126 | what the appends to come will drop is what the next one drops and those after it |
| RowDrops.FullDoubles | vhandle.cc:101-101 | a full row doubles |
| RowDrops.AppendsDropExactly | vhandle.cc:87-149 | appends drop as much as a flush if and only if the flush does not collect twice |
| LatestVersion.LatestGrows | vhandle.cc:340-345 | the hint never goes back |
| LatestVersion.LatestIsWritten | vhandle.cc:337-345 | the hint only points at a version that has been written |
| LatestVersion.LatestIsMax | vhandle.cc:311-345 | under any interleaving of writers the hint ends at the largest index written |
| LatestVersion.FailureMeansGrowth | vhandle.cc:342-344 | a compare-and-swap fails only because the hint grew |
| LatestVersion.WriterCanGo | vhandle.cc:311-345 | every writer that is not done has a step |
| LatestVersion.StepLowers | vhandle.cc:340-345 | every step of every writer lowers a measure, failed exchanges included |
| LatestVersion.RunIsShort | vhandle.cc:340-345 | so a run has only so many steps |
| LatestVersion.StuckMeansDone | vhandle.cc:311-345 | and ends with all writers done |
| Serializability.ReadsAreSerial | vhandle.cc:236-295 | at every point of every interleaving a transaction has read exactly what serial execution lets it read |
| Serializability.SlotsAreSerial | vhandle.cc:311-345 | a slot is pending until its owner writes and then holds the serial value |
| Serializability.FirstUnfinishedRuns | vhandle.cc:286-295 | the unfinished transaction with the smallest id is never blocked |
| Serializability.FinalRowsAreSerial | vhandle.cc:236-361 | when all have finished the newest version of every row is the serial outcome |
| Serializability.ExecLowers | vhandle.cc:236-361 | every operation performed is one less to do |
| Serializability.RunCanFinish | vhandle.cc:236-361 | every run can be continued until all have finished, and then the rows hold the serial outcome |
| EpochStart.AppendedRowOk | vhandle.cc:151-193 | a row to which exactly its writers of the batch were appended is what the execution phase assumes |
| EpochStart.FlushStart | contention_manager.cc:138-161 | the row class is such a row after a flush |
| EpochStart.AppendStart | vhandle.cc:151-170 | and after appends |
| EpochStart.FinalizedStart | contention_manager.cc:267-282 | and a row of the version buffers after clean last scans |
| VersionBuffers.NoVersionLost | contention_manager.cc:107-145 | in every state array, buffers and carried versions are exactly the appended ones plus what is left of the initial ones, and the array is sorted |
| VersionBuffers.BitmapIsExact | contention_manager.cc:132-160 | a bit is set if and only if that core's buffer is not empty |
| VersionBuffers.PositionsDistinct | contention_manager.cc:163-186 | rows never share a buffer position |
| FinalizeFlush.FinalizedRows | contention_manager.cc:188-282 | after every core's last scan all arrays are exactly their remaining versions with all appended ones merged in, if and only if no scan read a counter while the owner was installing a position at which the scanning core had a version |
| FinalizeFlush.ScanLeavesClear | contention_manager.cc:267-282 | a scan ends with all bits of its core clear if and only if it met no such case |
| FinalizeFlush.RowIsFinal | contention_manager.cc:188-225 | a row is complete if and only if no core has a bit left at its position |
| FlushExamples.LostVersionExample | contention_manager.cc:163-282 | a run on eight cores in which both cores at work scan after their last version and one version is lost |
| VersionBuffers.ReadKeeps | contention_manager.cc:274-275 | reading a counter passes nothing that is set but the position being installed |
| VersionBuffers.ScanEnds | contention_manager.cc:267-282 | after the last head exactly the positions missed are still set |
| VersionBuffers.LeaveKeeps | contention_manager.cc:188-225 | a head walked without meeting a busy row is clear below the counter that was read |
| VersionBuffers.AdvanceClears | contention_manager.cc:75-84 | clearing the next position never discards a version |
| VersionBuffers.HeadsGrow | contention_manager.cc:97-105 | a new head's positions overlap no other head |
| VersionBuffers.CrashesExactly | contention_manager.cc:97-105 | in every state of every run the null chunk is written through if and only if a head is needed and the zone already has all its heads |
| VersionBuffers.GetsHeadExactly | contention_manager.cc:97-105 | and otherwise a head is allocated |
| FlushExamples.CrashExample | contention_manager.cc:97-105 | a run on eight cores that crashes: one contended row more than a head has positions |
| VersionBuffers.SwapKeeps | contention_manager.cc:178-181 | installing a position keeps rows and positions paired one to one |
| VersionBuffers.MergeConserves | contention_manager.cc:138-144 | a flush, with collection on the way, moves versions without losing or adding any |
| VersionBuffers.NextKeeps | vhandle.cc:196-234 | every append and scan step of every core keeps the invariant |
| BufferProgress.NeverStuck | vhandle.cc:196-234 | in every state that has not crashed, a core in an append or a scan has a step that needs no luck with a lock |
| BufferProgress.AppendIsShort | contention_manager.cc:107-186 | an append takes at most eleven steps of its core, whatever the others do |
| BufferProgress.AppendLowers | contention_manager.cc:107-186 | each of them lowers what is left, and no step of another core changes it |
| BufferProgress.PositionStays | contention_manager.cc:163-186 | a row keeps its position |
| BufferProgress.PositionIsUsed | vhandle.cc:205-217 | once a row has one, no append that has yet to look goes past the buffers |
| BinPacking.BestIsUpperBound | contention_manager.cc:394-407 | no choice of rows within the capacity weighs more than the table entry |
| BinPacking.FillRow | contention_manager.cc:399-405 | one row of the table and its trace bits |
| BinPacking.FillTable | contention_manager.cc:389-409 | the swapped arrays end with the best weight, the trace records every choice |
| BinPacking.Traceback | contention_manager.cc:411-422 | the rows taken out weigh exactly the best and carry the label, all others are untouched |
| BinPacking.BinPack | contention_manager.cc:385-429 | returns the maximum subset sum not above limit - 1, taken out and labelled |
| BinPacking.PackLeftOver | contention_manager.cc:431-441 | what is left gets the label |
| BinPacking.PackedStep | contention_manager.cc:360-363 | load so far plus carry stays the sum of the limits after one more core |
| BinPacking.LeftOverSpreads | contention_manager.cc:364-364 | after the last core every row has one label and the loads add up |
| BinPacking.PackCores | contention_manager.cc:356-366 | load on cores 0..c plus the carry is (c+1) times the limit, each core takes the most that fits, every row gets exactly one core |
| PhaseProtocol.CompZero | completion.h:23-31 | the counter is never negative and zero exactly when all is done |
| PhaseProtocol.PhaseEndsExactlyOnce | epoch.cc:259-395 | the counter equals guesses for unknown plans plus known plans plus tokens less completed items; it reaches zero exactly once, only when everything planned is done |
| PhaseProtocol.ChannelEndsExactly | tcp_node.cc:227-250 | a channel's count is never negative and reaches zero once, exactly when all peer counters are in and everything sent over it was taken; the status advances to EndOfPhase and the abort never fires |
| PhaseProtocol.ChannelStaysEnded | tcp_node.cc:227-250 | a channel that has ended stays ended for the phase |
| PhaseProtocol.ChannelsReadyForNextPhase | node_config.cc:437-447 | when the phase is over every channel is at EndOfPhase |
| PhaseProtocol.PlanKeeps | node_config.cc:355-400 | receiving a plan keeps the token accounting |
| PhaseProtocol.ArriveKeeps | tcp_node.cc:282-364 | taking items from a channel keeps it |
| PhaseProtocol.StepKeepsInv | epoch.cc:259-395 | every step of every node keeps the accounting of all nodes |
| PhaseProgress.Progress | epoch.cc:259-395 | as long as some node is not done some node has a step other than planning more |
| PhaseProgress.PlanningCanEnd | node_config.cc:311-333 | a planning worker can always end its flush |
| PhaseProgress.StepLowers | completion.h:23-31 | every step but planning more lowers the measure of the whole cluster |
| PhaseProgress.FlushedRunEnds | tcp_node.cc:227-364 | once all plans are flushed a run has only so many steps left |
| PhaseProgress.StuckMeansOver | epoch.cc:259-395 | a run that cannot go on is over on every node: the counter has reached zero, once |
| PhaseProgress.PhaseCanEnd | epoch.cc:259-395 | every run can be continued to the end of the phase on all nodes |
| BufferPlan.IndexInjective | node_config.cc:202-205 | different counters have different places |
| BufferPlan.IndexInside | node_config.cc:202-205 | all places lie in the table, in the column of their destination |
| BufferPlan.CountOwn | node_config.cc:284-300 | one item for the piece, its future values from their own source, a dynamic piece for every node |
| BufferPlan.CountDynamic | node_config.cc:296-299 | every destination gets one |
| BufferPlan.CollectBufferPlanImpl | node_config.cc:281-309 | each counter grows by what the tree adds to it, and each destination's total by the items for it |
| BufferPlan.CollectBufferPlan | node_config.cc:271-279 | the same for all pieces of a transaction |
| PlanPaths.PositionsAll | node_config.cc:281-309 | the positions of a level are exactly the child-index paths of that depth |
| PlanPaths.PositionsOnce | node_config.cc:281-309 | each of them once |
| PlanPaths.PlanCountsPositions | node_config.cc:271-309 | the counter of a level, source and destination counts the pieces at paths of that depth that run at the destination, or anywhere, with the piece above at the source, and future values from their own source; a piece runs on the nearest node named on its path |
| PlanPaths.CollectedPositions | node_config.cc:271-309 | that is what CollectBufferPlan adds to every counter |
| BufferPlan.FlushRow | node_config.cc:317-330 | one row of counters goes into plan and totals |
| BufferPlan.FlushBufferPlan | node_config.cc:311-333 | every counter is added exactly once and the completion counter grows by all items for this node |
| BufferPlan.ReceiveRow | node_config.cc:364-376 | one row of a received plan |
| BufferPlan.UpdateBatchCounters | node_config.cc:355-400 | totals grow by the plan, the guess is corrected to the plan's items for this node |
| BufferPlan.CalculateIncoming | node_config.cc:402-413 | sums the levels of one source |
| BufferPlan.IncomingIsPlan | node_config.cc:402-413 | what all channels expect together is what the completion counter was told |
| PlanSteps.FlushIsStep | node_config.cc:311-333 | adding one source-destination entry of a table is one plan-flush step of the protocol |
| PlanSteps.FlushEnds | node_config.cc:311-333 | after all entries the protocol's node holds what FlushBufferPlan leaves in the tables and reports to the completion counter |
| PlanSteps.RowsMeet | node_config.cc:311-333 | the steps follow one another from the node before the flush to the node after it |
| PlanSteps.ReceiveIsStep | node_config.cc:355-400 | UpdateBatchCounters is the plan-arrival step: same correction of the counter, same totals |
| PlanSteps.RowIsPlan | node_config.cc:402-413 | a node's entries add up to what the completion counter is told |
| PwvGraph.SerialIdRoundTrip | pwv_graph.h:116-119 | a serial id leads back to its node |
| PwvGraph.SlotsDistinct | pwv_graph.h:53-57 | edges have slots of their own if and only if there are at most 256 |
| PwvGraph.NotifiedExactlyOnce | pwv_graph.cc:108-173 | in-degrees count unreleased resources; a node is notified exactly once if free, not at all otherwise |
| PwvGraph.ActivatedAscending | pwv_graph.cc:137-173 | every resource is activated in ascending serial order |
| PwvGraph.SmallestUnfinishedIsFree | pwv_graph.cc:137-173 | the first unfinished node is free |
| PwvGraph.FreeCanActivate | pwv_graph.cc:137-173 | a free node can activate each resource it has not activated |
| PwvGraph.StepLowers | pwv_graph.cc:137-173 | every activation is one less to do |
| PwvGraph.StuckMeansDone | pwv_graph.cc:108-173 | when none is possible every node has been notified once and has activated exactly its resources |
| PwvGraph.ActivateKeeps | pwv_graph.cc:137-173 | an activation keeps in-degrees equal to the unreleased resources |
| PwvGraph.BuiltIsRunning | pwv_graph.cc:71-106 | what Build leaves satisfies the invariant of activation |
| PwvGraph.Graph.constructor | pwv_graph.cc:25-46 | an empty graph |
| PwvGraph.Graph.ReserveEdge | pwv_graph.h:84-88 | reserves if and only if the node has no resources yet |
| PwvGraph.Graph.AddResources | pwv_graph.cc:48-69 | if and only if enough edges are reserved, resources are recorded in order and the node is marked |
| PwvGraph.Graph.FindEdge | pwv_graph.h:59-66 | finds the edge of a resource if and only if there is one |
| PwvGraph.Graph.Build | pwv_graph.cc:71-106 | each edge points to the next user, in-degrees count resources with an earlier user, free nodes are notified |
| PwvGraph.Graph.VisitNode | pwv_graph.cc:75-105 | the same for one node |
| PwvGraph.Graph.LinkNode | pwv_graph.cc:80-96 | links every resource of a node to its last user |
| PwvGraph.Graph.LinkOne | pwv_graph.cc:82-95 | links if and only if the cell names an earlier user of this epoch |
| PwvGraph.Graph.ActivateResource | pwv_graph.cc:137-173 | performs one activation of the step relation |
| McsLock.MutualExclusion | util/locks.cc:35-58 | at most one client owns the lock |
| McsLock.OwnershipFollowsExchange | util/locks.cc:41-48 | ownership passes in tail-exchange order |
| McsLock.NodeIsFreeAfterUnlock | util/locks.cc:50-58 | once Unlock returns no step touches the QNode |
| McsLock.GoneForever | util/locks.cc:50-58 | and it stays that way |
| McsLock.NeverStuck | util/locks.cc:41-58 | while anyone is queued the head of the queue has a step |
| McsLock.TailMeansQueued | util/locks.cc:30-39 | the tail is set exactly while somebody is queued |
| McsLock.RejectedOnlyIfTaken | util/locks.cc:35-39 | TryLock fails only while another client is queued |
| McsLock.FreeLockIsTaken | util/locks.cc:35-48 | on a free lock TryLock and Lock are possible and own it |
| McsLock.StepLowers | util/locks.cc:35-58 | every step brings its client nearer to the end |
| McsLock.RunIsShort | util/locks.cc:35-58 | so a run has only so many steps |
| McsLock.StuckMeansServed | util/locks.cc:35-58 | and ends with every client having had the lock and given it back, or turned away by TryLock |
| SpinnerSlot.RegisterWorks | vhandle_sync.cc:82-94 | registering leaves the word pending with the core in its bitmap if and only if the core is below 32 |
| SpinnerSlot.Notify | vhandle_sync.cc:178-185 | sets the flags of exactly the cores in the bitmap |
| SpinnerSlot.NoLostWakeup | vhandle_sync.cc:72-185 | a core spinning on a written slot has its flag set or is in a notifier's bitmap |
| SpinnerSlot.WaiterCanGo | vhandle_sync.cc:123-176 | with all notifiers through, the waiter has a step |
| SpinnerSlot.ReturnsOnlyWhenReady | vhandle_sync.cc:72-99 | WaitForData returns only on a value that is not pending, whatever stale flags it met |
| SpinnerSlot.InstalledIsOffered | vhandle_sync.cc:102-121 | a word that was pending holds, once it is not, an object offered for it |
| SpinnerSlot.ReturnsTheObject | vhandle_sync.cc:72-121 | WaitForData returns such an object, the one in the word if only one is offered |
| SpinnerSlot.EveryoneCanGo | vhandle_sync.cc:72-185 | a core has a step if and only if it does not spin on an unset flag; then it is registered in a pending word or a notifier that has a step is about to set the flag |
| HashChain.KeysStayDistinct | hashtable_index_impl.cc:111-138 | keys along a chain stay distinct |
| HashChain.SameRow | hashtable_index_impl.cc:92-166 | all calls for a key get the same row |
| HashChain.SomeoneCreated | hashtable_index_impl.cc:92-138 | a returned row was created by a call that said so |
| HashChain.OneCreator | hashtable_index_impl.cc:92-138 | no two calls report creating the same key |
| HashChain.SearchMissIsJustified | hashtable_index_impl.cc:146-166 | a search that finds nothing was right: at no time before it began did the chain hold its key |
| HashProgress.NeverStuck | hashtable_index_impl.cc:92-166 | a call that has not returned has a step, or the call that fills the first entry has |
| HashProgress.StepLowers | hashtable_index_impl.cc:92-166 | every step lowers a measure over all calls |
| HashProgress.RunIsShort | hashtable_index_impl.cc:92-166 | so a run has only so many steps |
| HashProgress.StuckMeansReturned | hashtable_index_impl.cc:92-166 | and ends with every call returned |
| Balance.NearCores | locality_manager.cc:83-89 | exactly the cores of the same NUMA node below the limit |
| Balance.FarCores | locality_manager.cc:90-94 | exactly the other cores below the limit |
| Balance.BuildWalk | locality_manager.cc:79-94 | exactly the cores below the limit, same NUMA node first |
| Balance.OffloadCore | locality_manager.cc:77-111 | excess goes to cores below the limit, none goes above it, some is kept only if nobody is below it any more, another NUMA node gets some only once this one has no room, and the table records every unit |
| Balance.FilledInOrder | locality_manager.cc:79-111 | filling the walk in order fills this NUMA node before the others |
| Balance.OffloadStep | locality_manager.cc:58-74 | cutting and offloading one core keeps the accounting of the pass |
| Balance.LocalityManager.PlanLoad | locality_manager.cc:128-133 | the planned load of that core grows by the delta |
| Balance.LocalityManager.Gather | locality_manager.cc:45-55 | every weight collects what was planned for it and nothing stays planned |
| Balance.LocalityManager.GatherCore | locality_manager.cc:48-51 | the inner loop for one core, which clears its column and no other |
| Balance.LocalityManager.Balance | locality_manager.cc:40-75 | planned loads are counted once; every core ends with exactly the average, loads equal the shares in all tables, the remainder of the division is unplaced, at most 2 entries per core, so never more than the 1024 preallocated up to 64 cores |
| Balance.LocalityManager.Distribute | locality_manager.cc:58-74 | the second loop |
| Balance.ProgressEnds | locality_manager.cc:40-75 | from the loop's accounting follow the exact loads and the bound on entries |
| Balance.GetScheduleCore | locality_manager.cc:137-154 | draws the entry whose interval covers the seed |
| Balance.SeedsMatchShares | locality_manager.cc:148-150 | each core is drawn for as many seeds as the table has units for it |
| KeyHeap.PushHeap | routine_sched.cc:21-24 | a heap again, same entries |
| KeyHeap.PopHeap | routine_sched.cc:54-57 | a heap without its root, all other entries kept |
| KeyHeap.RootIsLeast | routine_sched.cc:44-48 | nothing in the heap is below its root |
| PieceQueue.KeyOnce | routine_sched.cc:17-27 | a key is in the heap at most once |
| PieceQueue.JoinList | routine_sched.cc:432-447 | a piece of a known key joins its list: refines appending to the queue |
| PieceQueue.NewList | routine_sched.cc:439-447 | a piece of a new key gets an entry in table and heap: refines appending |
| PieceQueue.TopIsFront | routine_sched.cc:44-48 | the head of the list on top of the heap is the front of the stable priority queue |
| PieceQueue.TakeHead | routine_sched.cc:50-52 | taking a piece while its list has more refines removing the front |
| PieceQueue.TakeLast | routine_sched.cc:50-60 | taking the last piece of a key removes it from heap and table: refines removing the front |
| PieceQueue.DrainIsStableSort | routine_sched.cc:44-60 | taking until empty gives all pieces by key, in order of arrival within a key |
| PieceQueue.RingWrite | routine_sched.cc:408-410 | a write behind the published pieces changes none of them |
| PieceQueue.AddPublishesAll | routine_sched.cc:388-416 | for all readings of the free room Add publishes the whole batch if and only if its keyed pieces fit at the first one that shows room and nothing was written before |
| PieceQueue.LostPieceExample | routine_sched.cc:388-408 | a batch of two with one free slot loses its first piece although room is made in time |
| PieceQueue.AnyReadings | routine_sched.cc:388-396 | any readings that never go down can come about |
| Scheduler.DispatchQueue.constructor | routine_sched.cc:297-356 | an empty queue |
| Scheduler.DispatchQueue.Add | routine_sched.cc:376-419 | publishes what the loop leaves unpublished at its end, with the consumer taking any number of pending pieces between two readings; still waiting when the readings run out on a full ring; nothing is lost if the batch fits |
| Scheduler.DispatchQueue.WriteBatch | routine_sched.cc:388-411 | the loop with its restarts, leaving the published part alone |
| Scheduler.DispatchQueue.WriteRound | routine_sched.cc:398-411 | the loop up to the end of the batch or a full ring |
| Scheduler.DispatchQueue.Publish | routine_sched.cc:412-415 | what was written behind the ends joins the queues |
| Scheduler.DispatchQueue.FindEntry | routine_sched.cc:431-438 | finds the entry of a key if and only if the table has one |
| Scheduler.DispatchQueue.AddToPriorityQueue | routine_sched.cc:421-450 | the queue's contents grow by the piece at the end |
| Scheduler.DispatchQueue.ProcessPending | routine_sched.cc:452-467 | everything published moves into the queue in order |
| Scheduler.DispatchQueue.MovePending | routine_sched.cc:452-467 | so does what was published when the ring was looked at |
| Scheduler.DispatchQueue.Pick | routine_sched.cc:44-48 | shows the front |
| Scheduler.DispatchQueue.Consume | routine_sched.cc:50-60 | removes the front and nothing else |
| Scheduler.DispatchQueue.Peek | routine_sched.cc:470-547 | shows the zero queue first, then the smallest key, first come first served; a piece goes if and only if the listener accepts it; every piece added is taken at most once and otherwise still waiting in one place |
| Scheduler.DispatchQueue.RunAll | piece.cc:227-242 | a worker that peeks until nothing is left runs the pieces without a key in order and then a stable sort of the others by key |
| ChunkLists.PopKeeps | mem.h:274-277 | taking a list head keeps every chunk in exactly one place |
| ChunkLists.PushKeeps | mem.h:299-305 | pushing a chunk keeps every chunk in exactly one place |
| ChunkLists.JoinKeeps | mem.h:314-317 | linking a list in front of another through its tail keeps every chunk in exactly one place |
| Allocator.MaskIsOneBit | mem.h:279-279 | the shifted int names one bit if and only if the core is below 31 |
| Allocator.MaskHolds | mem.h:279-279 | the shifted int of core 31 is bits 31 to 63 |
| Allocator.DrawsCore | mem.h:271-273 | with up to 32 cores the bit drawn is always that of a core |
| Allocator.RollDice | mem.h:271-273 | the next set bit in turn |
| Allocator.ParallelAllocator.constructor | mem.cc:29-48 | every chunk starts in the pool of its core |
| Allocator.ParallelAllocator.Alloc | mem.h:267-286 | hands out a chunk of the core that nobody uses, consolidated ones first, null if and only if it has none |
| Allocator.ParallelAllocator.Free | mem.h:287-306 | the chunk goes to the pool or the list for its home core and nowhere else |
| Allocator.ParallelAllocator.Quiescence | mem.h:307-321 | every list freed to the core moves in front of its consolidated list, nothing else changes |
| PieceCodec.WordRoundTrip | piece.cc:63-81 | little-endian words survive |
| PieceCodec.AlignRoundsUp | util/arch.h:39-42 | rounds up to the next multiple of 16, also for 0 |
| PieceCodec.NodeSizeAligned | piece.cc:49-61 | a node takes a multiple of eight bytes |
| PieceCodec.NodeRoundTrip | piece.cc:65-88 | all scalar fields of the struct survive |
| PieceCodec.RoundTrip | piece.cc:63-111 | decoding an encoded tree consumes exactly its bytes and rebuilds fields, captured bytes and children in order |
| PieceCodec.EncodeHead | piece.cc:63-75 | struct, captured bytes and child count are where decoding reads them |
| PieceCodec.EncodeNode | piece.cc:63-81 | writes an encoding of exactly NodeSize bytes and nothing outside it |
| PieceCodec.EncodeChildren | piece.cc:76-80 | the children follow one another |
| PieceCodec.DecodeAt | piece.cc:83-111 | the method computes the decoding function |
| PieceCodec.ChildrenAt | piece.cc:101-109 | the loop over the children does too |
| PieceCodec.PacketRoundTrip | piece.cc:38-47 | a packet that is one encoded tree is accepted, with any bytes after it it is not |
| PieceCodec.Transport | piece.cc:38-81 | encode into a packet and create from it gives the tree back |

## Left out

- Coroutines, preemption, backoff keys and the waiting heap of the scheduler: context switching still in flux.
- Sockets, TCP buffers, flusher routines, console, options, logging and probes: input, output and wiring.
- Garbage block slabs, PrepareGCForAllCores and RunGC: only `GC::Collect` is modelled, and freeing of the collected objects is not.
- nr_ondsplt and cont_affinity outside bin packing: statistics; bin packing takes weights as given natural numbers and does not model the 32-bit counters they come from.
- Live migration, checkpoints, slices, commit buffers, TPC-C and YCSB, random generators, autotuning: other parts of the system.
- PWV rendezvous points and their scheduler, LinkListVHandle and CalvinVHandle.
- Weak memory: all atomics are sequentially consistent steps.
- Serializability: the insert phase is over when execution starts, each transaction writes a row at most once, and a waiting read is a step that is not enabled; the wake-up itself is in `SpinnerSlot`. No object word next to the ids and no word above the size of a row equals a serial id of the batch, which rules out the stray write; `EpochStart.AppendedRowOk` has the same assumption.
- PhaseProtocol: plans and incoming items stay below kMaxPiecesPerPhase; a received plan and the counter notification after it are one step; a node's own plan is flushed before the last peer's counter is applied. Items are counted, not executed.
- VersionBuffers: a locked section of a row is one step, which `McsLock.MutualExclusion` justifies, and a try-lock may fail at any time; batch append is on and lock elision off. Buffers are empty when an epoch starts, which the epoch before leaves under the condition of `FinalizeFlush.FinalizedRows`; what a version left behind does to a row that gets its position in a later epoch is not modelled.
- VHandle.SortedArrayVHandle.WriteWithVersion: what a stray write does to memory beyond the row is not modelled, only that it happens; nor is the reset of nr_ondsplt and cont_affinity, which are statistics.
- VHandle.SortedArrayVHandle.Enlarge: the two halves of the row's memory are sequences that the methods reassign, and the in-place merge of `Merge` works on an array holding the ids; aliasing of the memory of different rows, freeing of the old memory and a failing allocation are not captured.
- Balance.LocalityManager.Balance: weights and tables are sequences of unbounded integers, the preallocated arrays the tables live in are not modelled, only the number of entries used in them.
- Balance.GetScheduleCore: the last entry is read before the test for an empty table, for a probe only; the model reads it after.
- BufferPlan.CollectBufferPlanImpl: a dynamic piece has no children (its children would index outside the table), and the level written into each piece is not modelled.
- PwvGraph.Graph.AddResources: at most 256 resources per node, beyond which slots coincide (`PwvGraph.SlotsDistinct`); where the edges beyond the first live in memory is not modelled.
- Scheduler.DispatchQueue.Add: fewer than 2^32 keyed pieces are added in total; the abort on a full zero queue is a precondition.
- Scheduler.DispatchQueue.Peek: the waiting heap is empty and the core is ready.
- Allocator.ParallelAllocator.Free: extra pools above the number of cores, statistics and the pointer checks of BasicPool are not modelled.
- PieceCodec.DecodeAt: reading past the end of a packet is None; the source does not check it.
