# Verified model of the expert streaming engine

A mixture-of-experts model larger than memory is run by keeping a bounded pool of
expert slots filled from disk while one compute ("exec") thread works through the
layers. This project models the parts of that engine whose correctness is not
visible from any one function, and proves what they are for:

* **the expert pool** (`Pool*.dfy`, `SlotWord.dfy`, `ExpertDirectory.dfy`): the
  protocol between the exec thread, the scheduler thread, the DIO engine and the
  move worker is a transition system whose steps are single atomic accesses,
  interleaved in every possible way. A history variable says whose bytes each slot
  holds. An inductive invariant gives the theorems about all runs: pinned content is
  stable, `pin_layer` is all-or-nothing, directory and slots agree, eviction happens
  only while exec waits, no item is lost, and a RAM-only pool never stalls. The
  scheduler's own methods are a class over its fields, and each of them is proved to
  take only steps of that transition system; the turns taken and the steps of the other
  threads between them are one run of it, and I/O that falls into a turn can be put off
  until its end (`PoolReduction.dfy`). `SlotWord` has the packed 64-bit word and
  `ExpertDirectory` the flat arrays; `PoolCarving` shows that `init` sets up a
  configuration the theorems apply to;
* **the request queue** (`RequestRing.dfy`): the multi-producer ring refines a
  bounded FIFO;
* **the bucket engine** (`MixPlan.dfy`, `ScatterPlan.dfy`, `BucketEngine.dfy`): the
  split of the routed cells into rectangles and exactly when no split has fewer, the
  greedy scatter plan, and the end-to-end theorem that gather, per-column fold,
  scatter-add and target fold compute the unsplit mixture;
* **result buffers** (`ArenaPacking.dfy`, `LayoutSim.dfy`): interval packing, and that
  sharing one block changes no value that is read; the simulator's allocators against
  the peak of live bytes;
* **the cache simulator** (`CacheSim.dfy`, `CacheSizes.dfy`): Belady's algorithm is
  optimal, LRU has the inclusion property, the other branches are demand policies, and
  for which two pool sizes more slots can cost the lfu branch hits;
* **the strip converter** (`BlockSplit.dfy`, `StripWriter.dfy`, `StripLayout.dfy`,
  `SingleFile.dfy`, `TensorUnits.dfy`): N chunk files hold byte for byte what the single
  file holds, and every tensor is in exactly one unit unless its layer is out of range;
* **layer attribution** (`LayerAttribution.dfy`): every compute node lands in exactly
  one layer, and head, closure and tail are a valid cut.

`Basics.dfy` holds a few facts about numbers, sets and lists.

Atomicity and order are those of sequential consistency, with one exec thread per
scheduler as `scheduler.cpp:849` assumes. Sums of expert outputs are integers, file
contents are functions from positions to source bytes. Where the code and its
comments differ, the model follows the code:

* the `lfu` branch of `replay` never increments a resident's count (a resident is
  never set again once the cache is full, and its count is a constant 1 otherwise), so
  it evicts in order of insertion. It is FIFO, and unlike LRU it has Belady's anomaly:
  going from s to t slots can cost hits exactly when s < t < 2s - 1;
* `mix_split.h` promises the minimal set of rectangles. Among covers whose rectangles have
  nested token sets the plan always has the fewest. Among all covers it does exactly when
  the distinct nonzero hit counts of the pool are not all sums of fewer widths than there
  are counts; with hit counts 1, 2 and 3 two rectangles do the work of the plan's three;
* `build_units` walks the layers 0 to n_layer - 1, so a dense tensor whose layer is
  outside that range is laid out in the single file but belongs to no unit;
  `layer_experts` skips an expert tensor whose layer is out of range, so its bytes are in
  neither form of the output.

## Model

| member | source | states |
|---|---|---|
| PoolTheorems.PinnedContentIsStable | src/backend/scheduler.cpp:914-1019 | on every interleaving, from the return of pin_layer until its unpin a handle's slot stays READY, keeps its generation, holds the expert's bytes, is the directory's READY cell and has a pin |
| PoolTheorems.EvictionOnlyWhileExecWaits | src/backend/scheduler.cpp:421-554 | at every step of an eviction exec is blocked in its wait, n_left = popcount(still_need) = target - done > 0, and the victim carries no pin |
| PoolTheorems.DirectoryIsExclusive | src/backend/scheduler.cpp:413-554 | in every reachable state at most one pool has a cell for an expert, no slot is named twice, every cell's slot lies in the region of its pool and its layer's group |
| PoolTheorems.DirectoryAgreesWithSlots | src/backend/scheduler.cpp:345-370 | in every reachable state READY cells name READY slots full of the expert's bytes, LOADING and MOVING_IN cells IO_INFLIGHT slots with exactly one outstanding load or move for that expert; the one cell in the middle of a change is a known step behind its slot |
| PoolTheorems.PinLayerIsAllOrNothing | src/backend/scheduler.cpp:914-1013 | a whole call, with any steps of other threads inside: on success exactly one new handle per needed expert and each slot's refcount grown by its new handles; on -1 handles and refcounts as on entry |
| PoolTheorems.PostWaitScanNeverMisses | src/backend/scheduler.cpp:993-1013 | the scan after the wait finds every expert, so its rollback branch is unreachable |
| PoolTheorems.RunInv | src/backend/scheduler.cpp:779-895 | the invariant holds in every state of every run from init |
| PoolInvariant.InitEstablishesInv | src/backend/scheduler.cpp:175-181 | the state init leaves satisfies the invariant |
| PoolSchedProofs.NextPreserves | src/backend/scheduler.cpp:345-1019 | every step of every thread keeps the invariant |
| PoolSchedProofs.DrainNeverSpins | src/backend/scheduler.cpp:511-515 | when the drain loop is reached the victim's refcount is zero and exec cannot wake, so the loop never spins |
| PoolProgress.NoItemIsLost | src/backend/scheduler.cpp:634-673 | items that settle between exec's scan and the registration are neither lost nor pinned twice: outside triage and settle a still-needed expert is READY in no pool, unless its slot carries as many pins as a word can count |
| PoolNoStall.NoCapacityStall | src/backend/scheduler.cpp:421-554 | RAM-only, before any I/O failure or failed request: while a pin_layer waits that was entered without a pin, every allocation finds an EMPTY slot or a victim, the stall bound is never reached, and the request does not fail |
| PoolNoStall.NoRequestFails | src/backend/scheduler.cpp:421-554 | so no request of a run without I/O failures fails if every pin_layer is entered without a pin |
| PoolNoStall.AllocFinds | src/backend/scheduler.cpp:421-502 | the pigeonhole step: with n_expert slots in the group some slot is EMPTY or evictable |
| PoolExecProofs.ScanPreserves | src/backend/scheduler.cpp:934-958 | a lookup of the first scan keeps the invariant; what it saw READY stays pinnable |
| PoolExecProofs.PinPreserves | src/backend/scheduler.cpp:946-957 | try_pin without a second look at the directory keeps the invariant: the slot still holds the expert that was looked up |
| PoolExecProofs.PushPreserves | src/backend/scheduler.cpp:972-986 | submitting the missing set keeps the invariant |
| PoolExecProofs.WokenPreserves | src/backend/scheduler.cpp:987-996 | the failed check after the wait keeps the invariant |
| PoolExecProofs.CollectPreserves | src/backend/scheduler.cpp:1000-1012 | recording a slot hands over exactly the scheduler's pin for it |
| PoolExecProofs.CollectNeverMisses | src/backend/scheduler.cpp:1000-1012 | the expert being collected has one granted pin, and the first READY copy found is the pinned one |
| PoolExecProofs.RollbackPreserves | src/backend/scheduler.cpp:989-995 | unpinning the A pins one by one keeps refcounts equal to the pins owned |
| PoolExecProofs.UnpinPreserves | src/backend/scheduler.cpp:1015-1019 | a caller's unpin keeps the invariant |
| PoolExecProofs.DioPreserves | src/backend/scheduler.cpp:566-630 | a read completing or failing keeps the invariant |
| PoolExecProofs.WorkerPreserves | src/backend/scheduler.cpp:299-343 | a device-to-RAM copy keeps the invariant |
| PoolSchedProofs.DrainLoadPreserves | src/backend/scheduler.cpp:720-752 | marking a finished load's slot before its directory cell keeps the invariant |
| PoolSchedProofs.DrainMovePreserves | src/backend/scheduler.cpp:345-358 | marking a finished move's destination keeps the invariant |
| PoolSchedProofs.AcceptPreserves | src/backend/scheduler.cpp:851-861 | registering the popped request keeps the invariant |
| PoolSchedProofs.TriagePreserves | src/backend/scheduler.cpp:644-668 | the triage of active_register keeps the invariant |
| PoolSchedProofs.SettlePreserves | src/backend/scheduler.cpp:672-687 | active_settle keeps the invariant; the last settle leaves done = target and one pin per expert |
| PoolSchedProofs.ServePreserves | src/backend/scheduler.cpp:790-829 | one item of the serve loop keeps the invariant |
| PoolSchedProofs.AllocPreserves | src/backend/scheduler.cpp:413-508 | reserving a free slot, or choosing a victim, keeps the invariant |
| PoolSchedProofs.EvictClearPreserves | src/backend/scheduler.cpp:509-515 | clearing the victim's cell after blocking its slot keeps the invariant |
| PoolSchedProofs.SubmitMovePreserves | src/backend/scheduler.cpp:524-537 | an asynchronous demotion keeps one cell per expert and one move per slot |
| PoolSchedProofs.RefuseMovePreserves | src/backend/scheduler.cpp:538-546 | a refused demotion releases the reserved slot and drops the device copy |
| PoolTurns.TurnKeepsInv | src/backend/scheduler.cpp:779-895 | whatever the scheduler's methods reach from a state with the invariant has the invariant |
| PoolTurns.TurnNeverStalls | src/backend/scheduler.cpp:496-502 | under the hypotheses of NoCapacityStall no turn of the scheduler reaches a -1 of alloc_or_evict or a failed request |
| PoolTurns.LeadsContinuesRun | src/backend/scheduler.cpp:779-895 | a turn that starts where a run ends continues that run, so every theorem about runs applies to the class |
| PoolTurns.ForeignKeepsView | src/backend/scheduler.cpp:914-1019 | outside a half-done settle no step of exec, DIO engine or worker changes directory, moves, active request or ring; with an active request not even its counter or ledger |
| PoolReduction.TurnsAreSerial | src/backend/scheduler.cpp:779-895 | a turn with DIO and worker steps in between ends where the uninterrupted turn and the same I/O steps after it end |
| PoolReduction.WaitedTurnIsMixed | src/backend/scheduler.cpp:962-987 | while a request is waited for, nothing but such steps can fall into a turn |
| PoolReduction.IoCanWait | src/backend/scheduler.cpp:299-343 | a read or copy that comes before a scheduler step inside a turn can as well come after it |
| PoolTurns.EmptyRing | src/backend/scheduler.cpp:456-502 | after both passes over the ring came up empty nothing in the region is evictable |
| PoolTurns.RingReaches | src/backend/scheduler.cpp:456-466 | the ring that steps downward from the layer's own position reaches every layer of the group |
| PoolScheduler.Scheduler.constructor | src/backend/scheduler.cpp:175-220 | the fields after init are the protocol's initial state |
| PoolScheduler.Scheduler.WholeRun | src/backend/scheduler.cpp:779-895 | the turns taken and the other threads' steps between them form one run of the protocol, so its invariant and theorems hold of the fields |
| PoolScheduler.Scheduler.OtherThread | src/backend/scheduler.cpp:914-1019 | a step of another thread between two methods leaves the scheduler's fields in order and continues the run |
| PoolFirstTurn.Ask | src/backend/scheduler.cpp:934-986 | on a pool without residents pin_layer asks for every expert it needs |
| PoolFirstTurn.FirstTurn | src/backend/scheduler.cpp:779-895 | from init over the first request to the end of the pass that serves it is one run of the protocol |
| PoolScheduler.Scheduler.FindFree | src/backend/scheduler.cpp:425-436 | the lowest EMPTY slot of the region, or none |
| PoolScheduler.Scheduler.BestInLayer | src/backend/scheduler.cpp:466-489 | the usable resident of a layer with the lowest score, ties to the lowest expert; -1 iff there is none |
| PoolScheduler.Scheduler.ScanRing | src/backend/scheduler.cpp:464-495 | the best expert of the first layer of the ring with a usable one |
| PoolScheduler.Scheduler.FindVictim | src/backend/scheduler.cpp:443-502 | a victim iff any resident is evictable; never-pinned residents only when the whole ring has nothing else |
| PoolScheduler.Scheduler.Victim | src/backend/scheduler.cpp:450-461 | the search starts at the layer's own position in its group's list |
| PoolScheduler.Scheduler.Reserve | src/backend/scheduler.cpp:427-436 | LOADING is published for the slot and its generation moves on |
| PoolScheduler.Scheduler.Detach | src/backend/scheduler.cpp:509-515 | the victim's slot is EVICTING without pins and its cell ABSENT |
| PoolScheduler.Scheduler.Demote | src/backend/scheduler.cpp:524-546 | a device victim is either being copied to its RAM slot, or its copy is dropped and the slot may be reloaded |
| PoolScheduler.Scheduler.AllocOrEvict | src/backend/scheduler.cpp:413-554 | alloc_or_evict, recursion included, is a run of protocol steps that changes only the store and ends in a reserved slot or in none |
| PoolScheduler.Scheduler.ActiveFail | src/backend/scheduler.cpp:689-701 | every ledger pin is released once, failed is set, the request is gone |
| PoolScheduler.Scheduler.ActiveSettle | src/backend/scheduler.cpp:672-687 | nothing for an expert that is not wanted; a failed request if it cannot be pinned; else one pin, one bit less, one count more, and the end of the request at the last one |
| PoolScheduler.Scheduler.ActiveRegister | src/backend/scheduler.cpp:634-670 | exactly the wanted experts whose first READY copy can be pinned are pinned, counted and no longer wanted; no other slot changes; the request ends here iff that was all of them |
| PoolScheduler.Scheduler.StartAsyncLoad | src/backend/scheduler.cpp:566-630 | a submitted load takes the last free ring element; otherwise LOADING is reverted |
| PoolScheduler.Scheduler.AcceptRequests | src/backend/scheduler.cpp:779-895 | a whole pass, from any state of the main loop with a request, is one run of protocol steps that ends there again |
| PoolScheduler.Scheduler.DrainMove | src/backend/scheduler.cpp:345-370 | a finished move's cell becomes READY, its source EMPTY, its item is settled |
| PoolScheduler.Scheduler.DrainLoad | src/backend/scheduler.cpp:720-777 | a finished load's cell becomes READY or ABSENT, its item is settled or fails the request, its ring element is free again |
| PoolScheduler.Scheduler.Scan | src/backend/slot.h:241-250 | the first pool with a READY copy |
| PoolScheduler.Scheduler.PoolStates | src/backend/scheduler.cpp:800-806 | whether the expert is READY, or in flight, in any pool |
| PoolCarving.Carve | src/backend/scheduler.cpp:55-181 | init fails exactly for too many experts, no expert bytes or a pool below the floor; otherwise regions are back to back, one per group of the computed size, then one per usable device region, and the allocation is the pool-0 regions one after the other |
| PoolCarving.CommitIsCarvingAndPoolZero | src/backend/scheduler.cpp:164-181 | the RAM commit is the carved regions plus the usable device regions that name pool 0 |
| PoolCarving.CommitWithinPool | src/backend/scheduler.cpp:164-170 | it is at most pool_bytes iff those device regions fit in what the carving left, and always without one |
| PoolCarving.RamRunsApart | src/backend/scheduler.cpp:176-181 | pool-0 regions occupy disjoint stretches of the allocation |
| PoolCarving.CommitFits | src/backend/scheduler.cpp:84-135 | the carved RAM regions together are at most pool_bytes |
| PoolCarving.SlotCountBounds | src/backend/scheduler.cpp:119-125 | each region has at least one full layer's slots, at most the group's experts, and stays within its budget |
| PoolCarving.CarvingIsConfig | src/backend/scheduler.cpp:126-161 | every carving is a configuration the protocol's theorems apply to |
| PoolCarving.CarvingIsRamOnly | src/backend/scheduler.cpp:84-135 | without device regions it meets the floor the no-stall theorem needs |
| PoolCarving.FillColumns | src/backend/scheduler.cpp:104-117 | column offsets are slots times the strides of the columns before |
| PoolCarving.PoolBytesApart | src/backend/scheduler.h:261-275 | the bytes of a slot's column lie inside the pool and meet those of no other slot, column or group |
| SlotWord.WordRoundTrip | src/backend/slot.h:43-55 | packing and unpacking are inverse iff the state has 3 and the refcount 29 bits |
| SlotWord.WordFields | src/backend/slot.h:43-55 | the fields of any packed word; a larger refcount spills into the generation |
| SlotWord.WordIsItsFields | src/backend/slot.h:43-55 | every 64-bit word is the packing of its fields |
| SlotWord.SlotMeta.TryPin | src/backend/slot.h:91-102 | one pin more and the generation iff READY and below the refcount limit, else -1 and no change |
| SlotWord.SlotMeta.Unpin | src/backend/slot.h:104-112 | one pin less, never below zero |
| SlotWord.SlotMeta.MarkReady | src/backend/slot.h:115-125 | only IO_INFLIGHT becomes READY |
| SlotWord.SlotMeta.BeginEvict | src/backend/slot.h:128-135 | only READY becomes EVICTING; refcount and generation stay |
| SlotWord.SlotMeta.BeginReload | src/backend/slot.h:138-147 | IO_INFLIGHT with no pins and the next generation, wrapping at 2^32 |
| SlotWord.SlotMeta.ReleaseToEmpty | src/backend/slot.h:152-161 | EMPTY with no pins and the next generation |
| SlotWord.SlotMeta.MarkFailed | src/backend/slot.h:163-170 | FAILED, refcount and generation as before |
| ExpertDirectory.Cells.Transition | src/backend/slot.h:258-265 | exactly one cell changes and exactly that expert's version is bumped |
| ExpertDirectory.Cells.Find | src/backend/slot.h:233-237 | the slot of a READY cell, else UNASSIGNED |
| ExpertDirectory.Cells.Scan | src/backend/slot.h:241-250 | the first pool with a READY copy and its slot |
| ExpertDirectory.CellsApart | src/backend/slot.h:298-303 | flat indices are in bounds and different cells have different ones |
| RequestRing.NextPreserves | src/backend/slot.h:364-427 | every access of any producer or consumer keeps the ring's invariant |
| RequestRing.PoppedIsPrefixOfClaimed | src/backend/slot.h:371-420 | on every interleaving the popped payloads are a prefix of the claimed ones in claim order, and tail - head <= cap |
| RequestRing.NoEarlyRewrite | src/backend/slot.h:388-393 | a cell is written only after its previous claim has been popped |
| RequestRing.RefinesBoundedFifo | src/backend/slot.h:364-427 | every step enqueues one payload into a queue that is not full, dequeues the first, or changes nothing |
| RequestRing.EmptyReportIsTrue | src/backend/slot.h:396-401 | pop reports empty only when the queue is empty |
| CacheSim.OptNext | tools/simulate_cache.js:46-52 | the backward pass computes the next use of every access |
| CacheSim.ReplayOpt | tools/simulate_cache.js:53-68 | the hits of replayOpt are the best any eviction choice can reach |
| CacheSim.FurthestIsBest | tools/simulate_cache.js:62-64 | evicting a resident used furthest ahead loses nothing against any other choice |
| CacheSim.BeladyIsOptimal | tools/simulate_cache.js:53-68 | no demand-paging run of any trace has more hits than that |
| CacheSim.Replay | tools/simulate_cache.js:70-103 | all three branches are demand-paging runs and never beat replayOpt; the caches and hits of lru are those of the recency list, those of lfu those of the insertion list |
| CacheSim.RecentIsByLastUse | tools/simulate_cache.js:78-81 | the recency list holds exactly the keys seen so far, ordered by last use |
| CacheSim.LruInclusion | tools/simulate_cache.js:78-81 | after every prefix the smaller recency list is the recent end of the larger one |
| CacheSim.LruRunsInclude | tools/simulate_cache.js:78-81 | after every prefix the lru branch's cache with fewer slots is a part of its cache with more |
| CacheSim.LruHitsMonotone | tools/simulate_cache.js:78-81 | LRU's hits never drop when slots are added |
| CacheSizes.LfuNeverWorseIff | tools/simulate_cache.js:82-88 | enlarging the pool from s to t slots never costs the lfu branch a hit, on any trace, iff t = s or t >= 2s - 1 |
| CacheSizes.FifoMonotone | tools/simulate_cache.js:82-88 | from 2s - 1 slots on it has at least the hits it has with s, after every prefix |
| CacheSizes.EnoughSlots | tools/simulate_cache.js:82-88 | and so it has with a slot for every key |
| CacheSizes.SmallHits | tools/simulate_cache.js:82-88 | for every s < t < 2s - 1 a trace with t - s + 2 hits at s slots |
| CacheSizes.LargeHits | tools/simulate_cache.js:82-88 | and t - s + 1 hits at t slots |
| CacheSizes.OptMonotone | tools/simulate_cache.js:53-68 | the hits of replayOpt never drop when slots are added |
| CacheSizes.Table | tools/simulate_cache.js:40-43 | the printed table: no policy beats OPT, the LRU and OPT columns never fall, the LFU column does not between rows whose sizes at least double less one |
| ScatterPlan.BestRun | src/backend/scatter_plan.cpp:22-55 | the longest arithmetic run, then the smallest delta, then the smallest start, despite both cut-offs |
| ScatterPlan.BuildScatterPlan | src/backend/scatter_plan.cpp:59-132 | empty exactly for nothing to do or ids out of range or repeated; otherwise a permutation, segments tiling the columns, ids dst + i*delta < n_t, each the best run left, at most half as many segments as columns (rounded up) |
| ScatterPlan.OrderIsPermutation | src/backend/scatter_plan.cpp:113-131 | no column is left out of the order |
| ScatterPlan.FullPlanIsIdentity | src/backend/scatter_plan.cpp:59-132 | the plan of a full round is one segment that leaves every column in place |
| MixPlan.PeelBounds | src/backend/mix_split.cpp:25-39 | the bounds are 0 and the occurring hit counts in ascending order, the widths their differences |
| MixPlan.BuildMixPlan | src/backend/mix_split.cpp:43-148 | every routed cell is in exactly one round of its pool and nothing else is, rounds are full rectangles with ascending rows, rounds per pool = distinct nonzero hit counts |
| MixPlan.NoWaste | src/backend/mix_split.cpp:43-148 | the rounds' areas add up to the number of routed cells |
| MixPlan.NestedCoverIsMinimal | src/backend/mix_split.cpp:72-141 | no cover by rectangles with nested token sets has fewer rounds |
| MixPlan.CoverIffWidths | src/backend/mix_split.h:4-12 | m rectangles, nested or not, cover a pool's slots iff for some m widths every token's hit count is the sum of some of them |
| MixPlan.PlanIsMinimalIff | src/backend/mix_split.h:4-12 | the plan has the fewest rounds of all covers iff no fewer widths than there are distinct nonzero hit counts reach every count |
| MixPlan.CountsBound | src/backend/mix_split.h:4-12 | m rectangles serve at most 2^m - 1 distinct nonzero hit counts |
| MixPlan.TwoCountsAreMinimal | src/backend/mix_split.h:13-20 | with at most two distinct nonzero hit counts no cover has fewer rounds than the plan |
| MixPlan.StairsNeedOnlyTwo | src/backend/mix_split.cpp:72-141 | a routing with hit counts 1, 2 and 3 that two rectangles cover |
| BucketEngine.RoundTokens | src/backend/minigraph_exec.cpp:2498-2520 | t_round lists the round's tokens row by row |
| BucketEngine.ComputeRound | src/backend/minigraph_exec.cpp:1742-1811 | with either gather, column i of a round holds the weighted expert outputs of row order[i], also where tok_full or cell_full skip the gather |
| BucketEngine.AppendExpertFold | src/backend/minigraph_exec.cpp:1674-1725 | each column folds to the sum of its slots, whichever of its two forms is taken |
| BucketEngine.ScatterAdd | src/backend/minigraph_exec.cpp:2574-2597 | adding segment by segment adds each column to its own token, once |
| BucketEngine.LayerFold | src/backend/minigraph_exec.cpp:1423-1443 | the output is the sum of all target accumulators |
| BucketEngine.ColumnsAreRows | src/backend/minigraph_exec.cpp:2548-2597 | permuting the columns does not change what a round adds to a token |
| BucketEngine.DirectIsMixture | src/backend/minigraph_exec.cpp:2378-2380 | the direct_out shortcut writes the mixture |
| BucketEngine.ExecLayer | src/backend/minigraph_exec.cpp:2091-2600 | for every routing, placement and set of device targets the layer output is the unsplit mixture; it fails iff nothing is routed to a pool, no node has an output row, a device target gets no arena, an expert has no pinned slot, or a round's graph cannot be built |
| ArenaPacking.FindOffset | src/backend/route_b_chain.cpp:1150-1166 | the lowest offset feasible against the blocks already placed: jumping past the furthest blocker skips none |
| ArenaPacking.PackInterval | src/backend/route_b_chain.cpp:1137-1174 | by decreasing size, each block at the lowest feasible offset; the size is the furthest end |
| ArenaPacking.PackedApart | src/backend/route_b_chain.cpp:1137-1174 | blocks whose live intervals overlap share no byte, all lie inside |
| ArenaPacking.ArenaWithinSum | src/backend/route_b_chain.cpp:1137-1174 | the size is at most the sum of all sizes |
| ArenaPacking.PeakWithinArena | src/backend/route_b_chain.cpp:1137-1174 | and at least the bytes live at any time |
| ArenaPacking.LastUse | src/backend/route_b_chain.cpp:1415-1422 | the backward loop finds each result's last reader, or -1 |
| ArenaPacking.SelfCheck | src/backend/route_b_chain.cpp:1432-1453 | true iff no two overlapping lifetimes share bytes |
| ArenaPacking.LayOut | src/backend/route_b_chain.cpp:1399-1453 | the layout is packed, between the peak and the sum, and the self-check never clears layout_ok |
| ArenaPacking.ReusePreservesMeaning | src/backend/route_b_chain.cpp:1399-1453 | running the nodes in order in the shared block gives every node the values it has in separate buffers, and results nobody reads later survive to the end |
| LayoutSim.Compact2 | diagnostics/layout_sim/sim.js:76-110 | equals the peak of simultaneously live bytes |
| LayoutSim.LowerBound | diagnostics/layout_sim/sim.js:113-124 | equals the same peak: the stable sort puts frees before the allocation at the same time |
| LayoutSim.FirstFit | diagnostics/layout_sim/sim.js:37-51 | between the peak and all bytes, with exactly as many slots as nodes are live at once at most |
| LayoutSim.BestFitDec | diagnostics/layout_sim/sim.js:54-73 | between the peak and all bytes |
| BlockSplit.SplitBlocks | src/loader/layout_math.h:59-90 | uniform shares, or the largest-remainder apportionment; the errors are exactly a length mismatch and a zero sum, the final throw is unreachable |
| BlockSplit.ApportionmentIsUnique | src/loader/layout_math.h:68-89 | floors or ceilings, extras to the largest fractions with ties to the lower index: only one result |
| BlockSplit.UniformIsAllOnes | src/loader/layout_math.h:60-67 | the uniform branch is the apportionment for all ones |
| StripWriter.ContentToOps | src/convert/writer.cpp:521-535 | the clipped copies put every source byte of the range at its place and write nothing else |
| StripWriter.PlanStrip | src/convert/writer.cpp:585-606 | copies and complement fills partition the strip |
| StripWriter.PlanFile | src/convert/writer.cpp:575-609 | one chunk file: the strips of all units back to back, each right |
| StripWriter.WriteChunks | src/convert/writer.cpp:554-609 | N files, or an error exactly for bad ratios or an unaligned unit |
| StripWriter.StripsReassemble | src/convert/writer.cpp:554-609 | concatenating a unit's strips of the N files gives the unit byte for byte, zeros where it has no content |
| StripLayout.OrderItems | src/convert/writer.cpp:123-179 | the items in file order, none lost or added |
| StripLayout.BuildPlan | src/convert/writer.cpp:185-278 | sections and expert blocks follow each other 4K-aligned in file order and every tensor lies in its own |
| StripLayout.BuildUnits | src/convert/writer.cpp:479-518 | one unit per section and per expert block, at its place and with its content; nothing exactly when there is no dense global tensor, where the code indexes an empty vector |
| StripLayout.UnitsTileIffNoneDropped | src/convert/writer.cpp:479-518 | the units tile the data area iff no non-empty dense tensor has a layer outside [0, n_layer) |
| StripLayout.UnitsAligned | src/convert/writer.cpp:568-572 | every unit size is a multiple of 4096: the throw is unreachable |
| StripLayout.ConvertToChunks | src/convert/writer.cpp:554-625 | planning and chunk writing together: the outcomes are fewer than one chunk, no global section, an unusable ratio, or the files; never an unaligned unit |
| SingleFile.SingleOps | src/convert/writer.cpp:443-459 | the single file's copies place every tensor at its planned offset |
| SingleFile.SingleFills | src/convert/writer.cpp:461-473 | its fills are exactly the bytes of expert blocks that no branch holds |
| SingleFile.FillsMissCopies | src/convert/writer.cpp:443-473 | the fills, written last, overwrite nothing that was copied |
| SingleFile.WriteSingle | src/convert/writer.cpp:438-473 | planning, copies and fills of the single file together |
| SingleFile.SingleFileIsUnits | src/convert/writer.cpp:438-518 | the copies leave at every byte of a unit the source byte the unit's image has there |
| SingleFile.ChunksEqualSingle | src/convert/writer.cpp:438-611 | for every number of files and usable ratio the strips of a unit read one after the other are byte for byte the single file at the unit's offset, fills included |
| TensorUnits.UnitsCarry | src/convert/writer.cpp:479-518 | over all units every dense tensor and every expert's part of an expert tensor that has its place occurs exactly once, and nothing else |
| TensorUnits.EveryPieceOnceIffNothingLost | src/convert/writer.cpp:199-202 | that is all of the model's tensors iff every layered tensor and every expert tensor with bytes names a layer in [0, n_layer) |
| TensorUnits.CarriedIsRead | src/convert/writer.cpp:479-518 | every byte of a tensor a unit carries is read at the tensor's place in the unit |
| TensorUnits.DroppedIsInSingleFileOnly | src/convert/writer.cpp:438-518 | the bytes of a dense tensor with a layer out of range are in the single file and in no unit |
| TensorUnits.StrayTensor | src/convert/writer.cpp:479-518 | such a model: one layer, a tensor of layer 1 at byte 4096 |
| TensorUnits.StrayExpert | src/convert/writer.cpp:199-202 | and one whose units tile the data area without the bytes of an expert tensor |
| LayerAttribution.PropagateProducers | src/backend/route_b_chain.cpp:1781-1796 | the sweep ends, and an unnamed node has the largest layer that reaches it from a named node |
| LayerAttribution.PropagateConsumers | src/backend/route_b_chain.cpp:1797-1823 | the sweep ends; new owners have the layer of a consumer, and no unowned compute node has an owned consumer |
| LayerAttribution.FillForward | src/backend/route_b_chain.cpp:1827-1832 | an unowned compute node takes the layer of the nearest owned node before it |
| LayerAttribution.FillBackward | src/backend/route_b_chain.cpp:1833-1837 | the rest take that of the nearest owned node after it |
| LayerAttribution.Fallback | src/backend/route_b_chain.cpp:1824-1838 | if any node is owned, no compute node is left unowned |
| LayerAttribution.Narrow | src/backend/route_b_chain.cpp:1839-1867 | output-row selections move to the layer of their first owned consumer, nothing else moves |
| LayerAttribution.CollectLayerNodes | src/backend/route_b_chain.cpp:1757-1870 | if any node has a layer, every compute node is in exactly one layer list, in graph order; otherwise there is no list |
| LayerAttribution.Down | src/backend/route_b_chain.cpp:141-154 | the loop ends and marks exactly what is reachable forward from moe_out inside the list |
| LayerAttribution.SplitLayer | src/backend/route_b_chain.cpp:116-173 | head, closure and tail partition the list in graph order, and no head node reads a tail node |
| LayerAttribution.CollectedListsCanBeCut | src/backend/route_b_chain.cpp:116-120 | the lists of the attribution are the lists the split takes |

## Left out

- Weak memory: accesses are sequentially consistent; the 2^32 wrap of ring counters and of generations in the protocol is not modelled (`SlotWord` has the wrap of a single word).
- Compare-and-swap retry loops of `slot_meta` are modelled as their successful iteration; waiting, waking and yielding are steps that may be delayed for ever.
- `expert_directory.find` reads state and slot in one step, and publishing LOADING together with `begin_reload` is one step; no other thread can tell the difference because exec ignores LOADING cells.
- I/O: file reads and writes, GGUF headers, slices of a load and their staging buffers. A load is "the bytes of the expert appear on completion", or an error.
- `stop()`, destructors, telemetry and the stall clock: the stall is an optional failing step.
- Slots left FAILED or IO_INFLIGHT after an I/O failure stay so, as in the code.
- PoolNoStall.NoCapacityStall: the layer must belong to an expert group, and no request may have failed before: loads of a failed request can still occupy the slots a later one needs.
- PoolScheduler.Scheduler.AcceptRequests: other threads step between the class's methods, not inside them. `PoolReduction` shows that for the DIO engine and the worker this loses nothing; steps of exec inside a turn, possible only once its request is answered, are covered by the protocol's invariant alone.
- PoolScheduler.Scheduler.DrainMove: one finished entry; the surrounding loop takes one after the other.
- Floating point: eviction scores and budget shares are exact reals and rationals, expert outputs and their sums integers; the rounding of a budget share can differ in the code.
- Null tensors and handles, and `out_cap` smaller than the need set (the code returns -1 at once).
- BucketEngine.ExecLayer: the expert computation is an arbitrary function of activation, expert and weight; which allocations, pin lookups and graph builds succeed is an input; device transfers and the single-device graph fusion are not modelled.
- The sort of `order` in `build_mix_plan`, whose result is not used.
- CacheSim.ReplayOpt: hit counts, not the ratio hit / m, which is NaN for an empty trace; traces up to the largest 32-bit index.
- LayoutSim.BestFitDec: the simulator's Infinity is the number of nodes, with which every comparison comes out the same.
- BlockSplit.SplitBlocks: quotas are exact and ratios non-negative; the code computes quotas in doubles.
- The V2 target of the converter. A byte of an output file that neither a copy nor a fill writes reads as zero, also past the end of the file.
- Names in place of layers: the parsing of `-<il>` suffixes is an input of the attribution.
- `layout_arena`'s carry, sync and transfer regions, `topo_segment_execute` and `select_relays`.
