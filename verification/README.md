# Swift-Sim in Dafny: model and proofs

A model of the cycle-level GPU memory simulator in `gan-swift-sim/` and of the instruction tracer in
`tracer_nvbit/`, with proofs of what their parts guarantee together. Check it with
`dafny verify dfyconfig.toml`.

## What is modelled

| file | subject | shape |
|---|---|---|
| `Basics`, `BitArith`, `Division`, `Requests` | NULL-able values, machine words read bit by bit, quotient and remainder, requests and how they are counted | functions and lemmas |
| `DelayQueue` | `fifo_pipeline`, the linked list with NULL padding | class over nodes, refined to a row of slots |
| `Dram`, `MemoryPartition`, `MissDelivery`, `MemoryChannel` | one DRAM device, the channel around it, both DRAM models, runs of whole channels, what becomes of every miss | classes, and the cycle they carry out as functions |
| `MemoryReturn`, `MemoryProgress`, `StorePath`, `TableLimits`, `MissTables` | the way of loads and stores through L1, request network, L2, DRAM, reply network and back; why it never gets stuck; where every store is; limits and order; the caches and drains themselves | state machine; miss tables, caches with their tag arrays, and drain loops as classes |
| `TagArray`, `TagLines`, `Recency`, `TagRecency`, `TagStore`, `CacheRecency`, `CacheIndex` | probe, access and fill of the sectored tag array, line by line; recency lists; LRU against them; the sets of the caches; both set-index functions | functions over the ways of a set; class over the flat array of lines |
| `Crossbar`, `XbarRouter`, `Interconnect` | the router and its round-robin arbitration; the interconnect of one router per subnet | functions over runs of events; classes |
| `Scoreboard`, `PendingRequests`, `LoadCompletion`, `RequestTiming` | dependencies of a warp; its pending counters and load/store units; what a completion stamp says about a load, and for which timing | state machines; classes and loops |
| `BlockDispatch`, `Coalescing` | blocks onto SMs; merging of addresses | state machine; classes and loops |
| `AddressDecode` | channel, bank and slice of an address | functions and loops |
| `TraceChannel`, `TraceProgress`, `TraceReceive` | the lock-free GPU-to-host trace buffer; why every push can return; what calls of `recv` take | interleaved atomic steps |
| `TraceEncoder`, `SpinFilter` | address formats and spinlock fast-forwarding of the tracer | functions; loops and class |

Code that changes things in place is a class or a loop whose contract equates the new state with a function of
the old one; what the code is for is proved about those functions, over every run of the component. Three kinds
of choices are left open and quantified over: what the tag arrays answer (in `MemoryReturn`), in what order
messages leave a network or the DRAM path, and how steps of different components interleave. Configuration values
are parameters.

## What the obvious claims come to

Several properties hold only up to a condition. The code is modelled as it is, an input that fails is given where one
is not obvious, and the condition is proved to be exact.

- *One message per miss-table entry.* A store that comes back from DRAM drains the loads waiting for its sector,
  whose own DRAM request is then answered once more (`LoadAnsweredTwice`). One message per entry holds throughout
  a run if and only if this never happens (`OneMessagePerEntryIff`), so always for loads alone. Even with such
  stores no load is written back twice or lost, and the error exit stays out of reach (`EveryLoadReturnsOnce`).
- *Latency l2_miss_latency + CL + 2.* It needs CL of at least 1: a CL of 0 costs as much as 1 (`LatencyFormula`).
- *A load is complete when its stamp has passed.* A load is stamped whenever nothing is counted as pending for it,
  which can be between two of its requests. The stamps tell the truth throughout a run if and only if no answer
  empties the count of a load that its unit still holds (`StampsHonestIff`); then dependent instructions wait for all
  requests (`IssueWaitsForAnswers`). That is so for every timing in which answers take longer than the requests of a
  load can be apart, and only then (`SafeTimingIff`). A unit alone sends a request every cycle and is always safe
  (`OneUnitNeverEarly`). With two units, stores of another warp can keep the bank of a load's next request busy until
  its first request is answered, one cycle after the hit latency for a hit in L1, and an instruction that uses the
  loaded register may issue (`LoadUsedTooEarly`).
- *LRU.* The set holds the most recently touched lines throughout a run if and only if no fill replaces a line while
  a way below the least recent one has the same time (`LruRefinesRecencyIff`). Distinct times never do
  (`DistinctTimesNeverTie`), but banks of L1 that share a set may hit two of its lines in one cycle: the next fill may
  then replace the one hit last (`EqualTimesBreakRecency`). In every run a line goes only after `assoc` others were
  touched at or after its own last touch (`EvictedOnlyAfterOthers`).
- *abort() in the probe.* It is reached when no way of a full set has a stamp below 2^32 - 1 (`AbortIff`). The cycle
  counter of the simulator is an `int` and never gives such a stamp; what does is an unknown replacement policy, under
  which no way is a candidate. Times in the model are unbounded.
- *IPOLY indexing.* The index stays inside the set array if and only if there are at least 64 sets
  (`HashedInRangeIff`).
- *Unique tags in L2.* A store that misses its sector and takes an idle line marks that line without giving it a
  tag (`IdleStoreGoodIff`); two of them after one fill leave two ways with one tag (`IdleStoresLoseUniqueness`).
- *Dependencies point back.* An EXIT or barrier with a result of its own depends on itself
  (`DependenciesPointBackIff`), and a dispatch width above one leaves later instructions of a group unchecked
  (`SafeWidthIff`).
- *Faithful traces.* A constant stride is compared after truncation to 32 bits (`EncodingFaithfulIff`), so two
  addresses 2^32 apart are read back as one (`StrideCanOverflow`).
- *Every packet can leave.* Only if its receiver reads the router its sender pushes to (`CanLeaveIff`): with a single
  subnet a packet for an SM never leaves.
- *The memory path never gets stuck.* It needs room for one entry in each miss table, and no more (`NeverStuckIff`).

## Model

| member | source | states |
|---|---|---|
| `MemoryReturn.EveryLoadReturnsOnce` | gan-swift-sim/gpu.cpp:394-446 | in every run of loads and stores the error exit is never taken, every load written back was sent and is written back once, and once nothing is on its way every load sent has been written back |
| `MemoryReturn.OneMessagePerEntryIff` | gan-swift-sim/cache.cpp:277-315 | every state of a run has exactly one message in flight per L1 entry and one request on the DRAM path per L2 entry, if and only if no store comes back from DRAM to a sector with waiting loads |
| `MemoryReturn.LoadOnlyIsExact` | gan-swift-sim/cache.cpp:529-566 | load-only traffic always has exactly one message per L1 entry and one DRAM request per L2 entry |
| `MemoryReturn.ExactStep` | gan-swift-sim/cache.cpp:383-406 | a single step keeps "one message per entry" if and only if it is not such a store return |
| `MemoryReturn.StealBreaks` | gan-swift-sim/cache.cpp:383-406 | a store return that meets waiting loads leaves a DRAM request without an entry |
| `MemoryReturn.LoadAnsweredTwice` | gan-swift-sim/cache.cpp:383-406 | a reachable state, with a store ahead of a load to one sector, in which the one load is answered twice |
| `MemoryReturn.EveryReplyFindsItsEntry` | gan-swift-sim/gpu.cpp:420-446 | while messages and entries match one to one, no reply reaches an SM without an entry to drain and no two replies serve one entry |
| `MemoryReturn.IdleTablesEmpty` | gan-swift-sim/cache.cpp:383-449 | when nothing is on its way, the miss tables of every SM and of every slice are empty: no entry is left behind |
| `MemoryProgress.NeverStuckIff` | gan-swift-sim/cache.cpp:54-60 | the memory path can always make a step that changes something, whatever the tag arrays answer, until it is idle, in all reachable states if and only if both miss tables have room for an entry; merge limits do not matter |
| `MemoryProgress.NeverStuck` | gan-swift-sim/cache.cpp:285-313 | with such room an access refused by a full table has a message elsewhere that can move |
| `MemoryProgress.StepFalls` | gan-swift-sim/cache.cpp:205-449 | every step that is not a new request changes nothing or lowers a well-founded measure |
| `MemoryProgress.NoEndlessRun` | gan-swift-sim/cache.cpp:205-449 | no run goes on for ever without a new request or a step that changes nothing |
| `MemoryProgress.EveryLoadCanFinish` | gan-swift-sim/gpu.cpp:394-446 | with room for an entry in both tables: from every reachable state, whatever the tag arrays answer, the requests already made can be brought to an end, and then exactly the loads sent have been written back |
| `MemoryProgress.StuckMeansDone` | gan-swift-sim/gpu.cpp:394-446 | with room for an entry in both tables: a reachable state in which nothing can change has written back every load sent |
| `MemoryReturn.StepKeepsConserved` | gan-swift-sim/gpu.cpp:394-446 | each step keeps: every load sent is held by its SM or written back, never both or twice, and pending_request counts exactly the loads not yet written back |
| `MemoryReturn.StepKeepsServed` | gan-swift-sim/cache.cpp:205-319 | each step keeps every entry of both tables served by a message, and by exactly one unless a store takes waiting loads over |
| `MemoryReturn.StepKeepsPlaced` | gan-swift-sim/cache.cpp:340-352 | each step keeps every request at the SM, bank and slice its address and sender say |
| `MemoryReturn.WriteBackAllDone` | gan-swift-sim/gpu.cpp:426-446 | draining loads that were sent and not written back finds a positive count for each and writes all of them back |
| `MemoryReturn.L1AccessSends` | gan-swift-sim/cache.cpp:285-313 | L1 sends a load down exactly when it opens an entry, whatever the tag array answers and however full the table is |
| `MemoryReturn.L2AccessSends` | gan-swift-sim/cache.cpp:541-566 | L2 sends a load to DRAM exactly when it opens an entry; stores add no load |
| `MemoryReturn.DramReturnPlaced` | gan-swift-sim/cache.cpp:383-406 | what comes back for a request is its sector's whole waiting list, or the request itself if it is a load, or nothing |
| `MemoryReturn.DecodedHomeIsSane` | gan-swift-sim/mem_fetch.cpp:36-64 | the simulator's placement of sectors, two slices per channel, is an instance of the slice assignment the proofs leave open |
| `StorePath.EveryStoreIsAccountedFor` | gan-swift-sim/cache.cpp:216-271 | over every run and for every store: under write-through each time it was created it is on its way or has been looked at by L2, under write-back the hits in L1 come off; its marked copies are its hits in L1 under write-through; what DRAM holds or has returned of it is what missed in L2 as the store itself, so hits and marked copies send nothing there |
| `StorePath.StepMovesStore` | gan-swift-sim/cache.cpp:216-271 | each step changes the copies on the way by what units create, by hits in L1, and by what L2 looks at |
| `StorePath.StepMovesDram` | gan-swift-sim/cache.cpp:465-528 | the DRAM path gains a store exactly when the store itself misses in L2 |
| `TableLimits.TablesStayWithinLimits` | gan-swift-sim/cache.cpp:54-68 | in every run no miss table exceeds its entries and no waiting list its merge limit |
| `TableLimits.L1RefusesIff` | gan-swift-sim/cache.cpp:288-292 | L1 refuses exactly a load that misses with its entry at the merge limit, or without an entry in a full table |
| `TableLimits.L2RefusesIff` | gan-swift-sim/cache.cpp:541-545 | the same for L2 |
| `TableLimits.StepKeepsOrder` | gan-swift-sim/cache.cpp:321-352 | in every step all queues of the path are first-in first-out, and waiting lists grow at their end |
| `MissTables.MshrTable.Probe` | gan-swift-sim/cache.cpp:49-52 | finds a sector's entry |
| `MissTables.MshrTable.Full` | gan-swift-sim/cache.cpp:54-60 | merge limit of an existing entry, else entry limit of the table |
| `MissTables.MshrTable.Add` | gan-swift-sim/cache.cpp:63-68 | appends to the waiting list, opening the entry if needed |
| `MissTables.MshrTable.NextAccess` | gan-swift-sim/cache.cpp:71-80 | hands out the oldest waiting request and removes the entry with the last one |
| `MissTables.L1DataCache.CacheAccess` | gan-swift-sim/cache.cpp:205-319 | the access path of L1, its tag array included: what it does to queues and miss table is the transition L1Access for the answer of the probe; the set of the line changes as Accessed says and no other; a load that hits may leave hit latency cycles later; a refused access changes nothing |
| `MissTables.L1DataCache.AccessBank` | gan-swift-sim/cache.cpp:321-338 | a bank is one L1Access step with the probe's answer, or nothing; an orderly tag array stays orderly |
| `MissTables.L2DataCache.CacheAccess` | gan-swift-sim/cache.cpp:451-566 | the access path of L2, its tag array included: queues and miss table make the transition L2Access for the answer of the probe; a store that does not hit takes an idle line, a load touches what it hits, no other set changes |
| `MissTables.L2DataCache.AccessArrival` | gan-swift-sim/cache.cpp:435-448 | an arrival is one L2Access step with the probe's answer, or nothing; it is popped unless refused |
| `MissTables.L2DataCache.ReturnHits` | gan-swift-sim/cache.cpp:415-432 | the hits at the head of the queue whose time has come leave, in order, and no others |
| `MissTables.L2DataCache.ReturnMissToSms` | gan-swift-sim/cache.cpp:383-406 | the drain pushes the replies Answered says, in waiting order, removes the entry, and fills the line of each request drained; in an orderly tag array the last sector filled then hits |
| `MissTables.L2DataCache.DrainEntry` | gan-swift-sim/cache.cpp:386-397 | the loop of the drain, for a sector with an entry |
| `MissTables.CacheFill` | gan-swift-sim/cache.cpp:355-357 | one fill more; in an orderly tag array the sector then hits |
| `MissTables.SmWriteBack.WriteBackRequestL2` | gan-swift-sim/gpu.cpp:420-464 | NULL changes nothing; for a load the whole waiting list is written back in order, completions are stamped, its lines filled, the entry removed; a write that wanted a reply is written back itself, with the same error exit |
| `MissTables.SmWriteBack.DrainEntry` | gan-swift-sim/gpu.cpp:426-446 | the loop of the drain: ledger, stamps, lines and entry together |
| `MissTables.SmWriteBack.WriteBackOne` | gan-swift-sim/gpu.cpp:431-443 | one load: count down, stamp the completion when the count reaches zero, or take the error exit |
| `MissTables.SmWriteBack.WriteBackHitsDue` | gan-swift-sim/gpu.cpp:394-418 | the L1 hits at the head of the queue whose latency has passed are written back, in order, with their stamps and without the error exit |
| `MissTables.HitsAreSteps` | gan-swift-sim/gpu.cpp:394-418 | writing back the first n hits is n steps of the whole memory path |
| `MissTables.StampedIffEmptied` | gan-swift-sim/gpu.cpp:432-437 | over a whole drain an instruction is stamped if and only if its positive count falls to zero, and with the cycle of the drain |
| `MissTables.DrainErrsIff` | gan-swift-sim/gpu.cpp:432-442 | a drain takes the error exit if and only if an instruction has more loads in the waiting list than are counted as pending for it |
| `MissTables.HitsNeverErr` | gan-swift-sim/gpu.cpp:394-418 | L1 hits never take it |
| `MemoryPartition.ExactLatency` | gan-swift-sim/cache.cpp:583-728 | in every run of either DRAM model each slice receives in cycle k exactly the request issued to it Latency cycles before: once, at its own slice, at no other time |
| `MemoryPartition.LatencyFormula` | gan-swift-sim/dram.cpp:42-48 | the latency is l2_miss_latency + CL + 2 if and only if CL is at least 1; CL = 0 costs one cycle more than that; the simple model takes l2_miss_latency if and only if that is at least 1 |
| `MissDelivery.EveryMissDeliveredOnce` | gan-swift-sim/cache.cpp:583-728 | for every run of either model and every slice: the misses that arrived are those it has received, in order of arrival, followed by those inside the DRAM path, followed by those that wait |
| `MissDelivery.EveryMissDeliveredInTime` | gan-swift-sim/cache.cpp:583-728 | in each round of the slices, after the latency of the model, one more of the misses that wait at a slice is delivered, until none of them is left |
| `MissDelivery.ArrivedIsIssuedOrWaiting` | gan-swift-sim/cache.cpp:604-626 | the misses that arrived at a slice are those issued, in order, followed by those that still wait |
| `MemoryPartition.GuardsNeverFire` | gan-swift-sim/cache.cpp:668-712 | after every cycle returnq and mrqq hold at most 1, rwq exactly CL (at most 1 if CL is 0), the reply queues are empty, and no full() guard of the next cycle is true |
| `MemoryPartition.DetailedIsSimpleDelayed` | gan-swift-sim/cache.cpp:583-712 | for the same misses the detailed model gives every slice what the simple model gives it, Lag cycles later and nothing before, whatever the banks are |
| `MemoryPartition.LagFormula` | gan-swift-sim/cache.cpp:583-712 | the lag is CL + 2 if and only if CL and l2_miss_latency are both zero or both positive |
| `MemoryPartition.SameIssues` | gan-swift-sim/cache.cpp:604-626 | both models issue the same requests in the same cycles |
| `MemoryPartition.ServedWithinOneRound` | gan-swift-sim/cache.cpp:681-704 | a waiting slice is issued to DRAM within as many cycles as the arbiter is steps away from it, so within one round |
| `MemoryPartition.DetailedStep` | gan-swift-sim/cache.cpp:668-712 | one cycle of the detailed model keeps every queue a function of the issue log |
| `MemoryPartition.SimpleStep` | gan-swift-sim/cache.cpp:583-626 | one cycle of the simple model keeps its latency list a function of the issue log |
| `MemoryPartition.DeviceMovesOn` | gan-swift-sim/dram.cpp:85-113 | one device cycle turns the padded delay line by one place, for every CL |
| `MemoryPartition.Stop` | gan-swift-sim/cache.cpp:681-704 | the first round of the arbiter's loop that finds a slice it may serve |
| `MemoryChannel.ChannelUnit.DramCycle` | gan-swift-sim/cache.cpp:668-712 | the in-place cycle of the detailed model is ChannelCycle; its one precondition is the assertion of the delay line |
| `MemoryPartition.DelayLineHasRoom` | gan-swift-sim/delayqueue.h:71-87 | that precondition holds in every state of every run |
| `MemoryChannel.ChannelUnit.DramModelCycle` | gan-swift-sim/cache.cpp:583-626 | the in-place cycle of the simple model is ChannelCycle |
| `MemoryChannel.ChannelUnit.Arbitrate` | gan-swift-sim/cache.cpp:681-704 | the round-robin loop moves the miss the specification chooses, and no more than one |
| `MemoryChannel.ChannelUnit.ReturnReply` | gan-swift-sim/cache.cpp:669-676 | a returned request reaches the queue of its own slice |
| `MemoryChannel.ChannelUnit.FeedDevice` | gan-swift-sim/cache.cpp:706-713 | the ripe head of the latency list enters the device unless it is full |
| `Dram.DramDevice.constructor` | gan-swift-sim/dram.cpp:42-52 | queue sizes: rwq CL padded to CL + 1, mrqq 2, a configured return size of 0 stands for 1024 |
| `Dram.DramDevice.Cycle` | gan-swift-sim/dram.cpp:85-113 | one device cycle: shift unless the return queue is full, schedule, drain the bank slots |
| `Dram.DramDevice.SchedulerFifo` | gan-swift-sim/dram.cpp:210-225 | the head request takes its bank slot |
| `Dram.DramDevice.DrainBanks` | gan-swift-sim/dram.cpp:109-113 | the loop pushes what a slot holds and clears every slot |
| `Dram.DramDevice.PushRequest` | gan-swift-sim/dram.cpp:185-191 | a request joins mrqq |
| `DelayQueue.FifoOrder` | gan-swift-sim/delayqueue.h:71-181 | over every run of pushes, both pops and length changes, the items popped are the first of the items pushed, in order, and the rest is still in the row |
| `DelayQueue.PaddingKept` | gan-swift-sim/delayqueue.h:89-115 | over every run that pops with replenishment the row never gets shorter than min_len |
| `DelayQueue.SetMinLengthKeepsItems` | gan-swift-sim/delayqueue.h:149-181 | changing the minimum keeps every item in order and lands on the new minimum or on the last item |
| `DelayQueue.TrimDropsTrailingNulls` | gan-swift-sim/delayqueue.h:163-179 | trimming removes exactly a run of trailing NULLs |
| `DelayQueue.PushIsEnqueue` | gan-swift-sim/delayqueue.h:71-87 | a push adds its item behind all others and adds a slot only when it cannot use a padding slot |
| `DelayQueue.PopIsDequeue` | gan-swift-sim/delayqueue.h:89-139 | both pops take the first slot; the replenishing one keeps the minimum length |
| `DelayQueue.CounterWraps` | gan-swift-sim/delayqueue.h:71-139 | the element counter counts modulo 2^32, up and down |
| `DelayQueue.FifoPipeline.constructor` | gan-swift-sim/delayqueue.h:51-61 | a new list holds min_len NULL slots, and its element counter counts them |
| `DelayQueue.FifoPipeline.PushSlot` | gan-swift-sim/delayqueue.h:71-87 | the linked-list push is Push on the row of slots |
| `DelayQueue.FifoPipeline.PopSlot` | gan-swift-sim/delayqueue.h:89-115 | the linked-list pop is Pop on the row of slots |
| `DelayQueue.FifoPipeline.PopSlotNoReplenish` | gan-swift-sim/delayqueue.h:117-139 | the other pop is PopNoReplenish, down to the empty list |
| `DelayQueue.FifoPipeline.TopSlot` | gan-swift-sim/delayqueue.h:141-147 | the head slot, NULL for the empty list |
| `DelayQueue.FifoPipeline.IsFull` | gan-swift-sim/delayqueue.h:183-183 | full exactly at max_len slots |
| `DelayQueue.FifoPipeline.SetMinLen` | gan-swift-sim/delayqueue.h:149-181 | the two loops over the list compute SetMinLength and terminate |
| `TagArray.RunKeepsGood` | gan-swift-sim/cache.cpp:97-196 | over every run of loads, store hits and fills on a set nothing stays RESERVED, no tag is held twice, and the next probe is HIT, SECTOR_MISS or MISS |
| `TagArray.ProbeNeverFails` | gan-swift-sim/cache.cpp:97-164 | on such a set the probe never returns RESERVATION_FAIL or HIT_RESERVED nor aborts; HIT means resident, MISS means no way holds the tag |
| `TagArray.FillResidency` | gan-swift-sim/cache.cpp:187-196 | after a fill the sector probes as HIT; every other sector keeps its residency, except those of the one line the fill replaced |
| `TagArray.AccessResidency` | gan-swift-sim/cache.cpp:167-185 | loads and store hits never change what is resident |
| `TagArray.VictimIsOldest` | gan-swift-sim/cache.cpp:128-163 | a full set gives up a way with the smallest time stamp, the first such one, under LRU and FIFO |
| `TagArray.VictimByPolicy` | gan-swift-sim/cache.cpp:128-163 | under LRU that is the line accessed longest ago, under FIFO the one brought in longest ago |
| `TagArray.ProbeOutcomes` | gan-swift-sim/cache.cpp:107-126 | in any set the first way with the tag decides: a hit for a valid sector or a modified readable one, a sector miss for an invalid one or a modified one that is not readable |
| `TagLines.EveryLineAfter` | gan-swift-sim/cache.cpp:167-196 | every operation, line by line: statuses, allocation and access times of its own line, and no change to any other line but the one a fill replaces |
| `TagLines.IdleStoreTakes` | gan-swift-sim/cache.cpp:489-500 | the first idle way gets the stored sector as modified and the present time, with its own tag after a miss and the old tag after a sector miss |
| `TagArray.AbortIff` | gan-swift-sim/cache.cpp:154-161 | a full set without the tag reaches abort() exactly when every stamp is 2^32 - 1 or more |
| `TagArray.IdleStoreGoodIff` | gan-swift-sim/cache.cpp:485-499 | the L2 store that takes an idle line keeps tags unique after a miss; after a sector miss it does so exactly when no other way holds the idle line's old tag, and the stored sector stays absent |
| `TagArray.IdleStoresLoseUniqueness` | gan-swift-sim/cache.cpp:485-499 | on an empty set, one fill of a line and two such stores to its other sectors leave two ways with one tag |
| `TagArray.ApplyKeepsGood` | gan-swift-sim/cache.cpp:187-196 | each operation keeps "nothing reserved, tags unique" |
| `TagArray.LastInvalidIsLast` | gan-swift-sim/cache.cpp:129-131 | the invalid way chosen is the last one |
| `TagArray.OldestIsOldest` | gan-swift-sim/cache.cpp:132-146 | the scan with a strict comparison finds the first minimum |
| `TagRecency.LruRefinesRecencyIff` | gan-swift-sim/cache.cpp:97-196 | over every run under LRU with times that do not decrease, the set holds the first assoc tags of the recency list of everything touched after each operation, if and only if no fill replaces a line while a way below the least recent one has the same time |
| `TagRecency.StepKeepsIff` | gan-swift-sim/cache.cpp:128-196 | an operation moves the touched tag to the front of the list, dropping the last of a full set, if and only if it meets no such tie |
| `TagRecency.VictimIsLastIff` | gan-swift-sim/cache.cpp:128-163 | the line a fill replaces is the last of the recency list if and only if no lower way has the same time |
| `TagRecency.PresentIffRecent` | gan-swift-sim/cache.cpp:97-196 | in every run without such a tie a line is present exactly when it was touched and fewer than assoc distinct other lines were touched since |
| `TagRecency.DistinctTimesNeverTie` | gan-swift-sim/cache.cpp:128-163 | operations at distinct times never meet a tie |
| `TagRecency.EvictedOnlyAfterOthers` | gan-swift-sim/cache.cpp:97-196 | in every run, ties or not, a line goes only when assoc distinct other lines, the incoming one included, were touched at or after its own last touch |
| `TagRecency.EqualTimesBreakRecency` | gan-swift-sim/cache.cpp:321-338 | a run that meets a tie: two lines are filled, later both are hit in one cycle in different banks, and the next fill replaces the one hit last |
| `CacheRecency.L1SetIsRun` | gan-swift-sim/cache.cpp:205-319 | whatever accesses and fills a set of L1 meets, it is what the run of the operations they stand for makes of an empty set, so all results on such runs hold for it |
| `CacheRecency.L1KeepsRecentLines` | gan-swift-sim/cache.cpp:205-319 | under LRU and without ties a line is in its set of L1 exactly when it was touched, by a fill, a load that hit or a store that hit and is not written through, and fewer than assoc other lines since |
| `CacheRecency.L1AccessIsApply` | gan-swift-sim/cache.cpp:216-289 | on an orderly set an L1 access is the operation it stands for |
| `CacheRecency.L2AccessIsApply` | gan-swift-sim/cache.cpp:465-566 | an L2 access touches what it hits, marks a store that hits, and lets other stores take an idle line |
| `Recency.AmongMostRecentIff` | gan-swift-sim/cache.h:398-402 | a tag is among the k most recent exactly when fewer than k others were touched since its last touch |
| `TagStore.TagStore.TagArrayProbe` | gan-swift-sim/cache.cpp:97-164 | the probe loop over the flat array computes ProbeSet of the address's set |
| `TagStore.TagStore.TagArrayAccess` | gan-swift-sim/cache.cpp:167-185 | a hit is touched; every other set stays as it was |
| `TagStore.TagStore.TagArrayFill` | gan-swift-sim/cache.cpp:187-196 | allocate, allocate the sector, or just mark valid; every other set stays as it was; in an orderly cache the sector then probes as HIT and the cache stays orderly |
| `TagStore.TagStore.StoreOnHit` | gan-swift-sim/cache.cpp:221-243 | a store hit marks the sector modified and touches it unless it is written through |
| `TagStore.TagStore.TagArrayProbeIdle` | gan-swift-sim/cache.cpp:83-95 | the loop finds the first way without a sector |
| `TagStore.TagStore.StoreOnIdle` | gan-swift-sim/cache.cpp:487-500 | the idle-line branch is IdleStore on the address's set; every other set stays as it was |
| `TagStore.TagStore.Index` | gan-swift-sim/cache.h:150-173 | the set index is an index into the array for 2^k sets, hashed ones from 64 sets on; HashedInRangeIff shows that fewer do not do |
| `TagStore.TagStore.TellsLinesApart` | gan-swift-sim/cache.h:138-140 | set and tag together, and the tag alone, are equal for two addresses exactly when they lie in one line |
| `TagStore.TagStore.IndexIsOfLine` | gan-swift-sim/cache.h:150-173 | without hashing the index is the line number modulo the number of sets, with hashing the remainder of the polynomial division |
| `TagStore.TagStore.FillDecidesHits` | gan-swift-sim/cache.cpp:187-196 | after a fill of a sector of x a sector of y hits exactly when it is that sector of that line, or hit before and its line is not the one replaced |
| `CacheIndex.IpolyIsRemainder` | gan-swift-sim/cache.h:154-173 | for every line number the six unrolled equations are the remainder of its low 25 bits modulo x^6 + x + 1 over GF(2) |
| `CacheIndex.SixBitWindowSpreads` | gan-swift-sim/cache.h:154-173 | two lines whose hashed bits differ only inside six adjacent ones share a set only if those agree too: 64 such lines fall in 64 sets |
| `CacheIndex.SameLineSameSet` | gan-swift-sim/cache.h:150-173 | every byte of a line has the same set, under both functions |
| `CacheIndex.HashedInRangeIff` | gan-swift-sim/cache.h:150-173 | the hashed index stays inside the set array for all addresses if and only if there are at least 64 sets |
| `CacheIndex.SetIndexOfLine` | gan-swift-sim/cache.h:154-156 | the upper bits and the index are the two halves of the line number |
| `CacheIndex.SetIndexIsRemainder` | gan-swift-sim/cache.h:154-173 | for any number of sets from 64 on the hashed index is a remainder of the line number with its set bits above the sixth left out |
| `CacheIndex.IndexHasBits` | gan-swift-sim/cache.h:157-173 | bit i of the index is coefficient i of the remainder |
| `CacheIndex.RemainderIsSum` | gan-swift-sim/cache.h:162-171 | long division by the polynomial is the sum of reduced powers |
| `CacheIndex.LogB2IsFloor` | gan-swift-sim/cache.cpp:15-38 | LOGB2 is the position of the highest set bit, for every non-zero word |
| `CacheIndex.LinearIndex` | gan-swift-sim/cache.cpp:40-46 | for 2^k sets the linear index is what remains of the line number above the multiples of 2^k |
| `BitArith.AlignDownSound` | gan-swift-sim/cache.h:138-148 | aligning is idempotent and two addresses align alike exactly when their upper bits agree |
| `Crossbar.FlowsAreFifo` | gan-swift-sim/crossbar.cpp:60-125 | over every sequence of pushes, pops and cycles what left a flow is a prefix of what entered it and the rest is inside; nothing leaves at a wrong output; no output buffer exceeds its limit |
| `Crossbar.AdvanceIsMaximalMatching` | gan-swift-sim/crossbar.cpp:91-125 | a cycle takes at most one packet per input and gives at most one per output, and leaves a head behind only if its output was served or had no room |
| `Crossbar.ConflictAccounting` | gan-swift-sim/crossbar.cpp:91-125 | packets moved, conflicts and heads blocked by a full output add up to the non-empty inputs |
| `Crossbar.ConflictsExplained` | gan-swift-sim/crossbar.cpp:91-125 | moved are the inputs that lost their head, blocked those whose head found no room when the cycle started, conflicts all other inputs with a packet |
| `Crossbar.HeadMovesWithinOneTurn` | gan-swift-sim/crossbar.cpp:91-117 | if its output has room at each of total_nodes cycles, a head moves within them, whatever is pushed and popped in between |
| `Crossbar.DepthMovesInTime` | gan-swift-sim/crossbar.cpp:91-117 | with room at all outputs a packet with d ahead of it leaves within (d + 1) * total_nodes cycles |
| `Crossbar.RouterIsABag` | gan-swift-sim/crossbar.cpp:60-125 | seen from outside the router is a bag of packets: a push adds one, a pop takes one that is inside and bound for that output, a cycle changes nothing |
| `Crossbar.AdvanceKeepsFlows` | gan-swift-sim/crossbar.cpp:91-125 | a cycle changes no flow |
| `Interconnect.WhatEntersLeavesOrIsInside` | gan-swift-sim/crossbar.cpp:178-205 | over every sequence of pushes, pops and cycles of the interconnect, for each sender and receiver: what entered is what left, in order, followed by what is inside the sender's router; nothing ever leaves a receiver that reads another router |
| `Interconnect.CanLeaveIff` | gan-swift-sim/crossbar.cpp:178-199 | packets from a sender to a receiver can leave at all if and only if the receiver reads the router the sender pushes to |
| `Interconnect.NotStrandedIff` | gan-swift-sim/crossbar.cpp:178-199 | that is the case exactly between an SM and a memory node; with one subnet exactly for memory nodes as receivers |
| `Interconnect.StepKeepsKept` | gan-swift-sim/crossbar.cpp:178-205 | each step keeps every flow inside one router and every output buffer within its limit |
| `Interconnect.LocalInterconnect.PushPacket` | gan-swift-sim/crossbar.cpp:178-190 | a packet enters the router of its sender |
| `Interconnect.LocalInterconnect.PopPacket` | gan-swift-sim/crossbar.cpp:193-199 | the head of the receiver's output in the router it reads, or nothing |
| `Interconnect.LocalInterconnect.Advance` | gan-swift-sim/crossbar.cpp:201-205 | the loop advances every router once |
| `Crossbar.CycleServesOrNears` | gan-swift-sim/crossbar.cpp:91-117 | a cycle serves a head with room or brings its turn nearer |
| `XbarRouter.Xbar.PushPacket` | gan-swift-sim/crossbar.cpp:60-63 | a packet joins its input buffer |
| `XbarRouter.Xbar.PopPacket` | gan-swift-sim/crossbar.cpp:65-72 | the head of an output buffer, or nothing |
| `XbarRouter.Xbar.HasBufferOut` | gan-swift-sim/crossbar.cpp:80-82 | room for one packet below the limit |
| `XbarRouter.Xbar.RRAdvance` | gan-swift-sim/crossbar.cpp:91-125 | the arbitration loop computes Advance and counts its conflicts and its busy cycles |
| `Scoreboard.IssueWaitsForAllWriters` | gan-swift-sim/gpu.cpp:366-392 | in every run of one-wide issue there is one completion stamp per issued instruction, and when the next instruction may issue, the stamps of all earlier instructions whose result it uses or overwrites have passed, although only last writers are recorded |
| `Scoreboard.ReadyIsSettled` | gan-swift-sim/gpu.cpp:490-499 | waiting for the last writers is waiting for all writers |
| `Scoreboard.ReadyIffSettled` | gan-swift-sim/gpu.cpp:490-499 | in every safe state an instruction may issue exactly when the stamps of all instructions it must wait for have passed, unless it is an EXIT or barrier with a result |
| `Scoreboard.DependsOnPredecessors` | gan-swift-sim/kernel.cpp:31-57 | nothing is recorded that need not be waited for |
| `Scoreboard.SafeWidthIff` | gan-swift-sim/gpu.cpp:366-392 | that holds for every program and run if and only if num_inst_dispatch_units_per_warp is at most 1 |
| `Scoreboard.DependenciesPointBackIff` | gan-swift-sim/kernel.cpp:31-57 | every recorded dependency is an earlier instruction if and only if the instruction is not an EXIT or barrier with a result |
| `Scoreboard.WarpState.GetInstDependency` | gan-swift-sim/kernel.cpp:31-57 | the recording loop stores exactly the last writers of each register used, and of all registers for EXIT and barriers |
| `Scoreboard.WarpState.CheckDependency` | gan-swift-sim/gpu.cpp:490-499 | ready exactly when every recorded dependency is complete |
| `Scoreboard.NoteWrites` | gan-swift-sim/kernel.cpp:43-47 | the map follows the last writers by one instruction |
| `Scoreboard.LastWriter` | gan-swift-sim/kernel.cpp:31-57 | the latest earlier instruction that writes the register |
| `LoadCompletion.StampsHonestIff` | gan-swift-sim/gpu.cpp:866-912 | in every run of the loads and stores of an SM, the stamps of loads have passed exactly when all their requests are sent and answered, throughout, if and only if no answer empties the count of a load that a unit still holds |
| `LoadCompletion.StepHonestIff` | gan-swift-sim/gpu.cpp:431-438 | a step keeps all stamps honest if and only if it is no such answer |
| `LoadCompletion.EmptyingFinishesIff` | gan-swift-sim/gpu.cpp:431-438 | an answer that leaves nothing counted stamps the load with the present cycle and finishes it if and only if no unit holds it |
| `LoadCompletion.IssueWaitsForAnswers` | gan-swift-sim/gpu.cpp:366-392 | in every run without an early emptying, whenever the next instruction of a warp may issue, every load whose result it uses or overwrites has all its requests sent and answered |
| `LoadCompletion.SettledIffAnswered` | gan-swift-sim/gpu.cpp:490-499 | while stamps are honest, an instruction's dependencies are settled exactly when the loads among them are finished and the others have reached their time |
| `LoadCompletion.StepIsSeen` | gan-swift-sim/gpu.cpp:366-438 | each step of the SM is, for each warp, one step of its dependency model or no change |
| `LoadCompletion.ResultOnTime` | gan-swift-sim/gpu.cpp:376-386 | the stamp of an instruction without requests is the cycle of its issue plus its latency, that of a store one cycle after its issue, and neither changes while the warp lives |
| `RequestTiming.SafeTimingIff` | gan-swift-sim/gpu.cpp:866-912 | cycle by cycle, with busy banks and units visited in order: no run of any number of units empties a count early, whatever the banks, if and only if answers take longer than the requests of a load can be apart |
| `RequestTiming.ShortWaitsNeverEarly` | gan-swift-sim/gpu.cpp:249-264 | in every run in which answers take longer than any load waits between two of its requests no count is emptied early, so stamps are honest |
| `RequestTiming.OneUnitNeverEarly` | gan-swift-sim/gpu.cpp:866-912 | a single unit sends a request every cycle, whatever the banks, so answers that take two cycles or more never empty a count early |
| `RequestTiming.LoadUsedTooEarly` | gan-swift-sim/gpu.cpp:866-912 | for every wait that answers do not exceed, a run of two units, with every issue checked: stores of another warp keep the bank of a load's second request busy until its first one is answered, the stamp has passed, and the instruction that uses the load may issue |
| `RequestTiming.StepKeepsClockInv` | gan-swift-sim/gpu.cpp:431-438 | each step keeps the last request sent for every half-sent load in flight, as long as waits are shorter than answers |
| `PendingRequests.NothingNamedIsRemoved` | gan-swift-sim/gpu.cpp:315-328 | in every run of loads and stores every reply finds its block, its warp and a positive count; m_pending_mem_request_num, the sum of pending_request and the loads on their way agree, and so do pending_inst and the units that hold the warp |
| `PendingRequests.MayRetireIff` | gan-swift-sim/gpu.cpp:320-326 | a warp that has issued everything may retire if and only if no load on its way and no unit names it |
| `PendingRequests.BusyUnitIsNeverOverwritten` | gan-swift-sim/gpu.cpp:480-488 | a unit that may take an instruction holds none |
| `PendingRequests.ReplyFindsItsWarp` | gan-swift-sim/gpu.cpp:420-446 | the warp of a load on its way is there and counts it as pending |
| `PendingRequests.RetiredIsUnnamed` | gan-swift-sim/gpu.cpp:320-326 | nothing names a warp that retires |
| `PendingRequests.StepKeepsInv` | gan-swift-sim/gpu.cpp:866-912 | each step keeps the counters true and everything named present |
| `PendingRequests.UnitsKeepIntervals` | gan-swift-sim/gpu.cpp:366-386 | between loads and stores the ready time of a unit moves on by exactly the issue intervals booked on it, and the next instruction is taken only when all of them together have passed |
| `PendingRequests.WarpCounters.IncreasePendingRequest` | gan-swift-sim/kernel.h:188-194 | one more request of the instruction |
| `PendingRequests.WarpCounters.DecreasePendingRequest` | gan-swift-sim/kernel.h:196-202 | one less, and whether it was the last |
| `PendingRequests.WarpCounters.AnswerLoad` | gan-swift-sim/gpu.cpp:431-438 | guarded decrease of both counters; the completion is stamped when the count reaches zero |
| `PendingRequests.SmUnit.Take` | gan-swift-sim/gpu.cpp:1004-1013 | a memory instruction occupies the unit until its last request; a store completes one cycle later, a load only when it is stamped |
| `PendingRequests.SmUnit.UnitCycle` | gan-swift-sim/gpu.cpp:866-912 | one request leaves the unit per cycle if its bank is free; the last one frees the unit |
| `BlockDispatch.EveryBlockDispatchedOnce` | gan-swift-sim/gpu.cpp:829-862 | over the first placement and every run of refills and finishing blocks: exactly blocks 0 .. block_pointer-1 have been dispatched, each once, each resident on one SM only, and no SM exceeds max_blocks |
| `BlockDispatch.EveryBlockResidentOrFinished` | gan-swift-sim/gpu.cpp:596-606 | over every run a dispatched block is resident on its SM or has finished once, and no other block is or has |
| `BlockDispatch.Gpu.FirstSpawnBlock` | gan-swift-sim/gpu.cpp:829-862 | the placement loop deals blocks 0 .. min(grid, max * active) - 1 round robin: SM s gets exactly those congruent to s; zero residency is reported |
| `BlockDispatch.DealtEvenly` | gan-swift-sim/gpu.cpp:850-861 | the loads of two active SMs differ by at most one and stay within the limit |
| `BlockDispatch.TurnHasRoomIff` | gan-swift-sim/gpu.cpp:850-852 | the SM whose turn it is has room exactly until all active SMs are full |
| `BlockDispatch.Gpu.Refill` | gan-swift-sim/gpu.cpp:272-279 | the refill loop takes the next blocks up to the limit or the end of the kernel, and touches no other SM |
| `BlockDispatch.RefillFillsUp` | gan-swift-sim/gpu.cpp:272-279 | after a refill the SM is full or no block is left |
| `AddressDecode.DecodingIsInvertible` | gan-swift-sim/mem_fetch.cpp:56-59 | channel and rest of the address determine the address, for any number of channels |
| `AddressDecode.AssemblingIsInvertible` | gan-swift-sim/mem_fetch.cpp:56-59 | every channel and rest belong to exactly one address |
| `AddressDecode.ExtractBits` | gan-swift-sim/mem_fetch.cpp:66-98 | for every mask the two loops deliver exactly the selected bits, in order |
| `AddressDecode.PackBits` | gan-swift-sim/mem_fetch.cpp:66-77 | with limits around the mask the loop packs the selected bits |
| `AddressDecode.GetMaskLimit` | gan-swift-sim/mem_fetch.cpp:79-98 | one past the highest and the lowest set bit, (64, 0) for an empty mask |
| `AddressDecode.BankIsFourBits` | gan-swift-sim/mem_fetch.cpp:61-62 | the bank is bits 7, 12, 13, 14 of the rest and below 16 |
| `AddressDecode.SliceInRange` | gan-swift-sim/mem_fetch.cpp:64-64 | slices lie in sm_num .. sm_num + 2n - 1 |
| `AddressDecode.SameLineSameSlice` | gan-swift-sim/mem_fetch.cpp:36-64 | all bytes of a 128-byte line go to one slice |
| `AddressDecode.EverySliceReached` | gan-swift-sim/mem_fetch.cpp:36-64 | every slice has addresses |
| `AddressDecode.GetMemSubPartitionId` | gan-swift-sim/mem_fetch.cpp:36-64 | the method computes Slice |
| `Coalescing.MergedIffSameSector` | gan-swift-sim/kernel.cpp:120-129 | two addresses merge exactly when they lie in the same 32 bytes |
| `Coalescing.SectorHoldsAddress` | gan-swift-sim/kernel.cpp:120-124 | a sector is the 32 bytes of its number within its line that hold the address |
| `Coalescing.Coalesce` | gan-swift-sim/kernel.cpp:115-131 | the merging loop yields every sector touched, once |
| `TraceChannel.ChannelSafety` | tracer_nvbit/nvbit_release.bak_20260425_115119/core/utils/channel.hpp:60-120 | in every interleaving of any number of warps and the host, for any receive sizes: claims are disjoint and in bounds, one warp flushes, the doorbell announces exactly the bytes written, and the host has whole packets, each as often as its push returned |
| `TraceChannel.FinalFlushDeliversAll` | tracer_nvbit/nvbit_release.bak_20260425_115119/core/utils/channel.hpp:96-120 | when the flush that ends a kernel is about to return every push has returned and the host has every packet |
| `TraceChannel.NoDeadlock` | tracer_nvbit/nvbit_release.bak_20260425_115119/core/utils/channel.hpp:65-118 | while a warp is inside push or flush some warp or the host can take a step that is not a turn of a spin loop |
| `TraceProgress.StepFalls` | tracer_nvbit/nvbit_release.bak_20260425_115119/core/utils/channel.hpp:60-257 | every atomic step other than the start of a push or flush changes nothing, as a turn of a spin loop does, or lowers a well-founded measure: packets without a claim, stage of the filling, steps left in it |
| `TraceProgress.NoEndlessRun` | tracer_nvbit/nvbit_release.bak_20260425_115119/core/utils/channel.hpp:60-257 | no interleaving goes on for ever without the start of a push or flush or a turn of a spin loop in vain |
| `TraceProgress.EveryPushCanReturn` | tracer_nvbit/nvbit_release.bak_20260425_115119/core/utils/channel.hpp:60-120 | from every reachable state all pushes in progress, and a flush, can be brought to their return without a new one, and then exactly their packets have been pushed in addition |
| `TraceProgress.StepKeepsPushes` | tracer_nvbit/nvbit_release.bak_20260425_115119/core/utils/channel.hpp:60-120 | a packet stays with its push until the push returns |
| `TraceChannel.DoorbellAfterAllWrites` | tracer_nvbit/nvbit_release.bak_20260425_115119/core/utils/channel.hpp:96-108 | a flusher about to ring announces every claimed byte, all written, and nobody is writing |
| `TraceChannel.FlusherIsUnique` | tracer_nvbit/nvbit_release.bak_20260425_115119/core/utils/channel.hpp:73-88 | at most one warp is between finding the buffer full and resetting it |
| `TraceChannel.ClaimsDisjoint` | tracer_nvbit/nvbit_release.bak_20260425_115119/core/utils/channel.hpp:66-93 | two writing warps write disjoint ranges inside the buffer |
| `TraceChannel.StepKeepsInv` | tracer_nvbit/nvbit_release.bak_20260425_115119/core/utils/channel.hpp:60-257 | each atomic step of a warp or of recv keeps the protocol invariant |
| `TraceChannel.HostReleases` | tracer_nvbit/nvbit_release.bak_20260425_115119/core/utils/channel.hpp:245-256 | recv lowers the doorbell by what it copied and moves on in the buffer; with the last byte the whole filling counts as handed over; the protocol invariant survives |
| `TraceReceive.CallTakes` | tracer_nvbit/nvbit_release.bak_20260425_115119/core/utils/channel.hpp:226-257 | in every interleaving a call of recv with room for max bytes takes the next bytes of the filling, as many as the doorbell announces but not more than max, and lowers the doorbell by them; with the last of them the whole filling has been handed over |
| `TraceReceive.CallsDrain` | tracer_nvbit/nvbit_release.bak_20260425_115119/core/utils/channel.hpp:226-257 | a filling of b bytes is drained by b / max calls, rounded up, which together take exactly its bytes |
| `TraceReceive.SilentCallTakesNothing` | tracer_nvbit/nvbit_release.bak_20260425_115119/core/utils/channel.hpp:229-232 | with nothing announced recv takes nothing |
| `TraceChannel.BufferIsConcatenation` | tracer_nvbit/nvbit_release.bak_20260425_115119/core/utils/channel.hpp:92-93 | a filled buffer is the concatenation of its packets in claim order |
| `TraceEncoder.EncodingFaithfulIff` | tracer_nvbit/tracer_tool/tracer_tool.cu:1083-1120 | the form chosen, read with the mask, gives exactly the active lanes' addresses if and only if it is not a stride although two neighbouring active lanes differ by more than 32 signed bits |
| `TraceEncoder.StrideCanOverflow` | tracer_nvbit/tracer_tool/tracer_tool.cu:903-939 | two active lanes 2^32 bytes apart are given a stride of zero, and decoding does not return them |
| `TraceEncoder.StridedIff` | tracer_nvbit/tracer_tool/tracer_tool.cu:903-939 | the stride form is open exactly to a warp without active lanes, or with two or more consecutive ones at distances that agree modulo 2^32 |
| `TraceEncoder.FormChosen` | tracer_nvbit/tracer_tool/tracer_tool.cu:1083-1120 | a plain list without compression, else the stride form where it is open, else deltas that give every active address back |
| `TraceEncoder.StrideFaithfulIff` | tracer_nvbit/tracer_tool/tracer_tool.cu:903-939 | the stride form is exact if and only if neighbouring active lanes are within 32 signed bits |
| `TraceEncoder.DeltasRoundTrip` | tracer_nvbit/tracer_tool/tracer_tool.cu:941-956 | deltas rebuild every address, modulo 2^64 |
| `TraceEncoder.AddDiff32Iff` | tracer_nvbit/tracer_tool/tracer_tool.cu:913-926 | the truncated difference leads back exactly when nothing was cut |
| `TraceEncoder.BaseStrideCompress` | tracer_nvbit/tracer_tool/tracer_tool.cu:903-939 | the scan succeeds exactly for no active lane or for two or more in a row with equal truncated differences |
| `TraceEncoder.BaseDeltaCompress` | tracer_nvbit/tracer_tool/tracer_tool.cu:941-956 | the first active address and the successive differences |
| `TraceEncoder.FormatAddresses` | tracer_nvbit/tracer_tool/tracer_tool.cu:1090-1120 | the format is chosen as Encode says |
| `SpinFilter.SpinRunKeepsFirstFew` | tracer_nvbit/tracer_tool/tracer_tool.cu:1213-1235 | of every spin run exactly the first executions of each spin instruction stay, up to the limit, and the rest of the trace is as if the run ended there |
| `SpinFilter.SpinRunKeepsFirstK` | tracer_nvbit/tracer_tool/tracer_tool.cu:1213-1235 | with K the number set, read as 64 bits without sign: of every spin run each instruction keeps its first K executions, or all if there are fewer |
| `SpinFilter.KeptIffFirstK` | tracer_nvbit/tracer_tool/tracer_tool.cu:1223-1229 | an execution in a spin run is kept exactly when it is one of the first K of its instruction in that run |
| `SpinFilter.CountsCutOff` | tracer_nvbit/tracer_tool/tracer_tool.cu:1223-1229 | the counters of the filtered trace are cut off at K |
| `SpinFilter.NonSpinKept` | tracer_nvbit/tracer_tool/tracer_tool.cu:1230-1234 | an instruction outside the spin set always stays |
| `SpinFilter.FilterAllIdempotent` | tracer_nvbit/tracer_tool/tracer_tool.cu:1213-1235 | filtering twice is filtering once |
| `SpinFilter.FilterCommutesWithProjection` | tracer_nvbit/tracer_tool/tracer_tool.cu:1213-1235 | filtering the interleaved trace and then looking at one warp is filtering that warp |
| `SpinFilter.CountFiltered` | tracer_nvbit/tracer_tool/tracer_tool.cu:1223-1229 | the counters of a filtered trace are the original ones, cut off at K |
| `SpinFilter.Receiver.Accept` | tracer_nvbit/tracer_tool/tracer_tool.cu:1213-1234 | the per-warp counters decide each record as Kept says |
| `SpinFilter.Receiver.TakeRecord` | tracer_nvbit/tracer_tool/tracer_tool.cu:1212-1246 | a record of a traced kernel becomes the next line of its warp unless it is filtered out |
| `SpinFilter.Receiver.Receive` | tracer_nvbit/tracer_tool/tracer_tool.cu:1146-1250 | a buffer is taken in up to its end-of-kernel record, and ignored if the kernel is not traced; with that record the kernel's trace is written, every warp with exactly what the filter leaves of everything received, and counting starts afresh |
| `SpinFilter.KernelTraceSnoc` | tracer_nvbit/tracer_tool/tracer_tool.cu:1212-1246 | one more record adds a line to its warp or nothing to any |
| `SpinFilter.TraceIsFiltered` | tracer_nvbit/tracer_tool/tracer_tool.cu:1213-1235 | a warp's lines are its part of the filtered interleaved trace |
| `SpinFilter.Receiver.EndKernel` | tracer_nvbit/tracer_tool/tracer_tool.cu:1152-1204 | the end-of-kernel record writes the kernel unless it was not traced, and clears lines and counters |

## Left out

- Atomic requests (`process_ATOM_ATOMG`): they are writes that want a reply and take neither of the paths modelled for loads and stores.
- L2 stores in the tag-array runs: their idle-line branch is `TagArray.IdleStore`, carried out by `TagStore.StoreOnIdle` inside the L2 access, and is not part of `RunKeepsGood`, whose property it breaks; dirty data is never written back by the code and is not tracked.
- `is_atomic` marks in the miss tables and per-sector times of the tag array: nothing reads them.
- `MemoryReturn` takes the tag arrays' answers as free choices; that each access of the caches is such a step with the answer of their own tag array is `MissTables`. It takes each network as a bag of packets and the DRAM path as a bag of requests. That the components are such bags is `Crossbar.RouterIsABag` and `MemoryPartition.ExactLatency`; the whole is not composed cycle by cycle.
- Input buffer limits of the crossbar (`HasBuffer`): L1 asks for room before it pushes, L2 does not; pushes are modelled without the limit.
- A DRAM configuration with fewer banks than bank numbers: requests carry a bank below `nbk`, as the code indexes its bank slots without a check; bank numbers are below 16.
- In `MemoryReturn` an L1 or L2 hit may leave at any time: the ready times are kept in `MissTables`, and the order in which hits leave does not matter for what is proved about runs. The three `l2_to_sms` queues are one, because loads enter the first only and no store that would enter another needs a reply.
- The queues between L2 slices and DRAM hold sequences inside arrays instead of linked lists; `DelayQueue` shows separately that the list behaves as the sequence. Their bound of 999999 entries is assumed not to be reached by misses, whose pushes the code does not guard.
- Overflow of cycle counters: times and latencies are integers without bound, where the code's `cycles` is an `int`; `PendingRequests` ends a run before the cycle counter reaches INT_MAX, which marks a busy unit.
- `FRFCFS` scheduling, row and column commands and DRAM timing counters: commented out or never called.
- TraceChannel.ChannelSafety: assumes sequential consistency, packets of 1 byte up to the size of the buffer, a head counter that does not wrap while late warps add to it, and that the flush which ends a kernel starts when no push is in progress, as its single-thread launch on the same stream provides.
- Other users of the channel (`MultiChannelHost`, asynchronous copies): the same receive loop.
- Signed trace addresses: `Coalescing` takes addresses below 2^63, the range where the arithmetic shift of the code is a plain one; `log2` of the line size is its exact exponent.
- AddressDecode.PackBits: or-ing a bit into place is written as addition, which is the same because the places never overlap; the row and column fields, extracted by the same loop, are not used by the simulator.
- Shared units: a unit count below the number of subcores makes the subcores share one unit object; `PendingRequests` numbers distinct units.
- A `mem_inst` found twice by `get_mem_inst`: the held instruction carries its completion index itself, as each pair of pc and pc index is issued once.
- Occupancy limits (`max_block_per_sm`): floating-point rounding of configuration values; the limit is a parameter, including the error exit for zero residency.
- Trace readers, configuration files, output files, statistics, stall categories, the host thread pool and post-trace grouping: input and output.
- A reader of the compressed trace is not part of the repository: `TraceEncoder.Decode` is the reading that the formats suggest, base first, then one stride or delta per further active lane.
- `SpinFilter`: the spin instructions, the limit and the switches are those of one traced kernel; a line is its instruction index, and the order in which blocks and warps are printed is left to the file.
- `LoadCompletion`: one kernel at a time, so a warp has one program; issue is one instruction wide, as `SafeWidthIff` shows that wider groups are unsafe for other reasons.
- Requests to local memory: every request is made with `m_space` GLOBAL.
- Counters of hits and misses, the address-to-SM table and the TLB flag of the caches: statistics, read by no decision for loads and stores.
- `RequestTiming`: banks of requests are a parameter; the number of sectors of an instruction is not bounded by 32, and the runs given use instructions of one or two; a run ends before the cycle counter reaches INT_MAX.
