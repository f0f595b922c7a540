# A verified model of the distributed OS simulator

This project models the stateful cores of the simulator and proves what they keep over whole runs.
`dafny verify dfyconfig.toml` checks everything.

## What is modelled

**Kernel Memory.** Holes and segments share one address space. `MemoryTables` has the allocator, the
merging of holes and compaction as functions on the tables, `MainMemoryObject` the object whose lists
are updated in place; `AllocatorLaws` and `HoleTables` prove the laws. `Sticks` treats the memory sticks
as one flat array and proves that split transfers are transfers on that array; `CpuMemory` is the CPU's
view of the same memory, with the instruction that copies memory. `SwapTables` and `KernelMemoryObject`
model suspension and resumption, `SuspendLaws` and `ResumeLaws` prove them, and `KernelMemoryRuns`,
`BlockOrder` and `OrdinalLaws` state what holds over whole runs. `KernelMemoryExamples` and `SwapExamples`
have runs from the boot that end badly, one for each condition that the laws turn on.

**Kernel Scheduler.** `MutexTables` has the priority-inheriting mutexes as functions on the state of all
processes and mutexes, `Mutexes` the objects linked by references. `MutexLaws`, `MutexCalls` and
`LockUnlock` prove that every call keeps the bookkeeping, `Inheritance` that the bookkeeping implies the
global fixpoint over every history, `NamedMutexes` says who holds and who waits after each call, and
`HandOffs` in which order mutexes are handed on. `ProcessQueues` has the five process lists and their
transitions, `CpuThreads` the phases of a CPU thread, `QueueLaws` and `SchedulerRuns` the invariants over
all interleavings, `SchedulerObjects` the objects. `Transitions` and `SystemCalls` say whom each
transition, request and phase moves, and where to. `ReadyQueues` and `ReadyQueueObjects` are READY with
several levels, EXEC with its worst priority, and preemption by priority, `ReadyMoves` says who is where
afterwards, and `SingleLevel` is the same preemption over a READY with one list. `MutexExamples` and `SchedulerExamples` have runs from the start.

**Wire and containers.** `AllocProtocol` is the MEM_ALLOC exchange as two parties and two channels,
`KmConnectionObject` the scheduler's half as code. `Wire` and `Connections` are the packets.
`LinkedLists` is the pointer list with its removing iterator, `Dictionaries` the chained hash table.

Each object's methods are tied, in their postconditions, to the function of the same meaning; the laws
are proved about the functions.

## What the callers owe

- Sticks, segments and blocks are not empty and totals fit a C `int`; integers are unbounded here
  except where bytes, the MMU's 32-bit sum and the hash need their width. For a zero-byte request
  `CreateKeepsValidIff` and `CreateCrashesIff` say exactly what goes wrong.
- The pid 2^32 - 1 is what marks a free swap block in the C code; the model has a constructor for a
  free block, so that no pid collides with it.
- A suspension starts when the process owns no swap block. Failed suspensions leave blocks behind;
  `OrderKeptIffNothingLeftOver` and `RetriedSuspensionInOrderIff` say exactly when that matters for the
  order of the blocks, `RetriedRoundTripIff` when it matters for what comes back.
- The segments of a process have different ids, and for blocks in the order of segments, not only of
  parts, ids that grow along the segment list. create_segment accepts any ids; `OrderThroughoutIff` says
  that the order of the blocks depends on exactly this.
- Swap and address translation find a segment by its ordinal where the CPU and the block table use the
  id. The round-trip theorems are about processes whose ids are their ordinals. `LookupsAgreeIff` says
  that CPU and Kernel Memory agree for exactly these, `CopyHitsRebuiltSegmentIff` which segment a block
  is copied into. `ComesBackIffAtMost` says that exactly those processes come back at all whose ids are
  at most the positions in the list; with different ids that means 0, 1, 2, ... (`ComesBackIffOrdinals`),
  and with equal ones bytes are lost (`SameIdOverwrites`).
- Priorities are not negative where they index a level of READY: the C code checks only the upper bound.
- Preemption by priority is meant for a READY with several levels. It is configured apart from them
  (kernel_scheduler/src/kernel_scheduler/app/kernel_scheduler.c:133-135), and `PreemptionsEndIff` says
  exactly when it still ends with a single list.
- A program copies no more bytes with COPY_MEM than its segments hold behind the two addresses: only a
  word is checked. `CopyMemConfinedIff` says exactly what happens otherwise.
- No lock closes a cycle of waiting processes, no process ends while it holds a mutex, and priorities
  are inherited (`priority_active` is true, as its only production caller sets it). `LockKeepsIff` and
  `ExitKeepsIff` say that the first two are exactly what the bookkeeping needs, and
  `OwnerLocksAgainOrEnds` is a history after which either breaks it.

## Where the code and its documentation disagree

The model follows the code.

- kernel_memory/README.md:41 says that compaction packs the segments to the start of memory. The code
  rewrites bases and moves no byte: `CompactionKeepsBytesIff` says which segments still read their bytes,
  and `CompactionLosesBytes` is a run in which one does not. It packs in list order
  (`PackedBase` gives every new base), so that a base can also grow: `BaseGrows` is such a run.
- kernel_scheduler/README.md:66-67 says that waiters get a mutex in the order in which they asked. The
  code hands it to the best priority, and to the newest among equals. `HandedOnInOrderIff` says exactly
  when the documented order holds, and `ArrivalOrderIsNotKept` is a history in which it does not.
- kernel_scheduler/README.md:62 says that preempted processes go to the front of READY. The code appends
  them: `PreemptedFirstIff` says exactly when they are first all the same, and `PreemptedGoesBehind` is a
  run in which one is not.
- kernel_scheduler/README.md:35-36 says that suspended processes are resumed in priority order, ties
  broken by the longest time suspended. Among equals the code inserts the newest first
  (kernel_scheduler/src/kernel_scheduler/scheduler/blocking_list.c:54-63, domain/pcb.c:13-16), by when it
  entered SUSP. READY. `ResumedLongestFirstIff` says exactly when the documented order holds, and
  `LaterSuspendedIsFirst` is a run in which it does not.

## Model

| member | source | states |
|---|---|---|
| AllocatorLaws.SpaceIsConserved | kernel_memory/src/kernel_memory/holes.c:21-34 | the free bytes the scheduler is told and the bytes of all segments are together all the bytes there are |
| AllocatorLaws.SegmentsDisjoint | kernel_memory/src/kernel_memory/segments.c:75-139 | in a tiled memory two different segments share no address |
| AllocatorLaws.ChooseHoleSpec | kernel_memory/src/kernel_memory/holes.c:138-168 | BEST takes the smallest hole that fits, WORST the largest, the earliest in the table among equals; none is chosen exactly when none fits |
| AllocatorLaws.PlacementKeepsValid | kernel_memory/src/kernel_memory/holes.c:71-94 | carving the chosen hole and appending the segment keeps holes and segments tiling memory, with no two holes touching |
| AllocatorLaws.CompactionGathers | kernel_memory/src/kernel_memory/compaction.c:13-59 | compaction keeps who owns what and how much, in list order, and leaves one trailing hole as large as all the old holes together |
| AllocatorLaws.PackedBase | kernel_memory/src/kernel_memory/compaction.c:24-43 | after a compaction a segment lies right behind everything listed before it, wherever it lay before |
| KernelMemoryExamples.BaseGrows | kernel_memory/src/kernel_memory/compaction.c:24-43 | from the boot: a run after which a compaction moves a segment to a higher address |
| AllocatorLaws.EnoughSpaceSuffices | kernel_memory/src/kernel_memory/holes.c:96-136 | a positive request covered by the free space is always granted, with exactly one new segment in bounds, after a compaction exactly when no single hole fits; the second selection never fails and the remaining hole is known |
| AllocatorLaws.PlacedByStrategy | kernel_memory/src/kernel_memory/holes.c:71-168 | a request that some hole can take is served without compaction at the start of the hole that the configured strategy asks for (BEST: no smaller one fits, WORST: none is larger, the first of its size), which is shortened in its place; nothing else changes |
| AllocatorLaws.PlacedBehindAll | kernel_memory/src/kernel_memory/holes.c:96-136 | a request that no hole can take, but all together can, ends with every segment, the new one last, right behind those listed before it, and one hole with the rest |
| AllocatorLaws.HandlerRefusesIff | kernel_memory/src/kernel_memory/scheduler_listener.c:57-82 | a request is refused exactly when it exceeds the largest segment or the free space, with the answer that says which, and the tables then stay as they are |
| AllocatorLaws.CreateKeepsValidIff | kernel_memory/src/kernel_memory/holes.c:96-136 | a create request leaves valid tables if and only if it is refused for lack of space or asks for at least one byte under a known strategy |
| AllocatorLaws.CreateCrashesIff | kernel_memory/src/kernel_memory/compaction.c:45-49 | the last segment of an empty list is read if and only if the request is covered, no segment exists, and there is no memory yet or the strategy is unknown |
| AllocatorLaws.RemoveSegmentKeepsValid | kernel_memory/src/kernel_memory/segments.c:75-139 | freeing a segment, merging with both neighbours, keeps the tiling and leaves no two holes touching |
| AllocatorLaws.CoalesceCover | kernel_memory/src/kernel_memory/segments.c:54-139 | the merged table covers exactly the old holes and the freed extent, whichever neighbours there are |
| AllocatorLaws.MergedHoleIsLast | kernel_memory/src/kernel_memory/segments.c:54-139 | the holes that do not touch the freed extent keep their order, and one hole behind them is the extent with whatever touches it on either side |
| AllocatorLaws.StickExtendsLast | kernel_memory/src/kernel_memory/holes.c:36-69 | the hole that ends at the end of memory grows in its place; without one, a new hole is listed last |
| AllocatorLaws.AddTotalMemoryKeepsValid | kernel_memory/src/kernel_memory/holes.c:36-69 | a new stick keeps the tiling and the segments, and adds its size to memory and to the free space |
| HoleTables.HoleTablesAreCanonical | kernel_memory/src/kernel_memory/segments.c:54-139 | two merged hole tables with the same free addresses hold the same holes, each listed once |
| HoleTables.FreeUndoesAllocIff | kernel_memory/src/kernel_memory/holes.c:96-136 | freeing the id right after an allocation that needed no compaction restores the segments and the holes if and only if the process had no segment with that id |
| HoleTables.FreesFirst | kernel_memory/src/kernel_memory/segments.c:75-139 | a free request takes out the first segment with this id of this process and gives back exactly its addresses; without one nothing changes |
| HoleTables.FreeOrderIsIrrelevant | kernel_memory/src/kernel_memory/scheduler_listener.c:200-206 | freeing the same segments in any two orders ends in the same segment list and the same set of holes |
| HoleTables.EndProcessLeavesOthers | kernel_memory/src/kernel_memory/scheduler_listener.c:186-217 | ending a process removes exactly its segments, leaves the others untouched and in order, and keeps the tables valid |
| MainMemoryObject.MainMemory.ComputeFreeSpace | kernel_memory/src/kernel_memory/holes.c:21-34 | returns the sum of the holes' sizes |
| MainMemoryObject.MainMemory.AddTotalMemory | kernel_memory/src/kernel_memory/holes.c:36-69 | new tables as AddTotalMemory of the old ones |
| MainMemoryObject.MainMemory.HoleSelectionAlgorithm | kernel_memory/src/kernel_memory/holes.c:138-168 | returns the hole that ChooseHole chooses, whose meaning is ChooseHoleSpec |
| MainMemoryObject.MainMemory.UpdateHoleTable | kernel_memory/src/kernel_memory/holes.c:170-190 | carves the chosen hole's front off, dropping the hole when nothing is left of it |
| MainMemoryObject.MainMemory.SelectHole | kernel_memory/src/kernel_memory/holes.c:71-83 | returns the selected hole and carves it; an unknown strategy selects nothing and changes nothing |
| MainMemoryObject.MainMemory.UpdateSegmentList | kernel_memory/src/kernel_memory/holes.c:85-94 | appends the segment, based where the hole was |
| MainMemoryObject.MainMemory.CreateSegment | kernel_memory/src/kernel_memory/holes.c:96-136 | new tables, replies in order and outcome as the create function's, compaction included |
| MainMemoryObject.MainMemory.CompactSegments | kernel_memory/src/kernel_memory/compaction.c:24-43 | re-bases the segments one after another in list order |
| MainMemoryObject.MainMemory.CompactMemory | kernel_memory/src/kernel_memory/compaction.c:13-22 | re-bases the segments and replaces all holes by one trailing hole |
| MainMemoryObject.MainMemory.FindAndRemoveSegment | kernel_memory/src/kernel_memory/segments.c:14-46 | takes out the first segment with this id and pid, if any |
| MainMemoryObject.MainMemory.FindAdjacentHoleIndices | kernel_memory/src/kernel_memory/segments.c:54-73 | one scan finds the hole that ends at the segment and the one that starts at its end |
| MainMemoryObject.MainMemory.AbsorbNeighbours | kernel_memory/src/kernel_memory/segments.c:93-139 | takes the neighbours out, higher index first, and returns the joined extent |
| MainMemoryObject.MainMemory.RemoveSegment | kernel_memory/src/kernel_memory/segments.c:75-139 | new tables as RemoveSegment of the old ones |
| MainMemoryObject.MainMemory.FilterProcessSegments | kernel_memory/src/kernel_memory/segments.c:177-194 | returns the process's segments in list order |
| MainMemoryObject.MainMemory.FindSegment | kernel_memory/src/kernel_memory/segments.c:207-232 | returns the process's segment with this ordinal, if any |
| MainMemoryObject.MainMemory.ComputeProcessSize | kernel_memory/src/kernel_memory/segments.c:234-250 | returns the sum of the sizes of the process's segments |
| MainMemoryObject.MainMemory.HandleCreateSegment | kernel_memory/src/kernel_memory/scheduler_listener.c:57-82 | refuses an oversized request before the allocator sees it, otherwise creates the segment |
| MainMemoryObject.MainMemory.EndProcess | kernel_memory/src/kernel_memory/scheduler_listener.c:186-217 | removes the segments of a known process one by one; an unknown one changes nothing |
| Sticks.StickIsUnique | kernel_memory/src/kernel_memory/address_translation.c:37-63 | an address lies in at most one stick at one offset, so any two searches that find it agree |
| Sticks.StoreInStick | kernel_memory/src/kernel_memory/address_translation.c:153-225 | storing into one stick is storing into the flat memory at the stick's base |
| Sticks.WriteStep | kernel_memory/src/kernel_memory/address_translation.c:176-219 | one chunk of a split write extends the stored prefix by exactly that chunk |
| Sticks.PatchReadBack | kernel_memory/src/kernel_memory/address_translation.c:153-225 | a store changes exactly the bytes it covers and they read back as written |
| Sticks.StickBank.FindStick | kernel_memory/src/kernel_memory/address_translation.c:37-63 | finds the stick and offset of an address, and nothing exactly when no stick holds it |
| Sticks.StickBank.ReadFromSticks | kernel_memory/src/kernel_memory/address_translation.c:82-151 | returns the exact slice of the flat memory when the range exists, nothing otherwise |
| Sticks.StickBank.WriteToSticks | kernel_memory/src/kernel_memory/address_translation.c:153-225 | stores the exact slice; a write that starts in range but is too long stores the prefix that fits and reports failure; one that starts outside stores nothing |
| CpuMemory.LookupsAgreeIff | cpu/src/cpu/memory.c:42-54 | the CPU's lookup by id and Kernel Memory's by ordinal agree on every segment number if and only if the process's ids are 0, 1, 2, ... in list order |
| CpuMemory.TranslationIs | kernel_memory/src/kernel_memory/address_translation.c:17-35 | Kernel Memory answers with the base of the segment of this ordinal plus the offset, or with -1 if and only if the process has none |
| CpuMemory.MmuVerdictIff | cpu/src/cpu/memory.c:16-40 | no segment if and only if none has the address's number; otherwise the first of that number decides: an access that fits behind the offset there gets base plus offset, any other one a fault |
| CpuMemory.MmuConfinesIff | cpu/src/cpu/memory.c:16-40 | whatever the process's ids are, an access of the size given to the MMU stays inside the segment it addresses if and only if offset plus size does not wrap around, which a word never does when the segment limit fits a C int; where ids are ordinals, Kernel Memory computes the same address |
| CpuMemory.CopyVerdictIff | cpu/src/cpu/handlers.c:113-150 | an unmapped source breaks the instruction and one whose word does not fit faults; then an unmapped destination breaks it and one whose word does not fit is passed over; then it proceeds if and only if both byte ranges exist |
| CpuMemory.CopyEffect | cpu/src/cpu/handlers.c:113-150 | if both words fit and the source range exists, the bytes at the destination become those of the source as far as memory reaches; otherwise memory stays as it is |
| CpuMemory.CopyMemConfinedIff | cpu/src/cpu/handlers.c:113-150 | whatever the ids are, a COPY_MEM whose two word checks pass reads only its source segment if and only if the byte count fits behind the address there; and, whatever memory holds, it changes nothing outside its destination segment if and only if the count fits behind the address there, the two addresses are the same, the read runs past the end of memory, or memory ends with the segment |
| KernelMemoryExamples.CopyReachesOthers | cpu/src/cpu/handlers.c:113-150 | from the boot: eight bytes copied between two segments of four overwrite another process's segment |
| CpuMemory.CpuView.CopyMemory | cpu/src/cpu/handlers.c:113-150 | memory and verdict as the copy function's; a fault at the destination does not fail the instruction |
| CpuMemory.CpuView.FindStick | cpu/src/cpu/memory.c:68-78 | the CPU finds the stick and offset that Kernel Memory finds |
| CpuMemory.CpuView.ReadMemory | cpu/src/cpu/memory.c:80-123 | the CPU's split read returns the exact flat slice, or nothing when a byte is missing |
| CpuMemory.CpuView.WriteMemory | cpu/src/cpu/memory.c:162-197 | the CPU's split write stores what one store into the flat memory stores, and fails exactly when the range runs past the end |
| SuspendLaws.FindFreeBlockSpec | kernel_memory/src/kernel_memory/swap.c:257-267 | the lowest free block, or none exactly when every block is claimed |
| SuspendLaws.SegmentStored | kernel_memory/src/kernel_memory/swap.c:108-140 | a suspended segment is stored whole, part by part, behind everything the process had in swap |
| SuspendLaws.SuspendMovesImage | kernel_memory/src/kernel_memory/swap.c:43-103 | a resident process without blocks is suspended if and only if it has a segment and enough blocks are free; then its whole image is in swap in order and none in memory; a failed one leaves memory alone but keeps the blocks it claimed |
| ResumeLaws.ResumeLoop | kernel_memory/src/kernel_memory/swap.c:167-182 | the resume loop brings back the whole image, or stops at a segment without a hole, leaving a prefix of the image in memory and exactly the rest in swap; nobody else notices |
| ResumeLaws.ResumeRestoresImage | kernel_memory/src/kernel_memory/swap.c:142-200 | from any such split the reply is OK exactly when something was left to bring back and all of it is back |
| ResumeLaws.SizeCheckIsExact | kernel_memory/src/kernel_memory/swap.c:336-363 | the check before a resumption weighs exactly the missing bytes |
| ResumeLaws.ResumeCompletesInOneHole | kernel_memory/src/kernel_memory/swap.c:142-254 | when the free space is one hole, as after every compaction, a resumption succeeds if and only if the missing bytes fit |
| ResumeLaws.RebuiltByStrategy | kernel_memory/src/kernel_memory/swap.c:365-401 | a segment is rebuilt at the start of the hole that the configured strategy asks for, whenever some hole can take it; otherwise nothing changes, and memory is never made compact |
| ResumeLaws.CopyHitsRebuiltSegmentIff | kernel_memory/src/kernel_memory/swap.c:443-449 | a block is copied into the segment just rebuilt if and only if the segment's id is its ordinal; with a greater id Kernel Memory follows a null segment, with a smaller one it overwrites another segment |
| OrdinalLaws.ResumedOnlyIfAtMost | kernel_memory/src/kernel_memory/swap.c:142-254 | a process suspended and resumed after any requests of others comes back only if every id was at most its position in the segment list |
| OrdinalLaws.ComesBackIffAtMost | kernel_memory/src/kernel_memory/swap.c:142-254 | into one hole with room for it, it comes back if and only if they were; otherwise Kernel Memory follows a null segment |
| OrdinalLaws.ResumedOnlyIfOrdinals | kernel_memory/src/kernel_memory/swap.c:142-254 | with different ids, it comes back only if they were 0, 1, 2, ... in list order |
| OrdinalLaws.ComesBackIffOrdinals | kernel_memory/src/kernel_memory/swap.c:142-254 | with different ids, into one hole with room for it, it comes back if and only if they were 0, 1, 2, ... in list order |
| OrdinalLaws.RetriedRoundTripIff | kernel_memory/src/kernel_memory/swap.c:125-254 | a failed suspension, any requests of others, a suspension that succeeds, any requests of others: a resumption that succeeds leaves as many segments as before if and only if no block was free at the failed suspension |
| SwapExamples.FreedSegmentMisplacesTheRest | kernel_memory/src/kernel_memory/segments.c:207-232 | from the boot: after segment 0 is freed, CPU and Kernel Memory find different segments under the same number, and the resumption after the next suspension follows a null segment |
| SwapExamples.SameIdOverwrites | kernel_memory/src/kernel_memory/swap.c:443-449 | from the boot: two segments with one id come back with the second one's byte in the first |
| KernelMemoryRuns.BootIsRunning | kernel_memory/src/kernel_memory/initializer.c:195-208 | Kernel Memory starts in a state from which all run theorems hold |
| KernelMemoryRuns.StepKeepsSettings | kernel_memory/src/kernel_memory/scheduler_listener.c:296-357 | no request changes the strategy, the largest segment, the block size or the number of blocks, and only sticks make memory grow, by their bytes |
| KernelMemoryRuns.StepKeepsRunning | kernel_memory/src/kernel_memory/scheduler_listener.c:296-357 | every request keeps the tables tiling memory and the swap table sane |
| KernelMemoryRuns.EveryRunTiles | kernel_memory/src/kernel_memory/scheduler_listener.c:296-357 | over every run of sticks, allocations, frees, ends, suspensions and resumptions, holes and segments tile memory, no two holes touch, and no byte of space is lost |
| KernelMemoryRuns.StepKeepsValidIff | kernel_memory/src/kernel_memory/holes.c:36-136 | any request under any strategy is served and leaves valid tables if and only if an accepted allocation asks for at least one byte under a known strategy and an empty stick finds a hole to extend |
| KernelMemoryRuns.RunStaysValidIff | kernel_memory/src/kernel_memory/scheduler_listener.c:296-357 | the tables stay valid throughout any run if and only if every request meets that condition in the state it finds |
| KernelMemoryRuns.OthersLeaveTable | kernel_memory/src/kernel_memory/scheduler_listener.c:296-357 | a request on behalf of one process leaves every other process's segment ids, sizes and swap blocks as they were |
| KernelMemoryRuns.SuspendedSurvivesRun | kernel_memory/src/kernel_memory/swap.c:43-103 | a suspended image survives any run of other processes' requests |
| KernelMemoryRuns.SuspendResumeRoundTrip | kernel_memory/src/kernel_memory/swap.c:43-254 | suspend, then any requests by others, compaction included, then a successful resume: same ids, sizes, order and bytes, and the resumption changes nothing of anybody else |
| KernelMemoryRuns.ResumptionIsRestartable | kernel_memory/src/kernel_memory/swap.c:142-254 | a resumption that stopped for fragmentation can be repeated later and then completes exactly the missing part |
| KernelMemoryRuns.RestartSurvivesCompaction | kernel_memory/src/kernel_memory/swap.c:142-254 | even when others make memory compact between the attempts, ids, sizes, the split between memory and swap, and every byte still in swap survive, and the part in memory never shrinks |
| KernelMemoryRuns.CompactionKeepsBytesIff | kernel_memory/src/kernel_memory/compaction.c:13-22 | a compaction keeps a segment's bytes, whatever memory holds, if and only if the segment already lay right behind all that are listed before it |
| KernelMemoryExamples.CompactionLosesBytes | kernel_memory/src/kernel_memory/compaction.c:13-43 | from the boot: a run after which a compaction makes a process read another byte |
| BlockOrder.EveryRunKeepsPartOrder | kernel_memory/src/kernel_memory/swap.c:173-174 | over every run in which a suspension starts with no block of its own and with different segment ids, the blocks of each segment in ascending number are in part order: the assumption of the code comment |
| BlockOrder.EveryRunKeepsBlockOrder | kernel_memory/src/kernel_memory/swap.c:173-174 | over every run in which a suspension starts with no block of its own and with ids that grow along the segment list, all blocks of each process are in (segment, part) order |
| BlockOrder.OrderThroughoutIff | kernel_memory/src/kernel_memory/swap.c:173-174 | over every run whose suspensions find no block of their own and succeed, the blocks of each segment stay in part order if and only if every suspension finds different ids; all blocks in (segment, part) order, if and only if it finds growing ids |
| BlockOrder.OrderKeptIffNothingLeftOver | kernel_memory/src/kernel_memory/swap.c:125-135 | after a suspension that succeeds, where nothing was left over by failed ones or something left over holds a part the process still has, the one order or the other holds if and only if nothing was left over and the ids are different, or growing |
| BlockOrder.RetriedSuspensionInOrderIff | kernel_memory/src/kernel_memory/swap.c:125-135 | a failed suspension, any requests of others, a suspension that succeeds: the blocks are in part order if and only if no block was free at the failed one and the ids are different; in (segment, part) order, if and only if no block was free and the ids grow |
| SwapExamples.LeftoverBlocksBreakOrder | kernel_memory/src/kernel_memory/swap.c:125-135 | from the boot: a failed suspension, another process's resumption and a suspension that succeeds end with the first part stored twice |
| KernelMemoryObject.KernelMemory.constructor | kernel_memory/src/kernel_memory/initializer.c:195-208 | every block of the swap table starts free, memory starts empty |
| KernelMemoryObject.KernelMemory.AddStick | kernel_memory/src/kernel_memory/server.c:98-125 | the memory grows by the stick's bytes |
| KernelMemoryObject.KernelMemory.FindFreeBlock | kernel_memory/src/kernel_memory/swap.c:257-267 | the lowest free block or -1 |
| KernelMemoryObject.KernelMemory.SuspendSegment | kernel_memory/src/kernel_memory/swap.c:108-140 | new state and success as the suspension function's |
| KernelMemoryObject.KernelMemory.CopyProcessToSwap | kernel_memory/src/kernel_memory/swap.c:43-87 | walks the segment list, moves the process's segments to swap and collects them |
| KernelMemoryObject.KernelMemory.SuspendProcess | kernel_memory/src/kernel_memory/swap.c:43-103 | new state and reply as the suspension function's, whose meaning is SuspendMovesImage; no reply for an unknown process, a refusal without a swap module |
| KernelMemoryObject.KernelMemory.RemoveProcessSegments | kernel_memory/src/kernel_memory/swap.c:321-333 | frees the collected segments one by one |
| KernelMemoryObject.KernelMemory.CanResume | kernel_memory/src/kernel_memory/swap.c:336-363 | compares the free space with the sum of first-part sizes in swap |
| KernelMemoryObject.KernelMemory.RegenerateSegment | kernel_memory/src/kernel_memory/swap.c:365-401 | places the segment in a selected hole or reports that none fits |
| KernelMemoryObject.KernelMemory.ResumeBlock | kernel_memory/src/kernel_memory/swap.c:205-254 | new state and outcome as the block function's |
| KernelMemoryObject.KernelMemory.ResumeProcess | kernel_memory/src/kernel_memory/swap.c:142-200 | new state and reply as the resumption function's, whose meaning is ResumeRestoresImage; a refusal without a swap module |
| PriorityLists.AddPriorityLaws | kernel_scheduler/src/kernel_scheduler/syscalls/mutex.c:142-154 | inserting a priority keeps the list sorted, adds exactly that entry, and the head is the least |
| PriorityLists.WaiterIndexSpec | kernel_scheduler/src/kernel_scheduler/domain/pcb.c:13-71 | a process goes in front of the first one that is not better: behind the strictly better ones, the newest first among equals |
| PriorityLists.InsertedLastIff | kernel_scheduler/src/kernel_scheduler/domain/pcb.c:13-71 | a newcomer goes last if and only if everybody there is strictly better |
| PriorityLists.ArrivalOrderIff | kernel_scheduler/src/kernel_scheduler/domain/pcb.c:13-71 | processes that arrive one after another keep that order if and only if each is strictly worse than all before it |
| PriorityLists.TiesBrokenByTimeIff | kernel_scheduler/src/kernel_scheduler/domain/pcb.c:13-71 | a list entered by one process after another is in order of priority and, among equals, of the time suspended if and only if of any two equals the one that entered later was suspended no later |
| PriorityLists.AddWaiterLaws | kernel_scheduler/src/kernel_scheduler/domain/pcb.c:13-71 | the insertion adds exactly this process and keeps the list sorted and free of duplicates |
| PriorityLists.AddedPriority | utils/src/utils/collections/list.c:38-53 | the scan inserts a priority where AddPriority says |
| PriorityLists.WithoutFirst | kernel_scheduler/src/kernel_scheduler/syscalls/mutex.c:121-135 | the scan takes out the first occurrence and reports whether there was one |
| PriorityLists.AddedWaiter | kernel_scheduler/src/kernel_scheduler/domain/pcb.c:68-71 | the scan inserts a process where AddWaiter says |
| MutexCalls.AddEdgeAcyclic | kernel_scheduler/src/kernel_scheduler/syscalls/mutex.c:252-286 | letting a running process wait for somebody who does not wait for it closes no cycle |
| MutexCalls.HandOverAcyclic | kernel_scheduler/src/kernel_scheduler/syscalls/mutex.c:305-327 | handing a mutex to its first waiter closes no cycle |
| MutexCalls.ReplaceCommutes | kernel_scheduler/src/kernel_scheduler/syscalls/mutex.c:268-276 | the inheritance run before the waiting is recorded, as the code does, gives the state of the inheritance run after it |
| MutexLaws.ReplaceKeeps | kernel_scheduler/src/kernel_scheduler/syscalls/mutex.c:156-179 | one stale entry in one list is repaired together with everything it implies along the wait-for chain, and the recursion ends |
| MutexLaws.PropagateKeeps | kernel_scheduler/src/kernel_scheduler/syscalls/mutex.c:198-233 | re-inserting a waiter whose priority improved, and lending its priority when it comes first, restores the bookkeeping |
| LockUnlock.LockKeeps | kernel_scheduler/src/kernel_scheduler/syscalls/mutex.c:252-286 | a lock that closes no cycle keeps the bookkeeping; it takes the mutex exactly when it was free |
| HandOffs.LockKeepsIff | kernel_scheduler/src/kernel_scheduler/syscalls/mutex.c:252-286 | a lock by a running process keeps the bookkeeping if and only if the mutex is free or its owner does not wait for the process, directly or indirectly |
| NamedMutexes.LockByName | kernel_scheduler/src/kernel_scheduler/syscalls/mutex.c:68-74 | an unknown name changes nothing; a free mutex becomes the caller's; at an owned one the caller waits; no other mutex changes hands and nobody else starts or stops waiting |
| NamedMutexes.UnlockByName | kernel_scheduler/src/kernel_scheduler/syscalls/mutex.c:76-82 | an unknown name or somebody else's mutex changes nothing; a mutex nobody waits for becomes free; any other goes to its first waiter, who waits no more; no other mutex changes hands and nobody else starts or stops waiting |
| NamedMutexes.CreationByName | kernel_scheduler/src/kernel_scheduler/syscalls/mutex.c:53-66 | a known name changes nothing; a new one gets a free mutex of its own that nobody waits for, and no other mutex or process changes |
| NamedMutexes.PlainMutexIsFifo | kernel_scheduler/src/kernel_scheduler/syscalls/mutex.c:252-331 | without inheritance the caller waits behind all others, the longest waiting one is next, and no priority changes |
| NamedMutexes.UnlockUndoesLock | kernel_scheduler/src/kernel_scheduler/syscalls/mutex.c:252-331 | locking a free mutex and unlocking it again leaves everything as it was |
| NamedMutexes.EveryRunNamesDiffer | kernel_scheduler/src/kernel_scheduler/syscalls/mutex.c:53-66 | after every legal history different names denote different mutexes |
| HandOffs.ReplaceStaysOnChain | kernel_scheduler/src/kernel_scheduler/syscalls/mutex.c:156-233 | the inheritance touches only the processes on the wait-for chain it starts from and the mutexes they wait for |
| HandOffs.HandedOnInOrderIff | kernel_scheduler/src/kernel_scheduler/syscalls/mutex.c:252-331 | a mutex nobody waited for is handed on in the order in which processes asked for it if and only if each of them is strictly worse than all who asked before |
| MutexExamples.LaterEqualIsServedFirst | kernel_scheduler/src/kernel_scheduler/syscalls/mutex.c:252-331 | of two processes of one priority the one that asked later gets the mutex first, in every system |
| MutexExamples.ArrivalOrderIsNotKept | kernel_scheduler/src/kernel_scheduler/syscalls/mutex.c:252-331 | from the start: a history of calls in which that happens |
| Inheritance.ExitKeepsIff | kernel_scheduler/src/kernel_scheduler/scheduler/queues.c:325-341 | the end of a running process keeps the bookkeeping if and only if it owns no mutex |
| MutexExamples.OwnerLocksAgainOrEnds | kernel_scheduler/src/kernel_scheduler/syscalls/mutex.c:252-286 | from the start: a process that owns a mutex; a second lock of it by its owner, and the end of its owner, both break the bookkeeping |
| LockUnlock.UnlockKeeps | kernel_scheduler/src/kernel_scheduler/syscalls/mutex.c:288-331 | an unlock by the owner keeps the bookkeeping and frees the mutex or hands it to the best waiter; one by anybody else changes nothing |
| Inheritance.EffectivePriority | kernel_scheduler/src/kernel_scheduler/syscalls/mutex.c:142-331 | the local bookkeeping implies the global fixpoint: a process runs at the minimum of the base priorities of itself and all whose wait-for chain reaches it |
| Inheritance.EveryRunInherits | kernel_scheduler/src/kernel_scheduler/syscalls/mutex.c:142-331 | that fixpoint after every legal history of creations, spawns, locks, unlocks and exits |
| Inheritance.EveryRunKeepsBooks | kernel_scheduler/src/kernel_scheduler/syscalls/mutex.c:142-331 | after every legal history each priority list is exactly the base and what held mutexes lend, the state counts the waiters, and each mutex lends its best waiter's priority |
| Inheritance.BlockedOnlyImproves | kernel_scheduler/src/kernel_scheduler/syscalls/mutex.c:198-233 | while a process stays blocked its priority only improves, whatever the others do |
| Mutexes.InsertPriority | kernel_scheduler/src/kernel_scheduler/syscalls/mutex.c:142-154 | new state of all objects as InsertPriority of the old one |
| Mutexes.ReplacePriority | kernel_scheduler/src/kernel_scheduler/syscalls/mutex.c:156-179 | new state of all objects as ReplacePriority of the old one; the mutual recursion ends |
| Mutexes.PropagatePriority | kernel_scheduler/src/kernel_scheduler/syscalls/mutex.c:198-233 | new state of all objects as PropagatePriority of the old one |
| Mutexes.RemovePcb | kernel_scheduler/src/kernel_scheduler/syscalls/mutex.c:181-196 | takes the process out of the waiter list and reports whether it was there |
| Mutexes.InsertPcb | kernel_scheduler/src/kernel_scheduler/domain/pcb.c:68-71 | inserts the process by its present priority and returns the position |
| Mutexes.RemovePriority | kernel_scheduler/src/kernel_scheduler/syscalls/mutex.c:235-250 | takes one entry out; the new head is the priority; tells whether that changed |
| Mutexes.SetMutexBlocking | kernel_scheduler/src/kernel_scheduler/domain/pcb.c:101-106 | records or clears the mutex a process waits for |
| Mutexes.JoinWaiters | kernel_scheduler/src/kernel_scheduler/syscalls/mutex.c:266-283 | joins the waiters, by priority with inheritance or at the end without |
| Mutexes.MutexLock | kernel_scheduler/src/kernel_scheduler/syscalls/mutex.c:252-286 | new state and result as LockMutex of the old state |
| Mutexes.HandOver | kernel_scheduler/src/kernel_scheduler/syscalls/mutex.c:305-327 | the first waiter becomes the owner and takes over what the rest lend |
| Mutexes.MutexUnlock | kernel_scheduler/src/kernel_scheduler/syscalls/mutex.c:288-331 | new state and result as UnlockMutex of the old state |
| Mutexes.MutexList.CreateAndAddMutex | kernel_scheduler/src/kernel_scheduler/syscalls/mutex.c:53-66 | a new name gets a new free mutex, a known one changes nothing |
| Mutexes.ListMutexLock | kernel_scheduler/src/kernel_scheduler/syscalls/mutex.c:68-74 | locks the mutex of that name; an unknown name changes nothing |
| Mutexes.ListMutexUnlock | kernel_scheduler/src/kernel_scheduler/syscalls/mutex.c:76-82 | unlocks the mutex of that name; an unknown name changes nothing |
| Transitions.EveryTransitionMoves | kernel_scheduler/src/kernel_scheduler/scheduler/queues.c:134-226 | every transition, where it takes effect, moves the process between the two states it is named after, to the end of READY or BLOCK and by priority into a suspended list, and changes neither state, priority nor order of anybody else; otherwise nothing changes |
| Transitions.WaitEnds | kernel_scheduler/src/kernel_scheduler/scheduler/queues.c:214-226 | the end of a wait moves a process from BLOCK to READY or from SUSP. BLOCK to SUSP. READY, and does nothing to any other |
| Transitions.ReadyToExec | kernel_scheduler/src/kernel_scheduler/scheduler/ready_queue.c:174-194 | a dispatch moves the head of READY to the end of EXEC |
| Transitions.ExecToExit | kernel_scheduler/src/kernel_scheduler/scheduler/queues.c:146-160 | an exit takes the process out of EXEC, out of the system and out of the count; the last one reports the end |
| Transitions.CreationIs | kernel_scheduler/src/kernel_scheduler/scheduler/queues.c:112-132 | an accepted process is new, has the priority asked for, is last in READY and counted; a refused one leaves only the next number, and the end if nobody else is left |
| SystemCalls.RequestComesTo | kernel_scheduler/src/kernel_scheduler/connections/cpu.c:274-427 | each request ends the process, blocks it, or leaves it in EXEC; the reason says which and why; what it does to others is a creation or the end of one wait; only an invalid operation or a failed release of memory stops the loop |
| SystemCalls.GivesUpIff | kernel_scheduler/src/kernel_scheduler/connections/cpu.c:165-239 | a process that goes on is given up exactly when READY is locked, when its quantum ended and somebody is ready, or when it is outranked and somebody is ready, who then runs instead; the reason says which |
| SystemCalls.TakesNextIff | kernel_scheduler/src/kernel_scheduler/connections/cpu.c:251-266 | a thread without a process takes the head of READY exactly when there is one and READY is not locked; until then it waits |
| SystemCalls.ClosesIff | kernel_scheduler/src/kernel_scheduler/connections/cpu.c:519-531 | a thread closes exactly when its loop was stopped, READY is terminated or a send fails; only a process just preempted in goes back to READY |
| SystemCalls.SendsAre | kernel_scheduler/src/kernel_scheduler/connections/cpu.c:429-448 | a send that succeeds moves no process and clears the reason |
| SystemCalls.StepFollowsDiagram | kernel_scheduler/src/kernel_scheduler/scheduler/queues.c:105-226 | every event moves every process along an arrow of the state diagram that this event may cause, or leaves it where it is; nobody's priority changes |
| SystemCalls.EveryRunFollowsDiagram | kernel_scheduler/src/kernel_scheduler/scheduler/queues.c:105-226 | so does every step of every run from the start, with any number of CPUs |
| QueueLaws.ExecReadyKeeps | kernel_scheduler/src/kernel_scheduler/scheduler/queues.c:134-144 | EXEC to READY keeps every live process in exactly the list of its state |
| QueueLaws.ExecExitKeeps | kernel_scheduler/src/kernel_scheduler/scheduler/queues.c:146-160 | an exit removes the process from its list and from the count |
| QueueLaws.ExecBlockKeeps | kernel_scheduler/src/kernel_scheduler/scheduler/queues.c:162-172 | EXEC to BLOCK keeps the lists consistent |
| QueueLaws.BlockSuspBlockKeeps | kernel_scheduler/src/kernel_scheduler/scheduler/suspension.c:295-322 | BLOCK to SUSP. BLOCK keeps the lists consistent, for either answer of Kernel Memory |
| QueueLaws.SuspBlockSuspReadyKeeps | kernel_scheduler/src/kernel_scheduler/scheduler/suspension.c:324-331 | SUSP. BLOCK to SUSP. READY keeps the lists consistent |
| QueueLaws.SuspReadyReadyKeeps | kernel_scheduler/src/kernel_scheduler/scheduler/suspension.c:333-360 | SUSP. READY to READY keeps the lists consistent, for every answer of Kernel Memory |
| QueueLaws.UnlockKeeps | kernel_scheduler/src/kernel_scheduler/scheduler/queues.c:214-226 | the end of a wait keeps the lists consistent, whether the process was suspended meanwhile or not |
| QueueLaws.NewReadyKeeps | kernel_scheduler/src/kernel_scheduler/scheduler/queues.c:112-132 | a creation keeps the lists and the count consistent, accepted or refused |
| QueueLaws.RefusedLeavesNothing | kernel_scheduler/src/kernel_scheduler/scheduler/queues.c:343-358 | a process refused by Kernel Memory or for its priority leaves nothing behind but its number |
| QueueLaws.InExactlyOneList | kernel_scheduler/src/kernel_scheduler/scheduler/queues.c:306-317 | a live process is in the list of its state, once, and in no other |
| QueueLaws.ClearQueuesEmptiesAll | kernel_scheduler/src/kernel_scheduler/scheduler/queues.c:228-236 | clearing ends with all five lists empty, no live process, a zero count, and the end reported if there was a process |
| SchedulerRuns.CpuStepMoves | kernel_scheduler/src/kernel_scheduler/connections/cpu.c:450-532 | every phase of a CPU thread keeps the lists consistent and exchanges in EXEC exactly the process the thread gives up for the one it takes |
| SchedulerRuns.SwapIsDispatchAndReturn | kernel_scheduler/src/kernel_scheduler/connections/cpu.c:181-224 | a preemption by priority is a dispatch of the next ready process followed by returning the preempted one |
| SchedulerRuns.StepKeeps | kernel_scheduler/src/kernel_scheduler/connections/cpu.c:450-532 | every event of any thread or device keeps the invariant |
| SchedulerRuns.EveryRunIsConsistent | kernel_scheduler/src/kernel_scheduler/scheduler/queues.c:105-226 | over every run, any number of CPUs, any answers: each live process is in exactly one list exactly once, the one its state names; the counter is right; the end is reported exactly when none is left |
| SchedulerRuns.NoProcessRunsTwice | kernel_scheduler/src/kernel_scheduler/connections/cpu.c:450-532 | over every run no process is owned by two CPU threads, EXEC is exactly what the threads own, and at the loop head a thread owns its process if and only if its reason is NoPreemption |
| SchedulerRuns.TransitionsTakeEffectIff | kernel_scheduler/src/kernel_scheduler/scheduler/queues.c:306-317 | a transition changes anything if and only if the process is in the state it starts from and Kernel Memory agrees |
| SchedulerRuns.ClosingAbandonsIff | kernel_scheduler/src/kernel_scheduler/connections/cpu.c:519-531 | a thread that closes leaves its process in EXEC unless that process was just preempted in |
| SchedulerRuns.AbandonedForever | kernel_scheduler/src/kernel_scheduler/connections/cpu.c:519-531 | a process left behind stays in EXEC in every later state, owned by nobody else, and the end is never reported |
| SchedulerRuns.NoOvertaking | kernel_scheduler/src/kernel_scheduler/scheduler/ready_queue.c:118-142 | in READY nobody overtakes, preempted processes included: who is behind a waiting process stays behind it |
| SchedulerRuns.PreemptedFirstIff | kernel_scheduler/src/kernel_scheduler/scheduler/ready_queue.c:118-142 | a process put back for a compaction or at the end of its quantum is first in READY if and only if READY was empty; one preempted by priority, if and only if only its replacement waited |
| SchedulerRuns.ResumedLongestFirstIff | kernel_scheduler/src/kernel_scheduler/scheduler/suspension.c:324-331 | processes woken one after another into an empty SUSP. READY stand there by priority and then by the time they have been suspended if and only if of any two equals the one woken later was suspended no later |
| SchedulerExamples.LaterSuspendedIsFirst | kernel_scheduler/src/kernel_scheduler/scheduler/suspension.c:295-331 | from the start: of two equals the one suspended later stands first in SUSP. READY |
| SchedulerObjects.SchedulerQueues.ManageState | kernel_scheduler/src/kernel_scheduler/scheduler/queues.c:306-317 | the state changes only from the expected one |
| SchedulerObjects.SchedulerQueues.TransitionToExit | kernel_scheduler/src/kernel_scheduler/scheduler/queues.c:325-341 | the process is destroyed and counted out; the last one reports the end |
| SchedulerObjects.SchedulerQueues.TransitionNewReady | kernel_scheduler/src/kernel_scheduler/scheduler/queues.c:112-132 | new queues as NewReady of the old ones |
| SchedulerObjects.SchedulerQueues.TransitionExecReady | kernel_scheduler/src/kernel_scheduler/scheduler/queues.c:134-144 | new queues as ExecReady of the old ones |
| SchedulerObjects.SchedulerQueues.TransitionExecExit | kernel_scheduler/src/kernel_scheduler/scheduler/queues.c:146-160 | new queues as ExecExit of the old ones |
| SchedulerObjects.SchedulerQueues.TransitionExecBlock | kernel_scheduler/src/kernel_scheduler/scheduler/queues.c:162-172 | new queues as ExecBlock of the old ones |
| SchedulerObjects.SchedulerQueues.TransitionBlockReady | kernel_scheduler/src/kernel_scheduler/scheduler/queues.c:360-367 | new queues as BlockReady of the old ones |
| SchedulerObjects.SchedulerQueues.TransitionBlockSuspBlock | kernel_scheduler/src/kernel_scheduler/scheduler/suspension.c:295-322 | new queues as BlockSuspBlock of the old ones |
| SchedulerObjects.SchedulerQueues.TransitionSuspBlockSuspReady | kernel_scheduler/src/kernel_scheduler/scheduler/suspension.c:324-331 | new queues as SuspBlockSuspReady of the old ones |
| SchedulerObjects.SchedulerQueues.TransitionSuspReady | kernel_scheduler/src/kernel_scheduler/scheduler/suspension.c:333-360 | new queues as SuspReadyReady of the old ones, and whether it took effect |
| SchedulerObjects.SchedulerQueues.TransitionUnlock | kernel_scheduler/src/kernel_scheduler/scheduler/queues.c:214-226 | new queues as Unlock of the old ones |
| SchedulerObjects.SchedulerQueues.TransitionAnyExit | kernel_scheduler/src/kernel_scheduler/scheduler/queues.c:369-399 | takes the first process of one list out of the system, if there is any |
| SchedulerObjects.SchedulerQueues.ClearAll | kernel_scheduler/src/kernel_scheduler/scheduler/queues.c:228-236 | new queues as ClearQueues of the old ones; the loops end |
| SchedulerObjects.CpuThread.ManageRequestProcess | kernel_scheduler/src/kernel_scheduler/connections/cpu.c:251-266 | takes the next ready process when the thread has none; ends the thread when READY is terminated |
| SchedulerObjects.CpuThread.SendPidTo | kernel_scheduler/src/kernel_scheduler/connections/cpu.c:429-448 | announces the process; a failure closes the thread |
| SchedulerObjects.CpuThread.HandleRequest | kernel_scheduler/src/kernel_scheduler/connections/cpu.c:274-427 | each handler's effect on the process, the reason and the loop flag |
| SchedulerObjects.CpuThread.QueueBlockedPhase | kernel_scheduler/src/kernel_scheduler/connections/cpu.c:165-174 | gives the process back when READY is locked for a compaction |
| SchedulerObjects.CpuThread.EndQuantumPhase | kernel_scheduler/src/kernel_scheduler/connections/cpu.c:226-239 | gives the process back at the end of its quantum when another one is ready |
| SchedulerObjects.CpuThread.PreemptionPhase | kernel_scheduler/src/kernel_scheduler/connections/cpu.c:181-224 | exchanges the process for the next ready one when outranked |
| SchedulerObjects.CpuThread.SendPreemption | kernel_scheduler/src/kernel_scheduler/connections/cpu.c:241-249 | announces the decision; a failure closes the thread |
| SchedulerObjects.CpuThread.CloseThread | kernel_scheduler/src/kernel_scheduler/connections/cpu.c:521-531 | puts back only a process just preempted in |
| SchedulerObjects.CpuThread.HandleCpuClient | kernel_scheduler/src/kernel_scheduler/connections/cpu.c:450-532 | the loop is an uninterrupted run of the phases |
| ReadyQueues.ToReadyKeeps | kernel_scheduler/src/kernel_scheduler/scheduler/ready_queue.c:118-142 | an arrival is last in its level; count and best level stay right |
| ReadyQueues.TakeNextKeeps | kernel_scheduler/src/kernel_scheduler/scheduler/ready_queue.c:174-194 | the first process of the best level is taken, nobody better waits, and nothing is taken exactly when the count is zero |
| ReadyQueues.TakeReadyKeeps | kernel_scheduler/src/kernel_scheduler/scheduler/ready_queue.c:160-172 | taking one process out of its level keeps count and best level right, although the best level is refreshed before the count |
| ReadyQueues.TakeExecKeeps | kernel_scheduler/src/kernel_scheduler/scheduler/exec_list.c:99-119 | the worst priority in EXEC stays right when a process leaves |
| ReadyQueues.PreemptImproves | kernel_scheduler/src/kernel_scheduler/connections/cpu.c:181-224 | a preemption keeps all invariants and strictly lowers the sum of the priorities in EXEC |
| ReadyQueues.PreemptionsEnd | kernel_scheduler/src/kernel_scheduler/connections/cpu.c:181-224 | repeated preemption ends: at most as many as the priorities in EXEC add up to |
| ReadyQueues.SettledIff | kernel_scheduler/src/kernel_scheduler/connections/cpu.c:181-224 | no running process can be preempted if and only if no waiting process is better than a running one, although only the worst is tested |
| ReadyQueues.EveryRunIsLevelled | kernel_scheduler/src/kernel_scheduler/scheduler/ready_queue.c:118-194 | over every run of arrivals, dispatches, departures and preemptions the counts, levels and bounds stay right |
| ReadyMoves.PreemptionExchanges | kernel_scheduler/src/kernel_scheduler/connections/cpu.c:181-224 | an effective preemption, with several levels or one: the head of the best level runs instead of the process, which is last in its own level; nobody else moves |
| ReadyMoves.ArrivalIsLast | kernel_scheduler/src/kernel_scheduler/scheduler/ready_queue.c:118-142 | an arrival is last in its level, the best priority takes it into account, and nobody else moves |
| ReadyMoves.DispatchTakesBest | kernel_scheduler/src/kernel_scheduler/scheduler/ready_queue.c:174-194 | a dispatch takes the head of the best level to the end of EXEC; nobody else moves |
| ReadyMoves.DepartureLeaves | kernel_scheduler/src/kernel_scheduler/scheduler/exec_list.c:99-119 | a departure takes one occurrence out of EXEC; nobody else moves |
| ReadyMoves.TakeReadyTakes | kernel_scheduler/src/kernel_scheduler/scheduler/ready_queue.c:160-172 | the process's level loses exactly one occurrence of it, the other levels nothing |
| ReadyMoves.EveryRunConserves | kernel_scheduler/src/kernel_scheduler/scheduler/ready_queue.c:118-194 | over every run, READY and EXEC together hold whoever was there or arrived, as often as that, less those who left |
| SingleLevel.PreemptionIs | kernel_scheduler/src/kernel_scheduler/connections/cpu.c:181-224 | with a single list, a preemption runs the head of the list, puts the preempted process last and refreshes the best priority only if nobody else waited |
| SingleLevel.PreemptImprovesIff | kernel_scheduler/src/kernel_scheduler/connections/cpu.c:181-224 | it strictly lowers the sum of the priorities in EXEC if and only if the head of the list is better than the preempted process |
| SingleLevel.SingleLevelMayWorsen | kernel_scheduler/src/kernel_scheduler/scheduler/ready_queue.c:174-194 | a concrete preemption that brings in a worse process |
| SingleLevel.PreemptionsEndIff | kernel_scheduler/src/kernel_scheduler/scheduler/ready_queue.c:144-194 | however the CPUs try, preemptions end if and only if at most one process waits, or as many waiting processes keep within READY's best priority as running ones are beyond it |
| SingleLevel.RightBarSuffices | kernel_scheduler/src/kernel_scheduler/scheduler/ready_queue.c:144-194 | with one running process it suffices that some waiting process is as good as READY's best priority says |
| SingleLevel.EveryRunIsSingle | kernel_scheduler/src/kernel_scheduler/scheduler/ready_queue.c:118-194 | these laws apply after every run from empty queues |
| SingleLevel.PreemptionsNeedNotEnd | kernel_scheduler/src/kernel_scheduler/scheduler/ready_queue.c:144-158 | from empty queues: seven events after which one CPU can preempt for ever, because the best priority is that of a process long gone |
| SchedulerExamples.FailedSendAbandons | kernel_scheduler/src/kernel_scheduler/connections/cpu.c:429-448 | from the start: the CPU's socket fails at its first process, which then stays in EXEC through every later run, and the end is never reported |
| SchedulerExamples.PreemptedGoesBehind | kernel_scheduler/src/kernel_scheduler/connections/cpu.c:165-174 | from the start: a process put back for a compaction lands behind the process that it had started |
| ReadyQueueObjects.ReadyQueue.TransitionToReady | kernel_scheduler/src/kernel_scheduler/scheduler/ready_queue.c:118-142 | new queue as ToReady of the old one |
| ReadyQueueObjects.ReadyQueue.UpdateHighestPriority | kernel_scheduler/src/kernel_scheduler/scheduler/ready_queue.c:144-158 | the scan finds the first level that is not empty, or the number of levels |
| ReadyQueueObjects.ReadyQueue.TransitionTakeReady | kernel_scheduler/src/kernel_scheduler/scheduler/ready_queue.c:160-172 | new queue as TakeReady of the old one |
| ReadyQueueObjects.ReadyQueue.TransitionTakeReadyNext | kernel_scheduler/src/kernel_scheduler/scheduler/ready_queue.c:174-194 | new queue and process as TakeNext of the old one |
| ReadyQueueObjects.ExecList.UpdateLowestPriority | kernel_scheduler/src/kernel_scheduler/scheduler/exec_list.c:28-46 | the scan finds the worst priority in EXEC |
| ReadyQueueObjects.ExecList.TransitionToExec | kernel_scheduler/src/kernel_scheduler/scheduler/exec_list.c:84-97 | new list as ToExec of the old one |
| ReadyQueueObjects.ExecList.TransitionTakeExec | kernel_scheduler/src/kernel_scheduler/scheduler/exec_list.c:99-119 | new list as TakeExec of the old one |
| ReadyQueueObjects.ManagePreemption | kernel_scheduler/src/kernel_scheduler/connections/cpu.c:181-224 | new queues as Preempt of the old ones |
| AllocProtocol.StepKeeps | kernel_scheduler/src/kernel_scheduler/syscalls/memory.c:20-95 | every move of either party, and every stick that connects, keeps the parties in one of the agreed positions |
| AllocProtocol.VerdictIsRight | kernel_scheduler/src/kernel_scheduler/syscalls/memory.c:20-95 | when the scheduler has its verdict both channels are drained but for stick notices, and the verdict is true exactly when Kernel Memory added the requested segment, which it did exactly when the request fits the reported space and the largest segment; the reported space is what was free at the start, or more, by no more than the sticks that connected |
| AllocProtocol.SticksArrive | kernel_memory/src/kernel_memory/scheduler_listener.c:296-357 | whatever the exchange does, memory and the sticks still to be added grow by exactly the bytes that connect, and the configuration stays |
| AllocProtocol.AnswerIsVerdict | kernel_scheduler/src/kernel_scheduler/syscalls/memory.c:69-95 | the scheduler returns true on a granted segment, false on either refusal, gives the go-ahead when a compaction is needed, and shuts down on anything else |
| AllocProtocol.OnlyTheExpected | kernel_scheduler/src/kernel_scheduler/scheduler/kernel_memory_reply.c:13-39 | at the other points of the exchange, too, only the expected message continues it |
| AllocProtocol.MemoryIsHeld | kernel_memory/src/kernel_memory/compaction.c:45-59 | while Kernel Memory waits for the go-ahead nothing changes the tables, whoever connects |
| AllocProtocol.NoDeadlock | kernel_scheduler/src/kernel_scheduler/syscalls/memory.c:69-95 | until then one of the parties can move |
| AllocProtocol.ExchangeEnds | kernel_scheduler/src/kernel_scheduler/syscalls/memory.c:20-95 | every effective move brings the exchange closer to its end |
| AllocProtocol.AtMostTwelveMoves | kernel_scheduler/src/kernel_scheduler/syscalls/memory.c:20-95 | at most twelve moves, and two more for every stick that connects meanwhile |
| AllocProtocol.HalvesMakeTheHandler | kernel_memory/src/kernel_memory/scheduler_listener.c:57-82 | the two halves of the handler, before and after the go-ahead, make up the request handler of the allocator model |
| AllocProtocol.UnsafeMemoryNeverAnswers | kernel_memory/src/kernel_memory/compaction.c:45-49 | without a segment and without a hole to choose, a covered request brings Kernel Memory down and the scheduler waits for ever |
| KmConnectionObject.KmConnection.ReceiveKmOpcode | kernel_scheduler/src/kernel_scheduler/scheduler/kernel_memory_reply.c:13-39 | skips stick notices, one resumption each, until an expected message; anything else, or the end, shuts the scheduler down |
| KmConnectionObject.KmConnection.CompactionRoutine | kernel_scheduler/src/kernel_scheduler/scheduler/compaction.c:230-251 | sends the go-ahead and waits for the end of the compaction |
| KmConnectionObject.KmConnection.ResponseKmMemAlloc | kernel_scheduler/src/kernel_scheduler/syscalls/memory.c:69-95 | verdict and channels as the scheduler's moves in the protocol, the retry after a compaction included |
| KmConnectionObject.KmConnection.AllocateMemory | kernel_scheduler/src/kernel_scheduler/syscalls/memory.c:20-45 | verdict and channels as the scheduler's moves in the protocol |
| Wire.OnTheWire | utils/src/utils/msg.c:120-216 | the format, byte by byte, of a message with two fields, and of a negative integer |
| Wire.IntRoundTrip | utils/src/utils/msg.c:200-216 | an integer survives its four bytes |
| Wire.BytesRoundTrip | utils/src/utils/msg.c:16-25 | any four bytes survive the integer they stand for |
| Wire.ParsePayload | utils/src/utils/msg.c:157-184 | a payload parses back to its fields up to the first empty one |
| Wire.ReceiveSent | utils/src/utils/msg.c:16-43 | one message is taken off the front of the stream, whatever follows |
| Wire.StreamStaysAligned | utils/src/utils/msg.c:120-216 | any concatenation of messages is taken apart at the right places, empty fields or not |
| Wire.RoundTripIff | utils/src/utils/msg.c:120-216 | the messages arrive exactly as sent if and only if no field is empty |
| Wire.WireIsUnambiguous | utils/src/utils/msg.c:128-138 | two lists of messages without empty fields never look the same on the wire |
| Connections.Packet.Append | utils/src/utils/msg.c:128-138 | the buffer holds the payload of the fields appended so far |
| Connections.Socket.SendPacket | utils/src/utils/msg.c:145-155 | sends exactly the serialized message |
| Connections.Socket.ReceiveOpCode | utils/src/utils/msg.c:16-25 | takes the four bytes of the operation code |
| Connections.Socket.ReceivePacket | utils/src/utils/msg.c:157-184 | takes exactly one payload and returns its fields |
| Connections.Socket.ReceiveMessage | utils/src/utils/msg.c:16-184 | a sent message is received and the next one is then at the front |
| Connections.ParseBuffer | utils/src/utils/msg.c:167-178 | the parse loop computes the fields and reports a buffer it would read outside of |
| LinkedLists.SortedInsertionKeepsOrder | utils/src/utils/collections/list.c:38-53 | an insertion before the first element the comparator allows keeps a list ordered |
| LinkedLists.LinkedList.AddSorted | utils/src/utils/collections/list.c:38-53 | the contents get the element at the sorted position, which is returned |
| LinkedLists.LinkedList.Add | utils/src/utils/collections/list.c:31-36 | the contents get the element at the end, whose index is returned |
| LinkedLists.LinkedList.GetSlot | utils/src/utils/collections/list.c:173-181 | the slot in front of the element with this index, clamped to the list |
| LinkedLists.LinkedList.Remove | utils/src/utils/collections/list.c:64-78 | removes and returns the element at a valid index; any other index, in an empty list too, removes nothing |
| LinkedLists.LinkedList.RemoveElement | utils/src/utils/collections/list.c:80-96 | removes the first occurrence, and reports whether there was one |
| LinkedLists.ListCursor.Next | utils/src/utils/collections/list.c:142-148 | returns the element behind the position and moves past it |
| LinkedLists.ListCursor.Remove | utils/src/utils/collections/list.c:150-158 | removes the element returned last and stays in front of the next one |
| LinkedLists.RemoveWhileIterating | utils/src/utils/collections/list.c:127-158 | every element is visited once, in order, and exactly the chosen ones are gone afterwards, whichever they are |
| Dictionaries.DictionaryHash | utils/src/utils/collections/dictionary.c:67-80 | the loop computes the hash |
| Dictionaries.KnownHashes | utils/src/utils/collections/dictionary.c:67-80 | the hashes of five keys: empty, one byte below and one above 127, two bytes in either order |
| Dictionaries.FoundIff | utils/src/utils/collections/dictionary.c:82-95 | a key is found in its bucket's chain if and only if the map has it, with the map's value |
| Dictionaries.Dictionary.Put | utils/src/utils/collections/dictionary.c:20-38 | the map described by the puts gets or changes this key, and nothing else |
| Dictionaries.Dictionary.Overwrite | utils/src/utils/collections/dictionary.c:20-28 | an existing element's data changes in place; no other element notices |
| Dictionaries.Dictionary.LinkInFront | utils/src/utils/collections/dictionary.c:30-37 | a new element goes in front of its bucket's chain |
| Dictionaries.Dictionary.Get | utils/src/utils/collections/dictionary.c:40-44 | returns what the map has for the key, or nothing |
| Dictionaries.Dictionary.HasKey | utils/src/utils/collections/dictionary.c:46-49 | tells whether the map has the key |
| Dictionaries.Dictionary.Find | utils/src/utils/collections/dictionary.c:82-95 | follows the links of the key's bucket to its element, if there is one |

## Left out

- Sockets, threads, configuration, logging, file loading, the IO module and teardown: plumbing. A stick is
  a sequence of bytes, the swap file a sequence of blocks, a channel a sequence of bytes or messages.
- Interleavings inside one step: each transition, handler and `manage_*` function is one step of
  `SchedulerRuns`; the C code takes several locks in some of them.
- The IO syscalls enqueue the request and block the process in one step here.
- `update_priority` on a multilevel READY: the process's priority has already changed when the level to
  take it from is looked up, so that it stays in its old level and is added to the new one. Inheritance
  and the multilevel queue are separate models, and priorities do not change in the latter.
- The order of SUSP. BLOCK and SUSP. READY after inherited priority changes: they are sorted only when a
  process enters, and priorities are fixed in that model.
- The wait for EXEC to drain before a compaction and the locking of READY around it: READY being locked
  is an input of the CPU threads, and no liveness follows from the code.
- The quantum, the scheduling algorithm and the comparison of priorities are inputs in `CpuThreads`; the
  comparison of priorities is modelled in `ReadyQueues`.
- Waking the suspender and resumer threads: they may act at any time.
- Kernel Memory's list of processes: whether it knows one is an input of the methods that ask.
- A segmentation fault notice that cannot be sent: the CPU then reports an error instead of a fault.
- A second thread that allocates at the same time: the scheduler holds its Kernel Memory socket during
  the whole exchange, so there is none.
- What `allocate_memory` returns once the scheduler is shutting down, and a corrupted-memory notice,
  which only starts a shutdown.
- Reads beyond a malformed payload: the model reports that the parse would read outside the buffer.
- A stream that ends in the middle of a message.
- The size argument of Kernel Memory's address translation, which the code ignores; only the CPU's MMU
  checks it.
- Mutexes without inheritance beside others: PlainMutexIsFifo is about one call; the laws over histories
  are about mutexes with inheritance.
- Destroying mutexes, lists and dictionaries, and the CPU's instruction handlers: easy members.
- HoleTables.EndProcessLeavesOthers: about a process that Kernel Memory knows; for an unknown one the
  method MainMemory.EndProcess changes nothing.
- KernelMemoryRuns.EveryRunTiles: runs in which somebody asks for zero bytes or the allocation strategy
  is unknown are excluded, because the tables then stop tiling; RunStaysValidIff covers all runs.
- KernelMemoryRuns.ResumptionIsRestartable: the bytes already in memory are promised while nobody else
  causes a compaction; what survives one is RestartSurvivesCompaction.
- BlockOrder.OrderKeptIffNothingLeftOver: the case that all blocks left over are of segments that have
  been freed since is excluded, because where they lie then decides the order.
- BlockOrder.EveryRunKeepsPartOrder: runs in which a suspension finds blocks of its own or equal ids are
  excluded; OrderThroughoutIff and RetriedSuspensionInOrderIff say what they do to the order.
- BlockOrder.EveryRunKeepsBlockOrder: likewise for ids that do not grow along the segment list.
- BlockOrder.OrderThroughoutIff: about runs in which no suspension fails; what a failed one does is
  RetriedSuspensionInOrderIff.
- HoleTables.FreeUndoesAllocIff: about an allocation that needs no compaction; after one the other
  segments may have moved.
- OrdinalLaws.ResumedOnlyIfOrdinals: about different ids; ResumedOnlyIfAtMost is about any ids.
- OrdinalLaws.ComesBackIffOrdinals: about different ids; ComesBackIffAtMost is about any ids.
- LockUnlock.LockKeeps: does not cover a lock that closes a cycle of waiting processes; LockKeepsIff
  does, and says that such a lock breaks the bookkeeping.
- SchedulerObjects.SchedulerQueues.TransitionToExit: the notice to Kernel Memory and the resumption that
  may follow are left to the steps of SchedulerRuns.
- SchedulerObjects.CpuThread.HandleCpuClient: one thread without interruption; the interleavings are in
  SchedulerRuns.
- KmConnectionObject.KmConnection.CompactionRoutine: the exchange only; the locking of READY and the wait
  for running system calls around it are not modelled.
