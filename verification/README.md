# A verified model of the DeadKernel core

DeadKernel is a small 32-bit x86 kernel. This project models the parts of it whose correctness rests on
invariants over many calls, and proves these invariants. `Machine` holds what all parts share: 32-bit words and pages.

* **Linked lists** (`LinkedLists`, `RingSets`): the intrusive circular lists of `llist.h` over raw memory, a map from
  addresses to words. Every list operation is proved to make exactly its stores, and the stores are proved to keep every
  list in the memory well formed.
* **Heap** (`HeapModel` to `HeapAsWritten`, `KernelHeap`): the boundary-tag allocator behind `kmalloc` and the process
  heaps. `HeapModel`, `HeapSteps`, `HeapOps` and `HeapAlloc` describe it on values (which chunks tile the range, the order
  of the free list), `HeapRuns` proves what holds over every run, `HeapHalts` when a call halts, `HeapUndo` what a free
  undoes, and the class `HeapObject` in `KernelHeap` is the C code
  over raw words, with head words, feet and list links, proved to refine the values. `HeapPayloads`, `HeapContents` and
  `HeapClients` are about what callers store: no call changes the words of a payload that stays.
* **Tasks and semaphores** (`Scheduler`, `Fates`, `Tasking`, `TaskingRuns`, `Fairness`, `FairRuns`, `Burials`, `Semaphores`,
  `Permits` on values;
  `TaskSystem`, `TaskCalls`, `KernelTasks`, `Mutexes` over linked lists): the clock sweep of `switchTask`, `semctl`, and the
  mutex built on it, as a system of steps and as a class whose lists live in raw memory.
* **Paging** (`FrameBitmap`, `PageTables`, `PageFrames`, `PageDirs`, `PageClones`, `PageLaws`, `PageRanges`,
  `PageManager`, `PageRounding`, `PageSections`): the bitmap of frames on 32-bit words, two-level directories (Intel SDM
  volume 3, section 4.3), cloning and releasing of address spaces, the loops over address ranges in 32-bit arithmetic, and
  the rounding of ranges to pages.
* **Numbers and strings** (`Numbers`, `Parsing`, `Reading`, `Tokens`): `itoa`, `atoi`, `strtoi` (ISO C99 sections 7.20.1.2 and
  7.20.1.4) and `strtok` (section 7.21.5.8), on buffers that are overwritten in place.
* **Symbol lookup** (`SymbolSearch`): the nearest-address searches of the ELF module (TIS ELF specification 1.2).

`dafny verify dfyconfig.toml` checks everything.

## Repairs

In these places the code as written does not do what the code around it relies on. The model follows the intended form and
marks each repair in a comment; where there is something to say about the form as written, a lemma says exactly when it
still works and, where useful, gives a concrete case in which it does not.

* `heap.c:277`: the guard is negated; the intended test is that the next chunk lies inside the heap. As written no free of
  a chunk below another one leaves a sound heap (`HeapAsWritten.FreeNeverSound`, `FreeTopFaults`, `FreeLeavesTwo`).
* `heap.c:231-238`: the foot of the chunk left over by a split is not written (`HeapAsWritten.SplitFootAsWritten`).
* `heap.c:49-51`: `set_inuse` on the last chunk touches a head word at the end of the heap; the model leaves it alone.
* `heap.c:341`: the PINUSE bit of the aligned chunk is whatever was in the payload (`HeapAsWritten.LeadBitAsWritten`).
* `semaphore.c:75`: the bound is an uninitialised local; intended is the semaphore's own initial value
  (`Semaphores.SignalAsWrittenExact`, `StuckForever`, `MutexStuck`).
* `semaphore.c:113`: after a FREE the id is read from released memory; the model reads it before.
* `task.c:230`: a comparison stands where an assignment is meant; it has no effect and the model has none either.
* `task.c:88`: the list is never empty inside the loop, so a finished kernel task is never halted. The model assumes that
  the kernel task neither finishes nor waits (`kernel.c:83` is an endless loop); `Scheduler.NothingToChoose` shows what
  happens when no live task is queued.
* `paging.c:37-46`: `firstFrame` returns nothing when memory is full; the caller expects -1.
* `paging.c:184`: the bitmap is allocated with as many bytes as it needs words; the model has the words.

Frame 0 is the mark of an entry without a frame, so bit 0 has to be set from the start; the model requires it among the
frames set aside at boot.

Two places are modelled as written although they do not always do what is asked of them:

* `paging.c:105-114`, `paging.c:154-164` and `task.c:173-185` round ranges to pages. Sections that begin inside page 0
  or reach the top of the address space are not covered, or the loop never stops: `PageRounding.MirrorExactly`,
  `SectionExactly` and `KernelExactly` give the exact conditions, `SectionFirstPage`, `SectionLastPage`, `SectionEndless`
  and their like an input for each branch.
* `stdlib.c:71-73`: the test of the base writes an empty string and goes on; the digits overwrite it (`Numbers.Itoa`).

## Model

| member | source | states |
|---|---|---|
| LinkedLists.LinkInserts | shared/include/llist.h:43-51 | The four stores of __list_add turn a well-formed ring with node list s into the ring of s with the new node at the chosen place, for every place and every length |
| LinkedLists.UnlinkRemoves | shared/include/llist.h:86-100 | The two stores of __list_del take exactly one node out of the ring and leave the others linked in their order, both ways |
| LinkedLists.Moved | shared/include/llist.h:124-140 | list_move and list_move_tail: a node leaves one ring and joins the other; both stay well formed and no other node changes list |
| LinkedLists.Ram.ListAdd | shared/include/llist.h:61-64 | Adds behind any list_head of the ring: the new memory is exactly that of the four stores and holds the ring with the node inserted |
| LinkedLists.Ram.ListAddTail | shared/include/llist.h:74-77 | Adds before any list_head of the ring: the new memory is exactly that of the four stores and holds the ring with the node inserted |
| LinkedLists.Ram.ListDelEntry | shared/include/llist.h:97-100 | The removed node keeps its own two links, which the ring walk of the scheduler reads afterwards |
| LinkedLists.Ram.ListMove | shared/include/llist.h:124-128 | The node is first in the destination and gone from the source |
| LinkedLists.Ram.ListMoveTail | shared/include/llist.h:135-140 | The node is last in the destination and gone from the source |
| LinkedLists.Ram.ListEmpty | shared/include/llist.h:146-149 | True exactly when the ring has no node besides its head |
| RingSets.Shifted | shared/include/llist.h:124-140 | With any number of lists in one memory, moving a node from one list to another keeps every list well formed and every node on one list only |
| RingSets.Joined | shared/include/llist.h:61-77 | A node on no list joins one; all other lists in the memory are untouched |
| RingSets.Cut | shared/include/llist.h:97-100 | A node leaves its list; all other lists in the memory are untouched |
| HeapModel.Ordered | kernel/src/memory_managment/heap.c:31-56 | Local fits of neighbours leave no overlap anywhere: of two chunks one ends before the other starts |
| HeapModel.WithSound | kernel/src/memory_managment/heap.c:97-111 | Inserting before the first chunk that is not smaller keeps the free list sorted by size and without repetition |
| HeapModel.SplitTiled | kernel/src/memory_managment/heap.c:231-238 | Splitting a chunk leaves a tiling of the same range |
| HeapModel.JoinTiled | kernel/src/memory_managment/heap.c:263-292 | Joining two neighbours leaves a tiling of the same range |
| HeapModel.AppendTiled | kernel/src/memory_managment/heap.c:216-222 | Room above the old end becomes a chunk and the range is tiled up to the new end |
| HeapOps.CarveInv | kernel/src/memory_managment/heap.c:227-243 | Serving a request from a free chunk keeps the whole invariant; exactly one chunk joins those in use and the left-over part is free, on the list and touches no free chunk |
| HeapOps.ReleaseInv | kernel/src/memory_managment/heap.c:249-316 | free on a live chunk keeps the invariant, merges both ways, shrinks from the top, and removes exactly that chunk from those in use; it halts exactly for a topmost 16-byte chunk above a chunk in use (the ASSERT of line 160) |
| HeapOps.TrimFacts | kernel/src/memory_managment/heap.c:295-309 | Shrinking ends on a page, at least HEAP_MIN_SIZE above the start, never below the freed chunk, and leaves of it nothing or at least 16 bytes |
| HeapAlloc.RequestFits | kernel/src/memory_managment/heap.c:22-41 | A chunk of request2size bytes holds the request and its overhead and is less than 20 bytes bigger than the request, exactly when the 32-bit padding does not wrap |
| HeapAlloc.RequestWraps | kernel/src/memory_managment/heap.c:39-41 | The request 0xFFFFFFFF is rounded to an 8-byte chunk |
| HeapAlloc.ExpandExact | kernel/src/memory_managment/heap.c:142-157 | expand makes room for the request if and only if the new end is a 32-bit address; then it is the next page boundary and at most maxAddr |
| HeapAlloc.GrowTop | kernel/src/memory_managment/heap.c:190-222 | Growth extends the highest free chunk if and only if that chunk ended at the old end |
| HeapAlloc.GrownServes | kernel/src/memory_managment/heap.c:184-224 | After one expansion the search finds a chunk, so alloc calls itself at most once |
| HeapAlloc.BestFit | kernel/src/memory_managment/heap.c:82-95 | The chunk served is no bigger than any other free chunk that fits |
| HeapAlloc.AllocInv | kernel/src/memory_managment/heap.c:179-243 | alloc keeps the invariant, returns a chunk that was not in use, of the requested size or up to 15 bytes more, and changes nothing else that is in use |
| HeapAlloc.LeadFacts | kernel/src/memory_managment/heap.c:333-338 | The part cut off in front of an aligned payload has 16 to 4104 bytes and ends on a page boundary |
| HeapAlloc.PaddingEnough | kernel/src/memory_managment/heap.c:327-330 | The padded request is the request plus one page and 16 bytes |
| HeapAlloc.PAllocInv | kernel/src/memory_managment/heap.c:326-367 | palignedAlloc returns a page-aligned payload in a chunk in use that holds the request, keeps the invariant, and changes nothing else that is in use: its three closing ASSERTs hold |
| HeapRuns.StepSound | kernel/src/memory_managment/heap.c:179-367 | Every call keeps the heap sound for the allocations that are live |
| HeapRuns.PayloadsApart | kernel/src/memory_managment/heap.c:31-56 | A live payload, the borrowed foot word included, overlaps no other live payload and no size word of any chunk |
| HeapRuns.PayloadInside | kernel/src/memory_managment/heap.c:31-56 | A live payload lies inside the heap unless its chunk is the last one and it needs the borrowed foot word: both directions |
| HeapRuns.AllocInside | kernel/src/memory_managment/heap.c:179-243 | Before the call: the payload alloc returns will leave the heap if and only if the chunk it takes, after growth if there is any, is the last one, is not cut, and has less than eight bytes more than the request |
| HeapRuns.PayloadComesAndGoes | kernel/src/memory_managment/heap.c:159-243 | A concrete run from createHeap: the last word of a payload lies beyond the end of the heap, within it once another allocation has made the heap grow, and beyond it again when that one is freed |
| HeapRuns.PayloadBeyondEnd | kernel/src/memory_managment/heap.c:179-243 | A concrete request whose last four payload bytes lie beyond the end of the heap |
| HeapRuns.HaltingRun | kernel/src/memory_managment/heap.c:159-160 | A concrete run from createHeap - two allocations that fill the heap and the free of the second - that stops at the ASSERT of line 160 |
| HeapRuns.ExpandWraps | kernel/src/memory_managment/heap.c:142-157 | A concrete request to a new heap for which the new end wraps around to an address below the heap, and expand accepts it |
| HeapRuns.Covered | kernel/src/memory_managment/heap.c:117-140 | Every address of the heap lies in exactly one chunk |
| HeapRuns.HeapSafety | kernel/src/memory_managment/heap.c:117-367 | After createHeap and any sequence of alloc, palignedAlloc and free: every byte is in exactly one chunk, payloads are disjoint, the list holds exactly the free chunks in size order, the end is on a page and within its bounds |
| HeapHalts.ExpandRefuses | kernel/src/memory_managment/heap.c:142-157 | Growth by nb bytes is refused exactly when the next page boundary for them lies beyond the maximum; otherwise that boundary is the new end |
| HeapHalts.AllocHalts | kernel/src/memory_managment/heap.c:179-243 | alloc halts if and only if no free chunk is big enough and growing by whole pages would pass the maximum |
| HeapHalts.AlignedHalts | kernel/src/memory_managment/heap.c:326-367 | palignedAlloc halts if and only if no free chunk has a page and 16 bytes more than the request and growing by as much would pass the maximum |
| HeapHalts.StepHalts | kernel/src/memory_managment/heap.c:142-367 | Why a call in a run can halt the kernel, exactly: alloc and palignedAlloc without room, and a free of an address outside the heap or of a topmost 16-byte chunk above a chunk in use |
| HeapHalts.KeepsMegabyte | kernel/src/memory_managment/heap.c:159-177 | Over every run the heap keeps the first megabyte it was created with and never passes its maximum |
| HeapUndo.FreeUndoesAlloc | kernel/src/memory_managment/heap.c:179-324 | An allocation served without growth, from a chunk that is not the last, and then freed, leaves the heap exactly as it was: every chunk, every flag, and the order of the free list among chunks of one size |
| HeapUndo.ReleaseUndoes | kernel/src/memory_managment/heap.c:179-324 | The same for the last chunk exactly when the heap is no bigger than it has to be |
| HeapUndo.TrimLeast | kernel/src/memory_managment/heap.c:295-309 | The heap shrinks as far as it can: to the least page boundary that leaves the first megabyte and, of the freed chunk, nothing or at least 16 bytes |
| HeapMemory.PayloadStore | kernel/src/memory_managment/heap.c:31-56 | Whatever a caller stores in its own payload, headers, feet and list links stay intact |
| HeapMemory.CarveTags | kernel/src/memory_managment/heap.c:231-241 | Head and foot words after a split |
| HeapMemory.FreeTags | kernel/src/memory_managment/heap.c:263-316 | Head and foot words after merging and freeing |
| HeapMemory.TagBits | kernel/src/memory_managment/heap.c:8-56 | What the words of a chunk hold: its size plus 2 when it is in use plus 1 when the chunk below is, and the size of a free chunk below it |
| KernelHeap.HeapObject.CreateHeap | kernel/src/memory_managment/heap.c:117-140 | The constructor leaves memory that holds one free chunk over the whole range |
| KernelHeap.HeapObject.FindSmallestChunk | kernel/src/memory_managment/heap.c:82-95 | The list walk returns the first listed chunk that is big enough, 0 if there is none |
| KernelHeap.HeapObject.InsertChunk | kernel/src/memory_managment/heap.c:97-111 | The list walk inserts at the sorted position and touches no other list |
| KernelHeap.HeapObject.TakeChunk | kernel/src/memory_managment/heap.c:227-243 | Removing, splitting and marking in memory is the carving step on values |
| KernelHeap.HeapObject.Expand | kernel/src/memory_managment/heap.c:142-157 | Page by page the range up to the new end becomes mapped; refuses exactly when an ASSERT fails |
| KernelHeap.HeapObject.Contract | kernel/src/memory_managment/heap.c:159-177 | Page by page the range from the new end on is unmapped; refuses exactly when the ASSERT fails |
| KernelHeap.HeapObject.HighestEntry | kernel/src/memory_managment/heap.c:190-197 | The loop finds the highest node on the list |
| KernelHeap.HeapObject.ClaimTop | kernel/src/memory_managment/heap.c:190-219 | The chunk the new room joins: the free chunk that ended at the old end, taken off the list, or the old end itself; the PANIC of line 205 is unreachable |
| KernelHeap.HeapObject.GrowHeap | kernel/src/memory_managment/heap.c:183-222 | Growing in memory is the growing step on values, and no payload word changes |
| KernelHeap.HeapObject.Alloc | kernel/src/memory_managment/heap.c:179-247 | alloc in memory refines alloc on values, in every heap that satisfies the invariant, and changes no payload word of a chunk in use, the borrowed foot words included |
| KernelHeap.HeapObject.MergeDown | kernel/src/memory_managment/heap.c:261-274 | Merging with the chunk below, found through its foot |
| KernelHeap.HeapObject.MergeUp | kernel/src/memory_managment/heap.c:276-293 | Merging with the chunk above or telling it; the PANICs of lines 279 and 287 are unreachable |
| KernelHeap.HeapObject.Free | kernel/src/memory_managment/heap.c:249-324 | free in memory refines free on values; for a live payload the PANICs are unreachable; no payload word of another chunk in use changes while it stays mapped |
| KernelHeap.HeapObject.GiveTop | kernel/src/memory_managment/heap.c:295-316 | Freeing the topmost chunk shrinks the heap as on values |
| KernelHeap.HeapObject.CutFront | kernel/src/memory_managment/heap.c:333-349 | The payload moves to a page boundary and the lead joins the free list |
| KernelHeap.HeapObject.CutBack | kernel/src/memory_managment/heap.c:351-358 | The tail is given back, and that never halts |
| KernelHeap.HeapObject.PAlignedAlloc | kernel/src/memory_managment/heap.c:326-367 | palignedAlloc in memory: page-aligned, big enough, in use; no payload word of a chunk in use changes |
| HeapClients.Serve | kernel/src/memory_managment/heap.c:179-367 | Each call, on a heap with any live payloads, is the step on values, keeps memory and values together, and leaves the words of all payloads but the freed one as they are |
| HeapClients.PutServed | kernel/src/memory_managment/heap.c:31-56 | A store by an owner to its own payload leaves the heap sound |
| HeapClients.ContentsKept | kernel/src/memory_managment/heap.c:31-367 | Over every run of calls and of stores by owners: a word of a payload that stays live, and mapped, holds what its owner stored there last, whatever the heap and the other owners do in between |
| HeapClients.WordLost | kernel/src/memory_managment/heap.c:159-177 | A word of a live payload is unmapped by an event if and only if it is the borrowed foot word and the heap now ends there |
| HeapAsWritten.FreeNeverSound | kernel/src/memory_managment/heap.c:276-293 | With the guard of line 277 as written, no free of a chunk below another one leaves a sound heap |
| HeapAsWritten.FreeStillTiles | kernel/src/memory_managment/heap.c:276-293 | As written the chunks still tile the heap and the list still holds exactly the free ones: only the merge is missing |
| HeapAsWritten.FreeTopFaults | kernel/src/memory_managment/heap.c:276-293 | Lines 276-293 as written read an unmapped word and fault exactly when the chunk is the last one; for any other they pass over the chunk above |
| HeapAsWritten.FreeLeavesTwo | kernel/src/memory_managment/heap.c:276-293 | A concrete allocation and free after which two free chunks touch |
| HeapAsWritten.SplitFootAsWritten | kernel/src/memory_managment/heap.c:231-241 | As written the foot above the left-over chunk is right exactly when there is no chunk above |
| HeapAsWritten.LeadBitAsWritten | kernel/src/memory_managment/heap.c:339-346 | With lines 341-346 as written the memory holds a sound heap after the lead is cut off if and only if a stray payload bit was 0 |
| Scheduler.LeftAtMostTwoRounds | kernel/include/multitasking/task.h:17-21 | The sweep, which takes no more visits than its measure, ends within two rounds of the queue when a live task is queued |
| Scheduler.VisitProgress | kernel/src/multitasking/task.c:64-104 | Each visit that does not choose brings the choice strictly closer |
| Scheduler.SweepChooses | kernel/src/multitasking/task.c:64-104 | The sweep ends with a running task that was live; nobody joins the queue, and whoever left it was finished and is destroyed |
| Scheduler.NothingToChoose | kernel/src/multitasking/task.c:85-98 | Without a live task no visit ever chooses, however many are made |
| Scheduler.CurrentSurvives | kernel/src/multitasking/task.c:64-104 | The task that was current is not destroyed while another live task is queued |
| Scheduler.SweepApproaches | kernel/src/multitasking/task.c:64-104 | Each sweep chooses a given live task or brings its turn strictly closer |
| Scheduler.Fair | kernel/src/multitasking/task.c:56-108 | Among 2n sweeps one chooses the live task, whatever the mix of states and whatever leaves in between |
| Scheduler.SweepRecords | kernel/src/multitasking/task.c:68-98 | What the sweep does to each single record |
| Scheduler.ScreenedNotChosen | kernel/src/multitasking/task.c:64-104 | A running task is not chosen again while another live task comes before it |
| Fates.SweepFates | kernel/src/multitasking/task.c:64-104 | The fate of every queued task, told by the records before and after alone: untouched behind an idle task, chosen, destroyed, a zombie with its exit value and destroyed on the second round, idle, or running again |
| Fairness.NextTurn | kernel/src/multitasking/task.c:64-104 | The next walk starts where this one ended: the list, seen from the new current task, is the queue the sweep left |
| Burials.TurnOrder | kernel/include/multitasking/task.h:17-21 | The walk goes round the list from the entry behind the current task |
| Burials.WalkedFates | kernel/src/multitasking/task.c:64-104 | The same fates for the whole system, in the order of the ring |
| Fairness.SystemFair | kernel/src/multitasking/task.c:56-108 | Over consecutive calls of switchTask, by clock or by yield, every live task that stays queued among n gets the processor within 2n calls |
| FairRuns.WaitCloser | kernel/src/multitasking/semaphore.c:79-96 | The switch of a blocking wait chooses a given live task or brings its turn strictly closer, though the task that waits leaves the queue in the middle |
| FairRuns.RunFair | kernel/src/multitasking/task.c:56-108 | Over every run of ticks, yields, new tasks and semaphore calls: if nothing joins the run queue of n tasks, a live task on it that neither ends nor waits gets the processor within 2n calls of switchTask, those of blocking waits included |
| Burials.YieldGivesUp | kernel/src/multitasking/task.c:343-349 | A task that yields runs afterwards exactly when it is chosen again |
| Burials.RunBuries | kernel/src/multitasking/task.c:66-103 | Over every run in which nothing joins the run queue of n tasks, a task on its way out is off the queue and its record released within 2n calls of switchTask, the exit value in its record until then |
| Burials.ExitEnds | kernel/src/multitasking/task.c:68-97 | So is a task that calls exit, with the value it has left in eax |
| Tasking.WakeAllExact | kernel/src/multitasking/semaphore.c:12-30 | One pass moves, for each semaphore with a permit and a waiter, exactly the most recently parked task to the end of the run queue and takes one permit; nothing else changes |
| Tasking.WakeAllKeeps | kernel/src/multitasking/semaphore.c:12-30 | The pass loses and duplicates no task |
| Tasking.WalkedMembers | kernel/src/multitasking/task.c:64-104 | The walk on the whole system: the new current task is running and queued, only finished tasks leave, tasks that wait are not touched |
| Tasking.WalkedParks | kernel/src/multitasking/semaphore.c:83-95 | The task that is about to wait is still queued, is not chosen again and can be parked |
| Tasking.SwitchInv | kernel/src/multitasking/task.c:56-108 | switchTask keeps the system invariant and ends with a running current task |
| Tasking.InitInv | kernel/src/multitasking/semaphore.c:51-68 | SEMAPHORE_INIT keeps the invariant |
| Tasking.SignalInv | kernel/src/multitasking/semaphore.c:70-77 | SEMAPHORE_SIGNAL keeps the invariant and moves no task |
| Tasking.WaitInv | kernel/src/multitasking/semaphore.c:79-96 | SEMAPHORE_WAIT keeps the invariant |
| Tasking.FreeInv | kernel/src/multitasking/semaphore.c:98-107 | SEMAPHORE_FREE keeps the invariant and moves no task |
| TaskingRuns.RunInv | kernel/src/multitasking/task.c:202-219 | runTask keeps the invariant |
| TaskingRuns.WakeConserves | kernel/src/multitasking/semaphore.c:21-28 | Each permit taken by the pass goes to the task it wakes: count plus holders stays the initial value |
| TaskingRuns.SignalConserves | kernel/src/multitasking/semaphore.c:70-77 | A permit given back by a holder is counted again |
| TaskingRuns.FreeExact | kernel/src/multitasking/semaphore.c:98-103 | FREE is granted if and only if nobody holds a permit and nobody waits |
| TaskingRuns.AfterSound | kernel/src/multitasking/semaphore.c:32-116 | Every step - tick, yield, new task, runTask and the four semctl commands - keeps the invariant and conserves permits |
| TaskingRuns.BootSound | kernel/src/multitasking/task.c:21-54 | initTasking establishes the invariant |
| TaskingRuns.SystemSafety | kernel/src/multitasking/semaphore.c:12-116 | Over every run from boot, with any number of tasks and semaphores: a task run and not destroyed is on exactly one list, count plus holders equals the initial value, a mutex has at most one holder, FREE succeeds only when nobody holds or waits |
| Permits.SignalStops | kernel/src/multitasking/semaphore.c:70-77 | A signal changes nothing exactly when no permit is out; otherwise it gives back one |
| Permits.CountsBounded | kernel/src/multitasking/semaphore.c:50-107 | Over every run from boot in which any task may signal anything, the count of every semaphore stays between 0 and its initial value |
| Permits.WaitExactly | kernel/src/multitasking/semaphore.c:79-96 | A permit that is there is taken and the caller goes on; otherwise the caller is off the run queue, first among the waiters, and another task runs |
| Permits.OthersStay | kernel/src/multitasking/semaphore.c:51-107 | INIT and FREE leave every other semaphore, its waiters and the run queue as they are |
| Permits.RefusedExactly | kernel/src/multitasking/semaphore.c:32-116 | semctl answers -1, and changes nothing, exactly for a missing argument, an unknown command or id, and a FREE while a permit is out or a task waits; otherwise it answers with the id |
| Permits.StartQueues | kernel/src/multitasking/task.c:202-219 | A created task becomes idle, last on the run queue, with an identifier; running it again changes nothing, and no other task is touched |
| Permits.RunPids | kernel/src/multitasking/task.c:202-219 | Over every run no two tasks that have been run share a process identifier |
| TaskSystem.WakeStep | kernel/src/multitasking/semaphore.c:21-28 | list_move_tail from a wait queue to the run queue is the wake-up on values |
| TaskSystem.CutMain | kernel/src/multitasking/task.c:221-263 | Cutting a task out of the run queue and releasing it leaves every other list as it was |
| KernelTasks.Kernel.InitTasking | kernel/src/multitasking/task.c:21-54 | The two lists and the kernel task in memory |
| KernelTasks.Kernel.SemctlProcess | kernel/src/multitasking/semaphore.c:12-30 | The loop over the semaphores is the pass on values |
| KernelTasks.Kernel.DestroyTask | kernel/src/multitasking/task.c:221-263 | The task is gone from the list and from the table; its stale link can still be read |
| KernelTasks.Kernel.VisitTask | kernel/src/multitasking/task.c:66-103 | One entry of the ring walk is one visit of the sweep, the step over a destroyed entry included |
| KernelTasks.Kernel.WalkRing | kernel/src/multitasking/task.c:64-104 | The walk over the linked ring terminates and is the walk on values |
| KernelTasks.Kernel.SwitchTask | kernel/src/multitasking/task.c:56-108 | switchTask in memory refines switchTask on values |
| KernelTasks.Kernel.YieldNow | kernel/src/multitasking/task.c:343-349 | yield, then the switch |
| KernelTasks.Kernel.CreateTask | kernel/src/multitasking/task.c:255-259 | A new task is on no list |
| KernelTasks.Kernel.RunTaskNow | kernel/src/multitasking/task.c:202-219 | Only a created task joins the run queue, at its end; the identifier or -1 is returned |
| KernelTasks.Kernel.Fork | kernel/src/multitasking/task.c:316-341 | The new task is queued under the next identifier |
| KernelTasks.Kernel.FindSemaphore | kernel/src/multitasking/semaphore.c:38-48 | The search returns the first semaphore with the id |
| KernelTasks.Kernel.SemInit | kernel/src/multitasking/semaphore.c:51-68 | A new semaphore, last in the list, with an empty wait queue |
| KernelTasks.Kernel.SemSignal | kernel/src/multitasking/semaphore.c:70-77 | At most one permit back, and not above the initial value |
| KernelTasks.Kernel.SemWait | kernel/src/multitasking/semaphore.c:79-96 | A permit, or the switch and the task first in the wait queue |
| KernelTasks.Kernel.SemFree | kernel/src/multitasking/semaphore.c:98-107 | Refused, or the semaphore and its wait queue are gone from memory |
| KernelTasks.Kernel.Semctl | kernel/src/multitasking/semaphore.c:32-116 | All commands and all error answers: the new state and the returned id or -1 |
| Semaphores.WaitersDrain | kernel/src/multitasking/semaphore.c:12-30 | As long as no semctl call comes between, min(count, waiting) waiters get a permit one per switch, last parked first, whatever else the tasks do |
| Semaphores.RunIds | kernel/src/multitasking/semaphore.c:60-60 | Over every run no two semaphores share an id |
| Semaphores.SignalUndoesWait | kernel/src/multitasking/semaphore.c:70-96 | A wait that got a permit is undone by a signal |
| Semaphores.SignalAsWrittenExact | kernel/src/multitasking/semaphore.c:75-76 | With the bound of line 75 as written, a permit given back survives, and the step is the intended one, exactly when the stray value exceeds the count |
| Semaphores.MutexLostAsWritten | kernel/src/multitasking/semaphore.c:70-77 | With a stray 0 in line 75 the first unlock of a mutex after boot is lost |
| Semaphores.StuckForever | kernel/src/multitasking/semaphore.c:70-77 | As written, a semaphore that has run out of permits and is signalled with stray zeros never has one again and is never freed, over every run, whatever the tasks and the other semaphores do and whatever strays the others get |
| Semaphores.MutexStuck | kernel/src/multitasking/semaphore.c:70-77 | So a mutex locked once after boot stays locked for ever |
| Mutexes.NamedIs | kernel/src/multitasking/semaphore.c:38-48 | An id finds the one semaphore that has it |
| Mutexes.LockUnlock | shared/src/multitasking/mutex.c:8-14 | An uncontended lock and unlock leaves the system as it was |
| Mutexes.UnlockUnheld | shared/src/multitasking/mutex.c:12-18 | Unlocking a mutex that nobody holds changes nothing, so that it can be freed afterwards |
| Mutexes.Mutex.InitMutex | shared/src/multitasking/mutex.c:3-6 | The mutex names a new semaphore that starts at 1 |
| Mutexes.Mutex.Lock | shared/src/multitasking/mutex.c:8-10 | Lock is a wait on the semaphore the mutex names |
| Mutexes.Mutex.Unlock | shared/src/multitasking/mutex.c:12-14 | Unlock is a signal |
| Mutexes.Mutex.Free | shared/src/multitasking/mutex.c:16-18 | Free, without an answer to the caller |
| FrameBitmap.SetBit | kernel/src/memory_managment/paging.c:15-15 | Setting bit j of a word changes no other bit |
| FrameBitmap.ClearBit | kernel/src/memory_managment/paging.c:16-16 | Clearing bit j of a word changes no other bit |
| FrameBitmap.TakenIs | kernel/src/memory_managment/paging.c:7-17 | Frame 32i + j is bit j of word i |
| FrameBitmap.MaskDoubles | kernel/src/memory_managment/paging.c:15-17 | Bit 0 has the value 1, and each bit twice the value of the one before |
| FrameBitmap.FrameMap.FirstFrame | kernel/src/memory_managment/paging.c:37-46 | The lowest free frame; -1 exactly when every frame is taken |
| FrameBitmap.FrameMap.SetFrame | kernel/src/memory_managment/paging.c:15-15 | Exactly one frame more is taken |
| FrameBitmap.FrameMap.ClearFrame | kernel/src/memory_managment/paging.c:16-16 | Exactly one frame less is taken |
| PageFrames.GiveFrame | kernel/src/memory_managment/paging.c:51-87 | Giving a free frame to an entry without one keeps frame ownership |
| PageFrames.TakeFrame | kernel/src/memory_managment/paging.c:92-100 | Taking a frame back keeps frame ownership |
| PageManager.Paging.ClaimFrame | kernel/src/memory_managment/paging.c:76-80 | One frame more in use, the lowest; refused exactly when all are |
| PageManager.Paging.AllocFrame | kernel/src/memory_managment/paging.c:72-87 | The entry gets the lowest free frame and its flags, or keeps what it had; PANIC exactly when memory has run out |
| PageManager.Paging.FreeFrame | kernel/src/memory_managment/paging.c:92-100 | The frame is free again and the entry empty; an entry without a frame is left alone |
| PageManager.Paging.LinkFrame | kernel/src/memory_managment/paging.c:51-67 | The entry is mapped to the frame of the same number; an entry with a frame is left alone, whatever that frame is |
| PageRanges.FlagsAre | kernel/src/memory_managment/paging.c:62-85 | What allocFrame and linkFrame make of an entry, field by field: present, writeable if asked for, closed to user mode if it is the kernel's, marked when the kernel's directory is current, accessed and dirty as before |
| PageManager.Paging.GetPage | kernel/src/memory_managment/paging.c:249-265 | Finds or makes the table; no address under any directory reads differently afterwards |
| PageManager.Paging.AllocPage | kernel/src/memory_managment/paging.c:125-126 | The page of an address gets a frame and the flags asked for, or keeps what it had; PANIC exactly when it has none and memory has run out |
| PageManager.Paging.AllocFrames | kernel/src/memory_managment/paging.c:122-127 | Succeeds if and only if the frames in use and the pages of the range without one are together no more than there are; then every page has a frame, exactly those frames more are in use, new pages have the flags asked for, and everything else is as it was |
| PageManager.Paging.AllocFramesReversed | kernel/src/memory_managment/paging.c:132-137 | The same for the pages from the one of the upper bound down, the lowest page left out |
| PageRanges.EndsExactly | kernel/src/memory_managment/paging.c:122-127 | The loop over a range stops if and only if its 32-bit counter does not wrap, and then after as many rounds as without wrapping |
| PageRanges.EndsDownExactly | kernel/src/memory_managment/paging.c:132-137 | The same for the loop that runs down |
| PageRanges.CoversExactly | kernel/src/memory_managment/paging.c:122-127 | Which loops stop after visiting every page of a range |
| PageManager.Paging.FreeFrames | kernel/src/memory_managment/paging.c:143-149 | Every page of the range is without a frame; the others are as they were |
| PageManager.Paging.CloneTable | kernel/src/memory_managment/paging.c:332-354 | A copy with the flags of the source and frames of its own with the same contents; PANIC exactly when there are fewer free frames than mapped entries |
| PageManager.Paging.CloneDir | kernel/src/memory_managment/paging.c:359-382 | Kernel tables are shared, the others copied; PANIC exactly when the free frames do not suffice |
| PageManager.Paging.FreeTable | kernel/src/memory_managment/paging.c:270-278 | The table and exactly its frames are released |
| PageManager.Paging.MirrorPage | kernel/src/memory_managment/paging.c:113-114 | One page is identity-mapped; one that was mapped, or is set so already, changes nothing at all |
| PageManager.Paging.FreeDir | kernel/src/memory_managment/paging.c:387-395 | The directory, its private tables and exactly their frames are released; kernel tables stay; the directory may be the current one |
| PageManager.Paging.SwitchPageDir | kernel/src/memory_managment/paging.c:235-244 | Only the current directory changes |
| PageTables.WriteIsolated | kernel/src/memory_managment/paging.c:359-382 | A store to a private page is seen at no address of any other directory |
| PageTables.WriteReads | kernel/src/memory_managment/paging.c:249-265 | Within the directory a store is seen at its own address and no other |
| PageLaws.BitExact | kernel/src/memory_managment/paging.c:72-100 | A bit outside the reserved set is set exactly when one page entry, and only one, holds the frame |
| PageLaws.CloneReads | kernel/src/memory_managment/paging.c:332-382 | A clone reads at every address the byte its source reads, and faults where the source faults |
| PageLaws.CloneFlags | kernel/src/memory_managment/paging.c:341-349 | Every page of the clone that has a frame is as writeable, as open to user mode, and so on, as in the source |
| PageLaws.CloneKeeps | kernel/src/memory_managment/paging.c:359-382 | Cloning changes no byte read through the directories that exist |
| PageLaws.ForkIsolates | kernel/src/multitasking/task.c:330-334 | After a fork a store to a private page by one side leaves every byte the other side reads as it was at the fork |
| PageLaws.WritesIsolated | kernel/src/multitasking/task.c:330-334 | However many such stores the others make |
| PageLaws.FreeKeeps | kernel/src/memory_managment/paging.c:387-395 | Releasing a directory changes no byte read through any other |
| PageLaws.FreeUndoesClone | kernel/src/memory_managment/paging.c:359-395 | freeDir after cloneDir restores the exact bitmap, tables and directories, and every address reads the same |
| PageRounding.FlipIsXor | kernel/src/memory_managment/paging.c:106-107 | The XOR of every 32-bit word has the value of the arithmetic form that the model uses |
| PageRounding.MaskIsAnd | kernel/src/multitasking/task.c:173-174 | So has the mask, which lets the lowest bit through |
| PageRounding.FlipSteps | kernel/src/memory_managment/paging.c:105-114 | Which pages are visited, exactly: those from start to end, and one more when end lies less far into its page than start |
| PageRounding.MirrorExactly | kernel/src/memory_managment/paging.c:105-114 | allocFramesMirrored stops after visiting every page from start to end if and only if end lies below the last two pages of the address space, or in the lower of them with no page more to visit |
| PageRounding.MirrorLastPage | kernel/src/memory_managment/paging.c:105-114 | A concrete end in the last page: the loop does not run |
| PageRounding.MirrorEndless | kernel/src/memory_managment/paging.c:105-114 | A concrete range for which the loop never stops |
| PageRounding.SectionSteps | kernel/src/multitasking/task.c:173-185 | The pages visited for a section, exactly: one before it when it starts inside a page, one behind it when it starts even and ends odd |
| PageRounding.SectionStops | kernel/src/multitasking/task.c:173-185 | The loop for a section goes on for ever exactly when it starts at an even address and ends at an odd one in the last page but one |
| PageRounding.SectionExactly | kernel/src/multitasking/task.c:173-185 | For all nonempty sections of the address space: the loop stops after visiting every page of the section if and only if it does not begin inside page 0, ends below the last page, and is not of that kind |
| PageRounding.SectionFirstPage | kernel/src/multitasking/task.c:179-185 | A concrete section that begins inside page 0: the loop does not run |
| PageRounding.SectionLastPage | kernel/src/multitasking/task.c:182-185 | Two that end inside or with the last page: neither does it |
| PageRounding.SectionEndless | kernel/src/multitasking/task.c:182-185 | One for which the loop never stops |
| PageRounding.KernelExactly | kernel/src/memory_managment/paging.c:154-166 | For all nonempty kernel sections: the loop stops after visiting every page if and only if the section does not begin inside page 0 and the range it is given is sound |
| PageRounding.KernelLost | kernel/src/memory_managment/paging.c:154-166 | Concrete kernel sections for which nothing is mapped |
| PageRounding.KernelEndless | kernel/src/memory_managment/paging.c:154-166 | And one for which the loop never stops |
| PageSections.AllocSection | kernel/src/multitasking/task.c:173-185 | Succeeds if and only if the free frames suffice for the pages without one; then every page visited has a frame, and every address of a sound section |
| PageSections.AllocFramesMirrored | kernel/src/memory_managment/paging.c:105-117 | The pages visited are identity-mapped with the flags asked for, pages mapped before and pages outside keep their entries, and only frames of the range come into use; on a range that is settled nothing changes, and afterwards it is |
| PageSections.MirrorTwice | kernel/src/memory_managment/paging.c:105-117 | A second call on the same range is allowed and changes no table, directory, bit or byte |
| PageSections.AllocKernelSection | kernel/src/memory_managment/paging.c:154-166 | Every address of a sound kernel section is identity-mapped |
| PageSections.AllocKernelSections | kernel/src/memory_managment/paging.c:208-214 | One section after the other, as at boot: though neighbours overlap by a page, each can still be mapped in its turn, and all are in the end |
| PageRanges.MirroredAgain | kernel/src/memory_managment/paging.c:51-53 | What is identity-mapped may be identity-mapped again |
| PageRanges.MirrorableStays | kernel/src/memory_managment/paging.c:51-53 | Identity-mapping one range leaves every other range mappable that was, where they overlap too |
| Numbers.NumeralDenotes | shared/src/stdlib.c:78-82 | In every base the numeral consists of digits below the base, has the value it was made from, the value of a digit being its place in the string of line 81, and has no leading 0 unless it stands for 0 |
| Numbers.NumeralExactly | shared/src/stdlib.c:78-82 | In bases 2 to 36 it is the only such string |
| Numbers.NumeralReads | shared/src/stdlib.c:78-82 | In bases 2 to 16 its digits are those of strtoi, with the same value |
| Numbers.ReverseInPlace | shared/src/stdlib.c:87-91 | The in-place reversal, everything behind it untouched |
| Numbers.EmitDigits | shared/src/stdlib.c:78-82 | The digits of the value read as unsigned, least significant first; the test of line 85 never succeeds |
| Numbers.Itoa | shared/src/stdlib.c:69-92 | The numeral of the value read as unsigned, then NUL, in bases 2 to 36, in any greater base whose digits all have a character, and for 0 in base 1; nothing behind it changes |
| Parsing.Overflows | shared/src/stdlib.c:104-104 | The test of line 104 is true exactly when one more digit leaves the range |
| Parsing.Atoi | shared/src/stdlib.c:94-113 | On any string the mathematical value clamped to the range of int32_t |
| Parsing.ReadDigits | shared/src/stdlib.c:172-186 | The longest run of digits, its value modulo 32 bits |
| Parsing.Prefix | shared/src/stdlib.c:156-170 | The base and the start of the digits for every prefix |
| Parsing.Strtoi | shared/src/stdlib.c:137-192 | Spaces, sign, prefix and digits: the value modulo 32 bits and the place where reading stopped |
| Parsing.StrtoiReadsItoa | shared/src/stdlib.c:69-192 | strtoi reads back every int32_t that itoa wrote, in bases 2 to 16, without wrapping for values that are not negative |
| Parsing.AtoiReadsItoa | shared/src/stdlib.c:69-113 | atoi reads back what itoa wrote in base 10 exactly when the value is not negative |
| Parsing.WriteRead | shared/src/stdlib.c:69-192 | Writing and reading end to end, over the buffer |
| Reading.DigitExactly | shared/src/stdlib.c:172-179 | Which characters stand for which digit in strtoi |
| Reading.AtoiReads | shared/src/stdlib.c:94-113 | For any number of blanks, any sign, any decimal digits and any rest: the number with its sign, or the nearest int32_t |
| Reading.StrtoiReads | shared/src/stdlib.c:137-192 | For any white space, sign, prefix, digits and rest: the number with its sign in the base that base and prefix call for, and the place behind the digits |
| Reading.AtoiReadsSigned | shared/src/stdlib.c:94-113 | atoi reads back every decimal numeral with a sign in front, or gives the nearest int32_t |
| Reading.StrtoiReadsSigned | shared/src/stdlib.c:137-192 | strtoi reads back every numeral of bases 2 to 16 with white space and a sign in front |
| Tokens.SpansExact | shared/src/stdlib.c:205-239 | The tokens of the recursive definition are exactly the maximal non-empty stretches without delimiters |
| Tokens.SpansOrdered | shared/src/stdlib.c:205-239 | They come from left to right with a delimiter between one and the next |
| Tokens.IsDelim | shared/src/stdlib.c:194-203 | True exactly for the characters of the delimiter string before its NUL |
| Tokens.Tokenizer.SkipDelimiters | shared/src/stdlib.c:213-223 | Stops behind the leading delimiters |
| Tokens.Tokenizer.FindEnd | shared/src/stdlib.c:226-238 | Stops at the end of the token |
| Tokens.Tokenizer.Strtok | shared/src/stdlib.c:205-239 | One call: the answer, the new place in the static pointer, the one character overwritten |
| Tokens.Tokenizer.Tokenize | shared/src/stdlib.c:205-239 | Calls until the first NULL hand out the tokens of the original string, and each still stands in the buffer at the end |
| Tokens.TokensAre | shared/src/stdlib.c:205-239 | What was handed out are the maximal stretches, all of them, each once and in order, and each reads as a C string at its place |
| SymbolSearch.NearestIs | kernel/src/fs/elf/elf.c:83-94 | The smallest wrapped difference belongs to the predecessor, or, if every entry lies above the address, to the greatest of all |
| SymbolSearch.TypeBits | kernel/include/fs/elf/elf.h:185-188 | The type of a symbol is in the low four bits of its info, whatever its binding |
| SymbolSearch.FindNearestSymbol | kernel/src/fs/elf/elf.c:76-99 | The first symbol of the type with the greatest value not above the address; NULL and all-above cases included |
| SymbolSearch.FindNearestSection | kernel/src/fs/elf/elf.c:34-54 | The same for sections |
| SymbolSearch.AnswerBelow | kernel/src/fs/elf/elf.c:76-99 | The answer lies at or below the address exactly when some entry of the type does |

## Left out

- KernelHeap.HeapObject.Alloc: requests above 2^32 - 12 bytes, and growth past the end of the 32-bit address space, are outside its precondition; `HeapAlloc.RequestFits`, `RequestWraps` and `ExpandExact` say exactly when the 32-bit sums wrap.
- KernelHeap.HeapObject.PAlignedAlloc: the same limits, one page and 24 bytes lower.
- KernelHeap.HeapObject.Free: a pointer inside the heap has to be a live payload; what free does to other words is not described.
- KernelHeap.HeapObject.CreateHeap: the two ASSERTs, and a range of at least HEAP_MIN_SIZE as all callers pass it, are the precondition.
- KernelHeap.HeapObject.Expand: frames are not drawn from the bitmap; a new page appears with arbitrary contents, and heap growth inside cloneDir and getPage does not feed back into frame accounting.
- KernelTasks.Kernel.SwitchTask: registers are one flag (ecx holds the death marker) and the exit value in eax; the copied context, the kernel stack and the page directory switch are not modelled.
- KernelTasks.Kernel.Fork: the new task's copied registers and address space; the copy of the address space is `PageManager.Paging.CloneDir`.
- KernelTasks.Kernel.DestroyTask: the call of freeDir; it is `PageManager.Paging.FreeDir`.
- KernelTasks.Kernel.SemWait: a wait of the kernel task that would block is outside the precondition.
- KernelTasks.Kernel.SemInit: nextSemaphoreID and nextPID are unbounded; their wrap after 2^32 calls is not modelled. copyFromUser is the parameter `initial`.
- PageManager.Paging.LinkFrame: only frames that are free or set aside at boot, in tables of the kernel; linking a busy frame, which the code allows, aliases frames by design.
- PageManager.Paging.AllocFrames: ranges for which the loop never stops are outside the precondition, here and in AllocFramesReversed and FreeFrames; `PageRanges.EndsExactly` and `EndsDownExactly` show that no others are; every caller makes missing tables.
- PageManager.Paging.CloneDir: the physicalAddr field of a directory.
- PageSections.AllocSection: sections for which the loop never stops are outside the precondition; `PageRounding.SectionStops` says which these are.
- PageSections.AllocFramesMirrored: so are ranges for which its loop never stops, and unmapped pages whose frame is in use for something else.
- Numbers.Itoa: base 0, where the code divides by 0; base 1 for values other than 0, where it never stops; and values with a digit beyond the 36 characters, where it reads behind them.
- Parsing.Strtoi: signed overflow, undefined in C, is taken to wrap around.
- LinkedLists.Ram.Store: list nodes are words of an address map; partial overlap of words at odd addresses is not modelled.
- TaskingRuns.SystemSafety: a task is taken to signal only what it holds; runs in which any task signals anything are those of `Permits.CountsBounded`.
- Interrupts: every call is one step; nothing happens between the stores of one call.
- Page faults that map memory on demand, initPaging's boot layout, CR0, CR3 and TLB.
- ELFLoad, lookup by name, module discovery: the lookups get tables that are already parsed.
- Ports, serial line, timer, keyboard, screen, PCI, BIOS32, ACPI, VESA, descriptor tables, printf, the shell and the modules.
- stopTask outside destroyTask, copyToUser, getCPL, the pre-heap bump allocator, cyclic buffers, memcpy and the other plain string copies: they would only add easy members.
