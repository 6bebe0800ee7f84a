# RT-Thread kernel: a verified model

This project models the core of the RT-Thread kernel in Dafny and proves what the
kernel promises about it, for every input and every run.

| part | files | what is proved |
|---|---|---|
| mutexes with priority inheritance | `Mutex*.dfy` | the propagation loop always stops; no priority inversion along any blocking chain in any run; every thread has exactly the priority it claims if and only if all hand-offs fit under their ceilings and all late clean-ups fit; mutual exclusion from the answers of the calls |
| small-memory heap | `Blocks.dfy`, `BlockLinks.dfy`, `BlockLive.dfy`, `Bytes.dfy`, `HighWater.dfy`, `SmallMem*.dfy` | an exact, coalesced partition; exactly first fit; exact counters and high-water mark; kept bytes |
| memory-pool heap | `MemHeap*.dfy` | the same on a ring with a free list, with growth and shrinking in place; an exact high-water mark; all other blocks keep their bytes |
| slab allocator | `Slab*.dfy` | page runs as sets; live allocations share no byte and keep their bytes; exact accounting and high-water mark |
| timers | `Timer*.dfy` | a skip list that refines one ordered row, over runs of any length across tick wrap-arounds; a check fires exactly the due timers, in order, while callbacks start and stop timers; every timer has the delay last set for it |
| schedulers | `Bitmap.dfy`, `Ready*.dfy`, `UpScheduler.dfy`, `MpScheduler.dfy` | bit search, two-level bitmap, ready lists, and that the most urgent eligible thread runs, on one core and on several; with its idle thread, every core always has one; when threads only yield, who gets a turn and who never does |
| events | `Event.dfy`, `WordBits.dfy` | a send wakes exactly the satisfied threads and loses no wake-up |
| message queues | `Message*.dfy` | every node in one place while threads interleave; no forgotten sleeper; order of delivery over whole runs |
| worst-case stack analysis | `Stack*.dfy` | the memoised search gives exactly the heaviest call chain, or unbounded exactly when there is none |
| aligned allocation | `Aligned*.dfy` | the result is aligned as asked exactly when a power of two is asked for; for every alignment the hidden pointer survives until the free |

Code that changes state is a class with the fields of the source. Each method is proved
against a function or predicate on values, and lemmas prove the properties of those.
Ghost fields (a partition, a chain of nodes, a set of live allocations) say what the
pointers stand for. Threads, mutexes, timers and message nodes are numbered. Lists
that the source links through pointers are sequences, except where the links are the
point (heap headers, free lists, message nodes), where they are modelled one by one.
Code that runs under a lock is one step. Where the lock is dropped in between, as in
message queues and timer callbacks, the steps are separate methods.

## Invariants

Every method of a class keeps its `Valid`, so it holds after every run of calls.

- `SmallMem`: the blocks tile the heap, aligned, with no two free neighbours; forward and back links agree; `lfree` is the lowest free block or the end marker; `used` is the sum of the used blocks and `max` the largest value it has had.
- `MemHeap`: the same on a ring; the free list holds exactly the free blocks, once each; `available` is the sum of the free data bytes; `maxUsed` is the most bytes in use in any partition the heap has been in.
- `Slab`: every page has one owner; the page list is sorted, disjoint and coalesced and covers exactly the free pages; the page table names the zone or run of every page in use; in every zone `nfree` is the length of the free chunks plus the never-used tail, the free chunks are exactly those not live, and each list of zones holds exactly the zones of its index with a free chunk; `used` is the sum charged for the live allocations and `max` the largest value it has had.
- `TimerList`: every row is a sub-sequence of the row below, and the last row holds each timer at most once and is ordered in the window that starts at the last check.
- `UpScheduler`, `MpScheduler`: a priority is marked exactly when its list is not empty; a thread is in the list of its priority (and binding) exactly when it is ready; a thread on a core is in no list. In `MpScheduler` every idle thread that has been set up is bound to its core, and ready or current there, until it is itself removed, suspended or bound elsewhere.
- `Event`: no waiting thread is satisfied by the flags.
- `MessageQueue`: every node is queued, free or held, exactly once; `entry` is the length of the queue and the tail its last node; the queue is ordered by priority unless an urgent message is in it; while threads sleep on one side, each message, or each free node, has a different woken thread on its way to it.
- `Analysis`: every written entry is right, and bounded entries were finished after those they are made of.
- `AlignedHeap`: every aligned block lies in its own underlying block, behind the word that holds its address.

## Findings

- A release that hands a mutex over does not raise the new owner to the ceiling of the
  mutex. `MutexSteps.HandOffSettledIff` gives the exact condition and
  `MutexWitnesses.HandOffIgnoresCeiling` a run.
- A clean-up that comes late, after another timeout has changed the priority of its thread,
  compares that priority with the owner and may skip the recompute. The owner then keeps an
  inherited priority, even when it holds nothing any more. `MutexSteps.CleanUpSettledIff`
  gives the exact condition and `MutexWitnesses.LateCleanUpKeepsBoost` a run.
- An urgent message does not set the priority of its node, so it keeps or breaks the
  priority order depending on what the node carried before.
  `MessageQueueModel.UrgentBreaksOrder` gives the exact condition and
  `MessageQueueModel.UrgentOvertakes` a run.
- The aligned allocation rounds the alignment up to a word and masks with it, so the result
  is aligned as the caller asked, whatever block it lies in, only when the caller asked for
  a power of two. `AlignedModel.AskedAlignedIff` gives the exact condition and
  `AlignedModel.TwelveMisplaced` an alignment that is rounded to a power of two and still
  fails. `AlignedModel.PlacedAlignedIff` says the same of the rounded alignment.
- On several cores, a core prefers its own queue at equal priority. So when two threads of the
  highest priority are bound to a core and only yield, an unbound thread of that priority
  never gets that core. `ReadyTurns.FairIff` gives the exact condition,
  `ReadyTurns.TwoBoundStarve` an input, and `MpScheduler.MpScheduler.YieldTurns` shows it on
  the scheduler.
- A message queue cuts the number of its nodes to 16 bits, so a pool with room for exactly
  65536 nodes is refused (`MessageQueue.CapacityIs`, `MessageQueue.FullPoolRefused`).
- The memory-pool heap tests the request strictly against the available bytes, so it
  refuses a fit that would take the last of them (`MemHeapModel.RefusedFitIff`,
  `MemHeapModel.FreshPoolRefuses`).

## Model

| member | source | states |
|---|---|---|
| `MutexPropagation.LoopStops` | rt-thread/src/ipc.c:868-920 | From any well-formed state, deadlocked wait cycles included, the propagation loop stops: a number of turns fixed by the number of threads and priorities is always enough. |
| `MutexPropagation.ChainBoundsLoop` | rt-thread/src/ipc.c:868-920 | When the blocking chain from a thread ends, the loop makes at most one turn per thread of that chain, whatever cycles there are elsewhere. |
| `MutexPropagation.RoundsWF` | rt-thread/src/ipc.c:868-920 | The loop leaves every taken list, suspend list and owner reference well formed. |
| `MutexPropagation.EnqueueSorted` | rt-thread/src/ipc.c:241-285 | A priority-ordered suspend list stays ordered when a thread joins it. |
| `MutexPropagation.RequeueOrdered` | rt-thread/src/ipc.c:868-920 | Moving a blocked thread whose priority changed keeps all suspend lists ordered. |
| `MutexLoopInvariants.UpdateSettled` | rt-thread/src/ipc.c:868-920 | Bringing one thread to the priority it claims and following the chain restores, for every thread, that its priority is the most urgent of its own and of the mutexes it holds (ceilings included), also while the fields of some mutexes are out of date. |
| `MutexLoopInvariants.UpdateCovered` | rt-thread/src/ipc.c:868-920 | Even when equality is already lost elsewhere, the same update keeps every owner at least as urgent as all it must inherit. |
| `MutexSteps.CheapTestAgrees` | rt-thread/src/ipc.c:922-943 | The short test on release (recompute only if a ceiling is set or the priority equals the mutex field) gives the same priorities as recomputing every time. |
| `MutexSteps.TakeFreeSettled` | rt-thread/src/ipc.c:1366-1382 | Taking a free mutex, with its ceiling, keeps every thread at the priority it claims and every field right that was. |
| `MutexSteps.BlockSettled` | rt-thread/src/ipc.c:1394-1426 | So does blocking on an owned mutex, with propagation along the chain. |
| `MutexSteps.HandOffSettledIff` | rt-thread/src/ipc.c:1615-1681 | So does a hand-off if and only if the ceiling of the mutex is not more urgent than the new owner. |
| `MutexSteps.HandOffCovered` | rt-thread/src/ipc.c:1615-1681 | A hand-off always keeps owners at least as urgent as their waiters. |
| `MutexSteps.VacateSettled` | rt-thread/src/ipc.c:1690-1698 | So does a release nobody waits for. |
| `MutexSteps.CeilingSettled` | rt-thread/src/ipc.c:1149-1181 | So does changing a ceiling. |
| `MutexSteps.ExpireSettled` | rt-thread/src/thread.c:106-134 | A timeout puts only the field of the mutex that was waited on out of date. |
| `MutexSteps.CleanUpSettledIff` | rt-thread/src/ipc.c:1459-1506 | A clean-up, however late, brings that field up to date, and keeps every thread at the priority it claims if and only if its test on the owner succeeds or a recompute would not move the owner. |
| `MutexSteps.TimeOutFits` | rt-thread/src/ipc.c:1478-1479 | A clean-up right after its timeout, from a state where all equations hold, always meets that condition. |
| `MutexSteps.TimeOutExact` | rt-thread/src/ipc.c:1459-1506 | So a timeout and its clean-up together keep all inheritance equations. |
| `MutexSteps.CleanUpCovered` | rt-thread/src/ipc.c:1459-1506 | The clean-up after a timeout, run at any later time, keeps owners covering waiters. |
| `MutexRuns.InitialExact` | rt-thread/src/ipc.c:1005-1030 | A system in which no mutex is taken has exact inheritance. |
| `MutexRuns.StepCovered` | rt-thread/src/ipc.c:1324-1707 | Every step (take, release, ceiling, timeout, clean-up) keeps all lists and links well formed and every owner at least as urgent as its waiters. |
| `MutexRuns.RunCovered` | rt-thread/src/ipc.c:1324-1707 | The same in every state of every run. |
| `MutexRuns.OwnerCoversWaiter` | rt-thread/src/ipc.c:868-920 | In such a state the owner is at least as urgent as any thread blocked on its mutex. |
| `MutexRuns.NoInversionAlongChains` | rt-thread/src/ipc.c:868-920 | No priority inversion: in every state of every run, the end of any chain of blocked threads is at least as urgent as its beginning, however long the chain. |
| `MutexRuns.StepSettledIff` | rt-thread/src/ipc.c:1324-1707 | Any step, timeouts separated from their clean-up included, keeps every thread at the priority it claims, and every field right but those with an outstanding clean-up, if and only if the hand-off or clean-up it makes fits. |
| `MutexRuns.RunSettledIff` | rt-thread/src/ipc.c:1324-1707 | In every run, that holds in all states so far if and only if all hand-offs and clean-ups so far fitted. |
| `MutexRuns.RunExact` | rt-thread/src/ipc.c:1324-1707 | In such a run all inheritance equations hold whenever no clean-up is outstanding. |
| `MutexRuns.CeilingFreeRunExact` | rt-thread/src/ipc.c:1324-1707 | In every run without ceilings in which each timeout is cleaned up at once, all inheritance equations hold in every state. |
| `MutexOwnership.TakeAnswers` | rt-thread/src/ipc.c:1324-1430 | From the states before and after only: a take answers taken exactly when the caller has one hold more, waiting exactly when it is blocked on the mutex, timed out exactly when nothing changed and another thread has the mutex, full exactly when nothing changed and the caller has it 255 times; no other thread and no other mutex is touched, and no owner loses its mutex. |
| `MutexOwnership.ReleaseAnswers` | rt-thread/src/ipc.c:1581-1707 | Likewise: released exactly when the caller has one hold less, not the owner exactly when it had none and nothing changed; with the last hold the mutex goes to a most urgent of those that waited, which runs again, or nobody waited and it is free. |
| `MutexOwnership.CeilingAnswers` | rt-thread/src/ipc.c:1149-1181 | A ceiling in range is stored and the old one returned; one out of range changes nothing. |
| `MutexOwnership.TimeOutAnswers` | rt-thread/src/ipc.c:1459-1506 | A timeout and its clean-up change the waiting of that thread and nothing else about threads and mutexes. |
| `MutexOwnership.HoldsAccount` | rt-thread/src/ipc.c:1324-1707 | In every run, a thread holds a mutex exactly as often as its takes that succeeded, at once or after a wait, exceed its releases that did. |
| `MutexOwnership.MutualExclusion` | rt-thread/src/ipc.c:1324-1707 | In every run, from a successful take of a mutex to the last release of it, the thread is its owner and no other thread is told that it has taken it. |
| `MutexWitnesses.LateCleanUpKeepsBoost` | rt-thread/src/ipc.c:1478-1506 | A run from the initial state, without ceilings and hand-offs, in which a late clean-up leaves an owner at priority 3 that claims 20, and still has it after it released its mutex. |
| `MutexWitnesses.HandOffIgnoresCeiling` | rt-thread/src/ipc.c:1653-1681 | A run from the initial state in which a hand-off leaves the new owner at priority 20 with a mutex of ceiling 5. |
| `MutexKernel.Kernel.GetMutexPriority` | rt-thread/src/ipc.c:845-865 | The loop over the taken list gives the most urgent of the initial priority and the held mutexes. |
| `MutexKernel.Kernel.SuspListEnqueue` | rt-thread/src/ipc.c:241-285 | The list walk puts the thread before the first less urgent waiter. |
| `MutexKernel.Kernel.ThreadUpdatePriority` | rt-thread/src/ipc.c:868-920 | The loop along the blocking chain computes the propagation that the lemmas above are about, and terminates. |
| `MutexKernel.Kernel.MutexTake` | rt-thread/src/ipc.c:1324-1430 | Take (nested, full, free, refused without waiting, blocking) does the model step, its answer means what `TakeAnswers` says, and every owner covers its waiters. |
| `MutexKernel.Kernel.CheckAndUpdatePrio` | rt-thread/src/ipc.c:922-943 | Recomputes the priority exactly when a ceiling is set or the priority equals the field, and says whether it did. |
| `MutexKernel.Kernel.MutexRelease` | rt-thread/src/ipc.c:1581-1707 | Release (not the owner, nested, hand-off to the first waiter, nobody waiting) does the model step, its answer means what `ReleaseAnswers` says, and every owner covers its waiters. |
| `MutexKernel.Kernel.MutexSetPrioCeiling` | rt-thread/src/ipc.c:1149-1181 | A ceiling in range is stored, the old one returned and the owner brought to what it claims, and every owner covers its waiters; one out of range changes nothing. |
| `MutexKernel.Kernel.ThreadTimeout` | rt-thread/src/thread.c:106-134 | The timeout of a blocked thread takes it off the suspend list and keeps every owner covering its waiters. |
| `MutexKernel.Kernel.TakeFailed` | rt-thread/src/ipc.c:1459-1506 | The error path of a timed-out take does the model clean-up and keeps every owner covering its waiters. |
| `Blocks.TakeBlockHeap` | rt-thread/src/mem.c:305-358 | Splitting or taking a free block that fits leaves a partition of the heap into aligned blocks with no two free neighbours. |
| `Blocks.FreeBlockHeap` | rt-thread/src/mem.c:497-539 | Freeing and joining with both neighbours leaves such a partition. |
| `Blocks.ShrinkBlockHeap` | rt-thread/src/mem.c:449-475 | The in-place shrink leaves such a partition, with the block where it was. |
| `Blocks.AllocThenFree` | rt-thread/src/mem.c:271-539 | Taking a block and freeing it again gives back the same partition. |
| `Blocks.LiveDisjoint` | rt-thread/src/mem.c:271-389 | Data areas lie inside the heap, behind their headers, and apart from each other. |
| `Blocks.RequestAligned` | rt-thread/src/mem.c:286-290 | A request is rounded up to an aligned size, the least that holds it or the least size of a block, and rounding twice is rounding once. |
| `BlockLive.TakeLive` | rt-thread/src/mem.c:305-358 | Taking a free block adds its extent to the used ones and changes no other. |
| `BlockLive.TakeEnds` | rt-thread/src/mem.c:308-358 | A block that is taken ends right behind the request if what is left over is a block of its own, and otherwise where the free block ended. |
| `BlockLive.FreeLive` | rt-thread/src/mem.c:497-539 | Freeing takes away the extent of that block and changes no other. |
| `BlockLive.MoveReplaces` | rt-thread/src/mem.c:480-486 | Taking another block and freeing the old one replaces one extent by the other: there are as many used blocks as before, none starts twice, and all others stay. |
| `SmallMemModel.FirstFit` | rt-thread/src/mem.c:299-305 | The block it names fits and none below it does; none means nothing fits. |
| `SmallMemModel.PlugHolesSums` | rt-thread/src/mem.c:119-157 | Joining free neighbours changes neither the used byte count nor the lowest free block. |
| `SmallMemModel.TakeBlockSums` | rt-thread/src/mem.c:339-355 | The used byte count grows by exactly the full length of the block taken. |
| `SmallMemModel.FreeBlockSums` | rt-thread/src/mem.c:526-536 | Freeing lowers the used byte count by the full length of the block, and the lowest free block becomes the lower of the two. |
| `SmallMemModel.ShrinkSums` | rt-thread/src/mem.c:449-475 | The same for the in-place shrink. |
| `SmallMemModel.AllocFreeRestores` | rt-thread/src/mem.c:271-539 | Allocating and then freeing what was returned restores the partition, and so the counters that are functions of it. |
| `SmallMemModel.MoveTakes` | rt-thread/src/mem.c:480-486 | The block a move takes is another one with room for the new size, and the old block is untouched until it is freed. |
| `SmallMemLive.AllocAnswers` | rt-thread/src/mem.c:271-389 | From the partitions before and after only: one used block more, at the lowest free block that fits, with room for the request; or nothing changed and nothing fits. |
| `SmallMemLive.ResizeAnswers` | rt-thread/src/mem.c:403-488 | From the partitions before and after only: with size 0 the block is gone; else exactly one used block stands for it, in place with exactly the new size or at the lowest fit, as many used blocks as before, all others with their extents, and the used byte count changed by the difference; or nothing changed and nothing fits. |
| `HighWater.PeakIs` | rt-thread/src/mem.c:341-356 | The maximum is one of the values the used counter has had, and none was larger. |
| `SmallMem.SmallMem.Create` | rt-thread/src/mem.c:170-234 | The heap is one free block that fills the region up to its last aligned address, or there is no room and nothing is set up, exactly as the size test says. |
| `SmallMem.SmallMem.PlugHoles` | rt-thread/src/mem.c:119-157 | The pointer updates join the block with a free right and a free left neighbour, keep both header lists consistent, and keep the lowest free block. |
| `SmallMem.SmallMem.Search` | rt-thread/src/mem.c:299-305 | The walk from the lowest free block finds exactly the first fit of the whole heap. |
| `SmallMem.SmallMem.AdvanceLowest` | rt-thread/src/mem.c:367-380 | The walk leaves the pointer at the lowest free block or at the end marker. |
| `SmallMem.SmallMem.Alloc` | rt-thread/src/mem.c:271-389 | The result and the partition are exactly those of first fit; a refused request changes nothing; headers, used, maximum and lowest free block stay exact. |
| `SmallMem.SmallMem.Shrink` | rt-thread/src/mem.c:449-475 | The in-place shrink keeps headers, counters, maximum and lowest free block exact. |
| `SmallMem.SmallMem.Realloc` | rt-thread/src/mem.c:403-488 | Does what `ResizeAnswers`, or for a null pointer `AllocAnswers`, says; the kept bytes are the same at the new place; the values the used counter passes through, and with them its maximum, are exactly those of the partitions on the way. |
| `SmallMem.SmallMem.Free` | rt-thread/src/mem.c:497-539 | Freeing joins with both neighbours and keeps headers, counters, maximum and lowest free block exact; a null pointer changes nothing. |
| `MemHeapModel.TakeListOk` | rt-thread/src/memheap.c:240-309 | After a take the free list holds exactly the free blocks, each once. |
| `MemHeapModel.TakeAvailable` | rt-thread/src/memheap.c:285-297 | The available byte count falls by exactly the free data bytes that are gone. |
| `MemHeapModel.GrowHeap` | rt-thread/src/memheap.c:415-474 | Growing in place leaves a partition with no two free neighbours. |
| `MemHeapModel.GrowTotal` | rt-thread/src/memheap.c:431-436 | Growing in place lowers the free bytes by exactly the growth. |
| `MemHeapModel.GrowListOk` | rt-thread/src/memheap.c:440-474 | After growing in place the free list again holds exactly the free blocks. |
| `MemHeapModel.CutDownHeap` | rt-thread/src/memheap.c:521-576 | Shrinking in place, with the rest joined to a free successor, leaves such a partition, and the free bytes change as counted. |
| `MemHeapModel.CutDownListOk` | rt-thread/src/memheap.c:546-572 | After shrinking in place the free list again holds exactly the free blocks. |
| `MemHeapModel.UserBytesKept` | rt-thread/src/memheap.c:187-719 | Writes to headers that exist before or after an operation touch no user byte of a block that lives through it. |
| `MemHeapModel.LeftThenRight` | rt-thread/src/memheap.c:647-684 | Joining left first and then right gives the same partition as the small allocator, which joins right first. |
| `MemHeapModel.RefusedFitIff` | rt-thread/src/memheap.c:204-204 | A request that some free block fits is refused if and only if it asks for all available bytes. |
| `MemHeapModel.FreshPoolRefuses` | rt-thread/src/memheap.c:204-204 | In every fresh pool the request for all of its data bytes fits and is refused. |
| `MemHeapKept.PeakIs` | rt-thread/src/memheap.c:286-297 | The high-water mark is reached by some partition the heap has been in, and passed by none. |
| `MemHeapKept.OthersFromHeaders` | rt-thread/src/memheap.c:187-719 | Writing only headers of the partitions before and after keeps every block that lives through with all its user bytes. |
| `MemHeapKept.MoveDone` | rt-thread/src/memheap.c:494-501 | A move brings the user bytes to their new place and keeps every other block with its bytes. |
| `MemHeapLive.AllocAnswers` | rt-thread/src/memheap.c:187-347 | From the partitions before and after only: one used block more, at the first listed block that fits, exactly when the request can be served. |
| `MemHeapLive.ResizeAnswers` | rt-thread/src/memheap.c:362-585 | From the partitions before and after only: exactly one used block stands for the old one, in place whenever it is large enough or the free block behind it is, and then with exactly the stated size, or at the first listed fit; all others keep their extents; or nothing changed and there is no other block. |
| `MemHeapLive.FreedIsNext` | rt-thread/src/memheap.c:685-708 | A block that was just freed, and not joined to its left, is the next to be taken when it is large enough. |
| `MemHeapLive.RestIsNext` | rt-thread/src/memheap.c:240-283 | So is what was split off a block that was just taken. |
| `MemHeapLive.TailIsNext` | rt-thread/src/memheap.c:440-576 | So is what a resize in place leaves free behind the block. |
| `MemHeap.MemHeap.constructor` | rt-thread/src/memheap.c:79-154 | The initial pool is one free block in a ring with the tailer, alone on the free list. |
| `MemHeap.MemHeap.UnlinkAfter` | rt-thread/src/memheap.c:46-54 | Unlinking a block removes it from the ring and writes only headers. |
| `MemHeap.MemHeap.Search` | rt-thread/src/memheap.c:216-232 | The walk over the free list finds the first listed block of sufficient size; failing, no block of the pool fits. |
| `MemHeap.MemHeap.Alloc` | rt-thread/src/memheap.c:187-347 | Takes the first listed fit, or refuses and changes nothing; ring, free list, available and high-water mark stay exact, and every block in use keeps its bytes. |
| `MemHeap.MemHeap.Coalesce` | rt-thread/src/memheap.c:647-708 | A released block is joined with both free neighbours, listed once, and the byte count stays in step with the partition. |
| `MemHeap.MemHeap.Free` | rt-thread/src/memheap.c:594-719 | The block is freed and joined, every other block keeps its bytes, a null pointer changes nothing. |
| `MemHeap.MemHeap.Grow` | rt-thread/src/memheap.c:415-484 | In-place growth keeps ring, free list, counters and high-water mark exact, writes only headers, and keeps every other block. |
| `MemHeap.MemHeap.Shrink` | rt-thread/src/memheap.c:505-576 | In-place shrink keeps ring, free list, counters and high-water mark exact, writes only headers, and keeps every other block. |
| `MemHeap.MemHeap.Move` | rt-thread/src/memheap.c:494-501 | A move takes a new block, copies the bytes and frees the old block, keeping every other block; a refused move changes nothing. |
| `MemHeap.MemHeap.Realloc` | rt-thread/src/memheap.c:362-585 | Frees, or does what `AllocAnswers` or `ResizeAnswers` says; the kept bytes are the same at the result, every other block keeps its bytes, and the high-water mark counts every partition passed through; size 0 with a null pointer changes nothing. |
| `SlabPages.PageAllocTakes` | rt-thread/src/slab.c:216-246 | A page allocation takes exactly its pages out of the free set and fails only when no run is long enough; runs stay in order and apart. |
| `SlabPages.PageAllocFirst` | rt-thread/src/slab.c:216-246 | The pages are the front of the first run that is long enough. |
| `SlabPages.PageFreeAdds` | rt-thread/src/slab.c:257-299 | A page free adds exactly its pages, joining with adjacent runs on both sides. |
| `SlabPages.CanonicalUnique` | rt-thread/src/slab.c:257-299 | A set of free pages has only one such list, so the order of frees does not matter. |
| `SlabPages.AllocThenFree` | rt-thread/src/slab.c:216-299 | Freeing what was just allocated restores the page list. |
| `SlabModel.ZoneIndexOk` | rt-thread/src/slab.c:411-469 | A request gets the least chunk of its step that holds it, and the zone index names exactly that chunk size. |
| `SlabModel.ZoneIndexTwice` | rt-thread/src/slab.c:411-469 | Rounding a chunk size again gives the same size and index. |
| `SlabModel.OffsetIs` | rt-thread/src/slab.c:623-633 | The first chunk lies behind the header, at the next multiple of the chunk size when the bit test finds a power of two, and of 8 otherwise. |
| `AlignedModel.PowerTest` | rt-thread/src/slab.c:626-630 | The bit test holds exactly for the powers of two. |
| `SlabModel.MaxChunksOk` | rt-thread/src/slab.c:623-641 | A new zone has room for at least three chunks behind its header, all inside its pages. |
| `SlabModel.PagesForOk` | rt-thread/src/slab.c:506-512 | A large request gets the least number of pages that hold it. |
| `SlabModel.ZoneLimitIs` | rt-thread/src/slab.c:366-368 | Requests take whole pages from 8 KiB on in the smallest zones and from 16 KiB on in the others. |
| `SlabSteps.LiveApart` | rt-thread/src/slab.c:490-655 | Two live allocations, chunks or page runs, share no byte. |
| `SlabSteps.InPages` | rt-thread/src/slab.c:490-655 | A live allocation lies in pages that belong to its zone, behind the zone header, or to itself alone. |
| `SlabSteps.PowerAligned` | rt-thread/src/slab.c:626-634 | Chunks whose size is a power of two up to a page are aligned to their size. |
| `SlabSteps.GiveBack` | rt-thread/src/slab.c:786-800 | A freed chunk joins its zone free list exactly once. |
| `SlabSteps.AllFree` | rt-thread/src/slab.c:808-812 | A zone whose free count equals its chunk count has no live chunk. |
| `Slab.TableFinds` | rt-thread/src/slab.c:760-783 | The page table leads from every live address back to its zone, or to its page count. |
| `Slab.CarriedIs` | rt-thread/src/slab.c:700-722 | A resize carries over no fewer bytes than the smaller of the old allocation and the new size. |
| `Slab.RetireTest` | rt-thread/src/slab.c:808-812 | The test of the source says that no chunk of the zone is live and another zone of its size has a free chunk. |
| `Slab.Slab.constructor` | rt-thread/src/slab.c:324-383 | After set-up exactly the pages behind the page table are free. |
| `Slab.Slab.ZoneSize` | rt-thread/src/slab.c:361-364 | The loop picks the zone size: 32, 64 or 128 KiB, doubled as long as it stays below one 1024th of the heap. |
| `Slab.Slab.PageAlloc` | rt-thread/src/slab.c:216-246 | The list walk computes the page allocation of the model. |
| `Slab.Slab.PageFree` | rt-thread/src/slab.c:257-299 | The list walk computes the page free of the model. |
| `Slab.Slab.AllocLarge` | rt-thread/src/slab.c:506-530 | A large request gets the pages of the page allocation, fresh, or nothing changes and no run is long enough. |
| `Slab.Slab.AllocChunk` | rt-thread/src/slab.c:543-580 | A chunk of the first listed zone that was not live becomes live; all zone, list, table and byte counts stay exact. |
| `Slab.Slab.AllocZone` | rt-thread/src/slab.c:582-655 | The first chunk of the zone kept back last or, without one, of new pages, and the zone is listed first; or nothing changes and there are no pages for a zone. |
| `Slab.Slab.Alloc` | rt-thread/src/slab.c:490-655 | One allocation more, not live before, at least as large as asked, charged at its rounded size, with the maximum exact; or nothing changes, and only because pages are exhausted. |
| `Slab.Slab.FreeChunk` | rt-thread/src/slab.c:781-800 | Exactly that allocation ends, its chunk comes first in its zone, and a zone that was full is listed first. |
| `Slab.Slab.RetireZone` | rt-thread/src/slab.c:808-850 | An empty zone is kept back, and its pages are given up exactly when more than the threshold would be kept. |
| `Slab.Slab.Free` | rt-thread/src/slab.c:738-853 | Exactly that allocation ends and its bytes are uncharged; its zone is given up exactly when none of its chunks is live and another zone of its size has a free chunk, and then kept back or its pages given back; a null pointer changes nothing. |
| `Slab.Slab.CopyPiece` | rt-thread/src/slab.c:695-722 | A copy into one allocation changes no other. |
| `Slab.Slab.Realloc` | rt-thread/src/slab.c:669-727 | Keeps the chunk when the size rounds to it, else replaces one allocation by a fresh one large enough with the bytes of the smaller copied, else changes nothing; every other allocation keeps its bytes, and the maximum also counts both allocations while they are held together; a refusal means that pages are exhausted. |
| `TimerOrder.WindowOrder` | rt-thread/src/timer.c:437-444 | Inside a window of half the tick range the wrapping comparisons are the order of ticks counted from its start, across wrap-around. |
| `TimerOrder.TickTests` | rt-thread/src/timer.c:437-505 | On 32-bit ticks the two comparisons are what they say: less than half the tick range behind, and less than half ahead. |
| `TimerOrder.InsertAt` | rt-thread/src/timer.c:421-448 | A timer lands behind all that are not later and in front of all that are. |
| `TimerOrder.InsertOrdered` | rt-thread/src/timer.c:421-448 | Insertion keeps the row ordered. |
| `TimerOrder.InsertWithout` | rt-thread/src/timer.c:181-189 | Inserting and removing a timer leaves everybody else in place. |
| `TimerOrder.InsertThins` | rt-thread/src/timer.c:457-469 | Inserting in both rows, or only in the fuller one, keeps the thinner row a sub-sequence of the fuller. |
| `TimerModel.StartedNotDue` | rt-thread/src/timer.c:399-420 | A timer started now with a delay below half the tick range is not due, whatever the tick. |
| `TimerModel.StartKeeps` | rt-thread/src/timer.c:399-474 | A start keeps the timers in order and takes only that timer from the due ones. |
| `TimerModel.DoKeeps` | rt-thread/src/timer.c:399-691 | Whatever a callback does (start, stop, change the delay of any timer), the invariant holds and only that timer leaves the due ones. |
| `TimerCheck.FireKeeps` | rt-thread/src/timer.c:496-549 | One turn of a check fires the first due timer, re-arms it exactly when it is periodic and its callback did not end it, and leaves the other due timers but those the callback touched. |
| `TimerCheck.CheckFires` | rt-thread/src/timer.c:483-551 | A check fires exactly the due timers that no earlier callback of the check touched, and leaves none due. |
| `TimerCheck.ExpectedThins` | rt-thread/src/timer.c:483-551 | They fire in the order of the row, each at most once. |
| `TimerCheck.FiredInOrder` | rt-thread/src/timer.c:483-551 | So they fire in timeout order, equal timeouts in the order started. |
| `TimerCheck.FiredUnmentioned` | rt-thread/src/timer.c:483-551 | A timer that fires was not touched by a callback before it. |
| `TimerCheck.UnfiredMentioned` | rt-thread/src/timer.c:483-551 | A due timer that does not fire was touched by a callback that ran. |
| `TimerRuns.OrderedShift` | rt-thread/src/timer.c:437-444 | The order of a row does not depend on the window it is looked at in. |
| `TimerRuns.TickKeeps` | rt-thread/src/timer.c:483-551 | A tick, not too long after the last check, keeps the timers in order in the window of that check. |
| `TimerRuns.TurnSteady` | rt-thread/src/timer.c:496-549 | So does a turn of a check, whatever its callback does with short enough delays. |
| `TimerRuns.DoneSteady` | rt-thread/src/timer.c:548-550 | A check that finds nothing due starts a new window at its tick. |
| `TimerRuns.DoneGoesOn` | rt-thread/src/timer.c:548-550 | After it the tick can go on, so runs have no end. |
| `TimerRuns.RunSteady` | rt-thread/src/timer.c:399-551 | In every state of every run of ticks, starts, stops and checks, however often the tick wraps, the pending timers are in order in the window that starts at the last check, as long as checks are at most a gap apart and delays stay below half the tick range less the gap. |
| `TimerDelays.StartTells` | rt-thread/src/timer.c:399-474 | A start makes the timer pending with its delay counted from now and touches no other timer; in its own callback it is refused. |
| `TimerDelays.StopTells` | rt-thread/src/timer.c:626-653 | A stop takes an active timer off the row and touches no other; an inactive one is left alone. |
| `TimerDelays.SetTimeTells` | rt-thread/src/timer.c:683-691 | The new time is stored, the timer is inactive, off the row and out of its callback list if it was active, and no other timer is touched. |
| `TimerDelays.SetThenStart` | rt-thread/src/timer.c:399-691 | A new time and then a start: pending, with the new time counted from the start. |
| `TimerDelays.NextLeft` | rt-thread/src/timer.c:399-691 | In a run, a tick, call or turn of a check leaves each timer as its last call on it says, and one it neither calls nor fires untouched. |
| `TimerDelays.RunDelays` | rt-thread/src/timer.c:399-691 | In every run, every timer has the delay last set for it, in a callback or outside. |
| `TimerDelays.RunStarts` | rt-thread/src/timer.c:399-691 | In every run, a timer that is started, in a callback or outside, is pending with the delay last set for it, counted from the tick of the start. |
| `TimerList.RowThins` | rt-thread/src/timer.c:399-474 | Every row of the skip list is a sub-sequence of every row below it. |
| `TimerList.RowOrdered` | rt-thread/src/timer.c:399-474 | Every row is ordered when the last one is. |
| `TimerList.ClimbIs` | rt-thread/src/timer.c:454-469 | The rows a timer joins above the last are as many as there are clear groups of counter bits before the first that is not clear. |
| `TimerList.TimerList.constructor` | rt-thread/src/timer.c:831-840 | Empty rows and inactive timers. |
| `TimerList.TimerList.Remove` | rt-thread/src/timer.c:181-189 | The timer leaves every row. |
| `TimerList.TimerList.Search` | rt-thread/src/timer.c:420-448 | Going down the rows, each from the timer found above, finds in every row the place a search from its start would find. |
| `TimerList.TimerList.Link` | rt-thread/src/timer.c:450-469 | The timer is linked at those places in the last row and in one more row for each clear group of counter bits, up to the first that is not clear. |
| `TimerList.TimerList.Request` | rt-thread/src/timer.c:399-691 | At any tick, a start is the ordered insertion into the last row, a stop takes the timer off, a new time stops it first; all rows stay in order. |
| `TimerList.TimerList.Stop` | rt-thread/src/timer.c:626-653 | A stop takes the timer off all rows; an inactive timer is refused. |
| `TimerList.TimerList.SetTime` | rt-thread/src/timer.c:683-691 | The new time is stored and the timer inactive; one that was active is off all rows; no other timer changes. |
| `TimerList.TimerList.Rebased` | rt-thread/src/timer.c:437-444 | Rows that are in order in one window are in order in every window that holds the pending timeouts. |
| `TimerList.TimerList.Turn` | rt-thread/src/timer.c:496-549 | One turn of a check on the skip list, at the tick it reads, fires the first timer, which is due, and does the turn of the model; the tick may be later at the next turn. |
| `TimerList.TimerList.Serve` | rt-thread/src/timer.c:483-551 | A whole check at one tick fires the expected timers, in order, leaves none due, and starts a new window. |
| `Bitmap.FfsFinds` | rt-thread/src/kservice.c:893-976 | Both versions of the bit search, the byte table and the modulo-37 table, give the number of the lowest set bit, and 0 only for 0. |
| `Bitmap.ResidueFinds` | rt-thread/src/kservice.c:893-919 | The 32 powers of two have different residues modulo 37 and the table inverts them. |
| `ReadyBits.MarkedIs` | rt-thread/src/scheduler_up.c:404-408 | Marking a priority sets that one, in both build variants, and keeps the two bitmap levels together. |
| `ReadyBits.UnmarkedIs` | rt-thread/src/scheduler_up.c:437-448 | Unmarking clears that one and keeps the two levels together. |
| `ReadyBits.HighestIs` | rt-thread/src/scheduler_up.c:89-102 | The two-level search gives the most urgent marked priority, and nothing just when the group is zero. |
| `ReadyQueue.EnqueueOk` | rt-thread/src/scheduler_up.c:386-408 | After linking, the bitmap marks exactly the priorities with waiting threads and each ready thread is in its list once. |
| `ReadyQueue.EnqueuePlace` | rt-thread/src/scheduler_up.c:389-400 | A yielding thread comes behind every thread of its priority and another before all of them; all keep their order and no other list changes. |
| `ReadyQueue.DequeueOk` | rt-thread/src/scheduler_up.c:435-448 | The same after unlinking. |
| `ReadyQueue.TopIs` | rt-thread/src/scheduler_up.c:89-109 | The thread found is ready and no ready thread is more urgent; none is found just when none is ready. |
| `UpScheduler.UpScheduler.constructor` | rt-thread/src/scheduler_up.c:145-188 | Empty ready lists with the first thread on the core. |
| `UpScheduler.UpScheduler.Insert` | rt-thread/src/scheduler_up.c:370-413 | A yielding thread comes behind every thread of its priority, another before all of them, and nothing else moves; the current thread just runs on. |
| `UpScheduler.UpScheduler.Remove` | rt-thread/src/scheduler_up.c:422-452 | The thread leaves its list, and the priority its mark when the list is empty. |
| `UpScheduler.SwitchedIs` | rt-thread/src/scheduler_up.c:237-268 | A switch makes the thread it leaves ready if it ran and takes its yield mark; the other runs; nobody else changes. |
| `UpScheduler.UpScheduler.Wake` | rt-thread/src/scheduler_comm.c:103-145 | A suspended thread becomes ready, before all of its priority unless it yields, another is refused. |
| `UpScheduler.UpScheduler.Suspend` | rt-thread/src/thread.c:886-961 | The current thread becomes suspended; one that is not running is refused. |
| `UpScheduler.UpScheduler.ChangePriority` | rt-thread/src/scheduler_comm.c:175-217 | The thread has the new priority and, if ready, leaves its list and is first in the new one. |
| `UpScheduler.UpScheduler.Schedule` | rt-thread/src/scheduler_up.c:201-324 | The current thread stays if and only if nobody is ready or it runs and is more urgent than all who are, or as urgent and does not yield; otherwise the first of the most urgent list runs, and the thread left goes to the end of its list when it yields and to the front otherwise; no ready thread is more urgent than the one left running. |
| `ReadyTurns.OneQueueFair` | rt-thread/src/scheduler_up.c:201-324 | When the threads of the highest priority only yield, each of those that wait runs within as many schedules as threads wait. |
| `UpScheduler.UpScheduler.YieldTurns` | rt-thread/src/thread.c:581-591 | Any number of yields: who runs, in order, and that each waiting thread of the priority does within as many yields as threads wait. |
| `MpScheduler.OneCore` | rt-thread/src/scheduler_mp.c:561-649 | No thread is current on two cores. |
| `MpScheduler.OnePlace` | rt-thread/src/scheduler_mp.c:259-385 | Every thread is on a core, in the one ready list of its binding and priority, or in neither, and never in both. |
| `MpScheduler.SourceIs` | rt-thread/src/scheduler_mp.c:218-252 | The thread found from the global and the local queue may run on the core, and no ready thread that may is more urgent. |
| `MpScheduler.SwitchedIs` | rt-thread/src/scheduler_mp.c:578-633 | A switch takes the core from the thread it leaves, which is ready without its yield mark if it ran; the other runs on the core; nobody else changes. |
| `MpScheduler.MpScheduler.constructor` | rt-thread/src/scheduler_mp.c:390-482 | Empty ready lists with one thread on each core. |
| `MpScheduler.MpScheduler.Insert` | rt-thread/src/scheduler_mp.c:259-341 | A thread goes to the list of its binding and priority, behind all when it yields and before all otherwise, or runs on when it still has a core; every idle thread stays one. |
| `MpScheduler.MpScheduler.Remove` | rt-thread/src/scheduler_mp.c:344-385 | A thread leaves the ready list it may be on, and every other idle thread stays one. |
| `MpScheduler.MpScheduler.Suspend` | rt-thread/src/thread.c:886-961 | The current thread of a core becomes suspended and keeps its core until that core schedules; every other idle thread stays one. |
| `MpScheduler.MpScheduler.Wake` | rt-thread/src/scheduler_comm.c:103-145 | A suspended thread that still has its core runs on instead of being queued; another becomes ready; a thread that is not suspended is refused. |
| `MpScheduler.MpScheduler.Bind` | rt-thread/src/scheduler_mp.c:1209-1290 | A binding out of range means any core; a ready thread changes its queue; every idle thread but one that is bound elsewhere stays one. |
| `MpScheduler.MpScheduler.ChangePriority` | rt-thread/src/scheduler_comm.c:175-217 | The thread has the new priority and, if ready, is in the list of it; every idle thread stays one. |
| `MpScheduler.RescheduleKeepsIdles` | rt-thread/src/scheduler_mp.c:561-649 | A schedule on any core keeps every idle thread ready or current on its own core, and leaves a thread that may run there on every core that has one. |
| `MpScheduler.MpScheduler.IdleInit` | rt-thread/src/idle.c:324-354 | Afterwards every core has an idle thread, bound to it and ready or running there. |
| `MpScheduler.MpScheduler.Pick` | rt-thread/src/scheduler_mp.c:218-252 | The most urgent ready thread that may run on the core, or none when there is none. |
| `MpScheduler.MpScheduler.Schedule` | rt-thread/src/scheduler_mp.c:561-649 | The current thread stays if and only if nobody ready may run on the core or it runs, may run there, and is more urgent than all who may, or as urgent and does not yield; otherwise the first of a most urgent list runs, an unbound one only if it is more urgent than all bound to the core; the thread left goes to the end of its list when it yields and to the front otherwise; afterwards the current thread runs and may run there if and only if it did before or a ready thread may; no ready thread that may run there is more urgent; the other cores keep theirs; the thread left is ready again if it can run on; on a core with an idle thread the current thread always runs and may run there. |
| `ReadyTurns.FairIff` | rt-thread/src/scheduler_mp.c:218-252 | When the threads of the highest priority only yield on a core, every waiting one gets its turn, and then within twice as many schedules as threads wait, if and only if none waits in the shared queue or at most one of them belongs to the queue of the core. |
| `ReadyTurns.SharedStarves` | rt-thread/src/scheduler_mp.c:218-252 | With two of them in the queue of the core, no thread of the shared queue ever runs there. |
| `ReadyTurns.TwoBoundStarve` | rt-thread/src/scheduler_mp.c:218-252 | Two threads bound to a core and a third that is not, all of one priority: however often the two yield, the third never has the core. |
| `MpScheduler.MpScheduler.YieldTurns` | rt-thread/src/thread.c:581-591 | Any number of yields on a core: who runs, in order, that all waiting threads do under that condition, and that otherwise none of the shared queue does. |
| `Event.ClearingSatisfiesNone` | rt-thread/src/ipc.c:2038-2041 | Clearing flags satisfies no waiting thread, so the one deferred clear of a send loses no wake-up. |
| `Event.SameBitsCleared` | rt-thread/src/ipc.c:2143-2152 | Clearing the requested flags and clearing the received flags is the same. |
| `Event.SatisfiedIs` | rt-thread/src/ipc.c:1993-2012 | Bit by bit: a wait for all is satisfied exactly when every flag it asks for is set, a wait for any exactly when one is, and it gets exactly the flags it asks for that are set. |
| `Event.SendEnds` | rt-thread/src/ipc.c:1986-2041 | After the walk, those told are exactly the satisfied ones and none of the rest is satisfied by what is left. |
| `Event.Event.Send` | rt-thread/src/ipc.c:1956-2052 | Bit by bit: exactly the waiters whose wait the flags there were and those sent meet are woken, each told which of its flags were there; then exactly the flags one of them clears go; nobody left waiting is met. |
| `Event.Event.Receive` | rt-thread/src/ipc.c:2088-2212 | Received exactly when the wait is met, bit by bit, with the flags asked for that are set, which are then cleared if asked; else timed out, or waiting. |
| `Event.Event.TimeOut` | rt-thread/src/ipc.c:2190-2197 | Only that thread stops waiting. |
| `Event.Event.Reset` | rt-thread/src/ipc.c:2257-2285 | No flags and nobody waiting. |
| `MessageQueueModel.SentOrdered` | rt-thread/src/ipc.c:3493-3517 | A priority send keeps the queue ordered by priority. |
| `MessageQueueModel.SentClass` | rt-thread/src/ipc.c:3493-3517 | It puts the message last among those of its priority and moves no other. |
| `MessageQueueModel.FirstInFirstOut` | rt-thread/src/ipc.c:3368-3910 | Without priorities, over every run of sends and receives, what was sent is what was received followed by what is queued. |
| `MessageQueueModel.FifoWithinPriority` | rt-thread/src/ipc.c:3368-3910 | With priorities the same holds within each priority, and the queue stays ordered. |
| `MessageQueueModel.ReceivesMostUrgent` | rt-thread/src/ipc.c:3857-3870 | A receive takes a message than which nothing left is more urgent. |
| `MessageQueueModel.UrgentBreaksOrder` | rt-thread/src/ipc.c:3676-3689 | An urgent message keeps the priority order exactly when the first queued message is not more urgent than the priority its node happens to carry. |
| `MessageQueueModel.UrgentOvertakes` | rt-thread/src/ipc.c:3676-3689 | A run: a message of priority 5 is sent and then an urgent one in a node that carries 0; the queue is out of order, and a receive takes the 0 before the 5. |
| `MessageLinks.HoldsIs` | rt-thread/src/ipc.c:3116-3130 | A list holds exactly the nodes of its kind, each once. |
| `MessageLinks.Room` | rt-thread/src/ipc.c:3533-3542 | While a node is held, the queue has fewer messages than there are nodes, so the counter cannot overflow. |
| `MessageQueue.MessageQueue.Create` | rt-thread/src/ipc.c:3084-3143 | All nodes, as many as fit cut to 16 bits, are free; a pool without room for one is refused. |
| `MessageQueue.CapacityIs` | rt-thread/src/ipc.c:3108-3115 | The nodes fit in the pool, and one more would not if and only if the pool is too small for 65536; a pool for exactly 65536 gets none. |
| `MessageQueue.FullPoolRefused` | rt-thread/src/ipc.c:3108-3115 | A pool of 1 MiB gets no node of 16 bytes. |
| `MessageQueue.NodeFits` | rt-thread/src/ipc.c:3119-3129 | Each node, with a message of full size, ends inside the pool and before the next node. |
| `MessageQueue.MessageQueue.SendBegin` | rt-thread/src/ipc.c:3390-3480 | One turn of the send loop: exactly one free node passes to the sender, or it waits, or is refused; a woken sender is on its way no more; while senders sleep, each free node has a different woken sender on its way to it. |
| `MessageQueue.MessageQueue.Fill` | rt-thread/src/ipc.c:3482-3488 | Filling a held node outside the lock changes no queued message and no list. |
| `MessageQueue.MessageQueue.FindSpot` | rt-thread/src/ipc.c:3497-3517 | The walk finds the first less urgent message or the end. |
| `MessageQueue.MessageQueue.SendEnd` | rt-thread/src/ipc.c:3490-3558 | The message is queued at its place and counted, the overflow branch is never taken, one receiver is woken, and other held nodes are untouched. |
| `MessageQueue.MessageQueue.UrgentBegin` | rt-thread/src/ipc.c:3654-3674 | A free node, or refusal without waiting. |
| `MessageQueue.MessageQueue.UrgentEnd` | rt-thread/src/ipc.c:3681-3717 | The message goes first and is counted, the overflow branch is never taken, and one receiver is woken. |
| `MessageQueue.MessageQueue.ReceiveBegin` | rt-thread/src/ipc.c:3777-3872 | One turn of the receive loop: the first message and its node, or wait, or time out; while receivers sleep, each message has a different woken receiver on its way to it. |
| `MessageQueue.MessageQueue.Copy` | rt-thread/src/ipc.c:3874-3885 | As much of the message as fits is copied. |
| `MessageQueue.MessageQueue.ReceiveEnd` | rt-thread/src/ipc.c:3886-3910 | The node is free again and one sender is woken. |
| `MessageQueue.MessageQueue.ReceiverTimesOut` | rt-thread/src/thread.c:106-134 | Only that receiver stops waiting, and nobody left is forgotten. |
| `MessageQueue.MessageQueue.SenderTimesOut` | rt-thread/src/thread.c:106-134 | Only that sender stops waiting, and nobody left is forgotten. |
| `MessageQueue.MessageQueue.Reset` | rt-thread/src/ipc.c:3972-4020 | Every queued node becomes free, nobody waits, and nodes held by others stay theirs. |
| `StackModel.UnlimitedCaller` | rt-thread/tools/WCS.py:278-281 | Calling a function without a bound has no bound. |
| `StackModel.UnlimitedCycle` | rt-thread/tools/WCS.py:264-267 | A call back to a function on the chain of callers is a cycle. |
| `StackMemo.MemoRight` | rt-thread/tools/WCS.py:246-290 | Any entry written at any moment of a search is right: unbounded exactly when a pointer call or a call cycle can be reached, else the heaviest chain of calls, with exactly the unresolved calls that can be reached. |
| `StackMemo.PathBounded` | rt-thread/tools/WCS.py:269-290 | Every chain of calls from a bounded function is free of cycles and pointer calls and within the bound. |
| `StackMemo.PathAttains` | rt-thread/tools/WCS.py:269-290 | Some chain of calls needs the whole bound. |
| `StackAnalysis.CalledUnbounded` | rt-thread/tools/WCS.py:271-281 | After an unbounded callee the caller is rightly unbounded, whatever was written to entries on the way. |
| `StackAnalysis.Ended` | rt-thread/tools/WCS.py:269-290 | When all callees are bounded, no caller on the chain was written meanwhile, and the new entry is sound. |
| `StackAnalysis.OrderIrrelevant` | rt-thread/tools/WCS.py:292-299 | Two searches in different orders agree on every function. |
| `StackAnalysis.Analysis.constructor` | rt-thread/tools/WCS.py:182-199 | At first exactly the functions given by hand have an entry. |
| `StackAnalysis.Analysis.CalcWcs` | rt-thread/tools/WCS.py:246-290 | The recursive, memoised search terminates and keeps every entry right. |
| `StackAnalysis.Analysis.CalcAll` | rt-thread/tools/WCS.py:292-299 | Visiting the functions in any order gives every one of them the right entry. |
| `AlignedModel.LowBits` | rt-thread/src/kservice.c:847-862 | Masking with one less than a power of two splits off the remainder. |
| `AlignedModel.UpIs` | rt-thread/src/kservice.c:847-850 | For a power of two the add-and-mask expression rounds up to the next multiple. |
| `AlignedModel.PlacedIs` | rt-thread/src/kservice.c:855-863 | With a power of two the result is aligned, at least a word past the block start, and at most the alignment further on. |
| `AlignedModel.PlacedInside` | rt-thread/src/kservice.c:855-863 | With any alignment but 0 the result is word-aligned, at least a word past the block start, and at most the alignment further on. |
| `AlignedModel.AskedAlignedIff` | rt-thread/src/kservice.c:825-863 | The result is a multiple of the alignment the caller asked for, for every underlying block, if and only if that alignment is a power of two. |
| `AlignedModel.TwelveMisplaced` | rt-thread/src/kservice.c:847-863 | With 8-byte words an alignment of 12 is rounded to 16, and a block at 0 gives 16, which is no multiple of 12. |
| `AlignedModel.PlacedAlignedIff` | rt-thread/src/kservice.c:855-863 | The result is a multiple of the word-rounded alignment for every block if and only if that is a power of two. |
| `AlignedHeap.LentApart` | rt-thread/src/kservice.c:835-872 | Two aligned blocks in use never overlap, hidden words included. |
| `AlignedHeap.Placement` | rt-thread/src/kservice.c:847-863 | For every alignment but 0 the block with its full rounded size fits in the underlying block, behind a word for the hidden pointer; for a power of two it is aligned. |
| `AlignedHeap.AlignedHeap.MallocAlign` | rt-thread/src/kservice.c:835-872 | An address whose size fits in the fresh underlying block, whose address is hidden in the word before; aligned for a power of two; failure changes nothing. |
| `AlignedHeap.AlignedHeap.FreeAlign` | rt-thread/src/kservice.c:881-889 | Whatever users wrote to their blocks in between, exactly the underlying block is released; a null pointer changes nothing. |

## Left out

- MutexKernel.Kernel.MutexRelease: assumes that making the first waiter ready does not fail, so the loop that skips a waiter whose timeout has just fired is not modelled.
- MutexKernel.Kernel.MutexTake: the wait flags (interruptible, killable) and signals are not modelled; a failed wait is a timeout.
- TimerList.TimerList.Serve: the tick does not advance during one check, while the source reads it again at every turn; `TimerList.TimerList.Turn` and `TimerRuns.RunSteady` cover a tick that advances between turns.
- TimerList.TimerList.Link: the rows to join are counted before they are linked, while the source tests the counter bits and links in one loop; the rows after it are the same.
- MessageQueue.MessageQueue.FindSpot: the walk ends before the node is linked, and an empty queue is linked like the end of one, while the source links inside its loop; the queue after it is the same.
- TimerDelays.SetTimeTells: a one-shot timer in its own callback is already inactive, so a new time leaves it on the list of the check, as in the source; it is not started again.
- SlabSteps.PowerAligned: alignment is stated up to a page, because zones are only page-aligned.
- SmallMem.SmallMem.Alloc: headers are kept apart from user bytes, so that header writes spare user bytes is a matter of the disjoint areas only; the pool heap states it byte by byte.
- MessageQueue.MessageQueue.SendBegin: the place a waiting thread takes in its list is left open, which covers both list orders; thread timers, signals and suspend failures are not modelled.
- UpScheduler.UpScheduler.Yield: a yield mark that no switch follows stays set, as in the source; round-robin time slices are not modelled.
- MpScheduler.MpScheduler.Schedule: interrupts between processors, lock nesting per core and pending signals are not modelled; whether scheduling is locked out is a parameter.
- AlignedHeap.AlignedHeap.MallocAlign: sizes and addresses do not wrap, and the alignment is not 0, for which the mask has no meaning; the underlying allocator is a parameter with its promises (word-aligned, not in use).
- Slab.Slab.Alloc: zone headers and the links in free chunks are kept apart from user bytes.
- StackAnalysis.Analysis.CalcWcs: whether a function is on the chain of callers is asked by identity; the source compares dictionaries, which is the same for distinct functions.
- Deleting and detaching mutexes, threads, timers, events and queues, and the priority control command of threads.
- Semaphores, mailboxes, memory pools, signals, completions and work queues, which would repeat the patterns above with less to prove.
- The best-fit build of the pool heap, the locks and heap tracing of all three heaps.
- The soft-timer thread and the search for the next timeout.
- Reading call graphs and stack files, name resolution and printing in the stack analysis.
- Context switching, hooks, logging, console, drivers, and everything outside the kernel core.
