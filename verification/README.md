# Hopter kernel: a verified model

Hopter is a Rust kernel for Cortex-M microcontrollers. This project models its four components in which correctness rests
on detailed state, and proves what they are for, for every input, every run and every interleaving:

* **Heap** (`BoundaryTags`, `FreeLists`, `FreeListOrder`, `HeapLayout`, `HeapRelease`, `HeapAcquire`, `HeapInit`, `HeapProperties`, `Allocator`,
  `HeapClient`). RAM is an array of 32-bit words that holds headers, footers and the two 16-bit links of each free chunk. The
  class `Allocator.Heap` updates it word by word in the order of the source. Its invariant says that headers tile the heap, that
  flags and footers agree with their neighbours, that no two free chunks touch, and that the six circular lists hold every free
  chunk exactly once. `HeapClient.Client.Run` then shows that any sequence of allocations, frees, writes and reads behaves like an
  ideal memory of separate objects, that each request gets its answer, and that an allocation is refused exactly when the heap of
  that moment cannot serve it; the heaps of all moments are tied to each other and to the ideal memory.
* **Soft lock and its clients** (`SoftLock`, `SoftLockCode`, `WaitQueue`, `WaitOutcome`, `Semaphore`,
  `SemaphoreAlone`, `Mutex`, `Channel`, `ChannelHistory`, `ChannelRefusal`, `Mailbox`, `MailboxHistory`, `TaskList`, `SleepQueue`,
  `SleepMachine`, `SleepRemoval`, `Scheduler`, `TaskStates`, `InsertOrder`, `PendSwitch`, `PendProgress`, `Containers`). The lock is a machine of atomic steps over a stack of contexts that preempt each other; the clients
  are machines built on it, with one step per atomic operation. A run is any schedule of enabled actions, and the results hold of
  every run. `SoftLockCode.Lock` is the code itself, with an arbitrary tree of preemptions at each atomic operation, proved to take
  only steps of the machine. `TaskList` and `SleepQueue` are classes that update their lists in place; `SleepMachine` is the sleep queue under every interleaving.
* **Segmented stacks** (`CallSignature`, `SegmentedStack`, `SegmentedStackCode`, `HotSplit`). Stacklets, trap frames and metadata
  are words of RAM. `SegmentedStackCode.Task` pushes and pops trap frames, extends and releases, and runs any tree of nested calls.
* **Unwinder** (`Bits`, `UnwindStream`, `UnwindInstruction`, `UnwindEncoding`, `UnwindTable`, `UnwindStep`, `UnwindMeaning`, `Prologue`,
  `Unwinder`, `UnwindState`, `UnwindIndex`). From the bytes of the exception index and table to the registers of the caller, up to whole call stacks. The
  standard is the Exception Handling ABI for the Arm Architecture, sections 6 (index table) and 10.3 (frame unwinding instructions).

Addresses are word indices in the heap and the segmented stack (the heap's count from the link offset), and bytes in the
unwinder. Integers are unbounded except where the source's width matters; there `% 0x1_0000_0000` or a bounded type says so.
Arithmetic wraps as in a release build. Memory accesses are sequentially consistent on one core. `heapless::MpMcQueue` is an
atomic bounded FIFO, an intrusive list a sequence with a linked flag for each task, a `spin` lock a boolean. Ticks, the address that
the heap returns for a stacklet, the contents of the tables and the order of preemptions are inputs.

## What the code does differently from its documentation or intent

* A heap buffer of 12 bytes passes the check in `mcu_heap_init`, but the 8-byte first chunk has its footer where its links are.
  `HeapInit.InitSoundIff` gives the exact condition.
* The search skips the size class of the request, so a request can fail although a free chunk would serve it
  (`Allocator.OwnClassSkipped`, `Allocator.EveryClassSkipped`). `Allocator.Heap.FailsIff`, `Allocator.Heap.FailsIffLarge` and
  `Allocator.Heap.MissesIff` say exactly when.
* The stacklet layout is documented with 12 bytes of metadata; `StackletMeta` has 16 and the distance to the boundary follows the struct (`SegmentedStack.OVERHEAD`).
* A hot-split cache entry that is empty has key 0 and factor 0. A site whose signature is 0 hits it, and is given nothing
  (`HotSplit.RoomIff`), so that its function finds its stacklet too small (`SegmentedStackCode.Task.ShortOnlyBy`).
* A call diverted to forced unwinding stays in the stack usage and in the signature (`SegmentedStackCode.DivertedOwes`).
* Between being notified and clearing up, a task in `wait_until_timeout` leaves the mailbox slot empty, so the assertion against
  a second waiter does not catch one that arrives then (`Mailbox.SecondWaiterIsLost`). `MailboxHistory.LostIff` and
  `MailboxHistory.ResultWrongIff` say exactly which waits are lost and which results are wrong.
* An entry that should long have been removed from the sleep queue can misplace a sleep of nearly 2^31 ms
  (`SleepQueue.LongestSleepMisplaced`). `TaskList.InsertSortedIff` and `SleepQueue.ExpiryRightIff` are the exact conditions.
* A tick handler that preempts `run_pended_op` between reading the tick and clearing the request is forgotten
  (`SleepMachine.CallIsErased`). `SleepMachine.AtRest` says exactly what is left behind, and `SleepMachine.NextWakingClears` that the
  next handler with full access makes up for it.
* Nothing keeps the initial count of a semaphore from being above its maximum, and then `try_up_allow_isr`, which tests for equality,
  is never refused until the count has come down; `Semaphore.CountIsLedger` says that only such a beginning leads there.
* `change_current_priority` and `sleep_ms` ask for a context switch without looking whether the scheduler is suspended. Where the
  task holds a suspension, `pick_next` stops the system (`PendSwitch.RashYieldDies`, `PendSwitch.DiesIff`).
* Popping registers tests the mask against the number of sp, not against its bit. `UnwindStep.PopRightIff` gives the masks for
  which this is right.
* The one-byte encodings for popping d8 to d[8 + n] are refused (`UnwindStep.ShortVfpRefused`; `UnwindStep.EndsWithErrorIff` has all
  that are), and "finish" does not end the interpretation (`UnwindStep.FinishGoesOn`; `UnwindStep.FinishHarmlessIff` says when
  that makes no difference, whatever comes before).

## Model

| member | source | states |
|---|---|---|
| BoundaryTags.HeaderComplete | src/allocator/heap.rs:112-126 | a header word is determined by its size and its two flags, so the accessors lose nothing |
| BoundaryTags.WithSize | src/allocator/heap.rs:124-126 | setting the size keeps both flags |
| BoundaryTags.FreeChunkStandsAlone | src/allocator/heap.rs:522-532 | in a tiled and tagged heap both neighbours of a free chunk are allocated: no two free chunks are adjacent |
| BoundaryTags.CoalesceKeepsTags | src/allocator/heap.rs:525-537 | turning a run of chunks into one free chunk keeps the tiling and every self flag, left flag and footer |
| BoundaryTags.TakeKeepsTags | src/allocator/heap.rs:583-593 | allocating a whole free chunk keeps the tiling and all tags |
| BoundaryTags.SplitKeepsTags | src/allocator/heap.rs:465-478 | splitting a free chunk into an allocated and a free part keeps the tiling and all tags |
| FreeLists.SetNext | src/allocator/heap.rs:271-273 | writing a next link changes neither the prev link in the same word nor any other |
| FreeLists.SetPrev | src/allocator/heap.rs:265-267 | writing a prev link changes neither the next link in the same word nor any other |
| FreeLists.ListIndexIsSizeClass | src/allocator/heap.rs:453-455 | for every 32-bit size, the leading-zeros computation yields the documented size class |
| FreeLists.UnlinkKeepsLinked | src/allocator/heap.rs:353-358 | unlinking leaves six well-formed circular lists, prev and next inverse through the 16-bit encoding, over all other chunks |
| FreeLists.LinkKeepsLinked | src/allocator/heap.rs:366-372 | linking behind a sentinel adds the chunk to that list and to no other, and keeps all lists well formed |
| FreeLists.ListIsItsClass | src/allocator/heap.rs:314-329 | following next from sentinel k meets exactly the free chunks of class k, each once, and comes back: a walk of the list terminates |
| FreeListOrder.LinkedFirst | src/allocator/heap.rs:366-372 | a chunk that is linked in comes first in its list, as it is read off RAM, and no other list changes |
| FreeListOrder.UnlinkedFrom | src/allocator/heap.rs:353-358 | a chunk that is taken out leaves every list as it was without it, in the same order |
| HeapLayout.LinkWordApart | src/allocator/heap.rs:265-273 | the link word of a free chunk is no header, no footer and no payload word of any other chunk |
| HeapLayout.WordsConserved | src/allocator/heap.rs:343-347 | allocated and free words add up to the heap |
| HeapRelease.RunFacts | src/allocator/heap.rs:425-436 | the run of an allocated chunk and its free neighbours is bounded by allocated chunks and holds no other allocated one |
| HeapRelease.MergeCompletes | src/allocator/heap.rs:380-417 | once the free neighbours are off their lists, writing the summed size into the first header yields the merged run |
| HeapRelease.LinkCompletes | src/allocator/heap.rs:525-542 | linking the coalesced chunk into the list of its new size re-establishes the whole heap invariant |
| HeapRelease.ReleaseAccounting | src/allocator/heap.rs:520 | freeing takes exactly the size of one chunk off the allocated total |
| HeapRelease.ReleaseSparesPayload | src/allocator/heap.rs:507-543 | releasing changes no payload word of any chunk that stays allocated |
| HeapAcquire.TakeCompletes | src/allocator/heap.rs:581-593 | allocating a chunk whole keeps the heap invariant |
| HeapAcquire.SplitTags | src/allocator/heap.rs:465-478 | all writes of a split together tag the two parts and disturb no other chunk |
| HeapAcquire.SplitAccounting | src/allocator/heap.rs:601 | a split adds exactly the requested part to the allocated total |
| HeapAcquire.CarveAcquires | src/allocator/heap.rs:581-593 | whether or not the excess can be a chunk, the invariant is kept, exactly one chunk becomes allocated, and other payloads are untouched |
| HeapInit.HeapStart | src/allocator/heap.rs:610-621 | the heap start is the data end rounded up to the next address that is 4 modulo 8, unless that leaves the address space |
| HeapInit.AcceptedSizes | src/allocator/heap.rs:623-630 | what the size check accepts: a first chunk of 8 bytes, or of at least 16 |
| HeapInit.EmptyListsLinked | src/allocator/heap.rs:638-642 | sentinels that link to themselves are six well-formed empty lists |
| HeapInit.InitEstablishes | src/allocator/heap.rs:610-668 | with at least 16 bytes for the first chunk, initialization leaves a heap that satisfies the invariant, with nothing allocated and one free chunk |
| HeapInit.SmallestBufferBreaks | src/allocator/heap.rs:628-667 | the 8-byte first chunk of a 12-byte buffer ends up with a wrong footer |
| HeapInit.InitSoundIff | src/allocator/heap.rs:623-668 | some header set and lists make the initialized heap well formed if and only if the first chunk has at least 16 bytes |
| HeapProperties.WalkFindsHeaders | src/allocator/heap.rs:162-164 | adding sizes from the first header on finds exactly the headers: RAM alone determines the chunks |
| HeapProperties.DoubleSizeIsSearched | src/allocator/heap.rs:482-484 | a chunk of at least twice the rounded size is in a list that the search visits |
| HeapProperties.PayloadWrite | src/allocator/heap.rs:97-99 | a write to an allocated payload keeps the heap invariant |
| HeapProperties.PayloadsDisjoint | src/allocator/heap.rs:551-607 | the payload words of two allocated chunks are disjoint and inside the heap |
| HeapProperties.RestingChunks | src/allocator/heap.rs:507-543 | when clients hold nothing, only the cached chunk and at most one free chunk on either side of it exist |
| Allocator.RoundedSize | src/allocator/heap.rs:556-562 | the rounded size is the least multiple of 8 that is at least 16 and holds header and payload |
| Allocator.FirstFitComplete | src/allocator/heap.rs:482-501 | the search finds a chunk exactly if one of the lists it visits holds one that is large enough |
| Allocator.OwnClassSkipped | src/allocator/heap.rs:482-501 | on a heap of one free chunk of the request's own class, the request fails even if the chunk is large enough |
| Allocator.EveryClassSkipped | src/allocator/heap.rs:482-501 | for each of the size classes 0 to 4 there is a well-formed heap with a free chunk of exactly the requested size, which the search does not find |
| Allocator.Heap.constructor | src/allocator/heap.rs:610-668 | the heap starts out valid, with nothing allocated or cached |
| Allocator.Heap.UnlinkChunk | src/allocator/heap.rs:353-358 | RAM becomes the function of RAM of which list well-formedness is proved |
| Allocator.Heap.LinkChunk | src/allocator/heap.rs:366-372 | RAM becomes the function of RAM of which list well-formedness is proved |
| Allocator.FirstOfListAt | src/allocator/heap.rs:489-497 | a chunk that is first to fit in a free list is found in RAM by following the links from the sentinel, and all chunks met before it there are too small |
| Allocator.Heap.SearchFirstFit | src/allocator/heap.rs:482-501 | the loop over lists and links terminates; a chunk found is in a list from the index of the request on, the first one met there in RAM that has the size, and no list between that index and its own holds one that has |
| Allocator.Heap.AllocateFromLists | src/allocator/heap.rs:545-607 | no chunk exactly if the search fails; otherwise the first one in search order, now in use, with at most 8 bytes more than asked for; the current and the maximal allocated size and the high water mark are moved exactly as far as this chunk demands |
| Allocator.Heap.MergeNeighborIfPossible | src/allocator/heap.rs:425-436 | the free neighbours are off their lists, and the first header of the run holds the size of the run |
| Allocator.Heap.ReleaseChunk | src/allocator/heap.rs:520-542 | the chunk and its free neighbours become one listed free chunk; the invariant holds and no other chunk is affected |
| Allocator.Heap.Free | src/allocator/heap.rs:507-543 | the freed chunk is cached and stays counted; the chunk cached before is released and taken off the count; all other payloads are kept |
| Allocator.Heap.SetFreeChunkHdrFtr | src/allocator/heap.rs:443-449 | exactly the header and the footer are written, as a free chunk of the size |
| Allocator.Heap.ReturnExcessToFreeList | src/allocator/heap.rs:465-478 | the excess is back on the list of its size if it has at least 16 bytes, and stays with the chunk otherwise |
| Allocator.Heap.AcquireChunk | src/allocator/heap.rs:581-593 | exactly the given free chunk becomes allocated, split if the rest can be a chunk |
| Allocator.Heap.Malloc | src/allocator/heap.rs:551-607 | null exactly for size 0 or if neither cache nor search serves; otherwise an 8-aligned payload of at least the rounded size that was not in use, the cached chunk if it serves and else the first one in search order, and all payloads in use are kept; the maximal allocated size is always the largest so far, and the high water mark the furthest end of a chunk taken from the lists |
| Allocator.Heap.PayloadSafety | src/allocator/heap.rs:551-607 | payloads in use are 8-byte aligned, inside the heap and pairwise disjoint, byte by byte |
| Allocator.Heap.Conservation | src/allocator/heap.rs:520-601 | CUR_ALLOC_SIZE plus the sizes of all free chunks is always the initial size |
| Allocator.Heap.FailureBound | src/allocator/heap.rs:482-501 | a simple bound that follows: when the search fails, every free chunk is smaller than twice the rounded size |
| Allocator.Heap.FailsIff | src/allocator/heap.rs:482-501 | the search fails if and only if every free chunk that would fit is of the request's own class and that is not the last class |
| Allocator.Heap.FailsIffLarge | src/allocator/heap.rs:482-501 | from 512 bytes on the search fails if and only if no free chunk has the rounded size |
| Allocator.Heap.MissesIff | src/allocator/heap.rs:482-501 | a failing search leaves a chunk that would fit if and only if one of the request's own class, below the last, would |
| Allocator.Heap.AtRest | src/allocator/heap.rs:507-543 | after all chunks have been freed only the cached one is allocated, and at most two free chunks remain |
| Allocator.Heap.HeadersFromRam | src/allocator/heap.rs:610-668 | the chunks of a valid heap are those found by following sizes from the heap start |
| HeapClient.Client.Run | src/allocator/heap.rs:507-607 | any sequence of allocations, frees, writes and reads yields a trace of the ideal memory; event k answers request k, with at least the requested bytes, the object named, and the value stored; before each request and at the end RAM is a well-formed heap that holds the ideal memory of that moment; an allocation is refused if and only if neither cache nor search of that RAM serves it; and each answer moves RAM and the cached chunk as it should: not at all, by the one word written, into or out of the cache, or the first chunk in search order taken from the lists, with the payloads of all others kept |
| HeapClient.Client.Do | src/allocator/heap.rs:507-607 | one request is answered as the ideal memory and the client's table determine, and refused exactly when it must be |
| HeapClient.Client.RefusalFromRam | src/allocator/heap.rs:482-569 | whether an allocation must be refused can be read off RAM and the cached chunk |
| SoftLock.AdvanceOnTop | src/sync/soft_lock.rs:169-221 | an atomic step changes or ends the top context and leaves the ones it preempts alone |
| SoftLock.ApplyKeeps | src/sync/soft_lock.rs:130-221 | every arrival and every atomic step keeps the protocol's invariant |
| SoftLock.FullAccessIsExclusive | src/sync/soft_lock.rs:130-138 | in every run at most one context is between locking and releasing |
| SoftLock.RelockNeverFails | src/sync/soft_lock.rs:201-211 | the compare-exchange that locks again never fails |
| SoftLock.MustNeverSpins | src/sync/soft_lock.rs:91-104 | an access that must be full, made with the scheduler suspended in a task, always finds the lock free |
| SoftLock.NothingLeftBehind | src/sync/soft_lock.rs:169-221 | whenever no access is active the lock is free, the pending flag is clear and no pended operation is unserved |
| SoftLock.UnservedIsWatched | src/sync/soft_lock.rs:179-219 | while an operation is unserved, some context has yet to look at the pending flag |
| SoftLock.PassesBounded | src/sync/soft_lock.rs:179-212 | the drop loop makes at most one pass more than the pend-only accesses finished since it began |
| SoftLockCode.Lock.WithAccess | src/sync/soft_lock.rs:77-104 | with any preemptions in between, access is granted as the machine says; the lock is left as it was found; with nobody left inside, nothing is flagged or unserved; the number of passes is bounded |
| SoftLockCode.Lock.DropFull | src/sync/soft_lock.rs:169-221 | the drop loop ends with the lock free and nothing pending, after a bounded number of passes |
| SoftLockCode.Lock.ServeAndRelease | src/sync/soft_lock.rs:180-191 | one pass serves what was flagged when it swapped the flag, and frees the lock |
| SoftLockCode.Lock.DropPendOnly | src/sync/soft_lock.rs:214-219 | a pend-only access leaves its operation flagged for the holder that it preempted |
| WaitQueue.NotifyKeeps | src/sync/wait_queue.rs:302-321 | a notifier with full access wakes one task and keeps the accounting of units and wake-ups |
| WaitQueue.WaitKeeps | src/sync/wait_queue.rs:163-199 | evaluating the condition and queueing under full access keeps it |
| WaitQueue.PendKeeps | src/sync/wait_queue.rs:316-318 | a notification counted by a pend-only access keeps it |
| WaitQueue.RunPopKeeps | src/sync/wait_queue.rs:61-73 | serving a counted notification keeps it |
| WaitQueue.ApplyInv | src/sync/wait_queue.rs:61-321 | every action of tasks and interrupt handlers keeps it |
| WaitQueue.NoLostWakeup | src/sync/wait_queue.rs:143-321 | in every run, while a task is queued, the free units are at most the woken tasks yet to retry, the pended notifications and the agents yet to notify |
| WaitQueue.SettledMeansUnavailable | src/sync/wait_queue.rs:143-321 | once nobody is on the way, a task is queued only if no unit is free |
| WaitOutcome.WaitEnds | src/sync/wait_queue.rs:163-199 | in every run, when no access of a task is open any more, its last wait either found a unit free when it evaluated the condition, and the task never queued, or found none, and the task is queued until a notification takes it off |
| WaitOutcome.NeverWaited | src/sync/wait_queue.rs:163-199 | and this says something of every task that has begun a wait |
| Semaphore.CountIsLedger | src/sync/semaphore.rs:27-155 | for any initial count, in every run the count is the initial count plus successful ups minus successful downs, and is at most the maximum unless it has been above it from the start |
| Semaphore.AboveFromTheStart | src/sync/semaphore.rs:27-100 | a count above the maximum, which the constructor and the test for equality allow, has been above it all along: once at or below the maximum it stays there |
| Semaphore.SuccessKeeps | src/sync/semaphore.rs:66-119 | a successful compare-exchange moves one unit from one side to the other and leaves its caller owing a notification; above the maximum there is no unit on the side of `up` |
| Semaphore.SoundKeeps | src/sync/semaphore.rs:27-155 | every atomic step of `up`, `down` and the `try_` forms keeps the invariant of both wait queues and all callers, from any initial count |
| Semaphore.ApplyKeeps | src/sync/semaphore.rs:52-155 | so does it with a count that is at most the maximum |
| Semaphore.NoLostWakeup | src/sync/semaphore.rs:27-155 | for any initial count: while a task waits for an increment, the count is at most the woken tasks, pended notifications and callers yet to notify; likewise for decrements and the maximum minus the count |
| Semaphore.SettledMeansAtLimit | src/sync/semaphore.rs:27-155 | for any initial count: once everything has settled, tasks are blocked in `down` only at 0 and in `up` only at or above the maximum, exactly at it if the count did not begin above it |
| Semaphore.ProceedsOnlyAfterRoom | src/sync/semaphore.rs:66-119 | in every run, a blocking call goes on to try only if the count was off its limit at some moment of the wait that it is in |
| SemaphoreAlone.SucceedsAlone | src/sync/semaphore.rs:52-140 | after any run, a call made while the queues are at rest and not interrupted succeeds, blocking or not, if the count is off its limit, and moves the count by one |
| Mutex.ApplyKeeps | src/sync/mutex.rs:109-215 | every atomic step of `try_lock`, `lock` and the guard's drop keeps the invariant |
| Mutex.GuardIsUnique | src/sync/mutex.rs:109-166 | in every run at most one guard exists, and then the spin lock is taken |
| Mutex.OwnerHoldsGuard | src/sync/mutex.rs:123-198 | a task is recorded as owner exactly while it has its guard |
| Mutex.OwnerlessWindow | src/sync/mutex.rs:123-210 | the mutex is locked without an owner exactly while its holder is an interrupt handler, has not recorded itself yet, or is dropping its guard |
| Mutex.NoLostUnlock | src/sync/mutex.rs:149-215 | while a task is queued, the mutex is locked, or an unlocker has yet to notify, or a notification is pended, or a woken task has yet to retry |
| Mutex.SettledMeansHeld | src/sync/mutex.rs:149-215 | once everything has settled, tasks are blocked only on a mutex whose guard someone holds |
| Mutex.AttemptSucceedsIff | src/sync/mutex.rs:109-166 | in every run, an attempt of `try_lock` or `lock` to take the spin lock ends with its caller holding it if and only if nobody has it at that moment, and otherwise where the source goes on |
| Mutex.LocksAlone | src/sync/mutex.rs:109-145 | after any run, an uninterrupted call made while nobody has the lock gets the guard, and a task is recorded as the owner |
| Mutex.QueueRuns | src/sync/mutex.rs:149-166 | in every run the mutex's wait queue goes through a run of its own, so that all that holds of waits and notifications holds of it |
| Channel.ApplyKeeps | src/sync/channel.rs:42-89 | every step of callers, semaphores and wait queues keeps the invariant |
| Channel.EnqueueBalance | src/sync/channel.rs:42-48 | a producer that has obtained a slot finds room in the buffer |
| Channel.DequeueBalance | src/sync/channel.rs:52-59 | a consumer that has obtained a claim finds an element |
| Channel.SlotsBalance | src/sync/channel.rs:42-89 | in every run the empty count, the buffer, the producers holding a slot and the consumers yet to return one add up to N; likewise the occupied count |
| Channel.NeverDies | src/sync/channel.rs:42-89 | no enqueue, dequeue or announcement that must succeed ever fails |
| Channel.FirstInFirstOut | src/sync/channel.rs:42-89 | what was sent is what was received followed by the buffer: each element leaves once, in order of entry, and the buffer never exceeds N |
| ChannelHistory.DeliversWhatWasPushed | src/sync/channel.rs:42-59 | in every run, what was received followed by the buffer is the arguments of those pushes that enqueued, in the order of their enqueues |
| ChannelHistory.ReturnsWhatItTook | src/sync/channel.rs:42-89 | in every run, a push reports success exactly if its element was put in and gives its argument back otherwise; a pop that made the k-th dequeue returns the argument of the push that made the k-th enqueue, and one that returns nothing made none |
| ChannelRefusal.RefusedOnlyIf | src/sync/channel.rs:64-89 | in every run, only `try_push` and `try_pop` come back empty-handed; the first only if at some moment of the call every slot was taken or promised, the second only if every element was promised |
| Channel.SettledMeansFullOrEmpty | src/sync/channel.rs:42-89 | once everything has settled, a producer is blocked only on a full buffer, a consumer only on an empty one, and nobody in an announcement |
| Mailbox.FullKeeps | src/sync/mailbox.rs:192-340 | the operations under full access keep the invariant of counters, flags and waiting task |
| Mailbox.RunStartKeeps | src/sync/mailbox.rs:112-123 | taking the pended count out, also when it was taken out before, keeps it |
| Mailbox.TakeKeeps | src/sync/mailbox.rs:130-148 | handing a counted notification to the waiting task keeps it |
| Mailbox.ActionKeeps | src/sync/mailbox.rs:111-351 | every action keeps it |
| Mailbox.Conservation | src/sync/mailbox.rs:111-351 | in every run notifications issued are counted, pended, on the way between the two counters, or delivered; no counter is decremented at zero |
| Mailbox.NoNotificationIgnored | src/sync/mailbox.rs:111-351 | while no access is open nothing is pended, and a task waits only if the counter is zero |
| Mailbox.ResultTellsDelivery | src/sync/mailbox.rs:239-306 | as long as no wait begins inside another, a wait returns true exactly if a notification was delivered to it; MailboxHistory.ResultWrongIff is the exact condition for all runs |
| Mailbox.SecondWaiterIsLost | src/sync/mailbox.rs:250-300 | a run with overlapping waits, with and without timeout, after which the second task is blocked without being recorded, while a notification is only counted |
| MailboxHistory.LostIff | src/sync/mailbox.rs:250-300 | in every run, a task that has blocked is neither recorded nor notified if and only if a task that had yet to clear up when its wait began has cleared up since, before a notification came |
| MailboxHistory.NeverLostAlone | src/sync/mailbox.rs:250-300 | a wait that begins while no other task has yet to clear up is never lost |
| MailboxHistory.ResultIs | src/sync/mailbox.rs:266-299 | in every run, a wait that did not block with timeout returns true and was notified; one that did returns whether the last wait that had blocked with timeout when it cleared up, its own or another task's, was ever handed a notification |
| MailboxHistory.ResultWrongIff | src/sync/mailbox.rs:266-299 | in every run, a result disagrees with delivery if and only if the wait had to block with timeout, the last wait to have blocked with timeout when it cleared up is another one, and exactly one of the two was ever handed a notification |
| TaskList.TickCmpRightIff | src/time/mod.rs:301-303 | for ticks less than 2^32 apart, the wrapped comparison is right if and only if the difference is a signed 32-bit number |
| TaskList.FirstBest | src/task/task_list.rs:52-82 | the position selected holds a best priority, and all before it are strictly worse |
| TaskList.FirstLaterIsSortedPlace | src/task/task_list.rs:32-47 | in a window narrower than 2^31, the first later wrapped tick is the place of the true tick, behind all equal ones |
| TaskList.InsertKeepsSorted | src/task/task_list.rs:32-47 | inserting there keeps the list sorted by true tick |
| TaskList.InsertSortedIff | src/task/task_list.rs:32-47 | for a sorted list with all entries less than 2^32 from the new tick, the list is sorted after insertion if and only if the first entry is less than 2^31 earlier and the first later one at most 2^31 later |
| TaskList.TaskList.RemoveTask | src/task/task_list.rs:17-28 | the task is taken out if it was in the list, and nothing else changes |
| TaskList.TaskList.PushBackTickSorted | src/task/task_list.rs:32-47 | the task is inserted before the first task with a later tick |
| TaskList.TaskList.PopHighestPriority | src/task/task_list.rs:52-92 | the first task of highest priority is taken out, or none if the list is empty |
| SleepQueue.ExpiryIsExact | src/time/mod.rs:68-82 | in a window, the entries removed by the expiry loop are exactly those whose true tick has come |
| SleepQueue.ExpiryRightIff | src/time/mod.rs:68-82 | for a sorted list with all entries less than 2^32 from now, the expired front is what is due if and only if the first entry is at most 2^31 overdue and the first one ahead less than 2^31 ahead |
| SleepQueue.SleepCountsIff | src/time/mod.rs:136-157 | a sleep counts as not yet over if and only if it is neither 0 nor at least 2^31 |
| SleepQueue.SleeperFitsWindow | src/time/mod.rs:147-158 | a new sleeper fits the window if its length and the lateness of the latest stale entry stay below 2^31 together |
| SleepQueue.StaleMisplacesIff | src/time/mod.rs:147-158 | with an entry overdue, a new sleeper is put in its place if and only if lateness and sleep stay below 2^31 together |
| SleepQueue.LongestSleepMisplaced | src/time/mod.rs:136-157 | with one entry overdue by one tick, the longest accepted sleep is queued in front of it |
| SleepQueue.SleepQueue.AddTask | src/time/mod.rs:176-184 | the task is in the list at its place; the order by true tick is kept for every wake tick in the window, and, for entries less than 2^32 away, exactly when the list is insertable there |
| SleepQueue.SleepQueue.WakeFront | src/time/mod.rs:69-82 | the expiry loop removes the expired front and hands it to the scheduler in order |
| SleepQueue.SleepQueue.DrainDeleteBuffer | src/time/mod.rs:84-88 | tasks in the delete buffer are taken out and the buffer is empty |
| SleepQueue.SleepQueue.WakeExpired | src/time/mod.rs:68-89 | what stays is the unexpired entries not marked for removal; each removed task is handed to the scheduler once |
| SleepQueue.SleepQueue.WakeSleepingTasks | src/time/mod.rs:118-129 | with full access the queue is served, with pend-only access it is only marked |
| SleepQueue.SleepQueue.RemoveTaskAllowIsr | src/time/mod.rs:186-200 | removal is immediate with full access and left to the next waking otherwise |
| SleepQueue.SleepQueue.RunPendedOp | src/time/mod.rs:92-99 | put-off removals are served only if a tick has asked for waking |
| SleepQueue.SleepQueue.SleepMs | src/time/mod.rs:136-174 | sleeps above i32::MAX are refused, those over by the second reading of the tick return at once, all others are queued for their true tick |
| SleepQueue.SleepQueue.SleepUnchecked | src/time/mod.rs:147-174 | however many ticks go by between the two readings, the task sleeps exactly if its time has not come by the second, until the tick computed from the first |
| SleepQueue.IntervalBarrier.Wait | src/time/mod.rs:231-238 | the task sleeps exactly if the release is ahead of the last reading of the tick, and until the release plus the ticks that went by before the sleep's own reading; the next release is one interval later |
| SleepMachine.ActionKeeps | src/time/mod.rs:66-200 | every atomic step of handlers, removers and queueing tasks, with preemption in the middle of waking, keeps the invariant of requests, queue and buffer |
| SleepMachine.NoneLost | src/time/mod.rs:66-200 | in every run each sleeper is in the queue or has been handed to the scheduler, exactly once, and the queue is in order |
| SleepMachine.AtRest | src/time/mod.rs:68-99 | with no access open, the last handler call is ahead of the last waking exactly if it was erased; the buffer holds, in order, the removals that the schedule has put off since waking last came to its end; of the sleepers queued in time those due are left exactly if they fall between an erased call and the last waking |
| SleepMachine.CallIsErased | src/time/mod.rs:92-99 | a run in which a handler call made between reading the tick and clearing the request is forgotten and a due sleeper is left |
| SleepMachine.NextWakingClears | src/time/mod.rs:68-129 | continuing any run at rest by one handler call that nobody preempts leaves of its sleepers exactly those whose time is still ahead, without the first entry of each task in the buffer, and nothing erased or put off |
| SleepRemoval.RemovedStaysOut | src/time/mod.rs:186-200 | in every run, once a removal has taken effect, and until the task goes to sleep anew, the task is out of the queue; if the removal was put off, it is out or the removal still stands in the delete buffer |
| Scheduler.Best | src/task/task_list.rs:52-82 | the chosen position holds a best priority, and all before it are strictly worse |
| Scheduler.LinkReadyKeeps | src/schedule/scheduler.rs:307-311 | linking a task that nobody else holds keeps the ownership invariant |
| Scheduler.PendInsertKeeps | src/schedule/scheduler.rs:312-319 | enqueueing into the insert buffer finds room and keeps it |
| Scheduler.LinkDrainedKeeps | src/schedule/scheduler.rs:61-73 | moving a task from the buffer to the ready list keeps it |
| Scheduler.ChooseKeeps | src/schedule/scheduler.rs:232-235 | when pick_next chooses, the list is not empty, and taking the choice out keeps it |
| Scheduler.SwitchKeeps | src/schedule/scheduler.rs:262-267 | making the choice current and dropping an ended task keeps it |
| Scheduler.ActionKeeps | src/schedule/scheduler.rs:60-346 | every action keeps the ownership invariant |
| Scheduler.OnePlaceEach | src/schedule/scheduler.rs:60-322 | in every run each live task that has not ended is in exactly one of running, ready list, insert buffer, parked or in transit; other tasks are in none; Containers.OnePlaceEach tells the parked ones apart |
| Scheduler.NeverDies | src/schedule/scheduler.rs:397-429 | the insert buffer never overflows, pick_next never finds the list empty, and the quota counts the live tasks |
| Scheduler.AcceptedIff | src/schedule/scheduler.rs:397-421 | in every run a new task is accepted exactly while fewer than the maximum are alive |
| TaskStates.StateTellsPlace | src/schedule/scheduler.rs:197-236 | in every run the state of a task tells where it is: Ready exactly while in the ready list, Running exactly while current or just chosen; a live task in state Blocked or Initializing is in the insert buffer, parked, in transit or with an access |
| InsertOrder.LinkedInOrder | src/schedule/scheduler.rs:61-73 | in every run, the tasks that went into the insert buffer are those linked from it, the one about to be linked and those in the buffer, in this order: none is lost, doubled or overtaken |
| PendSwitch.ActionKeeps | src/schedule/scheduler.rs:325-349 | every atomic step of suspending, resuming, yielding and switching, under any preemption, keeps the counter equal to the suspensions held and a zero that was read valid until the exception is pended |
| PendSwitch.NeverTakenWhileSuspended | src/schedule/scheduler.rs:186-190 | in every run in which nobody asks for a switch without looking at the counter while the task holds a suspension, the check in pick_next never fails |
| PendSwitch.DiesIff | src/task/current.rs:23-30 | once no switch is pended or about to look, the check has failed if and only if one was asked for so |
| PendSwitch.RashYieldDies | src/task/current.rs:23-30 | a run in which it fails: suspend, then ask for a switch without looking, as the change of priority does |
| PendProgress.NotForgotten | src/schedule/scheduler.rs:325-344 | however handlers interleave, from when a switch was asked for under a suspension, or by a yield that found none, until it is taken or withdrawn, the exception is pended or some context is about to pend it; so it is pended once nothing is suspended and nobody is in `resume` or a yield |
| PendProgress.PendedHasCause | src/schedule/scheduler.rs:333-344 | the exception is pended only by a yield, or at the end of a `resume` that has seen the counter at zero with a request standing |
| Scheduler.PickChoosesFirstBest | src/schedule/scheduler.rs:192-235 | what pick_next chooses is the first task of highest priority, the current one included behind its equals if it was running |
| Scheduler.RequestIsRemembered | src/schedule/scheduler.rs:333-344 | a requested switch is not forgotten: someone has yet to resume, or the switch is pending |
| Scheduler.RequestHasCause | src/schedule/scheduler.rs:300-305 | in every run, a request that stands stems from a task that outranked the current one when it became ready, and no choice was completed since |
| Scheduler.PendedHasCause | src/schedule/scheduler.rs:333-344 | in every run, the exception is pended only if since it was last taken a task yielded, ended, or was the last to resume while a switch was requested |
| Scheduler.RunningTaskIsBest | src/schedule/scheduler.rs:300-344 | with preemption on, after the first pick, with the scheduler not suspended and no switch pending, the buffer is empty and no ready task outranks the running one |
| Scheduler.PickedInTurn | src/schedule/scheduler.rs:192-235 | in every run, a ready task with n equals ahead is the (n + 1)-st one chosen from then on if nothing of higher priority is ready at a choice, and stays ready until then |
| Scheduler.ReadySteps | src/schedule/scheduler.rs:61-311 | the ready list of a run changes only by a choice, which takes the first best out, or by one task that joins at the back |
| Containers.MoveKeeps | src/schedule/scheduler.rs:60-346 | every move of a task in or out of a wait queue, the sleep queue or a mailbox keeps the scheduler's invariant and the agreement of what is parked with what the containers keep |
| Containers.OnePlaceEach | src/schedule/scheduler.rs:60-322 | in every run each live task that has not ended is in exactly one of running, ready list, insert buffer, one place of one wait queue, one place of the sleep queue, one mailbox without timeout, an access, or on its way |
| Containers.ReferredIsAsleep | src/sync/mailbox.rs:269-299 | a task that a mailbox refers to in a wait with timeout is kept in the sleep queue or nowhere |
| Containers.ParkingUnlinked | src/task/task_list.rs:32-47 | no insertion into a wait queue or the sleep queue meets a task that is already linked |
| Containers.ReadyUnlinked | src/schedule/scheduler.rs:61-311 | no insertion into the ready list meets a task that is already linked |
| CallSignature.RoundTrip | src/task/segmented_stack.rs:558-603 | the signature update on release undoes the one on extension, for all signatures and return addresses |
| CallSignature.KeepsIff | src/task/segmented_stack.rs:586-603 | extending leaves a signature alone for exactly one return address |
| CallSignature.OrderTold | src/task/segmented_stack.rs:586-603 | signatures tell the order of two sites, unless their return addresses are the same or each other's complement |
| CallSignature.RotatedBits | src/task/segmented_stack.rs:586-603 | the rotation moves the lowest bit to the top and all others one down |
| SegmentedStack.BodyFrame | src/task/segmented_stack.rs:415-435 | the new trap frame is marked as not padded and returns through the release |
| SegmentedStack.MoreWrites | src/task/segmented_stack.rs:367-436 | extending writes the counter of the current stacklet and the new chunk, nothing else, and records boundary, stack pointer and size |
| SegmentedStack.BodyResumes | src/task/segmented_stack.rs:396-436 | the body finds its stack arguments and all registers of the trap frame, whether or not that is padded |
| SegmentedStack.MoreKeepsChain | src/task/segmented_stack.rs:367-436 | extending adds one link to a well-formed chain of any length |
| SegmentedStack.LessKeepsChain | src/task/segmented_stack.rs:451-489 | releasing leaves the well-formed chain without its last link |
| SegmentedStack.SwitchAgrees | src/unwind/unwind.rs:694-757 | the unwinder's switch and a normal return agree on boundary, stack pointer, stacklet freed and size given back, and on the program counter up to the 2 bytes that the unwinder subtracts |
| SegmentedStack.UnwinderFollowsReturns | src/unwind/unwind.rs:694-757 | the same over chains of any length, whatever the functions return |
| SegmentedStackCode.Task.EnterException | src/interrupt/trap_frame.rs:1-40 | the trap frame is stacked on an eight-byte boundary with the padding recorded in bit 9 of xPSR; all the caller relies on is kept |
| SegmentedStackCode.Task.ExitException | src/interrupt/trap_frame.rs:1-40 | registers and stack pointer are read off the trap frame at the stack pointer; ExitUndoesEntry says that these are the ones stacked |
| SegmentedStackCode.Task.ExitUndoesEntry | src/interrupt/trap_frame.rs:1-40 | unstacking what an exception has stacked gives back the registers and the stack pointer from before it |
| SegmentedStackCode.Task.CheckLimit | src/task/segmented_stack.rs:285-353 | over the limit, a normal call outside of unwinding and drop handlers is diverted, a drop handler leaves unwinding pending, and all others go on |
| SegmentedStackCode.Task.Account | src/task/segmented_stack.rs:327-341 | signature, extension counter, hot-split cache and stack usage are updated as the source does |
| SegmentedStackCode.Task.MoreStack | src/task/segmented_stack.rs:224-439 | refused exactly over the limit, grown exactly if not refused and the heap has room, and otherwise out of memory; when grown, memory, boundary, stack pointer, signature and usage are those of the extended chain, and the accounts stay those of the chain |
| SegmentedStackCode.Task.LessStack | src/task/segmented_stack.rs:443-492 | the last link is gone, r0 to r3 and the return address are in the trap frame, the stacklet is freed, and the accounts stay those of the chain |
| SegmentedStackCode.Task.SwitchUp | src/task/segmented_stack.rs:224-439 | from a call to the body: behind the two constants, with the same stack arguments and the same registers but for the return address, which releases the stacklet, and all of the caller's memory kept |
| SegmentedStackCode.Task.SwitchDown | src/task/segmented_stack.rs:443-492 | from the body's end to behind the call: stack pointer, r0 to r3 and program counter as the caller expects |
| SegmentedStackCode.Task.Call | src/task/segmented_stack.rs:224-492 | any tree of nested calls that returns restores boundary, stack pointer, signature, usage and chain, forwards r0 to r3, resumes at the saved lr and keeps all memory the caller relies on; it fails to return by itself exactly if it does not fit and is over the limit, without memory or too small, as its outcome says, and otherwise only by a nested call; in either case the state left shows the cause for the call named; if the frames of all nested calls fit on the stacklet it returns |
| SegmentedStackCode.Task.RunBody | src/task/segmented_stack.rs:229-253 | a body that writes its own frame and calls others keeps all memory above its frame and all stacklets below its own, and fails only by a call in it for the cause that the state shows; if all nested frames fit it returns |
| SegmentedStackCode.Task.ShortOnlyBy | src/task/segmented_stack.rs:605-616 | a stacklet is too small for its function only because of an entry with factor 0, which unless a factor has overflowed is an empty one hit by signature 0, or because the product overflows |
| SegmentedStackCode.DivertedOwes | src/task/segmented_stack.rs:330-358 | after a diverted call the accounts are those of the chain if and only if the call asked for nothing and its return address is the exclusive or of the signature and its rotation |
| HotSplit.FirstHit | src/task/segmented_stack.rs:605-616 | the entry used is the first one with the signature |
| HotSplit.RoomIff | src/task/segmented_stack.rs:605-616 | barring overflow, a site is given at least what it asks for if and only if its signature does not hit an empty entry |
| HotSplit.LessOnlyBy | src/task/segmented_stack.rs:605-616 | a site is given less than it asks for only by a factor 0 or an overflow |
| HotSplit.CountedRaises | src/task/segmented_stack.rs:632-657 | detection raises the factor of the detected site by one, or sets it to two, and changes no other site but the one evicted |
| HotSplit.CountedKeepsOk | src/task/segmented_stack.rs:632-657 | unless the factor of the detected site overflows, every entry with a signature other than 0 still enlarges at least twofold |
| HotSplit.OneFrameMore | src/task/segmented_stack.rs:632-657 | each detection at a site gives it one frame more from then on, modulo 2^32, whether it was in the cache or not |
| HotSplit.NewSiteStays | src/task/segmented_stack.rs:644-657 | a site that enters the cache is still in it after as many further detections as there are other entries, whatever they are |
| HotSplit.Cache.Adjust | src/task/segmented_stack.rs:605-616 | the loop computes the size adjusted by the first matching entry |
| HotSplit.Cache.Count | src/task/segmented_stack.rs:618-658 | entries change only when the counter equals the threshold, and then as the specification says, with round-robin eviction; they stay in order unless a factor has overflowed |
| UnwindStream.SwapTwice | src/unwind/unw_table.rs:340-378 | the word-swapped order is its own inverse: what is stored in it is read back |
| UnwindTable.HighByteFirst | src/unwind/unw_table.rs:340-378 | each stored word is read from its high byte to its low one |
| UnwindStream.ByteIter.Next | src/unwind/unw_table.rs:370-378 | the iterator yields the swapped bytes one after the other, stays within bounds and then yields none |
| UnwindInstruction.Decode | src/unwind/unw_table.rs:246-337 | decoding is total; an instruction takes at least one byte and none beyond the end |
| UnwindInstruction.StepIter | src/unwind/unw_table.rs:246-337 | the code, with its uleb128 loop, terminates and computes the decoding table |
| UnwindInstruction.LongMaskSet | src/unwind/unw_table.rs:261-272 | the branch for an empty two-byte mask cannot be taken |
| UnwindEncoding.UlebReadsBack | src/unwind/unw_table.rs:296-308 | every uleb128 number that fits into 32 bits is read back from its encoding |
| UnwindEncoding.ReadsBack | src/unwind/unw_table.rs:246-320 | the encoding of a register push (both forms), a stack adjustment of any size or a push of d8 to d15 decodes to the instructions that undo it |
| UnwindEncoding.AllReadBack | src/unwind/unw_table.rs:246-320 | the encoding of a prologue of any length decodes to the instructions that undo it, last first |
| UnwindMeaning.OpcodeMeaning | src/unwind/unwind.rs:602-678 | from bytes to registers: what each understood opcode other than 0xb2 does, and how many bytes it takes: sp moves by the distance, popped registers hold the words from sp up in order, sp is copied from the register named, popped doubles likewise, and the pops that die |
| UnwindMeaning.PopsNamed | src/unwind/unw_table.rs:258-294 | the opcodes that pop registers are decoded to exactly the registers that their bits name |
| UnwindMeaning.PopMeaning | src/unwind/unwind.rs:630-646 | popping gives each register in the mask the word at its place, leaves the others, and moves sp behind all of them or takes it from memory |
| UnwindMeaning.DoublesMeaning | src/unwind/unwind.rs:651-667 | popping doubles gives d8 to d15 the words at their places, moves sp behind them, and fails for any others |
| UnwindMeaning.PoppedPcWins | src/unwind/unwind.rs:680-683 | an opcode that pops pc decides where to go on: at the popped word minus 2, whatever lr holds, with sp behind the words |
| UnwindTable.Prel31ReachesIff | src/unwind/unw_table.rs:25-42 | a self-relative pointer reaches a target if and only if that is less than 2^30 bytes up or at most 2^30 bytes down, modulo 2^32 |
| UnwindTable.BracketsIsLast | src/unwind/unwind.rs:147-207 | in a sorted index an entry brackets pc if and only if it is the last one at or before pc |
| UnwindTable.Search | src/unwind/unwind.rs:147-207 | the binary search terminates within bounds on any table; it succeeds if and only if the table is well formed and pc does not precede it, and on a sorted table finds the last entry at or before pc |
| UnwindTable.EntryAt | src/unwind/unw_table.rs:429-520 | whatever the bytes, a parsed entry's instructions and data lie inside the table, and accesses beyond it are reported |
| UnwindTable.EntryReadsBack | src/unwind/unw_table.rs:429-520 | an entry written in any of the three forms is parsed to the instructions it was written for, in reading order, and to the data behind it |
| UnwindIndex.WordReadsBack | src/unwind/unw_table.rs:27-32 | a word stored low byte first is read back |
| UnwindIndex.LineReadsBack | src/unwind/unw_table.rs:80-201 | a line of the index written for a function, with no unwinding, with its instructions, or with a pointer to the table, is read back to the function's address and to just that |
| UnwindIndex.LookupIs | src/unwind/unwind.rs:95-207 | from the bytes of index and table, looking a program counter up yields what is said by the line of the function that holds it, and fails exactly if that cannot be read |
| UnwindIndex.LookupDescribes | src/unwind/unwind.rs:95-207 | for a function listed with its prologue, in the index or in any form of table entry, the lookup succeeds with instructions that describe the prologue |
| UnwindStep.PopMoves | src/unwind/unwind.rs:630-638 | popping moves past as many words as the mask has registers and leaves all other registers alone |
| UnwindStep.PopDiesIff | src/unwind/unwind.rs:229-245 | popping fails if and only if the mask names a register that is not kept |
| UnwindStep.PopRightIff | src/unwind/unwind.rs:630-646 | popping does what the ABI asks if and only if the mask names sp just when it meets 13 in binary, or the popped sp happens to be the address behind the words |
| UnwindStep.WhichMasks | src/unwind/unwind.rs:630-646 | every mask without r0 to r3 and sp is popped right; r0 without sp never is |
| UnwindStep.ShortVfpRefused | src/unwind/unw_table.rs:327-328 | the one-byte pops of d8 to d[8 + n] end the step with an error |
| UnwindStep.EndsWithErrorIff | src/unwind/unw_table.rs:246-337 | the bytes at a position end the step with an error if and only if they are incomplete or not among the encodings listed |
| UnwindStep.UlebCompleteIff | src/unwind/unw_table.rs:296-306 | a uleb128 number is complete if and only if some byte below 128 ends it |
| UnwindStep.FinishGoesOn | src/unwind/unwind.rs:621-623 | instructions behind a finish are still interpreted |
| UnwindStep.ChangesNothingIff | src/unwind/unwind.rs:620-678 | instructions leave all registers as they are, for all registers and memories, if and only if each of them only moves sp by a fixed distance and the distances add up to 0 modulo 2^32 |
| UnwindStep.FinishHarmlessIff | src/unwind/unwind.rs:620-678 | interpreting on behind a finish gives what stopping there would give, for all instructions before it, all registers and memories, if and only if what follows are only finishes, additions to and subtractions from sp, pops of sp alone, of no register or of no double, and copies of sp to itself, and the distances add up to 0 modulo 2^32 |
| UnwindStep.SecondCopyHarmless | src/unwind/unwind.rs:647-650 | behind one particular prefix more may be harmless: a second copy of the same register to sp |
| UnwindStep.FinishesHarmless | src/unwind/unwind.rs:620-678 | a rest of finishes, as in padding, leaves the registers as they are |
| UnwindStep.RunConcat | src/unwind/unwind.rs:620-678 | instructions interpreted in sequence compose |
| Prologue.PrologueHolds | src/unwind/unwind.rs:630-667 | a prologue leaves all that it saves in its frame, whatever it pushes later |
| Prologue.AllHoldFrame | src/unwind/unwind.rs:630-667 | and that stays there as long as nobody writes between the stack pointer and the caller's |
| Prologue.UndoOne | src/unwind/unwind.rs:624-667 | undoing one save restores exactly the registers that it covers and moves the stack pointer back |
| Prologue.UnwindRestores | src/unwind/unwind.rs:602-678 | interpreting what undoes a prologue restores all callee-saved registers, the stack pointer and lr |
| Unwinder.EntryDescribes | src/unwind/unw_table.rs:429-520 | a table entry written for a prologue, with or without a frame register, describes it, padding included |
| Unwinder.FrameUnwinds | src/unwind/unwind.rs:602-678 | from the bytes of an entry to the caller's registers: parsing, decoding and interpreting undo every prologue, also where the function has set a frame register and moves sp freely |
| Unwinder.FramePointer | src/unwind/unwind.rs:624-650 | from bytes: for a function that set register reg to its sp plus n, the bytes 0x90 + reg, 0x40 + n / 4 - 1 and those that undo the saves restore the caller's registers |
| Unwinder.StepReachesCaller | src/unwind/unwind.rs:680-764 | a step out of a function leads to the call in its caller with the caller's registers, and touches neither boundary nor stack usage |
| Unwinder.SwitchInBytes | src/unwind/unwind.rs:694-757 | a step over a stacklet is the switch that agrees with a normal return |
| Unwinder.StepReturns | src/unwind/unwind.rs:602-764 | one step leads where returning from the function would lead, on the same stacklet or on another |
| Unwinder.UnwindsCallStack | src/unwind/unwind.rs:602-772 | unwinding a call stack of any depth, over any number of stacklets, leads where returning from all its functions would lead |
| UnwindIndex.UnwindsFromBytes | src/unwind/unwind.rs:147-772 | from the bytes of index and table alone: for a call stack of any depth, over any number of stacklets, of functions that are listed with their prologues, unwinding leads where returning from all of them would lead |
| UnwindState.State.GetForPc | src/unwind/unwind.rs:147-207 | on success the state holds what the bracketing entry says; on failure it is unchanged, and the lookup cannot succeed |
| UnwindState.State.PopRegisters | src/unwind/unwind.rs:630-646 | the loop over the mask pops as specified, the test against 13 included |
| UnwindState.State.PopVfp | src/unwind/unwind.rs:651-667 | the loop over double registers pops as specified |
| UnwindState.State.ApplyAll | src/unwind/unwind.rs:620-678 | the loop over the instructions terminates and interprets the rest of the stream |
| UnwindState.State.Return | src/unwind/unwind.rs:680-764 | registers, boundary, stack usage and freed stacklets are those of the specified resumption |
| UnwindState.State.Step | src/unwind/unwind.rs:602-774 | a step fails without effect when finished or not unwindable; otherwise it interprets the stream, resumes in the caller and looks its program counter up |

## Left out

- Boot code, vector tables, the linker script, context-switch and service-call assembly, memory primitives: machine code and layout. An exception is "push a trap frame", its return "pop it".
- Semihosting, CPU load, task builder, trampolines, breathing tasks, `catch_unwind`: plumbing and statistics.
- The language-specific data area (`src/unwind/unw_lsda.rs`), landing pads and the unwinder's own entry: only where that data starts is modelled.
- Priority inheritance and the priority type: a task's effective priority is a fixed number, so `Scheduler.PickedInTurn` and `Scheduler.RunningTaskIsBest` speak of runs without priority changes.
- Weak memory, multiple cores, real-time latency, `unrecoverable::die` loops (a recorded failure that is proved not to occur), and panics in the kernel.
- SoftLock.FullAccessIsExclusive: interrupt handlers preempt in last-in-first-out order, and tasks switch only while no access is open; the lock is not modelled under a scheduler that ignores its own suspension.
- Semaphore.CountIsLedger: the counter is a natural number; that a count begun above the maximum can be raised until it wraps at 2^32 is not modelled.
- WaitQueue.NoLostWakeup: the counter of pended notifications is unbounded, so 2^32 notifications during one access are not covered; `wait` and `wait_until_with_lock` are not modelled, `wait_until` is.
- WaitOutcome.WaitEnds: which queued task a notification takes off is open here; `TaskList.TaskList.PopHighestPriority` is the choice. When a woken task runs again is the scheduler's business.
- SemaphoreAlone.SucceedsAlone: needs that no queue access is open and nothing interrupts; under interference only the safety results and the settled states are claimed.
- UnwindMeaning.OpcodeMeaning: the distance of 0xb2 is `UnwindEncoding.UlebReadsBack`.
- Mutex.ApplyKeeps: the owner slot's own spin lock is not modelled; storing, clearing and reading the slot are atomic steps, so an interrupt handler that drops a guard while a task reads the slot for priority inheritance cannot occur. Poisoning and `force_unlock` are left out.
- Mutex.NoLostUnlock: poisoning and `force_unlock` are not modelled; storing to the owner slot is one atomic step.
- Mailbox.ResultTellsDelivery: needs waits that do not overlap; `MailboxHistory.ResultWrongIff` has all runs. A timeout is a waking at any time after blocking.
- Mailbox.Conservation: `wait_until_timeout` passes its timeout on unchecked; that a timeout of 2^31 ms or more expires at once follows from `SleepQueue.SleepCountsIff` but is not part of the mailbox model.
- Scheduler.OnePlaceEach: wait queues, the sleep queue and mailbox slots are one bag of parked tasks here and told apart in `Containers`; a task that code has taken from one place and not yet put in another counts as on its way.
- Containers.OnePlaceEach: when a container is entered or left is up to its client; each of these is a machine of its own, and the containers' order is not modelled here.
- Scheduler.NeverDies: `pick_next` runs when PendSV is taken with the scheduler not suspended; that its own check of the suspension cannot fail is `PendSwitch.NeverTakenWhileSuspended`.
- PendSwitch.NeverTakenWhileSuspended: masking of interrupts, which only delays the exception, and the order of interrupt priorities are left out; the task switched to goes on anywhere between its own steps.
- Scheduler.ActionKeeps: starting the scheduler, restarting a panicked task and dropping the current task from a service call are reduced to the actions of creating and ending a task; pick_next runs when PendSV is taken with the scheduler not suspended.
- SleepQueue.SleepQueue.WakeSleepingTasks: which access is granted is a parameter, here and in the other operations of the class; `SleepMachine` has the lock and all interleavings, on true ticks.
- SleepMachine.AtRest: ticks do not wrap around; `TaskList.InsertSortedIff` and `SleepQueue.ExpiryRightIff` say when wrapped ticks agree with them. Sleepers are queued by tasks only.
- SleepQueue.SleepQueue.RunPendedOp: one step here; `SleepMachine` takes it apart.
- SleepQueue.SleepQueue.RemoveTaskAllowIsr: the delete buffer is unbounded here; the source's has room for the maximum number of tasks and dies beyond that. Removal through it waits for the next waking, and stale entries until then are possible.
- Allocator.Heap.Malloc: requests whose size plus header and rounding overflow 32 bits are excluded, as the source assumes; the heap end is 8-aligned and all of RAM lies within 256 KiB above the link offset.
- Allocator.Heap.Free: the freed pointer is one in use, as the source demands of its callers.
- SegmentedStackCode.Task.Call: tasks have dynamic extension enabled; frame sizes and return addresses come with the call instead of being read from code memory; r4 to r11 are not modelled, because neither the service calls nor the trap frame touch them. A call that is diverted, finds no memory, or is given too little by the hot-split cache ends the run; a nested one is named by the outcome, and its cause shows in the state left.
- SegmentedStackCode.Task.MoreStack: the counters of extensions and of active stacklets are left out; stack usage and extension counters wrap at 2^32; the threshold of hot-split detection is a parameter.
- SegmentedStack.UnwinderFollowsReturns: the unwinder does not restore the call-chain signature, and nothing is claimed about it after unwinding; `unwind_land` is not modelled.
- UnwindInstruction.Decode: the iWMMXt instructions, which the source decodes as unimplemented, carry no further meaning here. The offset of a uleb128 number wraps as a release build shifts.
- Unwinder.UnwindsCallStack: memory does not change during unwinding, and frames are those of functions that save r4 to r11, lr and d8 to d15 as pushes and adjust sp by multiples of 4; r0 is not claimed. Errors of the table lookup are outside of `Unwinder.Steps` and in `UnwindState.State.Step`.
- UnwindTable.EntryAt: the personality routine is recorded and not used, as in the source.
- Heap statistics other than the current and the maximal allocated size and the high water mark.
