# Hosted exec, verified

A Dafny model of the parts of AmigaOS exec that this repository rebuilds on a Unix host, with proofs
of what they promise. `dafny verify dfyconfig.toml` checks the whole project.

What is modelled, file by file:

| files | modelled code |
|---|---|
| `freelist`, `heap`, `memheader` | the memory allocator of `hosted/mem.c`: the free list as a value, whole histories of calls, and the linked list in memory that `Allocate` and `Deallocate` rewrite in place |
| `kernheap`, `kernroom`, `kernrounds` | `hosted/kern.c`: the same allocator under preemption, each step of its walks and each of its stores separate, with workers that stamp and check their blocks; when there is room for all of them; and runs in which they make their rounds |
| `prilist`, `scheduler` | priority lists and the scheduler of `hosted/exec.c`, as a transition system and as the class `ExecBase` |
| `kernel`, `kernelinv`, `kernelruns`, `kernelcalls`, `kernelwake`, `kernelpaths` | `Wait`, `Signal`, `PutMsg`, `GetMsg`, `WaitPort` and the timer tick of `hosted/signal.c` and `hosted/msgport.c`, statement by statement, for any number of tasks and ports and any programs that make the calls |
| `rendezvous`, `exchange`, `requestreply`, `requestrounds`, `deviceio`, `devicerounds`, `pingpong`, `pingpongrounds` | the demonstration programs of `msgport.c`, `device.c` and `signal.c` on that kernel. The client/server exchange is one module; the two demonstrations that use it add what they compute between the calls. `exchange` and the modules named for rounds exhibit runs |
| `ring`, `audiocontext` | the lock-free audio ring of `hosted/coreaudio/coreaudio_shim.c`: producer and consumer interleaved load by load, and the code itself on an array |
| `guestmemory`, `guestlist` | byte-addressed guest memory and the exec list and message-port cases of `hosted/emu68k/emu68k_exec.c` |
| `avltree`, `avlmemory`, `avl`, `avlorder` | the AVL cases of the same file: walks, queries, and the flatten-edit-rebuild of add and remove |
| `wakelatch`, `pump`, `pumphistory`, `parking` | the wake latch, the registration table, histories of calls on it, and the retry loops of `hosted/bsdsocket` |
| `types`, `bits` | shared types; masks and wrapped arithmetic |

Signal masks are sets of bit numbers, so `1 << bit` is a one-element set and `&` is intersection.
Integers are unbounded, and every place where the source wraps at 32 or 64 bits says so: `ROUNDUP`,
the ring counters, the words of guest memory. A timer tick can fall between any two statements; it
does nothing while `forbid_cnt` is positive. A run is any finite sequence of statements and ticks;
reaching the tick limit ends it.

Five promises turn out not to hold as the source's comments or checks put them, and are stated with
the exact condition and an input at which they fail:

- `ROUNDUP` wraps for the last 15 sizes, where `Allocate` grants a request and reserves nothing
  (`Heap.GrantHoldsRequest`, `Heap.WrappedRequestReservesNothing`).
- `ca_open` says the usable size equals the size asked for. It does exactly when that is at least 2
  and one more frame is a power of two (`AudioContext.CAContext.constructor`); a request for 4
  frames gets 7 (`AudioContext.FourFramesGetSeven`).
- The availability gate of `ca_render_to_wav` can pass for a block exactly when the block is smaller
  than the ring (`Ring.GateCanOpenIff`). A block as large falls short in every run, whatever the
  producer does (`Ring.LargeBlockUnderruns`); a full ring of 512 slots is one that a 512-frame block
  fails on (`Ring.FullRingHoldsNoBlock`).
- `hs_send_all` says it returns 0 when the peer closes early. It returns the bytes taken by then,
  which is 0 exactly when the peer closes at the first chunk (`Parking.EarlyCloseReturns`,
  `Parking.ZeroIffClosedAtOnce`); one byte taken of two gives 1 (`Parking.PartialCountAtEarlyClose`).
- The re-read of the file at the end of `device.c` should show the last pattern reported. It does
  exactly when every byte of another pattern stored since was stored over with it again
  (`DeviceIO.FileHoldsLastPattern`), within 256 rounds exactly when nothing was stored since
  (`DeviceIO.AnyStoreSpoilsTheCheck`). From any file, for every positive number of rounds and a host that
  does all it is asked, one run passes the check and another fails it, the tick limit falling just
  after the device stored the next pattern (`DeviceRounds.CheckCanPass`, `DeviceRounds.CheckCanFail`).

One more limit follows from the guards of the AVL cases. `AVL_AddNode` accepts a node into a tree of
65536 nodes, so a removal undoes an add exactly below that size (`AvlOrder.RemoveUndoesAdd`); at
65537 every later add and remove is refused and the tree stays as it is for good
(`AvlOrder.OverfullForever`), which 65537 adds bring about (`AvlOrder.FullTreeSticks`).

## Model

| member | source | states |
|---|---|---|
| FreeList.RoundUpFits | hosted/mem.c:47 | the rounded size is the least multiple of 16 that holds the request, exactly when the 64-bit sum does not wrap; otherwise it is 0 |
| FreeList.AllocBytes | hosted/mem.c:51-93 | allocation fails exactly when no chunk holds the rounded size; otherwise it grants the start of the lowest such chunk (highest in reverse), the list stays canonical, and the free bytes shrink by exactly the block |
| FreeList.OverlapsIsIntersection | hosted/mem.c:119-135 | the two neighbour comparisons report a double free exactly when some byte of the block is already free |
| FreeList.ReleaseBytes | hosted/mem.c:96-154 | freeing fails exactly on an overlap; otherwise the list stays ordered, aligned, in bounds and fully coalesced, and the free bytes grow by exactly the block |
| FreeList.CanonicalUnique | hosted/mem.c:131-152 | a set of free bytes has only one coalesced, ordered list |
| FreeList.ReleaseUndoesAlloc | hosted/mem.c:51-154 | freeing a block just allocated restores the previous list exactly |
| Heap.StepFree | hosted/mem.c:118-153 | freeing a live block never reports a double free, and keeps the heap invariant |
| Heap.HistoryInvariant | hosted/mem.c:51-154 | after any history the free list is canonical and covers exactly the region less the pairwise-disjoint live blocks |
| Heap.ListFromLive | hosted/mem.c:51-154 | the free list is a function of the set of live blocks |
| Heap.HistoryIndependence | hosted/mem.c:231-236 | two histories that leave the same blocks live leave the same list; with none live it is the one initial chunk |
| Heap.FreeInAnyOrder | hosted/mem.c:238-250 | blocks freed in any order leave the same heap, and freeing everything restores the single initial chunk |
| Heap.GrantHoldsRequest | hosted/mem.c:53-57 | a granted request reserves at least what was asked for if and only if the size is at most 2^64 - 16 |
| Heap.WrappedRequestReservesNothing | hosted/mem.c:53-57 | for size 2^64 - 1 any heap with a free chunk grants the start of a chunk that stays free |
| MemHeaders.MemHeader.constructor | hosted/mem.c:157-170 | the header starts with one chunk over the region rounded down to 16, a usable list exactly when that is not empty, aligned and clear of the top address; three words are written |
| MemHeaders.MemHeader.FindFit | hosted/mem.c:59-74 | the walk returns the predecessor of the first fitting chunk (last in reverse), or null exactly when none fits |
| MemHeaders.MemHeader.Allocate | hosted/mem.c:51-93 | the writes leave memory linked as the specified list, returning null exactly when it should; only the header field and bytes that were free are touched, and a cleared block reads zero |
| MemHeaders.MemHeader.Deallocate | hosted/mem.c:96-154 | memory ends with exactly the stores of the coalescing insert, or untouched on a double free or empty request; for a block off the null address and the header it is linked as the specified list, and only the header field and bytes that end up free are touched |
| MemHeaders.MemHeader.FindGap | hosted/mem.c:118-129 | the walk stops at the first chunk at or above the block, with its predecessor |
| MemHeaders.MemHeader.Insert | hosted/mem.c:109-153 | the comparisons and stores, those into an empty list included, produce exactly the merged chunk between its neighbours |
| MemHeaders.FreedBlockInRegion | hosted/mem.c:100-103 | the block freed is the least aligned one around the bytes named, and stays in the region |
| MemHeaders.FreedIsGranted | hosted/mem.c:100-103 | freeing what was allocated, with the size asked for, frees exactly the block reserved |
| MemHeaders.GrantLinked | hosted/mem.c:76-91 | unlinking or splitting a chunk leaves the rest of the list linked and changes nothing but the header field and free bytes |
| MemHeaders.ReleaseLinked | hosted/mem.c:131-152 | the coalescing stores leave memory linked as the released list |
| KernHeap.StatementKeeps | hosted/kern.c:220-235 | every statement of a worker, each read of the allocator's walks and each of its stores included, keeps the combined heap and pattern invariant |
| KernHeap.AllocWalkReads | hosted/kern.c:68-79 | what the walk of Allocate reads from memory, step by step, leads it to the first chunk that fits, and its stores are those on that chunk; at the end of the list none fits |
| KernHeap.FreeWalkReads | hosted/kern.c:87-98 | what the walk of Deallocate reads leads it to the gap, its overlap tests are exact, and its stores are those of the coalescing insert |
| KernHeap.GrantDone | hosted/kern.c:64-80 | the allocator's stores, carried out one by one, add up to the memory Allocate leaves |
| KernHeap.HeapWholeAtEverySwitch | hosted/kern.c:127-131 | under any schedule, whenever a switch can happen, memory holds a canonical list covering exactly the bytes no live block has, and mh_Free is its sum |
| KernHeap.BlocksDisjoint | hosted/kern.c:220-235 | under any schedule the blocks of two workers share no byte |
| KernHeap.PatternNeverFails | hosted/kern.c:220-235 | under any schedule no pattern check fails: every finished round is good or found no memory |
| KernRoom.NoWorkerMisses | hosted/kern.c:220-283 | under any schedule, if the post-spawn list has one chunk that holds a block for every worker, no worker is ever refused memory and good is never more than one behind ran |
| KernRoom.GrantInPlace | hosted/kern.c:68-79 | first fit packs that chunk: a block handed out in it starts a whole number of blocks from its start |
| KernRoom.AlwaysFits | hosted/kern.c:67-70 | a worker that holds nothing finds a chunk that fits, and mh_Free is large enough |
| KernRoom.StartIsSpawned | hosted/kern.c:237-265 | a start the theorems speak of: four workers, the tasks' memory handed out, and one free chunk with room for all of them |
| KernRounds.EveryCountIsReached | hosted/kern.c:220-235 | from every start with a chunk that holds a block, for any worker and any number, some run makes that many good rounds of it and misses none |
| KernRounds.RoundWithinARound | hosted/kern.c:195-235 | with room for all, in some run a tick takes the processor from a worker at any byte of its stamping, another makes a whole good round, and the first then finishes a good round |
| KernRounds.ChecksEveryByte | hosted/kern.c:226-229 | on any memory, stamped or overwritten, the check reads every byte of the block and the round counts as good exactly when all of them hold the mark |
| KernHeap.NothingLeaks | hosted/kern.c:293-295 | under any schedule, once no worker holds a block the free list is the post-spawn one again, chunk for chunk |
| PriList.EnqueueKeepsOrder | hosted/exec.c:58-68 | Enqueue keeps descending priority; nodes of equal or higher priority stay ahead in their order, all lower ones come after |
| Scheduler.DispatchesMaximal | hosted/exec.c:142-201 | a tick that switches dispatches a task of maximal priority among the ready ones and the one preempted |
| Scheduler.TasksConserved | hosted/exec.c:148-176 | a tick neither loses nor duplicates a task, one with nothing ready changes nothing, and a wake adds exactly the task woken |
| Scheduler.BoundedBypass | hosted/exec.c:142-201 | a ready task with k ahead of it runs within k + 1 ticks, as long as nothing of strictly higher priority is enqueued |
| Scheduler.LowerPriorityStarves | hosted/exec.c:142-201 | over any run of ticks and wakes in which nothing blocks, once two tasks above priority p are running or ready, nothing of priority p or lower ever runs |
| Scheduler.PairAlternates | hosted/exec.c:142-201 | two tasks of equal priority above all others take turns tick after tick, and the list behind them never moves |
| ExecScheduler.ExecBase.Enqueue | hosted/exec.c:60-68 | the loop inserts where the specification says |
| ExecScheduler.ExecBase.CoreSwitch | hosted/exec.c:148-164 | the preempted task is put back exactly when still running, not the boot anchor and on its stack; otherwise it is parked or left |
| ExecScheduler.ExecBase.CoreDispatch | hosted/exec.c:166-176 | the head of the ready list runs; with none, nothing changes but the idle count |
| ExecScheduler.ExecBase.ExitInterrupt | hosted/exec.c:178-201 | the interrupt tail is exactly one step of the scheduler specification |
| KernelInv.ExecKeepsInv | hosted/msgport.c:107-165 | every statement of Wait, Signal, PutMsg, GetMsg and WaitPort, by any task, keeps the kernel invariant |
| KernelInv.TickKeepsInv | hosted/msgport.c:70-105 | every tick keeps it |
| KernelRuns.RunKeepsInv | hosted/msgport.c:70-165 | whatever the programs call and whenever the timer fires, the kernel invariant holds |
| KernelRuns.ExactlyOnePlace | hosted/signal.c:72-85 | wherever a switch can happen, every task but boot is in exactly one of running, TaskReady and TaskWait, as its state says |
| KernelRuns.WaitingHasNoBit | hosted/signal.c:117-148 | a waiting task has received none of the bits it waits for, unless the running task is waking it under Forbid |
| KernelRuns.NoLostWakeup | hosted/msgport.c:147-165 | a task blocked in WaitPort on a non-empty queue is being woken, or some unblocked sender is between its AddTail and its post of the signal |
| KernelWake.WokenWithinSix | hosted/msgport.c:121-165 | and such a task makes the waiter ready within six of its own statements, whatever runs in between |
| KernelRuns.NoLostWakeupBeforeWait | hosted/msgport.c:160-164 | from the unlocked emptiness test on, a message that arrives has its bit received or a sender about to post it |
| KernelRuns.BitsStayUntilReturned | hosted/signal.c:117-137 | a posted bit disappears only in the owner's own Wait, as part of the set that Wait is about to return |
| KernelRuns.WaitReturnsNonEmpty | hosted/signal.c:117-137 | Wait returns a non-empty subset of its mask |
| KernelRuns.TickSchedules | hosted/signal.c:71-88 | a tick of the kernel is a step of the priority scheduler, blocked tasks and boot not being put back |
| KernelRuns.LastTickEndsRun | hosted/msgport.c:103 | the tick at the limit gives boot the processor, leaves every other task and list as it was, and nothing happens afterwards |
| Rendezvous.NextMoves | hosted/msgport.c:175-203 | each step of either program, inside or between calls, moves the exchange by at most one phase and keeps its invariant |
| Rendezvous.StepIsKernels | hosted/msgport.c:70-165 | a step of the exchange is a step of the general kernel, or one the kernel does not see, and a tick is a tick |
| Rendezvous.RunIsKernels | hosted/msgport.c:70-165 | so every run of the exchange is a run of the kernel, whose theorems are about it |
| Rendezvous.CallsAreLegal | hosted/msgport.c:175-203 | every call the two programs make is legal, the message being in no other place when it is put |
| Rendezvous.OneMessageInFlight | hosted/msgport.c:175-203 | under any schedule the one message is in exactly one of client, request queue, server, reply queue, once |
| Rendezvous.ClientGetsItsOwn | hosted/device.c:185-192 | under any schedule what the client dequeues after its wait is its own message |
| Rendezvous.NeverBothBlocked | hosted/msgport.c:175-203 | under any schedule, wherever a switch can happen, client and server are not both blocked |
| RequestReply.EveryReplyIsRight | hosted/msgport.c:175-203 | under any schedule, and when the last tick has stopped it, g_errors is 0 and g_served is g_rounds or one more |
| RequestReply.RequestCarriesItsRound | hosted/msgport.c:190-203 | under any schedule the number under way is one more than the rounds counted, and the answer slot holds -1 when it is sent and its square once answered |
| RequestReply.WrongReplyCounts | hosted/msgport.c:200 | the client counts an error exactly for a reply that is not its request or not the square |
| RequestRounds.EveryCountIsReached | hosted/msgport.c:175-203 | for every number some run makes that many rounds, both sides counting them, before the tick limit |
| DeviceIO.ErrorsAreHostFaults | hosted/device.c:164-218 | under any schedule and host, and when the last tick has stopped it, g_errors counts exactly the host calls that failed or fell short and were heard of, so a host that never does leaves it 0 |
| DeviceIO.SuccessIsComplete | hosted/device.c:164-218 | when DoIO returns zero, all of io_Length was transferred, and a read brought back the bytes the round wrote; after any read the cleared buffer holds io_Actual bytes of the file and zeros |
| DeviceIO.StoredBytes | hosted/device.c:164-182 | a write puts its bytes at the offset, leaves the rest of the file, and fills a gap with zeros |
| DeviceIO.EveryAnswerIsPossible | hosted/device.c:164-182 | the host may return an error or any count up to what was asked for and is there |
| DeviceIO.MismatchCounts | hosted/device.c:214 | the client counts an error exactly when what it read back differs from what it wrote |
| DeviceIO.FileHoldsLastPattern | hosted/device.c:198-273 | under any schedule and host, and at the closing re-read, the file begins with the last pattern reported exactly when every byte of another stored since was stored over with it again |
| DeviceIO.AnyStoreSpoilsTheCheck | hosted/device.c:268-273 | within 256 rounds of the report, that is exactly when no byte has been stored since |
| DeviceRounds.CheckCanFail | hosted/device.c:198-273 | from any file and for every positive number of rounds, some run makes them without an error, stops just after the next pattern was stored, and fails the closing check |
| DeviceRounds.CheckCanPass | hosted/device.c:198-273 | and some run makes them without an error and passes it |
| DeviceRounds.Round | hosted/device.c:198-218 | with a host that does what it is asked, a run leads from the start of one round to the start of the next, the client about to compute and the device blocked on its port |
| PingPong.LockStep | hosted/signal.c:155-160 | under any schedule, and when the last tick has stopped it, exactly one token is among the DATA bit, the ACK bit and the two program counters, and the counts differ by at most one |
| PingPong.StepIsKernels | hosted/signal.c:71-160 | a step of the ping-pong is a step of the general kernel, or one the kernel does not see |
| PingPongRounds.EveryCountIsReached | hosted/signal.c:155-160 | for every number some run makes that many rounds, both sides counting them, before the tick limit |
| PingPong.NeverBothBlocked | hosted/signal.c:155-160 | under any schedule, wherever a switch can happen, producer and consumer are not both blocked |
| Ring.NextKeepsInv | hosted/coreaudio/coreaudio_shim.c:135-178 | every load, store and slot access of either side keeps the ring invariant |
| Ring.ConsumedIsPrefix | hosted/coreaudio/coreaudio_shim.c:330-370 | in every interleaving and across counter wrap, the frames rendered are a prefix of the frames pushed, at most cap - 1 are in the ring, and the wrapped difference is the true one |
| Ring.UnreadNeverOverwritten | hosted/coreaudio/coreaudio_shim.c:354-361 | in every interleaving no write lands on a frame not yet published as read |
| Ring.RefinesBoundedQueue | hosted/coreaudio/coreaudio_shim.c:135-178 | publishing a push appends a prefix of the caller's frames, publishing a render removes exactly the frames read, every other step leaves the queue alone |
| Ring.SpaceIsExact | hosted/coreaudio/coreaudio_shim.c:335-341 | ca_ring_space returns exactly what the head it saw leaves free, never more than is free now |
| Ring.SpaceIsHonoured | hosted/coreaudio/coreaudio_shim.c:335-370 | from any state in which ca_ring_space returns r, whatever follows, pushes totalling at most r frames are accepted whole |
| Ring.PushTakesWhatFits | hosted/coreaudio/coreaudio_shim.c:343-353 | a push takes as many frames as the head it saw leaves room for, no fewer |
| Ring.PushAlone | hosted/coreaudio/coreaudio_shim.c:343-370 | a whole push, whatever the render side is at, appends as many frames as fit and changes nothing else |
| Ring.RenderTakesWhatIsThere | hosted/coreaudio/coreaudio_shim.c:148-153 | a render takes the frames queued when it loads the tail, up to what it wants, no fewer |
| Ring.RenderPublishesThem | hosted/coreaudio/coreaudio_shim.c:148-178 | in every run a render publishes exactly those, the oldest in order, and counts an underrun exactly when they were too few |
| Ring.RenderAlone | hosted/coreaudio/coreaudio_shim.c:135-178 | a whole render, whatever the producer is at, removes the oldest frames, as many as wanted or there, and changes nothing else but the underrun count |
| Ring.SpaceAlone | hosted/coreaudio/coreaudio_shim.c:335-341 | a whole ca_ring_space gives the frames that still fit |
| Ring.GateAlone | hosted/coreaudio/coreaudio_shim.c:464-482 | a gate poll passes at once exactly when the frames are queued, and giving up changes nothing |
| Ring.GatePreventsUnderrun | hosted/coreaudio/coreaudio_shim.c:464-482 | once the gate has passed for n frames, renders totalling at most n are supplied whole and count no underrun, whatever follows |
| Ring.GatePassesIff | hosted/coreaudio/coreaudio_shim.c:464-482 | a poll passes exactly when n frames are queued, and never for a block as large as the ring |
| Ring.GateCanOpenIff | hosted/coreaudio/coreaudio_shim.c:464-482 | some run lets a block through the gate exactly when it is smaller than the ring |
| Ring.LargeBlockUnderruns | hosted/coreaudio/coreaudio_shim.c:135-178 | in every run a render of a block as large as the ring falls short and counts one underrun |
| Ring.FullRingHoldsNoBlock | hosted/coreaudio/coreaudio_shim.c:464-482 | a ring of 512 slots filled to the brim does not pass the gate for 512 frames |
| Ring.CapacityIsReached | hosted/coreaudio/coreaudio_shim.c:330-333 | no run queues more than cap - 1 frames, and some run queues that many |
| AudioContext.NextPow2 | hosted/coreaudio/coreaudio_shim.c:89-94 | the least power of two that is at least 2 and at least n |
| AudioContext.CAContext.constructor | hosted/coreaudio/coreaudio_shim.c:98-128 | an empty ring of the least power of two that is at least 4 and above the request; the usable size is the request exactly when that is at least 2 and one more is a power of two |
| AudioContext.FourFramesGetSeven | hosted/coreaudio/coreaudio_shim.c:98-128 | the ring made for a request of 4 frames has 7 usable |
| AudioContext.CAContext.RingSpace | hosted/coreaudio/coreaudio_shim.c:335-341 | the wrapped subtraction gives the frames that still fit |
| AudioContext.CAContext.RingPush | hosted/coreaudio/coreaudio_shim.c:343-370 | as many frames as fit are appended to the queue, in order |
| AudioContext.CAContext.Render | hosted/coreaudio/coreaudio_shim.c:135-178 | the oldest frames come out in order, silence after them, and a short ring counts one underrun |
| GuestMemory.PutGet | hosted/emu68k/emu68k_host.c:541-557 | a word written big-endian is the word read back, and no byte outside it changes |
| GuestMemory.SignedIs | hosted/emu68k/emu68k_exec.c:839-857 | a priority byte read as int8_t is the value congruent to it from -128 to 127 |
| GuestMemory.UnsignedIs | hosted/emu68k/emu68k_exec.c:217-234 | a balance stored as uint32_t is the word congruent to it |
| GuestList.AddHead | hosted/emu68k/emu68k_exec.c:701-709 | the node comes first, and only the header and link words change |
| GuestList.AddTail | hosted/emu68k/emu68k_exec.c:710-718 | the node comes last, and only the header and link words change |
| GuestList.Remove | hosted/emu68k/emu68k_exec.c:719-725 | the node leaves the list, sentinels included, and only link words of what stays change |
| GuestList.RemHead | hosted/emu68k/emu68k_exec.c:807-828 | the first node is taken, 0 and no change when empty; refused exactly when the head points at the header |
| GuestList.RemTail | hosted/emu68k/emu68k_exec.c:829-838 | the last node is taken, 0 and no change when empty |
| GuestList.Enqueue | hosted/emu68k/emu68k_exec.c:839-857 | the node goes before the first whose priority byte is lower, bytes from 0x80 on being below all others, by the bytes in memory |
| GuestList.EnqueueKeepsSorted | hosted/emu68k/emu68k_exec.c:839-857 | no priority byte is touched, so a list in descending order of them is so afterwards as memory then shows it |
| GuestList.Insert | hosted/emu68k/emu68k_exec.c:1144-1163 | the node goes after the one given, or first for null or the header |
| GuestList.NewMinList | hosted/emu68k/emu68k_exec.c:1164-1171 | three words make an empty list; null does nothing |
| GuestList.InsertedIsList | hosted/emu68k/emu68k_exec.c:701-718 | four words written around a gap, in any order, give the list with the node in it |
| GuestList.RemovedIsList | hosted/emu68k/emu68k_exec.c:719-725 | two words written give the list without the node |
| GuestList.PutMsg | hosted/emu68k/emu68k_exec.c:1551-1562 | the message joins the end of the queue; of the owner's signal word exactly the port's bit is set and the others stay; nothing else changes |
| GuestList.GetMsg | hosted/emu68k/emu68k_exec.c:1722-1738 | the oldest message is taken, or 0 when none is queued |
| GuestList.PortIsFifo | hosted/emu68k/emu68k_exec.c:1551-1738 | any history of PutMsg and GetMsg replayed on guest memory: the messages received, then those memory holds queued, are those queued at first, then those sent, in order |
| AvlTree.BuildInOrder | hosted/emu68k/emu68k_exec.c:217-234 | the rebuilt tree holds the array in order |
| AvlTree.BuildBalanced | hosted/emu68k/emu68k_exec.c:217-234 | its height is floor(log2 n) + 1 and every balance is -1 or 0 |
| AvlTree.BitLengthIsLog | hosted/emu68k/emu68k_exec.c:217-234 | that height h is the one with 2^(h-1) <= n < 2^h |
| AvlTree.HeightIsLeast | hosted/emu68k/emu68k_exec.c:217-234 | no tree with as many nodes is lower |
| AvlMemory.AvlExtreme | hosted/emu68k/emu68k_exec.c:78-97 | the walk ends on any memory; on a linked tree it gives the end in that direction, refusing exactly edges of more than 65537 nodes |
| AvlMemory.AvlAdjacent | hosted/emu68k/emu68k_exec.c:99-130 | the walk ends on any memory; on a linked tree it gives the in-order neighbour, 0 at the end, refusing exactly an edge of more than 65537 nodes or more than 65536 ancestors passed |
| AvlMemory.AvlCollect | hosted/emu68k/emu68k_exec.c:176-215 | the walk ends on any memory; on a linked tree it lists every node once in order, refusing exactly over 65536 nodes or a node outside guest memory |
| AvlMemory.FocusAt | hosted/emu68k/emu68k_exec.c:99-130 | the neighbours of the node at position i are the nodes at i + 1 and i - 1 |
| AvlMemory.AvlFind | hosted/emu68k/emu68k_exec.c:2213-2241 | the descent returns what the whole sorted list determines |
| AvlMemory.AnswerIsNearest | hosted/emu68k/emu68k_exec.c:2213-2241 | that is the equal node, the greatest not above the key, or the least not below it, and 0 exactly when there is none |
| AvlTree.ExtremeIsEnd | hosted/emu68k/emu68k_exec.c:2197-2204 | the ends of the two edges are the first and the last node in order |
| Avl.RebuildRange | hosted/emu68k/emu68k_exec.c:217-234 | children and parents of the range are those of the rebuilt tree, the balance word is 0xFFFFFFFF where the left side is one higher and 0 where both are equal, and no byte outside those nodes changes |
| Avl.AvlRebuild | hosted/emu68k/emu68k_exec.c:236-242 | the whole array becomes a linked, balanced tree of least height below the root pointer |
| Avl.AvlAddNode | hosted/emu68k/emu68k_exec.c:2121-2159 | the old nodes with the new one inserted, rebuilt; a duplicate returns the existing node and changes no byte; refused exactly for an address outside guest memory, over 65536 nodes, or a null callback that is needed |
| Avl.AvlRemNode | hosted/emu68k/emu68k_exec.c:2160-2196 | the old nodes without the one matched by address or key, rebuilt, its four words cleared; no match returns 0 and changes no byte |
| AvlOrder.SortedIncreasing | hosted/emu68k/emu68k_exec.c:2213-2241 | under a total order every key splits a sorted tree into below, at most one equal, and above |
| AvlOrder.EqualIffPresent | hosted/emu68k/emu68k_exec.c:2134-2148 | the duplicate test succeeds exactly when the tree has an equal node, and finds that one |
| AvlOrder.TreeHoldsSet | hosted/emu68k/emu68k_exec.c:2121-2196 | after any history of adds and removes, refused calls included, the tree holds, sorted, exactly the nodes the calls leave in a set |
| AvlOrder.Replay | hosted/emu68k/emu68k_exec.c:2121-2196 | any history replayed on guest memory through the two methods leaves there the rebuilt tree of that set, and each call is refused exactly when the history says so |
| AvlOrder.TreeIsFunctionOfSet | hosted/emu68k/emu68k_exec.c:2121-2196 | two histories that leave the same set of nodes leave the same tree, shape included |
| AvlOrder.RemoveUndoesAdd | hosted/emu68k/emu68k_exec.c:2121-2196 | removing the node an accepted call just added restores the tree exactly when it had fewer than 65536 nodes; by key, a callback is needed too |
| AvlOrder.OverfullForever | hosted/emu68k/emu68k_exec.c:176-215 | a tree past the guard has 65537 nodes, and no later call changes it |
| AvlOrder.FullTreeSticks | hosted/emu68k/emu68k_exec.c:176-215 | 65537 adds in address order reach that state, where removing a node it holds is refused |
| WakeLatch.LatchIsPipe | hosted/bsdsocket/bsdsock_pump.c:93-145 | in any interleaving the pipe holds at most one byte, and whenever the mutex is free it holds one exactly when the latch is set |
| WakeLatch.WakesCoalesceNoneLost | hosted/bsdsocket/bsdsock_pump.c:93-145 | a ps_wake about to return leaves the latch set; it is set as long as one has returned since it was last taken, timeouts included, and no wait succeeds without a returned wake of its own |
| WakeLatch.WakeAlone | hosted/bsdsocket/bsdsock_pump.c:93-107 | a whole ps_wake leaves the latch set and one byte in the pipe, first to wake or not |
| WakeLatch.SleeperIsWoken | hosted/bsdsocket/bsdsock_pump.c:93-145 | a ps_wait asleep in select is woken by any ps_wake and returns 1, leaving latch and pipe empty |
| WakeLatch.NothingPendingSleeps | hosted/bsdsocket/bsdsock_pump.c:109-135 | with no wake pending ps_wait goes to sleep in select, having changed nothing |
| WakeLatch.SleeperGivesUp | hosted/bsdsocket/bsdsock_pump.c:135-145 | asleep with no wake it returns 0 on a timeout or an error, and starts over on EINTR |
| WakeLatch.AtMostTwoPasses | hosted/bsdsocket/bsdsock_pump.c:109-145 | a wait makes at most two passes, plus one per EINTR, and succeeds once select has found the pipe readable |
| WakeLatch.PendingWakeIsTaken | hosted/bsdsocket/bsdsock_pump.c:109-125 | a pending wake is taken by the next wait without sleeping, leaving latch and pipe empty |
| Pump.Table.FindReg | hosted/bsdsocket/bsdsock_pump.c:185-190 | finds the slot of this owner's registration exactly when there is one |
| Pump.Table.HasOwner | hosted/bsdsocket/bsdsock_pump.c:200-205 | true exactly when some owner has the descriptor |
| Pump.Table.Register | hosted/bsdsocket/bsdsock_pump.c:333-358 | succeeds exactly for the owner, or a free descriptor with a free slot; one registration per descriptor, filters exactly the wanted directions; refused calls change nothing |
| Pump.Table.Unregister | hosted/bsdsocket/bsdsock_pump.c:360-375 | removes the registration and its filters for the owner; anyone else's call changes nothing |
| Pump.Table.Event | hosted/bsdsocket/bsdsock_pump.c:264-284 | an event, stale or not, stashes readiness and wakes only for a registration of that descriptor in that slot that still wants the direction |
| Pump.Table.Drain | hosted/bsdsocket/bsdsock_pump.c:377-392 | reports each stashed readiness of the owner once and empties it, all of them unless max is reached, nobody else's |
| Pump.Table.Start | hosted/bsdsocket/bsdsock_pump.c:284-315 | a running pump is left alone; a stopped one runs with a kqueue without filters, or stays stopped and fails when the host lets it not be made |
| Pump.Table.Stop | hosted/bsdsocket/bsdsock_pump.c:317-331 | every registration and filter is dropped, and a stopped pump has none |
| Pump.RegisterKeeps | hosted/bsdsocket/bsdsock_pump.c:333-358 | one slot per descriptor and the filter set stay in agreement over a registration |
| PumpHistory.Replay | hosted/bsdsocket/bsdsock_pump.c:284-392 | any sequence of calls on the table answers as the registrations allow, and the table ends as the answers alone say |
| PumpHistory.ReportedOnce | hosted/bsdsocket/bsdsock_pump.c:264-392 | in any history, between two reports of the same readiness an event has stashed it anew |
| PumpHistory.ReportedWasStashed | hosted/bsdsocket/bsdsock_pump.c:264-392 | in any history, what a drain reports an earlier event stashed |
| PumpHistory.StashStays | hosted/bsdsocket/bsdsock_pump.c:264-392 | in any history, a stash stays for the owner it woke until a drain reports it, the owner unregisters, or the pump stops |
| PumpHistory.NoneLost | hosted/bsdsocket/bsdsock_pump.c:377-392 | in any history, once the owner has drained with room to spare, every stash not dropped so has been reported |
| Parking.Park | hosted/bsdsocket/bsdsock_shim.c:91-101 | whatever other tasks and the pump do while this one is parked, they never make or change its registration, and only stopping the pump removes it |
| Parking.Transfer | hosted/bsdsocket/bsdsock_shim.c:124-183 | send and receive return the first answer that is not would-block, within 50 parks, else time out; each park is with the registration for that direction in place, if the table would take it; a call that parked leaves (fd, sig) unregistered, one that did not leaves the table alone |
| Parking.ConnectTo | hosted/bsdsocket/bsdsock_shim.c:79-112 | connect succeeds exactly when SO_ERROR is clear at the first writable probe, within 50 parks; every park is with the registration for writing in place, if the table took it and the pump was not stopped; a pending connect leaves (fd, sig) unregistered, one answered at once leaves the table alone |
| Parking.SendAll | hosted/bsdsocket/bsdsock_shim.c:140-159 | the whole length once chunks have taken it; the error of the chunk that failed; or what the chunks before the peer closed had taken; each of its parks is with the registration for writing in place, if the table would take it |
| Parking.FullIffNothingStops | hosted/bsdsocket/bsdsock_shim.c:140-159 | the whole length comes back exactly when no chunk fails or finds the peer closed before it has gone |
| Parking.EarlyCloseReturns | hosted/bsdsocket/bsdsock_shim.c:140-159 | a peer that closes at chunk k leaves the sum of the earlier chunks, 0 exactly when k is the first |
| Parking.ZeroIffClosedAtOnce | hosted/bsdsocket/bsdsock_shim.c:140-159 | with bytes to send, 0 comes back exactly when the peer closes at the first chunk |
| Parking.PartialCountAtEarlyClose | hosted/bsdsocket/bsdsock_shim.c:140-159 | one byte of two taken and then the peer closed: the result is 1 |

## Left out

- Register and stack switching, the first-tick set-up of contexts, assembly: a task switch is an assignment to the running task. `kern.c` may switch to any worker, which includes what its scheduler does.
- The tick counter itself: the tick limit is a choice of the schedule, and ends a run.
- `PutMsg` of a message that is already queued or held by another caller, and `WaitPort` on another task's port: the kernel theorems are about programs that do neither. Ports have an owner and signal it.
- Guarantees that depend on fairness (that a blocked task eventually runs): the theorems are safety properties, with `Scheduler.BoundedBypass` for the order of dispatch.
- Unbounded counters: `long` values in the demonstrations do not overflow.
- The allocator's memory is a map from addresses to words; partial overlap of word accesses does not arise, chunks being aligned. In `kernheap` a memset under Forbid is one store, and a walk step reads one chunk.
- MemHeaders.MemHeader.constructor: a null base, or a region over the header or past the end of the address space; the stores would not be memory.
- MemHeaders.MemHeader.Deallocate: a block that reaches the top 16 bytes of the address space, where the end pointer wraps, or that starts at the header field itself.
- AudioContext: the methods of the class run without interference; the interleavings are in `Ring`, with sequentially consistent loads and stores in place of acquire and release. Volume, conversion to float, the WAV file and the first-push log are not modelled, and a null context is not an argument.
- Pump.Table.Register: a `kevent(EV_ADD)` that fails is ignored by the source, which leaves a registration without its filter; here the host adds every filter. The test of `g_kq` is part of the locked step here, and outside the lock in the source.
- Pump.Table.Stop: one step, so a registration that tested `g_kq` before the stop and takes the lock after it is not covered.
- The wake callback of `ps_create_cb`, destroying a wake target, and the pump thread itself: plumbing.
- Guest accesses within three bytes of the top of the 32-bit space, where the source's bound check wraps.
- Event delivery, tracing and Rexx aliasing around the guest message ports; the guest `Wait` loop; node names and types.
- The comparison callback is a pure function, and allocation of the array that flattens a tree does not fail.
- A host file larger or stranger than a sequence of bytes; `pread` returning less than is there is a fault the host may choose.
- `emu68k_dos.c`, `emu68k_intuition.c`, graphics, resolver, and the allocator and scheduler copies in `library.c` and `execboot.c`: marshalling, or the same algorithms again.
