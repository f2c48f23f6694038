# Firmware core: a verified model

This project models five parts of the Flipper Zero firmware core in Dafny and proves what they promise:

* **The heap** (`furi/core/memmgr_heap.c`): a first-fit allocator over an address-sorted, XOR-protected free list
  with splitting and coalescing. `memmgr.dfy` is the allocator as a class that edits block headers in place,
  `heap.dfy` relates headers in memory to a row of blocks, `heap_blocks.dfy` is the theory of such rows,
  `words.dfy` the link protection. Every method is specified by the row of blocks it leaves, and the central result is
  that this row is a function of the live allocations alone.
* **The event loop** (`furi/core/event_loop.c`, `furi/core/event_loop_timer.c`, with `furi/core/message_queue.c` as the
  subscribed object). `event_loop.dfy` is a state machine over atomic steps in which the loop thread, the callbacks it
  runs (which may call any loop-thread API), producers, consumers, delayed notifications and the clock interleave in
  any order; its theorems are about every state of every run. `event_loop_timer.dfy` and `event_loop_items.dfy` hold
  the timer and subscription parts with their invariants, `event_loop_class.dfy` the same operations as objects updated
  in place, each proved to be the step that the run theorems speak about. `event_loop_laws.dfy` and
  `event_loop_timer_laws.dfy` say what the calls made in a run mean for its later states. `event_loop_runs.dfy` holds particular runs:
  where the code falls short of what its caller may expect, a run that shows it and the exact condition over all runs.
* **Digital signals** (`lib/digital_signal`): rounding with remainder carry (`digital_signal.dfy`), flattening of a
  sequence of signals into timer periods (`digital_sequence.dfy`), the ring buffer shared with the DMA channel
  (`timer_buffer.dfy`), the two joined under every interleaving of writer and DMA (`transmission.dfy`), all against the
  run-length form of a waveform (`waveform.dfy`).
* **Bit streams** (`lib/bit_lib/bit_lib.c`): in-place rewriting of bits in byte arrays (`bit_buffer.dfy`,
  `bit_lib.dfy`), and the CRC routines (`bit_lib_crc.dfy`) against polynomial division over GF(2) (`crc.dfy`).
* **Calendar conversion** (`lib/datetime/datetime.c`, `date_time.dfy`) and **the record registry**
  (`furi/core/record.c`, `records.dfy`) under every interleaving of its callers.

`dfyconfig.toml` lists all files.

## What the model brings out

* A valid heap is exactly the live blocks with each maximal gap between them as one free block, so two histories that
  leave the same blocks allocated leave the same free list (`HistoryIndependent`, `RunsAgree`).
* With an active timer and no tick callback the event loop sleeps no longer than to the earliest deadline if and only if
  the front timer was not started in the same tick for 0xFFFFFFFF ticks, the value that means waiting for ever
  (`NeverOversleeps`, `SleepsUntilEarliest`); `SleepsForEver` is a run that ends in such a sleep.
* A raised thread flag is kept or answered if and only if no wake-up took it together with Pending and without Event or
  Timer (`ThreadFlagFate`); `ThreadFlagDropped` is a run that loses it.
* The header of the event loop says an object can have one subscription for each direction
  (`furi/core/event_loop.h:29-30`), but the code refuses a second subscription of the same object to the same loop
  whatever its direction (`furi/core/event_loop.c:331`). The model follows the code: subscribing is possible if and only
  if the object has no subscription (`OneSubscriptionPerObject`), and `OutRefused` is a run in which a subscription for
  In refuses one for Out.
* `digital_signal_add_period` keeps every stored edge within 781 ticks of its ideal time if and only if the 32-bit sum
  of ticks and remainder does not wrap (`AppendExact`, `ExtendExact`, and the contracts of the signal's methods);
  `WrappingPeriod` builds a signal with a wrapped period.
* The remainder carried through `digital_sequence_transmit` is bounded above by half a timer period but not below: every
  sequence drawn from a bank of signals keeps it at least minus half a period if and only if no signal of the bank has
  a negative remainder (`BankStable`).
* A stored value v lasts v + 1 timer periods, so every boundary merged by `digital_sequence_transmit` shortens the
  output by one timer period; the duration is kept if and only if no signal ends at the level the next one begins at
  (`MergingLosesPeriods`, with `MergedPulses` as the smallest loss). Merged periods are summed in 32 bits, which gives
  the runs of the waveform if and only if each fits (`Transmit`, with `OverlongRun` as one that does not).
* The parity word of `bit_lib_add_parity` holds 32 bits: a longer group gets the parity asked for if and only if the
  bits shifted out have an even number of ones (`FramedGroup`, `LongGroupLosesParity`).
* `bit_lib_reverse_bits` leaves its buffer if and only if the length is 0 (`ReverseBits`).
* The signed product of `datetime_datetime_to_timestamp` leaves the `int` range for every year from 2039 through 2306,
  and its eight-bit counters hold if and only if the year is at most 2306 (`ToTimestamp`, `CountYears`).

## Model

| member | source | states |
|---|---|---|
| `Words.XorInvolution` | furi/core/memmgr_heap.c:114-136 | unprotecting a protected link gives the address back, for every key |
| `Words.XorInjective` | furi/core/memmgr_heap.c:376-376 | comparing a stored link with the protected NULL is comparing the address with NULL |
| `Words.XorBit` | furi/core/memmgr_heap.c:130-131 | each bit of a protected link is the address bit, flipped where the key has a one |
| `Words.XorWidth` | furi/core/memmgr_heap.c:114-136 | a protected link fits the same word width as the address and the key |
| `HeapBlocks.TilesOrdered` | furi/core/memmgr_heap.c:394-435 | blocks of a tiled heap occupy disjoint ranges in address order, neighbours touching |
| `HeapBlocks.FreeAddrsSorted` | furi/core/memmgr_heap.c:613-669 | the free list of a tiled heap is strictly sorted by address and stays inside the heap |
| `HeapBlocks.BytesConserved` | furi/core/memmgr_heap.c:422-422 | free bytes plus live bytes is the constant size of the heap |
| `HeapBlocks.HistoryIndependent` | furi/core/memmgr_heap.c:613-669 | any tiled heap with no touching free blocks is the live blocks with every maximal gap as one free block |
| `HeapBlocks.AllocValid` | furi/core/memmgr_heap.c:394-435 | taking the first fit, split or whole, keeps the heap tiled, aligned and with free blocks apart |
| `HeapBlocks.AllocViews` | furi/core/memmgr_heap.c:394-435 | an allocation adds exactly one live block, removes none, and takes exactly its size from the free bytes |
| `HeapBlocks.AllocExact` | furi/core/memmgr_heap.c:401-422 | an allocation of w bytes takes exactly w from the front of the free block it fits, or all of it when at most the minimum block size would be left; what is left is free and larger than that; every other block stays |
| `HeapBlocks.AbsorbExact` | furi/core/memmgr_heap.c:613-669 | a free takes exactly that block from the live ones and leaves all others |
| `HeapBlocks.AbsorbIsRelease` | furi/core/memmgr_heap.c:613-669 | merging a freed block with its free neighbours is the canonical heap of the remaining live blocks, and adds exactly its size to the free bytes |
| `HeapBlocks.ServeMalloc` | furi/core/memmgr_heap.c:363-384 | in a heap smaller than the allocated bit a request is served exactly when some free block holds its rounded size |
| `HeapBlocks.RunCanonical` | furi/core/memmgr_heap.c:311-669 | after every sequence of malloc and free, from any valid heap: tiled, free blocks apart, byte-conserving, and determined by the live blocks |
| `HeapBlocks.RunsAgree` | furi/core/memmgr_heap.c:311-669 | two runs that leave the same blocks allocated leave the same heap; freeing everything in any order restores the single initial block |
| `HeapBlocks.BlocksNeverTiny` | furi/core/memmgr_heap.c:70-70 | in every run from the initial heap no block is smaller than the minimum block size |
| `HeapBlocks.MallocFreeRestores` | furi/core/memmgr_heap.c:394-435 | freeing what malloc just returned restores the heap block for block |
| `Heap.CarvedHolds` | furi/core/memmgr_heap.c:394-435 | the header writes of an allocation represent the row with the block carved, with the list linked from xStart to pxEnd |
| `Heap.ReturnedHolds` | furi/core/memmgr_heap.c:630-668 | the header writes of all four merge cases of a free represent the row with the merged block, list still linked |
| `Heap.RoomBounds` | furi/core/memmgr_heap.c:367-368 | a request some free block can hold passes the free-bytes pre-check, so the pre-check never rejects a satisfiable request |
| `Heap.TakenFacts` | furi/core/memmgr_heap.c:324-435 | the block a served request gets is the front of the lowest free block that is large enough, aligned, of exactly the rounded size or the whole free block with at most the minimum block size more, and overlaps no live block, all of which stay |
| `MemMgr.MemoryManager.constructor` | furi/core/memmgr_heap.c:101-101 | before the first allocation the heap is one free block from the aligned start to the end marker |
| `MemMgr.MemoryManager.HeapBounds` | furi/core/memmgr_heap.c:571-596 | first block and end marker are aligned and waste less than one alignment unit at either end |
| `MemMgr.MemoryManager.HeapInit` | furi/core/memmgr_heap.c:567-610 | sets up headers that represent one free block, with both byte counters at its size |
| `MemMgr.MemoryManager.FindFit` | furi/core/memmgr_heap.c:371-380 | the walk over protected links ends at the lowest free block that is large enough, or at the end marker, with its predecessor in the list |
| `MemMgr.MemoryManager.CarveHeaders` | furi/core/memmgr_heap.c:394-435 | unlink, optional split and allocated bit, as one header update |
| `MemMgr.MemoryManager.TakeBlock` | furi/core/memmgr_heap.c:384-436 | the new heap is the first-fit allocation, the free counter follows it, the low-water mark is the minimum |
| `MemMgr.MemoryManager.RequestSize` | furi/core/memmgr_heap.c:324-350 | header plus payload rounded up to the alignment; 0 exactly for 0 bytes or 32-bit overflow |
| `MemMgr.MemoryManager.AllocBlock` | furi/core/memmgr_heap.c:352-452 | returns a block exactly when some free block holds the size, else changes nothing; counts allocations and keeps the low-water mark |
| `MemMgr.MemoryManager.Malloc` | furi/core/memmgr_heap.c:311-469 | the step of the run theorems; succeeds exactly when some free block holds the rounded size, takes the front of the lowest one, aligned, of exactly that size unless at most the minimum block size would be left, keeps every live block and overlaps none, lowers the free bytes by the size taken, zeroes exactly the n payload bytes; the two failures are told apart by the size asked for and change nothing |
| `MemMgr.MemoryManager.Wipe` | furi/core/memmgr_heap.c:467-467 | zeroes exactly the given bytes and no others |
| `MemMgr.MemoryManager.FindPlace` | furi/core/memmgr_heap.c:618-628 | the insertion walk stops at the last free block below the freed one |
| `MemMgr.MemoryManager.JoinHeaders` | furi/core/memmgr_heap.c:630-668 | merges left, right, both or neither by the address tests alone |
| `MemMgr.MemoryManager.ReturnBlock` | furi/core/memmgr_heap.c:508-521 | the heap afterwards is the canonical heap of the remaining live blocks |
| `MemMgr.MemoryManager.FreeBlock` | furi/core/memmgr_heap.c:489-527 | a live block is released to the canonical heap and its payload, and only it, is zeroed; a free one is refused and nothing changes |
| `MemMgr.MemoryManager.Free` | furi/core/memmgr_heap.c:472-529 | the step of the run theorems; NULL is accepted and changes nothing, a pointer outside the heap and a second free are refused and change nothing, a live payload is zeroed and its block, and no other, is live no more, its size added to the free bytes |
| `MemMgr.MemoryManager.StoredLinksFit` | furi/core/memmgr_heap.c:130-131 | every protected link stored in a header the list or a block uses fits its 32-bit word |
| `MemMgr.MemoryManager.GetHeapStats` | furi/core/memmgr_heap.c:672-720 | counts the free blocks, finds the exact smallest, and its largest block decides exactly which requests malloc can serve |
| `EventLoopTimer.ElapsedIsTrue` | furi/core/event_loop_timer.c:12-14 | wrapping 32-bit subtraction is true elapsed time while that is below 2^32 |
| `EventLoopTimer.ScheduledSorted` | furi/core/event_loop_timer.c:26-51 | insertion keeps the list in order of clipped remaining time and adds exactly that timer |
| `EventLoopTimer.ScheduledBehindEqual` | furi/core/event_loop_timer.c:34-49 | a timer goes behind those not due later and before those due later, so equal deadlines keep their order |
| `EventLoopTimer.RemainingTick` | furi/core/event_loop_timer.c:16-20 | one tick lowers the clipped remaining time by one, or leaves it at zero, across counter wrap-around |
| `EventLoopTimer.TickInv` | furi/core/event_loop_timer.c:12-51 | a tick keeps the active list sorted and all timer invariants, across wrap-around |
| `EventLoopTimer.PopRequestInv` | furi/core/event_loop_timer.c:89-116 | processing a request keeps the list equal to the active timers and the queue equal to those with a request, and never meets an unknown request |
| `EventLoopTimer.EnqueueInv` | furi/core/event_loop_timer.c:53-72 | a new request replaces the timer's old one and keeps all timer invariants |
| `EventLoopTimer.ExpireInv` | furi/core/event_loop_timer.c:118-140 | taking an expired timer off keeps all timer invariants, with a periodic one in flight until it is scheduled again |
| `EventLoopTimer.RearmExact` | furi/core/event_loop_timer.c:131-136 | the re-armed start is a whole number of intervals later, at most now and less than one interval before now, and the wrapping arithmetic agrees with true time |
| `EventLoopTimer.WaitIsEarliest` | furi/core/event_loop_timer.c:78-87 | the wait time reaches exactly the front timer's true deadline, which no active timer's precedes, and is the value for waiting for ever only for a timer started in this tick for that long |
| `EventLoopTimer.NeverOversleeps` | furi/core/event_loop.c:223-229 | the sleep is limited by every active timer's deadline if and only if the tick's wait is limited or the front timer was not started in this very tick for 0xFFFFFFFF ticks; otherwise it has no limit |
| `EventLoopTimer.ExpiredIsDue` | furi/core/event_loop_timer.c:22-24 | the wrapping expiry test is true time reaching the deadline |
| `EventLoopTimer.RearmAdvances` | furi/core/event_loop_timer.c:131-136 | re-arming an overdue timer moves its start by at least one interval |
| `EventLoopItems.LinkNotifyInv` | furi/core/event_loop.c:587-601 | a notification keeps tree, links, waiting list and lifetimes in agreement and uncovers no level |
| `EventLoopItems.QueueOpCovered` | furi/core/message_queue.c:57-141 | a queue operation that can raise a level owes the notification for it |
| `EventLoopItems.SubscribeInv` | furi/core/event_loop.c:316-359 | subscribing keeps tree, links, waiting list and lifetimes in agreement |
| `EventLoopItems.SubscribeCovered` | furi/core/event_loop.c:352-356 | a new level subscription whose level is already non-zero is not missed |
| `EventLoopItems.UnsubscribeInv` | furi/core/event_loop.c:446-482 | unsubscribing, from outside or inside the item's own callback, keeps everything in agreement and frees at most once |
| `EventLoopItems.ReleaseInv` | furi/core/event_loop.c:183-186 | a deferred free happens when nothing refers to the item any more |
| `EventLoopItems.LookAway` | furi/core/event_loop.c:104-116 | the loop may drop an item after its last level check only if it is unsubscribed, edge-triggered or has level zero |
| `EventLoop.StepKeepsInv` | furi/core/event_loop.c:172-258 | every step of the loop, of a callback and of any other thread keeps the whole invariant |
| `EventLoop.RunKeepsInv` | furi/core/event_loop.c:208-264 | the invariant holds in every state of every run |
| `EventLoop.NoLostWakeup` | furi/core/event_loop.c:222-258 | at every wait, a non-empty waiting list, timer queue or pending queue has its bit set |
| `EventLoopTimerLaws.PendedBeginInOrder` | furi/core/event_loop.c:193-199 | the callbacks begun so far are the first ones passed to pend, in that order, and all of them once the loop waits without the Pending bit |
| `EventLoopTimerLaws.StopIsObeyed` | furi/core/event_loop.c:232-234 | a stop request is never lost and the next wake-up obeys it before any other work |
| `EventLoopTimerLaws.StopsOnlyOnRequest` | furi/core/event_loop.c:285-288 | the loop stops only after a stop request |
| `EventLoopTimerLaws.WorkInOrder` | furi/core/event_loop.c:231-257 | a wake-up serves waiting items first, then timer requests, then pended callbacks, and looks for expired timers only when none of these waits |
| `EventLoopLaws.SubscriptionStays` | furi/core/event_loop.c:316-359 | in every run, from a subscribe to the unsubscribe of its object, the object has the item made then, with the direction and the trigger kind asked for |
| `EventLoopLaws.ReadyIsNeverMissed` | furi/core/event_loop.c:104-191 | an object subscribed without the edge flag and not unsubscribed since, whose queue holds a message (In) or has space (Out), is on the waiting list whenever no notification is owed and the item is not being processed, under every interleaving |
| `EventLoopLaws.NotifiedIsWaiting` | furi/core/event_loop.c:587-601 | a notification of a subscribed object, edge or level, puts its item on the waiting list and sets the Event bit |
| `EventLoopLaws.EdgeOnlyWhenNotified` | furi/core/event_loop.c:96-102 | an edge-triggered item gets on the waiting list only by a notification of its object, never back after its callback |
| `EventLoopLaws.CheckedIsCalled` | furi/core/event_loop.c:104-132 | the item popped is the one that waited longest, and its callback begins exactly when it is edge-triggered or its queue is ready |
| `EventLoopLaws.UnsubscribedStaysSilent` | furi/core/event_loop.c:446-482 | after an unsubscribe the callback of that subscription never begins again, in any run |
| `EventLoopLaws.MessagesCounted` | furi/core/message_queue.c:57-208 | in every run a queue holds what it held at its last reset (nothing) or at the start, plus the puts since, less the gets since |
| `EventLoopLaws.NotificationsOwed` | furi/core/message_queue.c:93-141 | in every run the notifications still owed are the puts, or the gets and resets, not yet followed by their link notification |
| `EventLoopTimerLaws.ItemsQueue` | furi/core/event_loop.c:143-156 | in every step of a run waiting items keep their order and new ones go to the back |
| `EventLoop.ItemsLiveExactly` | furi/core/event_loop.c:316-558 | in every state: tree, links and waiting list agree; all they or the loop refer to is allocated; every item that is not allocated any more was freed exactly once; nothing leaks |
| `EventLoop.SleepsUntilEarliest` | furi/core/event_loop.c:223-229 | at every wait of every run with an active timer the list is in deadline order, holds exactly the active timers, and the sleep is limited by every deadline if and only if the tick's wait is limited or the front timer was not just started for 0xFFFFFFFF ticks |
| `EventLoop.FiresOnTime` | furi/core/event_loop_timer.c:118-144 | in every run a timer callback begins only when the true deadline it fires for has passed |
| `EventLoop.CallbacksForDistinctPeriods` | furi/core/event_loop_timer.c:131-142 | two callbacks of a periodic timer without a new start between them fire for different deadlines of its grid |
| `EventLoopTimerLaws.StartTakesEffect` | furi/core/event_loop_timer.c:97-103 | in every run the processed start of a timer makes it run with the interval passed to that call, from the tick of processing |
| `EventLoopTimerLaws.StartStays` | furi/core/event_loop_timer.c:97-103 | interval and original start stay those of the processed start until the timer's next request is processed |
| `EventLoopTimerLaws.FiresAfterInterval` | furi/core/event_loop_timer.c:97-142 | a callback begins no earlier than the interval passed to start after the tick in which the start was processed |
| `EventLoopTimerLaws.StopTakesEffect` | furi/core/event_loop_timer.c:105-107 | a processed stop leaves the timer allocated, idle and off the list |
| `EventLoopTimerLaws.FreeTakesEffect` | furi/core/event_loop_timer.c:109-110 | a processed free removes the timer |
| `EventLoopTimerLaws.KindAsAllocated` | furi/core/event_loop_timer.c:150-171 | a timer is idle when allocated, and periodic or not as asked for as long as it lives |
| `EventLoopTimerLaws.IdleStaysSilent` | furi/core/event_loop_timer.c:118-144 | an idle or freed timer does not fire before a start of it is processed |
| `EventLoopTimerLaws.OneShotFiresOnce` | furi/core/event_loop_timer.c:138-142 | a one-shot timer fires at most once for each processed start |
| `EventLoopTimerLaws.DueTimerFires` | furi/core/event_loop_timer.c:118-144 | when the loop looks for expired timers, the front timer goes to its callback if its true deadline has passed, at once or after re-arming and nowhere else before; otherwise the tick is served |
| `EventLoopTimerLaws.RequestsQueue` | furi/core/event_loop_timer.c:53-72 | a call puts its timer behind all other requests, and otherwise the request queue keeps its order |
| `EventLoopTimerLaws.TimeIsTicks` | furi/core/event_loop_timer.c:12-14 | true time in the timer theorems is the number of ticks so far |
| `EventLoop.FiresOnlyAudible` | furi/core/event_loop.c:255-257 | a timer callback starts only for a timer that was not stopped or freed since its last processed start |
| `EventLoop.StoppedStaysSilent` | furi/core/event_loop_timer.c:53-144 | after stop or free is called, the callback does not run before a later start has been processed, in any run |
| `EventLoop.NeverStuck` | furi/core/event_loop.c:172-258 | in every reachable state the loop's next step is possible: no check fails and no freed item or timer is touched |
| `EventLoop.NeverDrifts` | furi/core/event_loop_timer.c:118-144 | in every state of every run an active timer's start is its original start plus whole intervals, and its 32-bit start is that time modulo 2^32 |
| `EventLoop.MissedPeriodsFireOnce` | furi/core/event_loop_timer.c:131-136 | after re-arming, start <= now < start + interval however many periods were missed, so they give one callback |
| `EventLoopRuns.SleepsForEver` | furi/core/event_loop.c:223-229 | a run of eight steps after which the loop waits without limit although a timer is due at tick 0xFFFFFFFF |
| `EventLoopRuns.ThreadFlagFate` | furi/core/event_loop.c:231-253 | in every run, from raising the thread flag until it is raised again or a Stop is consumed, the bit is set, saved or answered if and only if no wake-up took it with Pending and without Event or Timer |
| `EventLoopRuns.ThreadFlagDropped` | furi/core/event_loop.c:244-245 | a run of four steps that loses the thread flag |
| `EventLoopRuns.OneSubscriptionPerObject` | furi/core/event_loop.c:331-350 | in every run, where the API may be called, an object can be subscribed to if and only if it exists and has no subscription in either direction |
| `EventLoopRuns.OutRefused` | furi/core/event_loop.c:331-331 | a reachable state in which a subscription for In refuses one for Out |
| `EventLoopObjects.TimerService.ScheduleTimer` | furi/core/event_loop_timer.c:26-51 | the backward scan inserts at the place that keeps the list sorted |
| `EventLoopObjects.TimerService.EnqueueRequest` | furi/core/event_loop_timer.c:53-72 | moves the timer to the back of the queue with its new request and sets the Timer bit |
| `EventLoopObjects.TimerService.Start` | furi/core/event_loop_timer.c:180-187 | one start request with the new interval, leaving the running interval alone |
| `EventLoopObjects.TimerService.Stop` | furi/core/event_loop_timer.c:198-203 | one stop request; the timer is silenced from here on |
| `EventLoopObjects.TimerService.Free` | furi/core/event_loop_timer.c:173-178 | one free request; the timer is silenced from here on |
| `EventLoopObjects.TimerService.TakeRequest` | furi/core/event_loop_timer.c:91-114 | a start makes the timer run from now with the interval it asked for, a stop leaves it idle, a free removes it, no other timer changes; exactly the state machine's step |
| `EventLoopObjects.TimerService.ProcessTimerQueue` | furi/core/event_loop_timer.c:89-116 | empties the queue, applying the requests oldest first, and keeps the timer invariants |
| `EventLoopObjects.TimerService.ProcessExpiredTimers` | furi/core/event_loop_timer.c:118-144 | fires exactly when the front timer's deadline has passed, at most one timer; a periodic one is listed again with a deadline ahead, a one-shot one is idle |
| `EventLoopObjects.TimerService.MoveStart` | furi/core/event_loop_timer.c:131-135 | advances the start by whole intervals to within one interval of now |
| `EventLoopObjects.TimerService.GetTimerWaitTime` | furi/core/event_loop_timer.c:78-87 | the value for waiting for ever without timers, else exactly the time to the front timer's deadline, which is no later than any active timer's; that time is the value for waiting for ever only for a timer just started for it |
| `EventLoopObjects.TimerService.TicksToSleep` | furi/core/event_loop.c:223-229 | the minimum with the tick's wait, without limit at the value for waiting for ever; in time for every active timer under the exact condition |
| `EventLoopObjects.Subscriptions.ItemNotify` | furi/core/event_loop.c:543-558 | the item is on the waiting list once and the Event bit is set |
| `EventLoopObjects.Subscriptions.LinkNotify` | furi/core/event_loop.c:587-601 | notifies the item of that direction, if any, and keeps all agreement invariants |
| `EventLoopObjects.Subscriptions.Subscribe` | furi/core/event_loop.c:316-359 | enters a new item of the direction and kind asked for in tree and link, notifies at once if its level is already up, keeps other subscriptions and all agreement invariants |
| `EventLoopObjects.Subscriptions.Unsubscribe` | furi/core/event_loop.c:446-482 | removes the item everywhere, freeing it now or marking it when it is the current item |
| `EventLoopObjects.Subscriptions.GetWaitingItem` | furi/core/event_loop.c:143-156 | hands out the oldest waiting item, still allocated, or none |
| `EventLoopObjects.Subscriptions.CheckItem` | furi/core/event_loop.c:104-132 | an edge event is passed on, a level event exactly when its level is up |
| `EventLoopObjects.Subscriptions.FinishItem` | furi/core/event_loop.c:104-191 | after the callback the item is freed if it was unsubscribed, requeued if it is a level item whose level is still up, left otherwise, and a non-empty waiting list has its bit set |
| `EventLoopObjects.Subscriptions.QueuePut` | furi/core/message_queue.c:57-99 | each status under its exact condition (parameters, full queue with or without timeout); success adds exactly one message to this queue, then gives the In notification; failure changes nothing |
| `EventLoopObjects.Subscriptions.QueueGet` | furi/core/message_queue.c:101-141 | each status under its exact condition (parameters, empty queue with or without timeout); success takes exactly one message from this queue, then gives the Out notification; failure changes nothing |
| `EventLoopObjects.Subscriptions.QueueReset` | furi/core/message_queue.c:189-208 | refused in an interrupt; otherwise empties the queue, then the Out notification |
| `Waveform.RunsExtend` | lib/digital_signal/digital_signal.c:80-95 | adding pieces one by one, extending or opening a run, computes the maximal equal-level runs |
| `Waveform.RunsShape` | lib/digital_signal/digital_signal.c:87-93 | maximal runs alternate in level and keep the first and last level |
| `Waveform.RunsSum` | lib/digital_signal/digital_sequence.c:323-326 | merging keeps the total and never adds pieces |
| `Waveform.RunsMeaning` | lib/digital_signal/digital_sequence.c:316-341 | merging equal levels preserves meaning: at every tick the runs have the level of the waveform |
| `DigitalSignals.Round` | lib/digital_signal/digital_signal.c:44-52 | the duration is reload times 1562 plus a remainder in -781..780 |
| `DigitalSignals.AppendExact` | lib/digital_signal/digital_signal.c:40-58 | storing a rounded period keeps every edge within 781 ticks of its ideal time if and only if the duration did not wrap |
| `DigitalSignals.ExtendExact` | lib/digital_signal/digital_signal.c:60-78 | the same for extending the last period |
| `DigitalSignals.DigitalSignal.constructor` | lib/digital_signal/digital_signal.c:8-14 | a new signal is empty, with no error |
| `DigitalSignals.DigitalSignal.AddPeriod` | lib/digital_signal/digital_signal.c:40-58 | succeeds exactly when there is room and the period rounds to more than one timer period; appends the rounded value of the 32-bit sum and keeps its remainder; stays exact if and only if the sum does not wrap |
| `DigitalSignals.DigitalSignal.ExtendLastPeriod` | lib/digital_signal/digital_signal.c:60-78 | replaces the last value by the rounded 32-bit sum and keeps its remainder; exact if and only if the sum does not wrap |
| `DigitalSignals.DigitalSignal.AddPeriodWithLevel` | lib/digital_signal/digital_signal.c:80-95 | the stored periods are the maximal equal-level runs of all calls so far, whatever the order of levels; when it fails nothing is stored |
| `DigitalSignals.SignalTotals` | lib/digital_signal/digital_signal.c:40-95 | after any series of calls that did not wrap, total ticks = 1562 * sum(data + 1) + remainder, one period per maximal run, and each stored edge within 781 ticks of its ideal time |
| `DigitalSignals.WrappingPeriod` | lib/digital_signal/digital_signal.c:44-57 | 3986 ticks and then 0 ticks give a signal whose second period wrapped and which is not exact |
| `DigitalSequences.RemaindersAccounted` | lib/digital_signal/digital_sequence.c:360-365 | corrections * 1562 + carried remainder = sum of remainders, and the carried remainder stays below 781 |
| `DigitalSequences.BankStable` | lib/digital_signal/digital_sequence.c:360-365 | every sequence drawn from a bank keeps the carried remainder at least minus half a period if and only if no signal of the bank has a negative remainder |
| `DigitalSequences.RepeatedSignalStable` | lib/digital_signal/digital_sequence.c:360-365 | the same for one signal repeated for ever |
| `DigitalSequences.SendSignal` | lib/digital_signal/digital_sequence.c:310-355 | one signal's periods, in 32-bit sums, continue the runs of the waveform as long as these fit, the last held back when the next signal continues its level or there is none |
| `DigitalSequences.Transmit` | lib/digital_signal/digital_sequence.c:296-368 | for every sequence of non-empty signals, the periods sent, then the one held, are the maximal runs of the concatenated, corrected waveform if and only if each run fits 32 bits |
| `DigitalSequences.TransmitTotals` | lib/digital_signal/digital_sequence.c:296-368 | values sent plus the held one are all signal data plus the corrections; levels alternate from the first start level; the corrections account for the remainders of all signals but the last |
| `DigitalSequences.TransmitMeaning` | lib/digital_signal/digital_sequence.c:296-368 | a pin that starts at the first level and toggles after each period sent, holding the last, has at every tick the level of the concatenated, corrected waveform |
| `DigitalSequences.EdgeTimes` | lib/digital_signal/digital_sequence.c:310-365 | every edge comes after all signal data and corrections before it, so it is off its ideal time by exactly the remainder carried at its signal |
| `DigitalSequences.WaveJoins` | lib/digital_signal/digital_sequence.c:316-326 | the waveform has one run less than it has periods for every signal that ends at the level the next begins at |
| `DigitalSequences.MergingLosesPeriods` | lib/digital_signal/digital_sequence.c:323-341 | what is sent and held lasts as long as all signals and corrections less one timer period for each such boundary, so the duration is kept if and only if there is none |
| `DigitalSequences.MergedPulses` | lib/digital_signal/digital_sequence.c:323-326 | two high pulses of two timer periods are merged into one of three |
| `DigitalSequences.OverlongRun` | lib/digital_signal/digital_sequence.c:312-326 | 1563 signals of the longest period at one level merge into a run beyond 32 bits |
| `DigitalSequences.BuiltSignalsUsable` | lib/digital_signal/digital_signal.c:54-57 | signals built with the signal methods meet what transmission needs |
| `TimerBuffer.FreeSlots` | lib/digital_signal/digital_sequence.c:238-240 | the modular free-space formula is the buffer size minus the unread count, or zero when nothing is unread |
| `TimerBuffer.WriteKeeps` | lib/digital_signal/digital_sequence.c:269-274 | writing a period and the terminator behind it overwrites no unread slot |
| `TimerBuffer.RingBuffer.constructor` | lib/digital_signal/digital_sequence.c:277-281 | an empty buffer with the terminator at the write position |
| `TimerBuffer.RingBuffer.TryEnqueue` | lib/digital_signal/digital_sequence.c:228-275 | writes exactly when idle or the free-space test passes; no unread slot changes; the slot at the write position is the terminator |
| `TimerBuffer.RingBuffer.StartIfReady` | lib/digital_signal/digital_sequence.c:343-354 | the DMA starts exactly when the buffer is filled or the data ended, before the first fill can overrun |
| `TimerBuffer.RingBuffer.DmaStep` | lib/digital_signal/digital_sequence.c:234-240 | the DMA loads the periods in the order enqueued, none twice or skipped, and meets the terminator exactly when all were loaded |
| `TimerBuffer.RingBuffer.Unread` | lib/digital_signal/digital_sequence.c:228-281 | periods loaded, followed by those read from the buffer up to the write position, are all periods enqueued |
| `Transmission.WriterStep` | lib/digital_signal/digital_sequence.c:228-355 | each step of the writer keeps the buffer holding exactly the periods written so far and never touches what the DMA loaded |
| `Transmission.Deliver` | lib/digital_signal/digital_sequence.c:228-355 | under every interleaving of writer and DMA the timer is loaded with the periods in order, and with all of them if the terminator is met after the writer ended |
| `Transmission.PlayFinishes` | lib/digital_signal/digital_sequence.c:228-355 | for any number of periods some interleaving delivers all of them and finishes |
| `Transmission.DmaLoad` | lib/digital_signal/digital_sequence.c:343-354 | one step of the DMA loads the next period, or finishes at the terminator after the end |
| `Transmission.TransmitThroughRing` | lib/digital_signal/digital_sequence.c:283-376 | from signals to timer: what is loaded are runs of the waveform in order without the held last one, and all of these if the terminator is met after the data ended |
| `BitBuffer.PutBit` | lib/bit_lib/bit_lib.c:14-20 | setting a bit changes that bit of the stream and no other |
| `BitLib.SetBit` | lib/bit_lib/bit_lib.c:14-20 | the array afterwards is the one with that bit put |
| `BitLib.GetBit` | lib/bit_lib/bit_lib.c:32-34 | reads the bit of the stream at that position |
| `BitLib.SetBits` | lib/bit_lib/bit_lib.c:22-30 | the low bits of the byte appear in order in the stream and nothing outside changes |
| `BitLib.RemoveBitEveryNth` | lib/bit_lib/bit_lib.c:224-250 | in place, the region becomes its original bits without every n-th, never reading an overwritten bit, and nothing else changes |
| `BitLib.KeptAt` | lib/bit_lib/bit_lib.c:230-249 | a kept bit goes down by the number of bits removed before it, and length / n bits are removed in all |
| `BitLib.FramedGroup` | lib/bit_lib/bit_lib.c:193-217 | each group with its parity bit ends in the fixed bit, or has an even or odd number of ones if and only if the bits shifted out of the 32-bit parity word have an even number of ones; groups of up to 32 bits lose none |
| `BitLib.LongGroupLosesParity` | lib/bit_lib/bit_lib.c:197-213 | a group of 33 bits that gets the wrong parity |
| `BitLib.EveryGroup` | lib/bit_lib/bit_lib.c:195-218 | every group of the source, wherever it stands, appears in the output followed by its parity bit, between the framed bits before and behind it |
| `BitLib.GroupsCounted` | lib/bit_lib/bit_lib.c:195-218 | the source is completed to whole groups of parity_length - 1 bits, each of which gives parity_length bits |
| `BitLib.AddParity` | lib/bit_lib/bit_lib.c:185-222 | the destination holds every group followed by its parity bit, the count is its length, and nothing outside changes |
| `BitLib.RoundTrip` | lib/bit_lib/bit_lib.c:185-250 | removing every n-th bit of a stream framed in groups of n - 1 gives the stream back, for every parity kind |
| `BitLib.AddAndRemoveParity` | lib/bit_lib/bit_lib.c:185-250 | the two array operations composed give back the source bits and leave everything outside the region unchanged |
| `BitLib.SwapBits` | lib/bit_lib/bit_lib.c:268-270 | exchanges two bits, or reports one outside the array and changes nothing |
| `BitLib.ReverseBits` | lib/bit_lib/bit_lib.c:263-274 | stays inside the array if and only if the length is not 0, and then reverses the region in place and changes nothing outside |
| `Crc.RegisterDivides` | lib/bit_lib/bit_lib.c:404-414 | the register and the quotient bits satisfy message * x^n = quotient * generator + register over GF(2) |
| `Crc.RegisterIsRemainder` | lib/bit_lib/bit_lib.c:394-420 | the register is the remainder of polynomial division, and nothing else is |
| `Crc.Linear` | lib/bit_lib/bit_lib.c:404-414 | the register is xor-linear in initial value and message |
| `Crc.Chunks` | lib/bit_lib/bit_lib.c:402-414 | the register composes over chunks through its initial value |
| `Crc.ResidueZero` | lib/bit_lib/bit_lib.c:394-420 | a message followed by its check value leaves zero, whatever the initial value |
| `Crc.XorFirst` | lib/bit_lib/bit_lib.c:377-385 | adding a byte first and shifting zeros is the same as shifting the byte in |
| `BitLibCrc.Reverse16Word` | lib/bit_lib/bit_lib.c:336-355 | the mask-and-shift reversal reverses all sixteen bits |
| `BitLibCrc.Crc16` | lib/bit_lib/bit_lib.c:394-420 | equals the polynomial register for every generator, initial value, reflection and final xor |
| `BitLibCrc.Crc8` | lib/bit_lib/bit_lib.c:364-392 | the same for crc8, which adds each byte before shifting |
| `BitLibCrc.VerifyCrc16` | lib/bit_lib/bit_lib.c:394-420 | the crc16 returned for a message is the remainder of message * x^16, and the crc16 returned for the message with it appended big-endian is zero |
| `BitLibCrc.VerifyCrc8` | lib/bit_lib/bit_lib.c:364-392 | the same for crc8 and x^8 |
| `BitLibCrc.XorCrc16` | lib/bit_lib/bit_lib.c:394-420 | the crc16 of the byte-wise xor of two equally long messages is the xor of their crc16 values |
| `BitLibCrc.XorCrc8` | lib/bit_lib/bit_lib.c:364-392 | the same for crc8 |
| `BitLibCrc.SplitCrc16` | lib/bit_lib/bit_lib.c:394-420 | checking a message in two parts, the first result as the second initial value, returns the crc16 of the whole |
| `BitLibCrc.SplitCrc8` | lib/bit_lib/bit_lib.c:364-392 | the same for crc8 |
| `BitLibCrc.MessageBit` | lib/bit_lib/bit_lib.c:404-410 | the message bit by bit: the highest bit of each byte first, or the lowest first when reflected |
| `Crc.MirrorRegister` | lib/bit_lib/bit_lib.c:404-417 | the reversed register is the right-shifting register of the reversed generator |
| `BitLibCrc.ReflectedCrc8` | lib/bit_lib/bit_lib.c:364-392 | crc8 with both reflections is the right-shifting register of the reversed generator fed with the lowest bit of each byte first |
| `BitLibCrc.ReflectedCrc16` | lib/bit_lib/bit_lib.c:394-420 | the same for crc16 |
| `DateTimes.MonthsFillYear` | lib/datetime/datetime.c:12-16 | the month table adds up to the year table |
| `DateTimes.MonthStarts` | lib/datetime/datetime.c:12-14 | where each month begins, by a closed formula apart from the table |
| `DateTimes.PosixYears` | lib/datetime/datetime.c:47-56 | the year loop is the closed form of section 4.16 of POSIX.1-2017 |
| `DateTimes.ToTimestamp` | lib/datetime/datetime.c:40-70 | the seconds since 1970, modulo 2^32 in general and exactly for real dates, through 2038; undefined exactly when the signed product overflows or the month is past the table, and so for every year from 2039 through 2306 |
| `DateTimes.CountYears` | lib/datetime/datetime.c:43-56 | the days counted with eight-bit counters, for every 16-bit year: the days before the year if and only if the year is at most 2306 |
| `DateTimes.ProductRange` | lib/datetime/datetime.c:55-56 | the signed product is in range exactly through 2038, as long as the counters hold |
| `DateTimes.FromTimestamp` | lib/datetime/datetime.c:72-97 | for every 32-bit timestamp a real date with exactly that many seconds, its weekday, and a month index in 1..12 throughout |
| `DateTimes.OrderPreserved` | lib/datetime/datetime.c:40-70 | a real date is earlier than another if and only if its timestamp is smaller |
| `DateTimes.SecondsInjective` | lib/datetime/datetime.c:40-70 | two real dates have the same timestamp exactly when they are the same moment |
| `DateTimes.TimestampRoundTrip` | lib/datetime/datetime.c:40-97 | every timestamp before 2039 survives the trip through a date |
| `DateTimes.DateRoundTrip` | lib/datetime/datetime.c:40-97 | every real date from 1970 through 2038 survives the trip through a timestamp |
| `DateTimes.WeekdayAdvances` | lib/datetime/datetime.c:78-78 | day 0 is a Thursday and the weekday advances by one per day modulo 7 |
| `Records.StepKeepsInv` | furi/core/record.c:45-149 | every step of every caller keeps the registry invariant |
| `Records.RunKeepsInv` | furi/core/record.c:45-149 | the invariant holds in every state of every interleaving |
| `Records.RecordsSafe` | furi/core/record.c:80-149 | holder count is the number of open calls not closed; a record is never erased under an open call; ready implies non-null; an open that returned gave the pointer passed to create |
| `Records.CloseAlwaysPossible` | furi/core/record.c:138-149 | closing an open call always finds its record with a positive count, so the count never wraps |
| `Records.ErasedStaysAbsent` | furi/core/record.c:104-109 | after a destroy that finds no open call the name is absent until the next create or open of it |
| `Records.CreatedStays` | furi/core/record.c:80-94 | what was created under a name stays ready with that pointer until a destroy erases it |
| `Records.OpenReturnsCreated` | furi/core/record.c:116-136 | an open returns the pointer of a create of its name that no destroy erased, so one begun after a destroy erased the record returns only what was created after it |
| `Records.HeldUntilClosed` | furi/core/record.c:116-149 | an open call holds the record of its name from its beginning to its close |
| `Records.CloseReleases` | furi/core/record.c:138-149 | a close gives up exactly the hold of its own call |
| `Records.NotErasedWhileHeld` | furi/core/record.c:106-109 | no destroy erases a record while an open call holds it |
| `Records.Registry.constructor` | furi/core/record.c:39-43 | an empty registry |
| `Records.Registry.GetOrCreate` | furi/core/record.c:45-57 | the entry exists afterwards, unchanged if it did before |
| `Records.Registry.Create` | furi/core/record.c:80-94 | succeeds exactly for non-null data on a record without data, which is then ready with that pointer; no other record changes |
| `Records.Registry.Destroy` | furi/core/record.c:96-114 | a missing record is refused; otherwise the record is erased, absent afterwards and free to be created again, exactly when no open call holds it; no other record changes |
| `Records.Registry.OpenBegin` | furi/core/record.c:116-125 | one more holder of an existing or new record |
| `Records.Registry.OpenEnd` | furi/core/record.c:127-136 | returns the non-null pointer given to create for that very record |
| `Records.Registry.Close` | furi/core/record.c:138-149 | one holder less, keeping the invariant |

## Left out

- Heap headers are kept in a map from address to header, apart from the payload bytes, so a program that writes outside its block is not modelled; neither is memory aliasing between a header and old payload.
- Heap: per-thread allocation tracing, realloc, calloc, the memory pool, resetting the heap state and the printed block list; calls from interrupts; the SRAM range assertions.
- MemMgr.MemoryManager.Free: does not cover pointers into the middle of the heap that are no block's payload, because they read payload bytes as a header. Clearing the allocated bit and the payload happens before the scheduler is suspended; the model treats the whole call as one step.
- Event loop: the Once flag, whose item is freed while still in use (furi/core/event_loop.c:122-126), so every lifetime and level claim is about subscriptions without it.
- Event loop: stopping and running again, because consuming Stop clears every bit; runs end there.
- Event loop: stream buffers, mutexes, semaphores and event flags as subscribed objects; several loops sharing one object; allocation and freeing of loops and queues; the tick callback's own timing, so that a wait may time out at any moment.
- EventLoopTimer.TickInv: each active timer has to be examined within 2^32 ticks of its start.
- EventLoopObjects.TimerService.Start: does not cover a periodic timer with interval 0, by which the code divides when the timer expires. The public restart call is a start with the current interval.
- EventLoopObjects.TimerService.ProcessTimerQueue: runs within one tick; the state machine lets ticks fall between its steps.
- EventLoopObjects.TimerService.ProcessExpiredTimers: runs within one tick; the state machine lets ticks fall between its steps.
- EventLoopObjects.Subscriptions.QueuePut: messages are counted, not stored, and the wait for room or a message before a timeout is over when the call is modelled; the same holds for QueueGet.
- DigitalSequences.Transmit: only non-empty registered signals; the carried remainder is an unbounded integer; GPIO buffers, DMA and timer registers are absent.
- TimerBuffer.RingBuffer.TryEnqueue: one poll of the wait loop; the timeout and underrun exits, which write without room, are not modelled, and a period equal to the terminator value is excluded.
- DigitalSignals.DigitalSignal.AddPeriod: setting the start level by hand after periods were added is not modelled.
- BitLib.AddParity: does not cover parity lengths 0 and 1, for which the loop never ends, and one buffer used as source and destination.
- BitLib.ReverseBits: buffers below 256 MB, far above the memory of the device.
- Bit library: bit_lib_get_bits and its wider forms, push_bit, copy_bits, number conversions and printing, which add only easy members; bit_lib_test_parity, whose Even and Odd have the opposite sense of add_parity.
- Calendar: datetime_validate_datetime, a range check only.
- Records: the holder count is unbounded; furi_record_exists; the event flag is the ready bit.
- FreeRTOS primitives, M*LIB containers, crash and log code, threads, drivers, applications, scripts and assets.
