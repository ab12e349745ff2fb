# Verified models of the DirectShow base classes and the shared frame memory

The capture project carries its own copy of the DirectShow base classes and a shared-memory protocol through
which one camera service feeds several readers. This project models the parts of both where the state is
shared between threads or where machine arithmetic decides whether the code is right, and proves what those
parts promise. `dafny verify dfyconfig.toml` checks all of it.

How it is laid out: where the source changes fields in place there is a class with the same fields and methods;
each method is proved equal to a function on the state it changes. Where threads interleave, a second module
takes those functions as the steps of a state machine and proves what holds after any number of steps. One
critical section is one step; assignments the source makes outside its locks are steps of their own.

| component | modules |
|---|---|
| 128-bit arithmetic | ArithUtil, BitMath, Words |
| renderer statistics | RenderStats |
| advise scheduler and reference clock | AdviseList, Schedule, RefClock, AdviseThread |
| sample allocator | MemLayout, SampleList, AllocatorState, Allocator, AllocatorRuns |
| output queue | OutputQueueState, OutputQueue, OutputQueueRuns |
| dynamic pin blocking | DynamicPin |
| shared frame memory | SharedMemory, SharedMemoryRuns |
| pull loop | PullPin |
| renderer end of stream | RendererEos |
| bitmap header checks, integer streams | CheckBmi, PStream |

Clocks, memory, the operating system's answers, downstream filters and the order in which threads run are
parameters: every theorem about runs holds for every choice of them.

## What the code does not do as its comments say

Each of these is a lemma with a concrete input or run, next to the exact condition under which the code is right.

- `llMulDiv` clamps at 2^64, not at 2^63: quotients in between come back with the wrong sign
  (`ArithUtil.MulDivWraps`, `ArithUtil.MulDivClampsIff`).
- The system timer difference is read as a signed number, so a clock that is not read for 2^31 ms goes back
  (`RefClock.ElapsedExactIff`).
- An advise UINT_MAX ms or more ahead puts the advise thread to sleep for ever
  (`AdviseThread.FarAdviseIsMissed`, `RefClock.WaitsForEverIff`).
- The allocator header's second claim counts one waiter too many after each timed-out AM_GBF_NOWAIT call
  (`AllocatorRuns.HeaderClaimIff`, `AllocatorRuns.NoWaitBreaksTheClaim`).
- Alignments that are not powers of two are logged but accepted; samples are aligned wherever the block
  lies exactly for powers of two (`MemLayout.AlignedEverywhereIff`, `MemLayout.ThreeIsLetThrough`).
- With an alignment above 2^30 + 1 that SetProperties lets through the buffer size can wrap to a few bytes without an
  error (`MemLayout.MisjudgedIff`, `MemLayout.EnormousAlignmentIsLetThrough`).
- `isqrt` gives -2^15 for 2^30, and divides by zero for -1 and -2; no caller passes any of these (`RenderStats.ISqrt`).
- `COutputQueue` without a thread leaves samples batched under inexact batching, and an end of stream then
  overtakes them (`OutputQueue.LeftoversIff`, `OutputQueue.OneSampleIsLeft`, `OutputQueue.COutputQueue.EOSDirect`).
- A direct `ReceiveMultiple` does not return if another thread stays in `SendAnyway` and the samples do not fill
  the last batch (`OutputQueue.ReturnsIff`, `OutputQueue.CallNeverReturns`).
- A `NewSegment` of which only one packet gets a list node leaves a list that the thread misreads
  (`OutputQueue.COutputQueue.NewSegmentQueued`).
- `COutputQueue::IsIdle` can say yes with a sample on the list under exact batching
  (`OutputQueueRuns.IdleWithSampleQueued`, `OutputQueueRuns.IdleAssertionIff`).
- A `Reset` that the thread has taken when a flush begins makes the flush count as complete with samples left in the
  queue (`OutputQueueRuns.ResetLeavesSample`, `OutputQueueRuns.FlushIsComplete`,
  `OutputQueueRuns.HeldResetSpoilsFlush`, and for clients that send nothing meanwhile
  `OutputQueueRuns.WithheldFlushIsComplete`, `OutputQueueRuns.LoadedResetSpoilsFlush`); and since `Reset` and
  `EndFlush` wait for one event, either can leave the other waiting (`OutputQueueRuns.OneEventTwoWaiters`, `OutputQueueRuns.EitherIsLeft`,
  `OutputQueueRuns.FlushServedIff`, `OutputQueueRuns.ResetServedIff`).
- The event of a block request of `CDynamicOutputPin` also fires when the request is cancelled
  (`DynamicPin.WhatTheEventMeans`).
- A client that connects to a server of another protocol version lowers the client count, and one that is
  counted before the last assignment of `Create` is forgotten (`SharedMemoryRuns.OtherVersionCountsDown`,
  `SharedMemoryRuns.EarlyClientIsForgotten`, `SharedMemoryRuns.CountAfterCreate`, `SharedMemoryRuns.ClientCountIff`).
- A timer callback that re-arms itself between the unlocked and the locked half of the reset in `BeginFlush` leaves a
  timer behind, and completion can then overtake a sample of the next stream (`RendererEos.RearmingHappens`,
  `RendererEos.RearmingOvertakes`, `RendererEos.NeverOvertaken`, `RendererEos.TimerKeptIff`).
- The error path of `Receive` calls `NotifyEndOfStream` with a timer running if the failure comes after the end of the
  stream with nothing pending (`RendererEos.ErrorPathMeetsTimer`, `RendererEos.ErrorAssertionIff`).
- The standard deviations divide by one more than the number of observations; the comment on the formula does not
  (`RenderStats.SteadyIff`, `RenderStats.SteadyRunIff`).
- `ReadInt` takes the last digit of a stream that ends without a failure again and again (`PStream.ReturnsIff`,
  `PStream.SevenIsReadForEver`).

What `CDynamicOutputPin::AssertValid` checks is kept by every operation (`DynamicPin.AssertValidKept`). It does not say
that a pending block has a user to complete it, nor what the events mean; the invariant of the model does.

The pull loop stops at a downstream filter that wants no more, as its comment says, but for the sample it collects last
with two buffers: there only a failure keeps the end of stream back. The contract of `PullPin.CPullPin.Process` says
exactly when the end of stream is reached.

## Model

| member | source | states |
|---|---|---|
| ArithUtil.LlMulDiv | DirectShowFilter/baseclasses/arithutil.cpp:77-241 | Word-wise multiplication, extended addition and all three divisions together return (a * b + d) / c of exact integers, reduced or clamped as MulDiv says, for every 64-bit argument |
| ArithUtil.Int64x32Div32 | DirectShowFilter/baseclasses/arithutil.cpp:243-360 | The 96-bit version returns the same function MulDiv as llMulDiv for every 64-bit a and 32-bit b, c, d |
| ArithUtil.MulDivExact | DirectShowFilter/baseclasses/arithutil.cpp:76-77 | A truncated quotient that fits in 64 signed bits is returned unchanged |
| ArithUtil.MulDivClampsIff | DirectShowFilter/baseclasses/arithutil.cpp:168-172 | The result is the quotient clamped to 64 bits if and only if the quotient is not in the two bands between 2^63 and 2^64 |
| ArithUtil.MulDivWraps | DirectShowFilter/baseclasses/arithutil.cpp:168-182 | A quotient of 2^63 comes back as the most negative number |
| ArithUtil.MulDivCancels | DirectShowFilter/baseclasses/arithutil.cpp:76-77 | Multiplying and dividing by the same number is the identity |
| ArithUtil.LongMultiply | DirectShowFilter/baseclasses/arithutil.cpp:88-108 | The two result words are the exact product; the cross sum does not overflow |
| ArithUtil.ExtendedAdd | DirectShowFilter/baseclasses/arithutil.cpp:110-160 | The signed sum of the product and d, in magnitude and sign, with the sign flipped exactly when the sum changes sign |
| ArithUtil.DivideByDword | DirectShowFilter/baseclasses/arithutil.cpp:183-217 | Two divisions by a 32-bit divisor give the quotient of the 128-bit number |
| ArithUtil.LongDivision | DirectShowFilter/baseclasses/arithutil.cpp:220-240 | The 64 shift-and-subtract steps give the quotient of the 128-bit number |
| ArithUtil.EnlargedUnsignedDivide | DirectShowFilter/baseclasses/arithutil.cpp:24-60 | Quotient and remainder of a 64-bit number by a 32-bit one, when the quotient fits |
| RenderStats.SumsObserved | DirectShowFilter/baseclasses/renbase.cpp:1965-2010 | After any run of frames the sums satisfy the Cauchy-Schwarz bound and the bounds of their clamped observations |
| RenderStats.VarianceRange | DirectShowFilter/baseclasses/renbase.cpp:2777-2784 | Through llMulDiv the estimate is never negative and at most 10^6 |
| RenderStats.SteadyIff | DirectShowFilter/baseclasses/renbase.cpp:2767-2784 | For n observations of c ms the estimate is 0 exactly if c squared is less than n: the divisors are those of one more observation |
| RenderStats.SteadyRunIff | DirectShowFilter/baseclasses/renbase.cpp:1965-2010 | After every run of equal frames both statistics are 0 exactly if the square of the lateness, or of the time, is less than the number of its observations |
| RenderStats.DeviationsInRange | DirectShowFilter/baseclasses/renbase.cpp:2793-2816 | Both statistics of every run of frames pass the assertion in GetStdDev |
| RenderStats.MsAreMeasured | DirectShowFilter/baseclasses/renbase.cpp:1968-2004 | What is added for a frame is its lateness, or its time since the one before, in whole ms of 10000 units with its sign, clamped at a second |
| RenderStats.ThreeSteps | DirectShowFilter/baseclasses/renbase.cpp:2737-2745 | Three Newton steps from a guess between one and two times the root come within 6561 parts in 3280^2 of the square, and below 3280^2 they settle on the root rounded down or one above |
| RenderStats.ISqrt | DirectShowFilter/baseclasses/renbase.cpp:2727-2748 | The result for every int but the two that divide by zero: below 3280^2 the square root rounded down, or one more; below 2^30 as close as three steps come; -2^15 at 2^30; 2^15 above; and half of x + 1 for negative x |
| RenderStats.CBaseVideoRenderer.RecordFrameLateness | DirectShowFilter/baseclasses/renbase.cpp:1965-2010 | From the third frame on the sync sums grow by the lateness in whole ms, rounded towards zero with more than a second either way counting as 1000, and by its square; from the fourth on the frame-time sums likewise, negative times counting as 1000; all counters together |
| RenderStats.CBaseVideoRenderer.GetStdDev | DirectShowFilter/baseclasses/renbase.cpp:2754-2788 | The root of the estimate, or 0 without a clock or for fewer than two samples; between 0 and 1001 |
| RenderStats.CBaseVideoRenderer.GetDevSyncOffset | DirectShowFilter/baseclasses/renbase.cpp:2790-2801 | The deviation of the sync offset of whatever was recorded, at most 1001 ms |
| RenderStats.CBaseVideoRenderer.GetJitter | DirectShowFilter/baseclasses/renbase.cpp:2804-2816 | The deviation of the inter-frame time of whatever was recorded, at most 1001 ms |
| AdviseList.InsertWellFormed | DirectShowFilter/baseclasses/schedule.cpp:190-218 | A new packet keeps the list sorted with distinct cookies, adds exactly itself, and only changes the earliest time if it goes first |
| AdviseList.ShuntSorts | DirectShowFilter/baseclasses/schedule.cpp:234-262 | With only the head out of place, shunting gives a sorted permutation |
| AdviseList.RemoveExact | DirectShowFilter/baseclasses/schedule.cpp:114-141 | Unadvise removes exactly the entry with the cookie and keeps everything else in order |
| AdviseList.RemoveNotEarlier | DirectShowFilter/baseclasses/schedule.cpp:114-141 | Cancelling never makes the next event earlier |
| AdviseList.HeadFires | DirectShowFilter/baseclasses/schedule.cpp:155-179 | Each turn of the loop keeps the list sorted and leaves one signal fewer to send, so Advise terminates, if no due periodic entry reaches the sentry's time |
| AdviseList.AdviseExact | DirectShowFilter/baseclasses/schedule.cpp:143-186 | Advise sends exactly the signals due, once per one-shot and (T - t) / period + 1 times per periodic entry, in time order; it keeps exactly the entries that remain, and returns the earliest time left, which is later than T |
| AdviseList.AdviseWellFormed | DirectShowFilter/baseclasses/schedule.cpp:143-186 | Advise keeps the list well formed |
| Schedule.Acyclic | DirectShowFilter/baseclasses/schedule.h:85-92 | A chain of packets from the head that reaches the tail has no packet twice |
| Schedule.CAdvisePacket.InsertAfter | DirectShowFilter/baseclasses/schedule.h:49-53 | The two link assignments put the packet behind this one |
| Schedule.CAdvisePacket.RemoveNext | DirectShowFilter/baseclasses/schedule.h:58-64 | The packet behind this one is unlinked and handed back |
| Schedule.CAMSchedule.constructor | DirectShowFilter/baseclasses/schedule.cpp:20-28 | Head leads to tail, nothing is listed or cached |
| Schedule.CAMSchedule.GetNextAdviseTime | DirectShowFilter/baseclasses/schedule.cpp:71-75 | The time of the first entry, or the tail's |
| Schedule.CAMSchedule.AddAdvisePacket | DirectShowFilter/baseclasses/schedule.cpp:77-112 | The linked list, cache and counts stay sound, the entries become the sorted insertion, the cookie is new, and the event is set exactly if the packet went first |
| Schedule.CAMSchedule.NewPacket | DirectShowFilter/baseclasses/schedule.cpp:89-100 | The first packet of the cache if there is one, else a new one; either is in no list afterwards |
| Schedule.CAMSchedule.LinkIn | DirectShowFilter/baseclasses/schedule.cpp:208-209 | Linking at the place found keeps the shape and inserts at that place |
| Schedule.CAMSchedule.Unadvise | DirectShowFilter/baseclasses/schedule.cpp:114-141 | The heap list loses exactly the entry with the cookie; the result says whether there was one |
| Schedule.CAMSchedule.Delete | DirectShowFilter/baseclasses/schedule.cpp:220-230 | The packet is cached unless five already are; both lists stay sound and separate |
| Schedule.CAMSchedule.ShuntHead | DirectShowFilter/baseclasses/schedule.cpp:233-262 | Three link assignments move the head behind all packets at or before its time |
| Schedule.CAMSchedule.Advise | DirectShowFilter/baseclasses/schedule.cpp:143-186 | The heap list and the signals sent are those of AdviseAll, the time returned is the next one and later than the time given |
| RefClock.ElapsedExactIff | DirectShowFilter/baseclasses/refclock.cpp:244-248 | A gap between two readings of the wrapping timer is measured exactly if and only if it is below 2^31 ms |
| RefClock.PrivateTimeKeepsPace | DirectShowFilter/baseclasses/refclock.cpp:232-251 | Read at least every 2^31 ms, the clock keeps pace with true time over any number of wraps |
| RefClock.HandedMonotone | DirectShowFilter/baseclasses/refclock.cpp:142-170 | The times GetTime hands out never go back, and each is the latest private time so far |
| RefClock.WaitsForEverIff | DirectShowFilter/baseclasses/refclock.cpp:356-362 | The wait becomes INFINITE exactly from UINT_MAX ms on |
| RefClock.CBaseReferenceClock.GetPrivateTime | DirectShowFilter/baseclasses/refclock.cpp:232-251 | The private time advances by what the timer did since it was last read |
| RefClock.CBaseReferenceClock.GetTime | DirectShowFilter/baseclasses/refclock.cpp:142-170 | Hands out the later of private time and the last time given; S_FALSE exactly if time stood still |
| RefClock.CBaseReferenceClock.SetTimeDelta | DirectShowFilter/baseclasses/refclock.cpp:304-314 | The clock is adjusted; the thread is woken exactly for a forward step above half a millisecond with something listed |
| RefClock.CBaseReferenceClock.AdviseTime | DirectShowFilter/baseclasses/refclock.cpp:175-200 | Accepted exactly if the wrapped sum is positive and not the sentry's time, and then scheduled once |
| RefClock.CBaseReferenceClock.AdvisePeriodic | DirectShowFilter/baseclasses/refclock.cpp:205-223 | Accepted exactly if start and period are positive and the start is not the sentry's time |
| RefClock.CBaseReferenceClock.AdviseThreadTurn | DirectShowFilter/baseclasses/refclock.cpp:324-365 | One turn dispatches what is due within a millisecond of the clock read and computes the next wait, at least 1 ms |
| AdviseThread.StepKeepsInv | DirectShowFilter/baseclasses/refclock.cpp:260-365 | Every step of clients, clock and thread keeps the wake-up and the ledger invariant |
| AdviseThread.NoLostWakeup | DirectShowFilter/baseclasses/refclock.cpp:324-365 | In every run a waiting thread is signalled, or nothing is listed, or its wait of at least 1 ms ends no later than the earliest event |
| AdviseThread.WakesInTime | DirectShowFilter/baseclasses/refclock.cpp:324-365 | A thread with a finite wait can run again as soon as the clock passes the earliest event plus the delay before it slept and unannounced drift |
| AdviseThread.SleepsForEver | DirectShowFilter/baseclasses/refclock.cpp:356-362 | A thread with an infinite wait wakes exactly when signalled, and then everything listed was UINT_MAX ms away |
| AdviseThread.FarAdviseIsMissed | DirectShowFilter/baseclasses/refclock.cpp:362 | A run in which the clock passes a listed event and nothing can wake the thread |
| AdviseThread.SignalsAsRequested | DirectShowFilter/baseclasses/schedule.cpp:143-186 | In every run a client's n-th signal is for start + n * period, none skipped or repeated, at most one for a one-shot, none more than 1 ms early |
| MemLayout.CeilIsLeast | DirectShowFilter/baseclasses/amfilter.cpp:5098-5105 | Rounding up gives the least multiple |
| MemLayout.SliceSizeExact | DirectShowFilter/baseclasses/amfilter.cpp:5127-5179 | The 32-bit checks of Alloc decide what unbounded arithmetic would: no wrapped size passes and none that fits is refused |
| MemLayout.AskedAndGot | DirectShowFilter/baseclasses/amfilter.cpp:5050-5179 | For alignments up to 2^30 + 1, SetProperties then Alloc succeed exactly if the exact rounded total fits in a LONG, with buffers of at least the size asked and less than one alignment more |
| MemLayout.WrapIsRefused | DirectShowFilter/baseclasses/amfilter.cpp:5100-5105 | A request that wraps in SetProperties is refused by Alloc |
| MemLayout.EnormousAlignmentWraps | DirectShowFilter/baseclasses/amfilter.cpp:5100-5105 | For every bigger alignment, let through or not, there is a 2 GB request that Alloc would grant with one byte |
| MemLayout.MisjudgedIff | DirectShowFilter/baseclasses/amfilter.cpp:5073-5105 | Of the alignments SetProperties lets through, exactly those above 2^30 + 1 have a request that Alloc grants although it does not fit, or refuses although it does |
| MemLayout.EnormousAlignmentIsLetThrough | DirectShowFilter/baseclasses/amfilter.cpp:5073-5077 | 2^30 + 2 is one, with 64K granularity |
| MemLayout.SamplesAreDisjoint | DirectShowFilter/baseclasses/amfilter.cpp:5190-5216 | Prefix and data of the samples are disjoint slices of one block of at most MAXLONG bytes |
| MemLayout.SamplesAlignedIff | DirectShowFilter/baseclasses/amfilter.cpp:5169-5206 | All prefixes start on multiples of the alignment if and only if the block does |
| MemLayout.AlignedEverywhereIff | DirectShowFilter/baseclasses/amfilter.cpp:5066-5077 | Among the alignments let through, exactly the powers of two are honoured wherever the system puts the block |
| MemLayout.ThreeIsLetThrough | DirectShowFilter/baseclasses/amfilter.cpp:5066-5077 | Alignment 3 passes with 64K granularity and is not honoured |
| MemLayout.BadAlignIff | DirectShowFilter/baseclasses/amfilter.cpp:5072-5077 | The check refuses 0 and those alignments for which one less has the granularity's bit set, and no others |
| MemLayout.SmallAlignments | DirectShowFilter/baseclasses/amfilter.cpp:5072-5077 | Up to twice the granularity it lets through exactly those that do not exceed the granularity, every power of two from 1 among them |
| SampleList.CSampleList.Add | DirectShowFilter/baseclasses/amfilter.h:1366-1372 | The sample becomes the first of the chain and is counted |
| SampleList.CSampleList.RemoveHead | DirectShowFilter/baseclasses/amfilter.h:1373-1381 | The first sample leaves the chain, or null for an empty one |
| SampleList.CSampleList.Remove | DirectShowFilter/baseclasses/amfilter.cpp:4995-5010 | The sample is unlinked wherever it is; a sample that is not listed changes nothing |
| Allocator.CMemAllocator.SetProperties | DirectShowFilter/baseclasses/amfilter.cpp:5050-5113 | Accepted exactly if the alignment passes, nothing is committed and nothing is out; then count, alignment and prefix are stored as asked and the size rounded; refusals change nothing |
| Allocator.CMemAllocator.TryGetBuffer | DirectShowFilter/baseclasses/amfilter.cpp:4743-4757 | The lock section of GetBuffer: refused exactly if not committed, else the first buffer of the free list, else one more announced waiter |
| Allocator.CMemAllocator.NotifySample | DirectShowFilter/baseclasses/amfilter.cpp:4872-4880 | All announced waiters are released and none stays announced |
| Allocator.CMemAllocator.ReleaseBuffer | DirectShowFilter/baseclasses/amfilter.cpp:4791-4842 | The sample is free, all waiters are notified, and a pending decommit is complete, and the self-reference dropped, exactly when the last one is home |
| Allocator.CMemAllocator.GetFreeCount | DirectShowFilter/baseclasses/amfilter.cpp:4861-4870 | What was agreed, less what is allocated, plus what is free |
| Allocator.CMemAllocator.Decommit | DirectShowFilter/baseclasses/amfilter.cpp:4921-4967 | Never committed afterwards; of a committed or pending allocator the decommit is pending exactly while a buffer is out, the self-reference is dropped exactly if it is complete, and every waiter is notified |
| Allocator.CMemAllocator.Commit | DirectShowFilter/baseclasses/amfilter.cpp:4882-4918 | S_OK exactly if it leaves the allocator committed, with no decommit pending; cancels a pending decommit, keeping the samples, or allocates; the allocator holds itself exactly after a commit that allocated |
| Allocator.CMemAllocator.Alloc | DirectShowFilter/baseclasses/amfilter.cpp:5122-5220 | Keeps the samples if nothing changed; else they are all replaced by slices of one new block, exactly if sizes, system and memory allow |
| Allocator.CMemAllocator.MakeSamples | DirectShowFilter/baseclasses/amfilter.cpp:5190-5216 | The i-th sample made lies at slice i behind its prefix; a failure keeps those already made |
| AllocatorRuns.StepKeepsInv | DirectShowFilter/baseclasses/amfilter.cpp:4732-4967 | Every step of every thread keeps signalling, custody, commit flags and self-reference |
| AllocatorRuns.NoDeadlock | DirectShowFilter/baseclasses/amfilter.h:1418-1425 | In every run a thread parked while a buffer is free or after a decommit has a count waiting in the semaphore |
| AllocatorRuns.WaitersAreServed | DirectShowFilter/baseclasses/amfilter.h:1392-1425 | A thread without a count waits while all buffers are out; the next return or decommit leaves a count for every waiter |
| AllocatorRuns.HeaderClaimIff | DirectShowFilter/baseclasses/amfilter.h:1412-1416 | The second claim holds exactly as long as no AM_GBF_NOWAIT call has timed out |
| AllocatorRuns.NoWaitBreaksTheClaim | DirectShowFilter/baseclasses/amfilter.cpp:4754-4766 | A run in which it fails |
| AllocatorRuns.FreeCount | DirectShowFilter/baseclasses/amfilter.cpp:4861-4870 | GetFreeCount is the agreed number less the buffers that are out |
| AllocatorRuns.CommitStates | DirectShowFilter/baseclasses/amfilter.cpp:4882-4967 | Never committed and pending; pending only with a buffer out; at rest everything is home; the self-reference is held exactly while committed or pending, up to releases still to be made |
| AllocatorRuns.DecommitHolds | DirectShowFilter/baseclasses/amfilter.cpp:4743-4757 | Between a decommit and the next commit, whatever else happens, the allocator is not committed, no GetBuffer gets a sample, and the decommit is pending exactly while a buffer is out |
| AllocatorRuns.CommitOutcome | DirectShowFilter/baseclasses/amfilter.cpp:4882-4918 | In every run a commit ends committed and not pending unless it had to allocate and could not; a commit that need not allocate keeps every sample, and a committed allocator has as many as were agreed |
| AllocatorRuns.OneHolder | DirectShowFilter/baseclasses/amfilter.cpp:4771-4787 | A sample is on the free list once, or in one thread's hands, or referenced; GetBuffer finds its count at zero |
| OutputQueue.ChunksPartition | DirectShowFilter/baseclasses/outputq.cpp:637-669 | Batching loses and reorders nothing |
| OutputQueue.ChunksFull | DirectShowFilter/baseclasses/outputq.cpp:637-669 | Every completed batch is full |
| OutputQueue.ChunksRest | DirectShowFilter/baseclasses/outputq.cpp:634-635 | What stays batched is the remainder by the batch size |
| OutputQueue.LeftoversIff | DirectShowFilter/baseclasses/outputq.cpp:634-635 | After any history of direct calls the assertion on entry holds exactly if batching is exact or the samples since the last forced batch fill whole batches |
| OutputQueue.OneSampleIsLeft | DirectShowFilter/baseclasses/outputq.cpp:634-635 | One sample breaks it for any inexact batch size above one |
| OutputQueue.BatchedTogether | DirectShowFilter/baseclasses/outputq.cpp:637-669 | Several calls leave batched what one call with all their samples would |
| OutputQueue.ReturnsIff | DirectShowFilter/baseclasses/outputq.cpp:641-669 | For any sequence of values m_bSendAnyway takes while a call runs: with samples it returns if and only if they fill the last batch or the flag is clear once they are used up, without samples unless the flag is set whenever the loop is entered and clear whenever its body looks |
| OutputQueue.CallNeverReturns | DirectShowFilter/baseclasses/outputq.cpp:641-669 | One sample for batches of two, with the flag staying set, is a call that does not return |
| OutputQueue.AloneForces | DirectShowFilter/baseclasses/outputq.cpp:374-389 | While no other thread clears the flag a forced call sends the batch |
| OutputQueue.AllCalled | DirectShowFilter/baseclasses/outputq.cpp:650-668 | While downstream answers S_OK every batch is delivered, in order |
| OutputQueue.Accumulated | DirectShowFilter/baseclasses/outputq.cpp:656-663 | The calls made are those up to the first answer that is not S_OK, which is the return code; what is lost is what was completed less what these calls took |
| OutputQueue.NothingLost | DirectShowFilter/baseclasses/outputq.cpp:656-670 | If downstream takes every batch whole, all batches are passed on and nothing is lost |
| OutputQueue.COutputQueue.FetchBatch | DirectShowFilter/baseclasses/outputq.cpp:216-296 | The thread's lock section over the array and the list is Fetch; under termination or flush everything is released once |
| OutputQueue.COutputQueue.PullBatch | DirectShowFilter/baseclasses/outputq.cpp:218-289 | The loop over packets fills the batch array without overrunning it and stops where Pull does |
| OutputQueue.COutputQueue.FreeSamples | DirectShowFilter/baseclasses/outputq.cpp:715-754 | Empties list and batch and releases each sample once, in order, taking segment parameters out with their marks |
| OutputQueue.COutputQueue.ReceiveQueued | DirectShowFilter/baseclasses/outputq.cpp:675-697 | All samples that get a list node are queued, all of them if there are nodes, and the thread is notified unless an exact batch is still incomplete; the others, and under an error all, are released |
| OutputQueue.COutputQueue.EOSQueued | DirectShowFilter/baseclasses/outputq.cpp:451-456 | Queues the end of stream and notifies, unless there was an error; without a list node it is lost |
| OutputQueue.COutputQueue.NewSegmentQueued | DirectShowFilter/baseclasses/outputq.cpp:416-427 | Mark and parameters go on the list together, and the list stays paired exactly if both or neither get a node |
| OutputQueue.COutputQueue.BeginFlushQueued | DirectShowFilter/baseclasses/outputq.cpp:463-497 | Discarding starts; the thread is told unless the optimization applies |
| OutputQueue.COutputQueue.ReceiveDirect | DirectShowFilter/baseclasses/outputq.cpp:594-674 | For every call that returns, whatever m_bSendAnyway does meanwhile: batches the samples behind the old batch, passes on the full batches up to the first answer that is not S_OK and returns that answer, releases every sample of a completed batch once, and reports the samples less those completed plus those taken downstream, but not below 0; all of them if downstream takes every batch whole |
| OutputQueue.COutputQueue.EOSDirect | DirectShowFilter/baseclasses/outputq.cpp:436-450 | An end of stream overtakes batched samples exactly if there are any and batching is not exact or the flag was cleared by somebody else |
| OutputQueueRuns.PullItems | DirectShowFilter/baseclasses/outputq.cpp:218-289 | What leaves the list goes, in order, into what is sent and what stays batched |
| OutputQueueRuns.StepKeepsInv | DirectShowFilter/baseclasses/outputq.cpp:203-754 | Every step of clients, flush and thread keeps FIFO order, signalling, batch bounds and reference counts |
| OutputQueueRuns.FifoRefinement | DirectShowFilter/baseclasses/outputq.cpp:203-371 | In every run what was queued is what is done followed by what is inside; downstream saw the done part in order, and all of it without flush or error, resets included |
| OutputQueueRuns.ErrorStays | DirectShowFilter/baseclasses/outputq.cpp:313-357 | Under an error no step but the end of a flush, a Reset and Terminate changes the return code, and none takes or passes on a sample or an end of stream; samples handed in are released |
| OutputQueueRuns.ErrorTakenBack | DirectShowFilter/baseclasses/outputq.cpp:361-364 | The end of a flush and a Reset do clear the return code, whatever it was |
| OutputQueueRuns.FirstErrorSticks | DirectShowFilter/baseclasses/outputq.cpp:320-324 | In every run from the first answer that is not S_OK, until a reset or the end of a flush: that answer is the return code and nothing but new segments is queued or passed on |
| OutputQueueRuns.QuietWhileParked | DirectShowFilter/baseclasses/outputq.cpp:254-304 | Waiting count plus semaphore is one exactly while the thread is parked; a parked thread without a count has nothing to send |
| OutputQueueRuns.ReferencesConserved | DirectShowFilter/baseclasses/outputq.cpp:594-754 | Every sample handed in is held in one place or was released once |
| OutputQueueRuns.BatchSizes | DirectShowFilter/baseclasses/outputq.cpp:238-295 | No batch exceeds its array, and an exact batch is full unless a control packet forced it |
| OutputQueueRuns.IdleMeansDone | DirectShowFilter/baseclasses/outputq.cpp:769-795 | Without exact batching a yes means that all input is done with |
| OutputQueueRuns.IdleWithSampleQueued | DirectShowFilter/baseclasses/outputq.cpp:785-793 | With it, a run that ends in a yes with a sample queued |
| OutputQueueRuns.IdleAssertionIff | DirectShowFilter/baseclasses/outputq.cpp:785-793 | The assertion that an idle queue has an empty list holds in all runs exactly without exact batches bigger than one |
| OutputQueueRuns.FlushIsComplete | DirectShowFilter/baseclasses/outputq.cpp:313-326 | In every run in which the thread never holds a reset during a flush, nor sets the event for one while samples are queued: no sample is left while the queue counts as flushed or once EndFlush has waited, and nothing is sent from it |
| OutputQueueRuns.HeldResetSpoilsFlush | DirectShowFilter/baseclasses/outputq.cpp:361-364 | From every state in which it does, there is a continuation that breaks this |
| OutputQueueRuns.WithheldFlushIsComplete | DirectShowFilter/baseclasses/outputq.cpp:534-545 | The same for clients that send no samples during a flush, unless samples are in the queue while the thread is busy with a reset and the flush waits |
| OutputQueueRuns.LoadedResetSpoilsFlush | DirectShowFilter/baseclasses/outputq.cpp:534-545 | And if they are, there is a continuation without another sample that breaks it |
| OutputQueueRuns.ResetLeavesSample | DirectShowFilter/baseclasses/outputq.cpp:534-545 | A run to the end of EndFlush's wait with a sample queued before the flush still on the list |
| OutputQueueRuns.FlushServedIff | DirectShowFilter/baseclasses/outputq.cpp:534-535 | A step leaves EndFlush waiting behind a sleeping thread exactly if a client in Reset takes the event meant for it |
| OutputQueueRuns.FlushIsWoken | DirectShowFilter/baseclasses/outputq.cpp:534-535 | In every run without such a step the thread that EndFlush waits for is awake or about to wake |
| OutputQueueRuns.ResetServedIff | DirectShowFilter/baseclasses/outputq.cpp:701-713 | A step leaves a client in Reset without an event or a packet on its way exactly if the event is taken or cleared by somebody else when no packet is left |
| OutputQueueRuns.ResetIsWoken | DirectShowFilter/baseclasses/outputq.cpp:701-713 | In every run without such a step a client in Reset does not wait behind a sleeping thread |
| OutputQueueRuns.OneEventTwoWaiters | DirectShowFilter/baseclasses/outputq.cpp:534-711 | A run to a state in which Reset and EndFlush wait for the one event behind a sleeping thread |
| OutputQueueRuns.EitherIsLeft | DirectShowFilter/baseclasses/outputq.cpp:534-711 | From there either can take it, and the other is left |
| DynamicPin.AssertValidKept | DirectShowFilter/baseclasses/amfilter.cpp:4497-4517 | Every operation keeps AssertValid on its own |
| DynamicPin.BlockKeeps | DirectShowFilter/baseclasses/amfilter.cpp:4072-4136 | A block request keeps the invariant, which also says that a pending block has a user and what was done for each request; it is accepted exactly if the pin was not blocked and its handle could be duplicated |
| DynamicPin.UnblockKeeps | DirectShowFilter/baseclasses/amfilter.cpp:4138-4166 | So does an unblock, which always leaves the pin unblocked |
| DynamicPin.UseKeeps | DirectShowFilter/baseclasses/amfilter.cpp:4168-4248 | So do starting and stopping to use the pin; starting is refused exactly while the pin is BLOCKED |
| DynamicPin.CDynamicOutputPin.AsynchronousBlockOutputPin | DirectShowFilter/baseclasses/amfilter.cpp:4072-4113 | Accepted exactly if the pin is not blocked and the handle can be duplicated; then pending under the caller's thread while somebody uses the pin, or blocked at once; refusals change nothing and name the caller's own block by its own code |
| DynamicPin.CDynamicOutputPin.UnblockOutputPin | DirectShowFilter/baseclasses/amfilter.cpp:4138-4166 | Ends a block, or cancels a pending one and tells its caller; S_FALSE exactly if there was none |
| DynamicPin.CDynamicOutputPin.TryStartUsingOutputPin | DirectShowFilter/baseclasses/amfilter.cpp:4180-4222 | A streaming thread gets in, as one more user, exactly if the pin is not BLOCKED, a pending block included |
| DynamicPin.CDynamicOutputPin.StopUsingOutputPin | DirectShowFilter/baseclasses/amfilter.cpp:4231-4248 | The last user completes a pending block |
| DynamicPin.BlockStates | DirectShowFilter/baseclasses/amfilter.cpp:4072-4248 | In every interleaving AssertValid holds, a block is pending only while somebody uses the pin and in force only while nobody does, and each request's event is set and handle closed once, when it stops pending |
| DynamicPin.StartsUnlessBlocked | DirectShowFilter/baseclasses/amfilter.cpp:4180-4222 | In every reachable state a streaming thread that tries joins the users exactly while the pin is not BLOCKED, and sleeps otherwise |
| DynamicPin.SleeperGetsIn | DirectShowFilter/baseclasses/amfilter.cpp:4180-4222 | One that sleeps gets in by waking and trying again, after an unblock if the pin is still BLOCKED |
| DynamicPin.NobodyStuck | DirectShowFilter/baseclasses/amfilter.cpp:4180-4220 | A streaming thread sleeps only while the pin is blocked, and a blocking client waits only while somebody uses it |
| DynamicPin.WhatTheEventMeans | DirectShowFilter/baseclasses/amfilter.cpp:4153-4159 | The event that ends a request means a blocked pin exactly if it was not an unblock that ended it |
| SharedMemoryRuns.ReadingsAreFrames | MediaFoundationSource/PS3EyeSharedMemory.cpp:146-355 | In every byte-level run each client's frame numbers grow strictly, each payload is the untorn beginning of the frame of that number with its time, and nothing is read before the first frame |
| SharedMemoryRuns.MutualExclusion | MediaFoundationSource/PS3EyeSharedMemory.cpp:156-182 | Server and clients are never in their critical sections together |
| SharedMemoryRuns.FinishIsFaithful | MediaFoundationSource/PS3EyeSharedMemory.cpp:333-354 | A client that sees a new number copies out the frame written under it |
| SharedMemoryRuns.NewFrameIsRead | MediaFoundationSource/PS3EyeSharedMemory.cpp:327-354 | A client with the mutex goes on to copy exactly if the server lives and the number is new, and can then always finish with that frame; otherwise it leaves with nothing changed |
| SharedMemoryRuns.HeldReading | MediaFoundationSource/PS3EyeSharedMemory.cpp:339-353 | Whatever others do meanwhile, the client comes out with exactly one more reading, of the number it went in with |
| SharedMemoryRuns.FrameIsWritten | MediaFoundationSource/PS3EyeSharedMemory.cpp:162-182 | A server that gets the mutex can always finish: the frame is then in the memory under the next number, and the mutex free |
| SharedMemoryRuns.ClientCountIff | MediaFoundationSource/PS3EyeSharedMemory.cpp:240-269 | In every run, whenever clients come, the count is right once Create is over if and only if nobody had been counted before its last assignment and no connection was refused since; for the clients' own protocol version the first alone decides |
| SharedMemoryRuns.CountAfterCreate | MediaFoundationSource/PS3EyeSharedMemory.cpp:240-269 | The count after Create is that of the clients, less those counted before its last assignment, less the connections refused since |
| SharedMemoryRuns.EveryRunGoesThrough | MediaFoundationSource/PS3EyeSharedMemory.cpp:73-90 | Every run with Create behind it has such a last assignment |
| SharedMemoryRuns.ExcessKept | MediaFoundationSource/PS3EyeSharedMemory.cpp:240-269 | No step of server or clients other than Create changes by how much the count is off, refusals counted in |
| SharedMemoryRuns.OtherVersionCountsDown | MediaFoundationSource/PS3EyeSharedMemory.cpp:243-246 | For every other version there is a run in which a client comes after Create and leaves a count of -1 |
| SharedMemoryRuns.EarlyClientIsForgotten | MediaFoundationSource/PS3EyeSharedMemory.cpp:73-90 | A run in which a client is counted before the last assignment of Create and is then connected with a count of 0 |
| SharedMemory.PS3EyeSharedMemoryServer.Create | MediaFoundationSource/PS3EyeSharedMemory.cpp:73-90 | Leaves the header that clients accept, with no frame and no client |
| SharedMemory.PS3EyeSharedMemoryServer.WriteFrame | MediaFoundationSource/PS3EyeSharedMemory.cpp:146-184 | The frame is at the start of the buffer, the rest is untouched, the header describes it under the next number; a refusal changes nothing |
| SharedMemory.PS3EyeSharedMemoryClient.Connect | MediaFoundationSource/PS3EyeSharedMemory.cpp:240-262 | One more client for a matching header, one fewer for any other |
| SharedMemory.PS3EyeSharedMemoryClient.ReadFrame | MediaFoundationSource/PS3EyeSharedMemory.cpp:311-355 | Succeeds exactly for a new frame of a living server, copies as much as fits, and remembers the number; else nothing changes |
| SharedMemory.CopyBytes | MediaFoundationSource/PS3EyeSharedMemory.cpp:168 | The first n bytes are copied, the others kept |
| PullPin.AlignDownRounds | DirectShowFilter/baseclasses/pullpin.h:114-117 | For a power of two the mask takes away the remainder |
| PullPin.AlignBounds | DirectShowFilter/baseclasses/pullpin.h:114-122 | Both alignments are the nearest multiples, below and above |
| PullPin.DeliveryCovers | DirectShowFilter/baseclasses/pullpin.cpp:396-417 | Requests that tile the aligned range are delivered as non-empty pieces that tile it up to the stop |
| PullPin.CPullPin.QueueSample | DirectShowFilter/baseclasses/pullpin.cpp:335-368 | A request for the next piece of the range, non-empty and within it; a failure is the last answer asked for |
| PullPin.CPullPin.CollectAndDeliver | DirectShowFilter/baseclasses/pullpin.cpp:370-394 | Some outstanding request is delivered, whichever the reader finished; any answer but S_OK is the last one asked for |
| PullPin.NoneStopped | DirectShowFilter/baseclasses/pullpin.cpp:470-556 | At an end of stream no command had come and every delivery was answered with S_OK, but for the last one of an overlapped pull |
| PullPin.CPullPin.Process | DirectShowFilter/baseclasses/pullpin.cpp:432-566 | With 64-bit products and sums: the first thing asked for is a command, and nothing is asked for after a command, a failure or a downstream answer other than S_OK; the end of stream is reached exactly if there was none, or only downstream's to the last sample of an overlapped pull; then the requests tile the aligned range, each was delivered once, clipped, and none is outstanding; never more than two, or one with a single buffer, were, and two were unless one covers the range |
| RendererEos.CompleteOnce | DirectShowFilter/baseclasses/renbase.cpp:1299-1345 | In every run EC_COMPLETE is sent at most once between resets, and each accepted sample is released once, when cleared |
| RendererEos.NeverOvertaken | DirectShowFilter/baseclasses/renbase.cpp:1228-1294 | If no callback leaves a timer behind between the two halves of the reset in BeginFlush, completion overtakes no sample, and a timer means end of stream with nothing pending or is killed before a sample is taken |
| RendererEos.EndIsNotForgotten | DirectShowFilter/baseclasses/renbase.cpp:664-693 | In every run a running renderer at the end of its stream with nothing pending has sent EC_COMPLETE, or has a timer or a callback that will, unless it is being stopped or flushed or refuses samples |
| RendererEos.TakenIff | DirectShowFilter/baseclasses/renbase.cpp:1079-1116 | In every run a sample is taken exactly if nothing is pending, no end, flush or error has come, and the renderer is paused or the clock takes it; so a paused renderer takes its first sample |
| RendererEos.TimerKeptIff | DirectShowFilter/baseclasses/renbase.cpp:1228-1357 | A step breaks the meaning of the timer exactly if it is such a callback, in a renderer that no display change has made refuse samples |
| RendererEos.RearmingOvertakes | DirectShowFilter/baseclasses/renbase.cpp:1606-1614 | Whenever one does, the calls of the source that follow can lead completion to overtake the next sample, from Running or from Paused |
| RendererEos.RearmingHappens | DirectShowFilter/baseclasses/renbase.cpp:1606-1614 | A run to such a callback inside a flush |
| RendererEos.NoTimerWhenSending | DirectShowFilter/baseclasses/renbase.cpp:1299-1303 | Every notification through SendEndOfStream meets both assertions |
| RendererEos.ErrorAssertionIff | DirectShowFilter/baseclasses/renbase.cpp:1299-1303 | In every run a notification on the error path meets a timer if the stream has ended with nothing pending, and without a timer left over from before only then |
| RendererEos.StepKeeps | DirectShowFilter/baseclasses/renbase.cpp:397-586 | Every step keeps the state at each point of Stop, Pause, Run, BeginFlush and BreakConnect, and that an end of stream with nothing pending has been sent or has a timer |
| RendererEos.ErrorPathMeetsTimer | DirectShowFilter/baseclasses/renbase.cpp:1661-1666 | A run to a notification on the error path with the timer running |
| RendererEos.CBaseRenderer.SendEndOfStream | DirectShowFilter/baseclasses/renbase.cpp:1252-1294 | At an end of stream not yet delivered and without a timer: notifies, or starts the timer exactly if the time is far and the system has one; otherwise does nothing |
| RendererEos.CBaseRenderer.EndOfStream | DirectShowFilter/baseclasses/renbase.cpp:664-693 | Completion waits for a pending sample and for streaming |
| RendererEos.CBaseRenderer.PrepareReceive | DirectShowFilter/baseclasses/renbase.cpp:1079-1116 | Accepted, and referenced, exactly if nothing is pending, no end or abort has come, and it is not streaming or was scheduled; else nothing changes |
| RendererEos.CBaseRenderer.FinishReceive | DirectShowFilter/baseclasses/renbase.cpp:1177-1194 | The sample is cleared before completion is considered |
| RendererEos.CBaseRenderer.StartStreaming | DirectShowFilter/baseclasses/renbase.cpp:1366-1397 | An end of stream that was queued is sent exactly if no sample is pending |
| CheckBmi.MultiplyExactIff | DirectShowFilter/baseclasses/checkbmi.h:11-17 | The test passes exactly if the product is below 2^32, and the product is then exact |
| CheckBmi.ValidationExact | DirectShowFilter/baseclasses/checkbmi.h:32-114 | A header is accepted exactly if the same conditions hold in unbounded arithmetic |
| CheckBmi.AcceptedIsSafe | DirectShowFilter/baseclasses/checkbmi.h:102-112 | For an accepted header the width is positive, row and total are exact and at most 2^30, a stated RGB size covers them, and header, colour masks and colour table fit, with room for 2^bits colours where 1 to 8 bits and no number are given |
| PStream.WriteInt | DirectShowFilter/baseclasses/pstream.cpp:129-134 | Appends twelve characters: the number padded to eleven, and a space |
| PStream.ReadInt | DirectShowFilter/baseclasses/pstream.cpp:144-190 | Result, value and stream position are those of Answer, also for bad characters, a short stream, and one that answers S_FALSE at its end |
| PStream.ReturnsIff | DirectShowFilter/baseclasses/pstream.cpp:164-182 | On a stream that answers S_FALSE at its end ReadInt returns exactly if something but digits is to come |
| PStream.SevenIsReadForEver | DirectShowFilter/baseclasses/pstream.cpp:164-182 | A single digit is read for ever |
| PStream.ScanDigits | DirectShowFilter/baseclasses/pstream.cpp:164-190 | Any number of digits up to a blank accumulates their decimal value modulo 2^32 |
| PStream.SignedIs | DirectShowFilter/baseclasses/pstream.cpp:185-189 | With either sign the result is the number modulo 2^32 as an int, also for -2^31 |
| PStream.RoundTrip | DirectShowFilter/baseclasses/pstream.cpp:121-190 | Every integer of a written sequence is read back from its place, twelve characters each |

## Left out

- Schedule.CAMSchedule.Advise: asks that no periodic event that is due is pushed to the sentry's time MAX_TIME, where the source asserts and the addition overflows.
- RefClock.CBaseReferenceClock.AdviseThreadTurn: asks the same, and that the clock itself is below MAX_TIME.
- AdviseThread.SignalsAsRequested: takes the same two conditions as part of what a possible run is.
- Schedule.CAMSchedule.AddAdvisePacket: cookies are unbounded; after 2^64 of them (2^32 in a 32-bit build) the source starts over.
- Schedule.CAdvisePacket: the packet's cookie, time, period, handle and flag are one field, `m_value`, and are assigned together.
- RenderStats.CBaseVideoRenderer.RecordFrameLateness: for fewer than 2^31 - 1 frames, the range of the frame counter.
- ArithUtil.LlMulDiv: the build variant with USE_LARGEINT and its assembly division are not followed.
- Allocator.CMemAllocator.TryGetBuffer: the loop around it, which waits on the semaphore, is in AllocatorRuns as separate steps.
- AllocatorRuns.NoDeadlock: the semaphore's limit of 2^31 - 1 is not modelled; it takes that many timed-out AM_GBF_NOWAIT calls to reach it.
- OutputQueueRuns.FifoRefinement: every packet gets its list node; what happens to one that does not is said of single calls only.
- PullPin.CPullPin.Process: asks for buffer sizes that are positive multiples of a power-of-two alignment, and for a stop of at most 0x7F00000000000000, beyond which an aligned stop or a buffer more need not fit in 64 bits; what becomes of outstanding requests after an abnormal exit is left to the flush in ThreadProc, which is not modelled.
- SharedMemoryRuns.ReadingsAreFrames: frame numbers are unbounded, and the server is created once; a mapping that outlives its server is not modelled.
- RendererEos.CompleteOnce: counts the events of NotifyEndOfStream, not the one that Run sends for an unconnected pin.
- RendererEos.ErrorAssertionIff: for pins that are connected and disconnected while the filter is stopped, as they are unless a derived class allows otherwise.
- PStream.ReadInt: on a stream that answers S_FALSE at its end, asks for a character to be there; the source would look at a variable without a value.
- COM plumbing, registration, property pages, windows, performance logging and test clients: no state of interest.
- The camera driver and the push pin's format tables: the driver is not part of the repository, the formats are a fixed list.
- CGenericList, CAMThread, CAMEvent, CCritSec and the Windows primitives: sequences, atomic steps and small state stand for them.
- Crashes while a lock is held, abandoned mutexes and failures to open handles: the source gives no guarantee there.
- Frame dropping and quality messages: tuning without a crisp specification.
- CCmdQueue: a sorted list like CAMSchedule's, driven by an outside clock.
- SharedMemory's auto-reset frame event: which of several waiting clients it wakes is up to the system.
