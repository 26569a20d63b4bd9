# Verified models of the systems labs

Dafny models of the protocols and loops in a collection of C performance labs, with proofs of what
those programs rely on. `dafny verify dfyconfig.toml` checks everything. Thread counts, capacities,
item counts, rounds, trials, sizes, strides and seeds are symbolic throughout.

**Lock-free ring** (`RingProtocol`, `RingSafety`, `RingTheorems`, `RingFairness`,
`RingCounts`, `RingBuffer`). Push and pop are split
into their atomic steps under C11 release/acquire (ISO/IEC 9899:2011, sections 5.1.2.4 and 7.17.3).
Each index keeps the history of its stores; a load may return any store not older than one the thread
already knows of; a release store carries the storer's view and an acquire load joins it. Plain buffer
accesses carry clocks, so a data race is a reachable flag, and a racy read may return anything. Indices
are 64-bit words that wrap. `RingBuffer.Ring` is the object with its fields, updated in place.

**Blocking queue** (`QueueProtocol`, `QueueSafety`, `QueueTermination`, `QueueTheorems`, `QueueWaits`,
`QueueValues`, `Circular`, `QueueObject`). Any number of producers and consumers; every pthread call is a step. A signal
wakes any non-empty set of sleepers if there are any, and sleepers may wake spuriously. The circular
array with its head, tail and count is the class `BlockingQueue`; its methods are the critical sections,
proved against the queue operations the protocol uses.

**Thread pool** (`PoolProtocol`, `PoolSafety`, `PoolTheorems`, `PoolObject`, `BurnInverse`). The main thread clears,
submits and awaits each round, reads the results, stops the pool and joins; workers take, run and finish
tasks. The task function is deterministic and otherwise arbitrary; `PoolObject` has the real payload.

**Store-buffering harness** (`SbProtocol`, `SbSafety`, `SbTheorems`, `SbTermination`,
`SbOutcomes`). Three threads with x86-TSO store
buffers and two three-party barriers. In seqcst mode a fence follows the store, as in the compiled code
the lab shows (04-concurrency/01-memory-ordering/result.md, lines 201-214); a barrier arrival needs an
empty buffer.

**Pointer ring, cache lines, prefetch, chunked scan** (`FisherYates`, `Generator`, `PageRing`,
`Strides`, `CacheLines`, `PassSums`, `CachePasses`, `Prefetch`, `PrefetchLab`, `ChunkedScan`). The single-threaded loops, in place on arrays,
against specification functions about which the main results are proved.

`Word64`, `Bits`, `Undo`, `Folds` and `Wrappers` hold the arithmetic of 64-bit words (over unbounded naturals, with the wrap written
out) and of sums and exclusive-ors over sequences.

Where the code and what is said about it differ, the models follow the code:

- The value streams of the queue benchmark are called unique (producer_consumer_queue.c:338-341). They
  are not beyond 256 producers or 2^56 items: `QueueValues.ValuesDistinctIff` has the exact condition.
- The line estimate is called an approximation (cache_line_effect.c:101-113). It is exact in sparse mode,
  below a line, and for dense steps that fit; otherwise it is wrong for every region of more than 64
  steps, in a known direction: `CacheLines.DenseVerdict`.
- The two modes of the mmap lab are compared as if they sampled the same bytes. They do exactly when
  reads are aligned to the stride: `ChunkedScan.ScansAgreeIff`.

## Model

| member | source | states |
|---|---|---|
| `RingTheorems.StepRefines` | 04-concurrency/04-ring-buffer/src/ring_buffer.c:241-279 | In a state that keeps the invariant, every atomic step of either thread is a push at the tail release store, a pop at the head release store, or a stutter of a first-in first-out queue bounded by the capacity; the queue is read off the buffer words between the two indices |
| `RingTheorems.RunRefines` | 04-concurrency/04-ring-buffer/src/ring_buffer.c:241-279 | The same for every step of every run, whatever stale values the loads return |
| `RingTheorems.PopsArePrefixOfPushes` | 04-concurrency/04-ring-buffer/src/ring_buffer.c:323-376 | At any point of any run the values popped are exactly 1, 2, 3, ... (modulo 2^64), a prefix of those pushed, and at most the capacity behind |
| `RingTheorems.AccessesAreOrdered` | 04-concurrency/04-ring-buffer/src/ring_buffer.c:246-277 | No access to a plain slot races: each read happens-after the write of its element, each write happens-after the read of the element one lap earlier |
| `RingTheorems.WrappedTestsAreExact` | 04-concurrency/04-ring-buffer/src/ring_buffer.c:245-276 | With any coherent stale load, the wrapped full test holds exactly when the loaded head is a full capacity behind, the empty test exactly when nothing is unread, and index & mask is the unbounded index modulo the capacity |
| `RingCounts.FullHitsAreFullLoads` | 04-concurrency/04-ring-buffer/src/ring_buffer.c:245-255 | At every point of every run full_hits is the number of head loads so far that found the ring a full capacity behind, modulo 2^64, but for the one about to be counted |
| `RingSafety.LoadHeadAcquireKeeps` | 04-concurrency/04-ring-buffer/src/ring_buffer.c:246-251 | A stale head never lags the own tail by more than the capacity, so the wrapped difference is the true one |
| `RingSafety.WriterAfterReader` | 04-concurrency/04-ring-buffer/src/ring_buffer.c:257 | The slot about to be overwritten was last read at a point the producer has synchronised with |
| `RingSafety.StepKeeps` | 04-concurrency/04-ring-buffer/src/ring_buffer.c:241-279 | Every step of either thread preserves the invariant (store histories, views, slots, outputs, no race) |
| `RingSafety.RunInv` | 04-concurrency/04-ring-buffer/src/ring_buffer.c:241-279 | Every state of every run satisfies the invariant |
| `RingTheorems.FinishedRun` | 04-concurrency/04-ring-buffer/src/ring_buffer.c:323-379 | When both threads have returned, every message was delivered once and in order, and the checksum is messages (messages + 1) / 2 modulo 2^64 |
| `RingTheorems.NeverBothSpinning` | 04-concurrency/04-ring-buffer/src/ring_buffer.c:245-274 | If loads return the newest values, the two threads are never both stuck: without a publish one of them comes to the end of its steps |
| `RingTheorems.FairRoundPublishes` | 04-concurrency/04-ring-buffer/src/ring_buffer.c:241-279 | In a round with turns for one operation each, except for a thread that has returned by its end, something is published unless both threads had returned before |
| `RingTheorems.FairSchedulesFinish` | 04-concurrency/04-ring-buffer/src/ring_buffer.c:331-379 | After two such rounds per message both threads have returned, having delivered 1 to messages in order with the checksum messages (messages + 1) / 2 modulo 2^64 |
| `RingFairness.FairRoundExists` | 04-concurrency/04-ring-buffer/src/ring_buffer.c:241-279 | Such a round can start in every state that keeps the invariant: a thread that has not returned can always step |
| `RingFairness.FairScheduleExists` | 04-concurrency/04-ring-buffer/src/ring_buffer.c:241-279 | For every configuration there are such schedules of any length, from the initial state |
| `RingBuffer.Ring.constructor` | 04-concurrency/04-ring-buffer/src/ring_buffer.c:175-193 | A new ring is empty and has its capacity; any power of two is accepted |
| `RingBuffer.Ring.PushPass` | 04-concurrency/04-ring-buffer/src/ring_buffer.c:245-258 | One pass of the push loop appends the value exactly when fewer than capacity are stored, else it only counts a full hit; indices wrap at 2^64 |
| `RingBuffer.Ring.PopPass` | 04-concurrency/04-ring-buffer/src/ring_buffer.c:265-278 | One pass of the pop loop removes and returns the oldest value exactly when there is one |
| `Word64.PowerOfTwoIff` | 04-concurrency/04-ring-buffer/src/ring_buffer.c:128-130 | The bit trick accepts the powers of two and nothing else |
| `Word64.MaskIsSlot` | 04-concurrency/04-ring-buffer/src/ring_buffer.c:257 | For an accepted capacity, masking a wrapped index gives the slot of the unbounded index |
| `QueueTheorems.FirstInFirstOut` | 04-concurrency/05-producer-consumer-queue/src/producer_consumer_queue.c:238-292 | In every run what was pushed is what was popped followed by what is queued, at most the capacity is queued, and each producer's items appear in its own order, none lost or repeated |
| `QueueTheorems.MaxObservedIsExact` | 04-concurrency/05-producer-consumer-queue/src/producer_consumer_queue.c:242-244 | max_observed_count is at every moment the largest length the queue has had in the run |
| `QueueTheorems.GivesUpOnlyWhenDrained` | 04-concurrency/05-producer-consumer-queue/src/producer_consumer_queue.c:263-305 | A pop returns false only when all producers x items values have been pushed and popped and every producer has finished pushing |
| `QueueWaits.FullWaitsAreBlocks` | 04-concurrency/05-producer-consumer-queue/src/producer_consumer_queue.c:225-236 | At every point of every run a producer's full_waits is the number of times it has fallen asleep, each time on a queue filled to capacity |
| `QueueWaits.EmptyWaitsAreStarves` | 04-concurrency/05-producer-consumer-queue/src/producer_consumer_queue.c:269-285 | A consumer's empty_waits is the number of times it has fallen asleep, each time on an empty queue with producers still active |
| `QueueTheorems.NeverStuck` | 04-concurrency/05-producer-consumer-queue/src/producer_consumer_queue.c:219-329 | No lost wakeup and no deadlock: in every state of every run all threads have returned or one that is awake can step, for any number of threads and any capacity |
| `QueueSafety.AwakeKept` | 04-concurrency/05-producer-consumer-queue/src/producer_consumer_queue.c:225-320 | While a consumer sleeps, producers are still active and every queued item has a consumer on its way or a signal pending; the mirror statement for producers and free slots; both survive every step |
| `QueueSafety.RunInv` | 04-concurrency/05-producer-consumer-queue/src/producer_consumer_queue.c:219-378 | Every state of every run satisfies the invariant (mutex, queue, records, history, waiting, ledgers) |
| `QueueTermination.RunsAreBounded` | 04-concurrency/05-producer-consumer-queue/src/producer_consumer_queue.c:333-378 | Every run is finite: at most a closed-form bound in producers, consumers and items, plus four steps per spurious wakeup |
| `QueueTheorems.MaximalRunsDeliver` | 04-concurrency/05-producer-consumer-queue/src/producer_consumer_queue.c:518-592 | A run that cannot go on has all threads returned, popped the multiset pushed, totals of producers x items on both sides, and a combined checksum of zero |
| `QueueTheorems.EveryRunCompletes` | 04-concurrency/05-producer-consumer-queue/src/producer_consumer_queue.c:333-378 | Every run, whatever has happened in it, goes on without further spurious wakeups to a state where all threads have returned with everything delivered, both totals complete and the checksum zero |
| `QueueTheorems.FinishedTotals` | 04-concurrency/05-producer-consumer-queue/src/producer_consumer_queue.c:580-592 | With all threads returned both totals equal producers x items and the two exclusive-or checksums cancel |
| `QueueTheorems.Totals` | 04-concurrency/05-producer-consumer-queue/src/producer_consumer_queue.c:580-592 | The summary loops compute those sums, modulo 2^64, and that exclusive-or |
| `QueueObject.BlockingQueue.constructor` | 04-concurrency/05-producer-consumer-queue/src/producer_consumer_queue.c:181-205 | A new queue is empty, has observed nothing and counts its producers |
| `QueueObject.BlockingQueue.PushLocked` | 04-concurrency/05-producer-consumer-queue/src/producer_consumer_queue.c:225-244 | The circular array inserts exactly when it is not full, and its contents and maximum then change as the protocol's push says |
| `QueueObject.BlockingQueue.PopLocked` | 04-concurrency/05-producer-consumer-queue/src/producer_consumer_queue.c:269-292 | The circular array yields its oldest item when there is one; when empty, the caller must wait with producers active and give up with none; a negative number of producers, which no run reaches, would make the count wrap |
| `QueueObject.BlockingQueue.FinishLocked` | 04-concurrency/05-producer-consumer-queue/src/producer_consumer_queue.c:318 | Finishing takes one producer off the count and leaves the contents |
| `QueueValues.ValuesDistinctIff` | 04-concurrency/05-producer-consumer-queue/src/producer_consumer_queue.c:338-350 | The value streams are unique, as their comment claims, exactly with one producer, with no items, or with at most 256 producers of at most 2^56 items |
| `QueueValues.ValueParts` | 04-concurrency/05-producer-consumer-queue/src/producer_consumer_queue.c:342-350 | A value splits into the producer number modulo 256 in the top byte, exclusive-or the top of the item number, and the low 56 bits of the item number |
| `PoolTheorems.WaitAllReturnsResults` | 04-concurrency/03-thread-pool-scaling/src/thread_pool_scaling.c:435-449 | From the return of the wait to the next round every slot holds its task's value, each task has run exactly once, the queue is empty and no worker can still write a slot |
| `PoolTheorems.OutstandingIsExact` | 04-concurrency/03-thread-pool-scaling/src/thread_pool_scaling.c:241-250 | In every state outstanding is queued plus running tasks, no task runs twice in a round, and the submit-after-stop error is unreachable |
| `PoolTheorems.ChecksumIsScheduleIndependent` | 04-concurrency/03-thread-pool-scaling/src/thread_pool_scaling.c:566-610 | Two complete runs over the same tasks report the same checksum, the exclusive-or of the task values, whatever their worker counts, capacities, rounds and interleavings |
| `PoolTheorems.NeverStuck` | 04-concurrency/03-thread-pool-scaling/src/thread_pool_scaling.c:181-255 | No lost wakeup and no deadlock: in every state of every run somebody awake can step, or everybody has returned with the queue empty and nothing outstanding |
| `PoolTheorems.RunsAreBounded` | 04-concurrency/03-thread-pool-scaling/src/thread_pool_scaling.c:557-604 | Every run is finite: at most a closed-form bound in workers, tasks and rounds, plus four steps per spurious wakeup |
| `PoolTheorems.MaximalRunsComplete` | 04-concurrency/03-thread-pool-scaling/src/thread_pool_scaling.c:451-477 | A run that cannot go on has drained the pool, returned every worker and reported the schedule-independent checksum |
| `PoolTheorems.EveryRunCompletes` | 04-concurrency/03-thread-pool-scaling/src/thread_pool_scaling.c:451-477 | Every run goes on without further spurious wakeups to such an end |
| `PoolSafety.WorkersAwakeKept` | 04-concurrency/03-thread-pool-scaling/src/thread_pool_scaling.c:202-228 | While a worker sleeps, each queued task has a worker on its way or a signal pending, and stop has not been announced without its broadcast pending; kept by every step |
| `PoolSafety.MainAwakeKept` | 04-concurrency/03-thread-pool-scaling/src/thread_pool_scaling.c:407-444 | While the main thread sleeps, what it waits for has not happened or its wakeup is pending; kept by every step |
| `PoolSafety.RunInv` | 04-concurrency/03-thread-pool-scaling/src/thread_pool_scaling.c:181-477 | Every state of every run satisfies the invariant |
| `PoolObject.CpuBurn` | 04-concurrency/03-thread-pool-scaling/src/thread_pool_scaling.c:95-110 | The payload loop computes the recursion over its iterations; a non-positive count runs none |
| `PoolObject.RotateMovesBits` | 04-concurrency/03-thread-pool-scaling/src/thread_pool_scaling.c:106 | The bitwise or of the two shifts is the rotation: the low 57 bits move up by seven, the high seven come down |
| `PoolObject.BurnIsWord` | 04-concurrency/03-thread-pool-scaling/src/thread_pool_scaling.c:95-110 | The payload stays within 64 bits |
| `BurnInverse.MixInjective` | 04-concurrency/03-thread-pool-scaling/src/thread_pool_scaling.c:98-107 | One iteration of the payload loses nothing: different words stay different |
| `BurnInverse.MixUndone` | 04-concurrency/03-thread-pool-scaling/src/thread_pool_scaling.c:98-107 | One iteration is undone by turning right, subtracting, multiplying by the inverse and undoing the three shifts in reverse order: for each index it permutes the words |
| `BurnInverse.BurnUndone` | 04-concurrency/03-thread-pool-scaling/src/thread_pool_scaling.c:95-110 | So is the payload, whatever the number of iterations |
| `BurnInverse.TaskValueUndone` | 04-concurrency/03-thread-pool-scaling/src/thread_pool_scaling.c:119-123 | The value a task stores can be taken back to its seed plus its number |
| `BurnInverse.IndexMatters` | 04-concurrency/03-thread-pool-scaling/src/thread_pool_scaling.c:105 | The same word mixed with two loop indices gives the same result exactly when the indices agree modulo 2^64 |
| `BurnInverse.ValuesAgreeIff` | 04-concurrency/03-thread-pool-scaling/src/thread_pool_scaling.c:119-123 | Two tasks store the same value exactly when their numbers differ by a multiple of 2^61, whatever the iteration count |
| `PoolObject.RunBenchTask` | 04-concurrency/03-thread-pool-scaling/src/thread_pool_scaling.c:119-123 | Running a task writes its value to its own slot and changes no other |
| `PoolObject.ThreadPool.constructor` | 04-concurrency/03-thread-pool-scaling/src/thread_pool_scaling.c:343-396 | A new pool is empty, with nothing outstanding and not stopped |
| `PoolObject.ThreadPool.SubmitLocked` | 04-concurrency/03-thread-pool-scaling/src/thread_pool_scaling.c:407-424 | Submitting appends the task and counts it, or waits exactly when full and not stopped, or fails exactly when stopped |
| `PoolObject.ThreadPool.TakeLocked` | 04-concurrency/03-thread-pool-scaling/src/thread_pool_scaling.c:202-221 | A worker takes the oldest task exactly when there is one, and leaves exactly when stopped with none |
| `PoolObject.ThreadPool.FinishLocked` | 04-concurrency/03-thread-pool-scaling/src/thread_pool_scaling.c:241-246 | Finishing takes one task off the count and announces completion exactly when it was the last |
| `PoolObject.ThreadPool.StopLocked` | 04-concurrency/03-thread-pool-scaling/src/thread_pool_scaling.c:458 | Stopping leaves the queued tasks to be taken |
| `SbTheorems.SeqCstForbidsBothZero` | 04-concurrency/01-memory-ordering/src/main.c:150-202 | In seqcst mode, for every number of trials and every interleaving of stores, loads and buffer drains, count_00 stays 0 and no classified trial reads 0 and 0 |
| `SbTheorems.BothZeroIffNotSeqCst` | 04-concurrency/01-memory-ordering/src/main.c:150-202 | Some run counts a trial with both loads 0 exactly in the relaxed and acquire/release modes |
| `SbTheorems.CountersAddUp` | 04-concurrency/01-memory-ordering/src/main.c:323-358 | In every state the four counters sum to the measured trials so far, at the end to the iterations, and the unexpected-outcome branch is unreachable |
| `SbOutcomes.CountersAreOutcomes` | 04-concurrency/01-memory-ordering/src/main.c:344-358 | At every point of every run each of the four counters is the number of classifications so far of trials in which the two workers loaded exactly its pair of values |
| `SbOutcomes.ReportedOutcomes` | 04-concurrency/01-memory-ordering/src/main.c:323-367 | The same for the counters at return, which then sum to the measured trials |
| `SbOutcomes.MeasuredOnce` | 04-concurrency/01-memory-ordering/src/main.c:344 | At return every trial after the warm-up has been classified exactly once, and no warm-up trial has |
| `SbOutcomes.TrialsStartFresh` | 04-concurrency/01-memory-ordering/src/main.c:325-339 | Whenever the main thread is about to release a trial, memory holds 0, 0, -1 and -1, whatever the trial before left |
| `SbTheorems.NobodyDisturbsTheReader` | 04-concurrency/01-memory-ordering/src/main.c:339-356 | From the completion of the end barrier until a trial is classified nothing can change memory, and what is classified is what the workers loaded |
| `SbTheorems.NeverStuck` | 04-concurrency/01-memory-ordering/src/main.c:204-230 | The barriers leave nobody behind: in every state of every run all three threads have returned or something can go on |
| `SbTermination.RunsAreBounded` | 04-concurrency/01-memory-ordering/src/main.c:204-367 | Every run takes at most 35 steps and buffer drains per trial, and the join |
| `SbTermination.EveryRunReturns` | 04-concurrency/01-memory-ordering/src/main.c:323-367 | Every run goes on until all three threads have returned with the counters adding up to the iterations |
| `SbTermination.MaximalRunsReturn` | 04-concurrency/01-memory-ordering/src/main.c:323-367 | A run that cannot go on has returned everywhere with every measured trial counted, none as 00 in seqcst mode |
| `SbSafety.RunInv` | 04-concurrency/01-memory-ordering/src/main.c:204-358 | Every state of every run satisfies the invariant |
| `PageRing.WalkRound` | 02-memory-hierarchy/02-tlb-effect/src/tlb_effect.c:217-236 | Following the stored pointers k steps from place r of the order arrives at place r + k modulo the number of pages; no load ever leaves the ring |
| `PageRing.SingleCycle` | 02-memory-hierarchy/02-tlb-effect/src/tlb_effect.c:217-236 | For every order the ring is one cycle: each page is visited at exactly one step in every n_pages |
| `PageRing.ReturnsEveryRound` | 02-memory-hierarchy/02-tlb-effect/src/tlb_effect.c:225-236 | Two walks from one page end together exactly when they differ by whole rounds |
| `PageRing.FlipBreaksRing` | 02-memory-hierarchy/02-tlb-effect/src/tlb_effect.c:241-243 | After the final flip the ring is broken wherever it was made: chasing on would go through an address that starts no page within two loads |
| `PageRing.FlipsLowBit` | 02-memory-hierarchy/02-tlb-effect/src/tlb_effect.c:241-243 | The flip moves the word of its page by one, up if it was even and down if odd, and changes no other page |
| `PageRing.FlippedPageIsRelinked` | 02-memory-hierarchy/02-tlb-effect/src/tlb_effect.c:202-222 | A page flipped after one size holds a page address again once any ring of at least that size is linked |
| `PageRing.Shuffle` | 02-memory-hierarchy/02-tlb-effect/src/tlb_effect.c:124-135 | The in-place shuffle yields the arrangement the generator's choices determine and leaves what lies beyond untouched |
| `PageRing.RandomOrderIs` | 02-memory-hierarchy/02-tlb-effect/src/tlb_effect.c:124-135 | That arrangement is what exchanging places n - 1 down to 1 makes of the page numbers, place i with the place that the generator's state after n - i calls from the seed gives modulo i + 1 |
| `PageRing.SmallestShuffle` | 02-memory-hierarchy/02-tlb-effect/src/tlb_effect.c:124-135 | Two pages from seed 1 come out in the order 1, 0 |
| `Generator.LowDigitsPeriod` | 02-memory-hierarchy/02-tlb-effect/src/tlb_effect.c:129 | From every state the low k bits of the generator come round after 2^k calls and at no number of calls that is not a multiple, for every k up to 64 |
| `Generator.FullPeriod` | 02-memory-hierarchy/02-tlb-effect/src/tlb_effect.c:129 | So the generator passes through every 64-bit word before it repeats |
| `Generator.LowBitAlternates` | 02-memory-hierarchy/02-tlb-effect/src/tlb_effect.c:129 | The low bit alternates |
| `Generator.FirstState` | 02-memory-hierarchy/02-tlb-effect/src/tlb_effect.c:129 | The state after 1 is 2862933558814942250 |
| `Generator.SeedsDiffer` | 02-memory-hierarchy/02-tlb-effect/src/tlb_effect.c:208-209 | At one clock reading two sizes get the same seed exactly when they agree modulo 2^64, so different sizes that fit produce different seeds, as the comment claims |
| `Generator.ClocksDiffer` | 02-memory-hierarchy/02-tlb-effect/src/tlb_effect.c:209 | One size gets the same seed at two clock readings exactly when they are the same |
| `PageRing.RandomOrderIsOrder` | 02-memory-hierarchy/02-tlb-effect/src/tlb_effect.c:124-135 | Whatever the seed, the shuffled numbers are a permutation of all the pages |
| `PageRing.TlbLab.constructor` | 02-memory-hierarchy/02-tlb-effect/src/tlb_effect.c:186-197 | Before the first size the page array counts up and each page starts with the low byte of its number |
| `PageRing.TlbLab.Reorder` | 02-memory-hierarchy/02-tlb-effect/src/tlb_effect.c:204-214 | With --no-rand place i holds page i; otherwise the first n places (for n above 1) hold the shuffle seeded by the clock reading exclusive-or n times the golden constant; what they held before does not matter and the places beyond stay |
| `PageRing.TlbLab.Link` | 02-memory-hierarchy/02-tlb-effect/src/tlb_effect.c:217-222 | Linking any permutation makes the ring, whatever the pages held before, and touches no page beyond |
| `PageRing.TlbLab.Chase` | 02-memory-hierarchy/02-tlb-effect/src/tlb_effect.c:225-236 | The chase loop performs exactly that many defined loads and ends at the place counting round predicts |
| `PageRing.TlbLab.Measure` | 02-memory-hierarchy/02-tlb-effect/src/tlb_effect.c:202-243 | One size: a proper ring is chased from its first page and the flip is all that is left changed in it |
| `PageRing.TlbLab.Run` | 02-memory-hierarchy/02-tlb-effect/src/tlb_effect.c:202-258 | Over all sizes: one measurement per step of the range, each ending where its own ring says although each leaves a corrupted pointer behind; unshuffled, the chase at size n ends on page (warmup + iters) mod n |
| `FisherYates.ArrangeIsPermutation` | 02-memory-hierarchy/02-tlb-effect/src/tlb_effect.c:128-134 | Any admissible choices permute |
| `FisherYates.ChoicesAreDetermined` | 02-memory-hierarchy/02-tlb-effect/src/tlb_effect.c:128-134 | Different choices give different arrangements of distinct elements |
| `FisherYates.EveryArrangementIsReached` | 02-memory-hierarchy/02-tlb-effect/src/tlb_effect.c:128-134 | Every permutation is reached by some choices, hence by exactly one |
| `FisherYates.ArrangeIs` | 02-memory-hierarchy/02-tlb-effect/src/tlb_effect.c:128-134 | The arrangement the results are about is what the exchanges make of the whole array, one after the other from the last place down |
| `FisherYates.SwapPlaces` | 02-memory-hierarchy/03-prefetch-and-locality/src/main.c:287-289 | The three assignments exchange two places and change no other |
| `FisherYates.Exchange` | 02-memory-hierarchy/03-prefetch-and-locality/src/main.c:286-289 | One exchange settles one place and leaves the places below to arrange |
| `CacheLines.LinesAreTouched` | 02-memory-hierarchy/00-cache-line-effect/src/cache_line_effect.c:232-252 | The counted lines are exactly the lines of the bytes the steps access |
| `CacheLines.SparseExact` | 02-memory-hierarchy/00-cache-line-effect/src/cache_line_effect.c:114-136 | Sparse mode, every stride: the estimate equals the number of distinct lines touched |
| `CacheLines.ShortStrideExact` | 02-memory-hierarchy/00-cache-line-effect/src/cache_line_effect.c:124-127 | Strides below a line, either mode: the estimate is exact |
| `CacheLines.DenseVerdict` | 02-memory-hierarchy/00-cache-line-effect/src/cache_line_effect.c:129-135 | Dense mode, stride of a line or more: exact where the steps fit; where they do not, for every region of more than 64 steps too high if the stride is too short and too low otherwise |
| `CacheLines.DenseExactIff` | 02-memory-hierarchy/00-cache-line-effect/src/cache_line_effect.c:101-136 | The dense estimate is exact for every region size exactly when the stride is at least the rounded-up window and the window's last partial line fits in the largest power of two dividing the stride |
| `CacheLines.WholeLineStrides` | 02-memory-hierarchy/00-cache-line-effect/src/cache_line_effect.c:129-135 | For strides of whole lines that condition is that windows do not overlap |
| `CacheLines.LatestStart` | 02-memory-hierarchy/00-cache-line-effect/src/cache_line_effect.c:241 | Some step among the first 64 starts as late in its line as the alignment of the stride allows |
| `CacheLines.StepsFit` | 02-memory-hierarchy/00-cache-line-effect/src/cache_line_effect.c:213-241 | The step count computed beforehand is the number of iterations of the loops |
| `CachePasses.SparsePass` | 02-memory-hierarchy/00-cache-line-effect/src/cache_line_effect.c:232-239 | In write mode each byte at a multiple of the stride is replaced by its value plus the repetition, rotated by its place, and no other byte changes; in read mode the buffer stays and the sum grows, modulo 2^64, by every byte at a multiple of the stride |
| `CachePasses.DensePass` | 02-memory-hierarchy/00-cache-line-effect/src/cache_line_effect.c:240-252 | The dense loop touches exactly the bytes of its windows; in write mode each byte gains its place plus the repetition number for every window over it; in read mode the buffer stays and every byte is added as often as windows lie over it |
| `PassSums.GatheredIsTotal` | 02-memory-hierarchy/00-cache-line-effect/src/cache_line_effect.c:246-249 | What the windows of a read pass add up is the sum over all bytes of the byte times the number of steps whose window lies over it |
| `PassSums.RaisedByte` | 02-memory-hierarchy/00-cache-line-effect/src/cache_line_effect.c:246-249 | Raising one byte by d raises what a read pass adds by d for each step whose window lies over it |
| `PassSums.AddedIsTotal` | 02-memory-hierarchy/00-cache-line-effect/src/cache_line_effect.c:242-245 | What a write pass adds to a byte is the sum over the steps whose window lies over it of its place in the window plus the repetition |
| `CachePasses.Repetition` | 02-memory-hierarchy/00-cache-line-effect/src/cache_line_effect.c:227-253 | In either mode one repetition writes or adds what its loop does, and the lines of the bytes it touches number the estimate in all cases where that is exact |
| `CachePasses.Warmup` | 02-memory-hierarchy/00-cache-line-effect/src/cache_line_effect.c:138-143 | The warm-up adds the first byte of every line of its buffer and touches every line once, whatever its size |
| `CachePasses.RotatesBack` | 02-memory-hierarchy/00-cache-line-effect/src/cache_line_effect.c:93-95 | rotl8, the bitwise or of two shifts, is a rotation: turning on to eight places restores the byte |
| `CachePasses.RotlMovesBits` | 02-memory-hierarchy/00-cache-line-effect/src/cache_line_effect.c:93-95 | The low bits move up by r modulo 8 places and the others come down; a turn by nothing leaves the byte |
| `Prefetch.BuildIndices` | 02-memory-hierarchy/03-prefetch-and-locality/src/main.c:234-255 | The counting and the filling loop agree; the array holds every stride-th index below the element count, strictly increasing, and no other |
| `Strides.PositionsAre` | 02-memory-hierarchy/03-prefetch-and-locality/src/main.c:234-255 | A position is listed exactly when it is a multiple of the stride inside the array |
| `Strides.CeilDivCounts` | 02-memory-hierarchy/00-cache-line-effect/src/cache_line_effect.c:97-99 | The rounded-up quotient is the number of multiples below the bound |
| `Prefetch.ShuffleIndices` | 02-memory-hierarchy/03-prefetch-and-locality/src/main.c:278-291 | The in-place shuffle yields the arrangement its choices determine; short arrays are left alone |
| `Prefetch.ShuffledIs` | 02-memory-hierarchy/03-prefetch-and-locality/src/main.c:278-291 | That arrangement is what exchanging the places from the last down to 1 makes of the array, place i with the place that the generator's state after as many calls gives modulo i + 1 |
| `Prefetch.XorShiftUndone` | 02-memory-hierarchy/03-prefetch-and-locality/src/main.c:263-270 | A step of the generator is undone by undoing shifts of 17 left, 7 right and 13 left: it permutes the words |
| `Prefetch.ShuffledVisitsTheSame` | 02-memory-hierarchy/03-prefetch-and-locality/src/main.c:275-291 | For every seed the shuffled array holds the same indices, each as often |
| `Prefetch.StateNeverZero` | 02-memory-hierarchy/03-prefetch-and-locality/src/main.c:263-283 | The generator reaches zero only from zero, so replacing a zero seed is enough |
| `Prefetch.RunBenchmark` | 02-memory-hierarchy/03-prefetch-and-locality/src/main.c:305-353 | By the record of the loads: the warm-up reads each listed element once, the measured loops each as often as it is listed times the repeats; accesses is the number of those loads and checksum the sum of what they read, both modulo 2^64, and both sums are folded into the sink; no index, no report |
| `Prefetch.OrderDoesNotMatter` | 02-memory-hierarchy/03-prefetch-and-locality/src/main.c:305-353 | Sequential and random order give the same repeats, accesses and checksum for every seed |
| `Prefetch.RepeatsFit` | 02-memory-hierarchy/03-prefetch-and-locality/src/main.c:318-321 | The repeats use up the access budget to within one pass, or are one if a pass exceeds it |
| `Prefetch.XorShiftInjective` | 02-memory-hierarchy/03-prefetch-and-locality/src/main.c:263-270 | The generator never brings two states together |
| `Prefetch.Experiment` | 02-memory-hierarchy/03-prefetch-and-locality/src/main.c:382-407 | A whole configuration reports the same whether or not its order is shuffled, whatever the array holds |
| `PrefetchLab.InitArray` | 02-memory-hierarchy/03-prefetch-and-locality/src/main.c:219-223 | Element i becomes i times the factor plus the offset, modulo 2^64 |
| `PrefetchLab.PassOfStored` | 02-memory-hierarchy/03-prefetch-and-locality/src/main.c:219-255 | A pass over the array so filled adds up to an arithmetic series, modulo 2^64 |
| `PrefetchLab.TriangleIs` | 02-memory-hierarchy/03-prefetch-and-locality/src/main.c:234-255 | The sum of the position numbers 0 to count - 1, which the series contains, is count (count - 1) / 2 |
| `PrefetchLab.Lab` | 02-memory-hierarchy/03-prefetch-and-locality/src/main.c:371-407 | The whole program: for every size, stride, target and pattern, the repeats, the accesses, and the checksum in closed form, repeats times (factor x stride x count (count - 1) / 2 + offset x count) modulo 2^64 |
| `ChunkedScan.ScansAgreeIff` | 03-os-boundary/02-mmap-vs-read/src/main.c:259-278 | For given read lengths, read mode and mmap mode report the same (and even only the same checksum) on every file contents exactly when every read but the last is a multiple of the stride |
| `ChunkedScan.MisalignedDiffers` | 03-os-boundary/02-mmap-vs-read/src/main.c:273-276 | Otherwise a file with a single non-zero byte tells the two modes apart |
| `ChunkedScan.FullReadsAgreeIff` | 03-os-boundary/02-mmap-vs-read/src/main.c:260 | When every read fills the buffer the modes agree on all files of a size exactly when the buffer is a multiple of the stride or holds the whole file |
| `ChunkedScan.AlignedAgrees` | 03-os-boundary/02-mmap-vs-read/src/main.c:259-278 | Aligned reads give the same samples and sum on every file |
| `ChunkedScan.FlatScanIs` | 03-os-boundary/02-mmap-vs-read/src/main.c:331-334 | A flat scan takes the size divided by the stride, rounded up, samples, and adds the bytes at the multiples of the stride |
| `ChunkedScan.ReadScanIs` | 03-os-boundary/02-mmap-vs-read/src/main.c:273-276 | A scan by reads takes that many samples of each piece, and adds the bytes at the positions listed for the pieces |
| `ChunkedScan.PiecePositionsAre` | 03-os-boundary/02-mmap-vs-read/src/main.c:259-278 | A position is listed exactly when it lies in some piece a whole number of strides after its start |
| `ChunkedScan.ReadMode` | 03-os-boundary/02-mmap-vs-read/src/main.c:254-284 | The read loop over a reused buffer reports, modulo 2^64, the rounded-up quotients of the pieces as samples and the sum of the bytes at those positions, whatever the buffer held before |
| `ChunkedScan.MmapMode` | 03-os-boundary/02-mmap-vs-read/src/main.c:326-340 | The loop over the mapping reports the size divided by the stride, rounded up, as samples and the sum of the bytes at the multiples of the stride, modulo 2^64 |

## Left out

- Timing, wait durations, CPU pinning, scheduling priority, option parsing, CSV and text output: they do not affect what is proved.
- Allocation, mapping, file and pthread failures, which end the programs.
- The padded ring (ring_buffer.c:281-319): the packed code over another layout; the proofs apply word for word.
- The pause loops of the ring's consumer (ring_buffer.c:364-366) and `busy_work` of the queue benchmark: delays without shared effects.
- Thread creation, and in the ring and queue benchmarks the joins: threads exist from the start, and results are read once all have returned.
- `thread_pool_init` (thread_pool_scaling.c:260-332), which nothing calls.
- Capacities and buffer sizes whose byte count overflows, strides that overflow a loop counter, and page counts above 2^32.
- RingTheorems.FairSchedulesFinish: states completion for schedules whose loads return the newest values; the C memory model alone bounds no staleness.
- RingBuffer.Ring.PushPass: one pass of the loop, sequentially; the concurrent behaviour of the same steps is in the protocol. The same holds for PopPass.
- QueueTheorems.FinishedTotals: item counts are unbounded naturals; `Totals` adds them modulo 2^64 as the program does.
- PoolObject.CpuBurn: its contract is the recursion over iterations; what that gives is in `BurnInverse`.
- SbTheorems.SeqCstForbidsBothZero: is about the x86-TSO code with the fence; other compilations of the same C are not modelled.
- PageRing.Load: addresses that start no page of the buffer are outside the model; the chase is proved never to use one.
- PageRing.TlbLab.Run: the clock is a parameter, one reading per size, and the flipped byte is the low byte of a little-endian pointer.
- CacheLines.DenseVerdict: says nothing about regions of at most 64 steps whose steps do not fit, where surplus and sharing may cancel.
- CachePasses.Repetition: byte counts, throughput figures and the flush modes around the repetitions are left out.
- PrefetchLab.Lab: sizes and strides are counted in elements; the division of the byte options by eight and the exits on options too small are left out.
- ChunkedScan.ReadMode: the lengths the kernel returns are a parameter; a failing `read`, and mmap mode's check of the file size, end the program.
- The copy-on-write, page-fault, system-call, context-switch, lock-contention, false-sharing, SIMD, branch-prediction and build labs.
