# A verified model of the m3bp engine

m3bp compiles a flow graph of processors into a logical graph, the logical graph into physical tasks with
dependencies, and runs these on worker threads. Records travel in byte buffers that are partitioned by hash,
radix-sorted and grouped by key. This project models that machinery in Dafny and proves what it is for:

- **The shuffle is group-by-key.** Partitioning, the in-place radix sort with its eight-byte blocks and two
  array pairs, and the grouped writer are imperative code over arrays and byte buffers
  (`ShufflePartition`, `QuickSort`, `CountingSort`, `RadixSort`, `GroupWriter`, `ShuffleSort`, `Shuffle`).
  `GroupReader` reads the outputs back.
- **The scheduler** is an object (`Scheduler`) and, under all interleavings of its critical sections, a state
  machine (`SchedulerRuns`). Both use the functions of `TaskGraph`. `SchedulerProgress` proves that all work ends.
  Falling asleep and being woken is a second machine with every load, store and lock of its own
  (`SleepProtocol`).
- **Process tasks** add commands while the graph runs. `ProcessRuns` puts them on top of the scheduler machine
  and proves, rather than assumes, that the scheduler's rules are respected (`CanStep` against `Safe`).
  `ProcessNetworks` lets any number of them hand fragments to each other, and `GraphNetworks` shows that compiled
  flow graphs are such networks. `ShuffleRuns` adds the tasks of a shuffle.
  `Throttle`, `ProcessLife` and `ScatterGather` are the objects and the laws they follow.
- **Compilation, layout and placement**: cycle search (`FlowGraph`, `Digraph`), the builder with shared nodes
  (`LogicalGraphBuilder`, `Compilation`), physical tasks (`PhysicalTasks`), buffer sections
  (`SerializedBuffer`), the sort inside groups (`ValueSort`) and thread placement (`Locality`).

Five promises do not hold for every input. For each the code is modelled as it is, and the inputs for which the
promise holds are characterised:

- The radix sort stops refining when every key of a bucket has ended, and `get_block` then reads behind shorter
  keys. It sorts and marks by key if and only if no two keys *collide*: one continues the other with zero bytes
  at least to the end of the block in which the shorter one ends, or to its own end
  (`BlockOrder.BlockOrderIsKeyOrder`, `Shuffle.GroupedExactlyWithoutCollisions`). Prefix-free keys never collide
  (`Shuffle.PrefixFreeItems`).
- A key-value buffer without room for records reads back as value-only (`SerializedBuffer.ReparseFindsLayout`).
- The offset tables do not tell to which group an empty value between two groups belongs. Reading by them, as the
  value sort does, finds the groups that were written if and only if none of them ends with an empty value
  (`GroupReader.ReadsBackIffNoneEndsEmpty`, `Shuffle.GroupedExactlyWithoutCollisions`). The bytes of each group
  are found in any case (`GroupReader.BytesReadBack`).
- So the value sort leaves an empty value at the end of a group to a later group; at the end of the last group it
  drops it and never writes its offset (`ValueSort.SortsGroupwiseIffNoneEndsEmpty`). The bytes of each group come
  out sorted in any case (`ValueSort.GroupBytesSorted`).
- A graph with an input port of undeclared movement is built only if its producers are also those of a
  scatter-gather port (`LogicalGraphBuilder.Builder.Build`).

How things are represented: a record pointer is the record it leads to, with its fragment and offset; memory
behind a key that has ended is an arbitrary function (`Stray`), so every statement holds for all its contents.
Sizes are unbounded except where the source's arithmetic matters: block loads, the median and buffer sizes on
64-bit words, and the hash on 32-bit words, with rotations and exclusive or written out as arithmetic.
Random draws are nondeterministic. Atomics are sequentially consistent. The comparator of the value sort and the
units per node are parameters.

`dafny verify dfyconfig.toml` checks the whole project.

## Model

| member | source | states |
|---|---|---|
| `KeyBlocks.GetBlock` | src/tasks/shuffle/msd_radix_sort.hpp:52-68 | the word load and the byte loop deliver the same thing: eight key bytes read most significant first, zeros after the end of the key; past a key that has ended the unsigned length wraps and the word is whatever lies in memory |
| `KeyBlocks.BigEndianOrder` | src/tasks/shuffle/msd_radix_sort.hpp:52-68 | blocks compare as their bytes do: the first differing byte decides |
| `KeyBlocks.DigitOrders` | src/tasks/shuffle/msd_radix_sort.hpp:193-207 | words that agree above a byte are ordered by that byte, and agree one byte further when it is equal |
| `QuickSort.MedianIsMiddle` | src/tasks/shuffle/msd_radix_sort.hpp:70-74 | the sum with 64-bit wrap-around still yields the middle of the three values |
| `QuickSort.Pivot` | src/tasks/shuffle/msd_radix_sort.hpp:70-74 | the middle one of the first, the middle and the last element |
| `QuickSort.Partition` | src/tasks/shuffle/msd_radix_sort.hpp:85-101 | from any three or more elements: all indices in range, the two parts overlap in at most the pivot, both are smaller than the whole, and pairs move together |
| `QuickSort.QuickSort` | src/tasks/shuffle/msd_radix_sort.hpp:76-105 | terminates for every length; the range is sorted by cached block and the (block, pointer) pairs are permuted together |
| `CountingSort.CountDigits` | src/tasks/shuffle/msd_radix_sort.hpp:190-197 | each bin counts the records with that digit |
| `CountingSort.StartBuckets` | src/tasks/shuffle/msd_radix_sort.hpp:198-202 | the running sums are the starts of the buckets |
| `CountingSort.Distribute` | src/tasks/shuffle/msd_radix_sort.hpp:203-207 | the work arrays hold the records bucket by bucket, each bucket in its original order, and every bin has moved to the end of its bucket |
| `Distribution.BucketsPermute` | src/tasks/shuffle/msd_radix_sort.hpp:203-207 | distributing by a digit loses and duplicates nothing |
| `RadixSort.StartBlock` | src/tasks/shuffle/msd_radix_sort.hpp:116-135 | at the start of a block either all keys have ended and the neighbours are marked, or the next block is cached for everybody |
| `RadixSort.SortSmall` | src/tasks/shuffle/msd_radix_sort.hpp:136-159 | small ranges: copying back when swapped, quicksort, and one recursive call per run of equal blocks leave the range arranged from this offset on |
| `RadixSort.SortLarge` | src/tasks/shuffle/msd_radix_sort.hpp:189-217 | large ranges: one byte of counting sort and one recursive call per bucket, with the array pairs exchanged, leave the range arranged from this byte on |
| `RadixSort.MsdRadixSort` | src/tasks/shuffle/msd_radix_sort.hpp:107-218 | for all keys, lengths, depths and contents of the memory behind keys: `swapped` holds exactly at odd depths, the result is a permutation, in the order `Before`, with a mark exactly where neighbours are `Tied`, and it lies in the arrays of the caller (in the work arrays when swapped); nothing outside the range and not the first mark changes; the key bound minus the depth decreases |
| `BlockOrder.CollisionFreeOrder` | src/tasks/shuffle/msd_radix_sort.hpp:107-218 | without collisions the order imposed is the byte order of the keys and the ties are the equal keys, whatever memory lies behind a key |
| `BlockOrder.CollidingKeysTie` | src/tasks/shuffle/msd_radix_sort.hpp:57-58 | a key and one that continues it with zero bytes to the end of its block are tied by suitable memory |
| `BlockOrder.BlockOrderIsKeyOrder` | src/tasks/shuffle/msd_radix_sort.hpp:107-218 | the order imposed is the byte order of the keys for every memory content if and only if no two keys collide |
| `BlockOrder.EmptyAndZeroCollide` | src/tasks/shuffle/msd_radix_sort.hpp:52-68 | the smallest collision: the empty key and a zero byte |
| `BlockOrder.ArrangedIsGrouped` | src/tasks/shuffle/msd_radix_sort.hpp:107-218 | the results at depth 0 are exactly the orders with ascending keys and with mark `i` set exactly when key `i` equals key `i - 1`, when no two keys collide |
| `BlockOrder.CollisionSpoilsSort` | src/tasks/shuffle/msd_radix_sort.hpp:107-218 | with a collision some memory makes every outcome wrong |
| `BlockOrder.TerminatedIsPrefixFree` | src/tasks/shuffle/msd_radix_sort.hpp:107-218 | NUL-terminated keys are prefix-free, hence never collide |
| `HashFunction.HashByteSequence` | src/common/hash_function.hpp:23-67 | the block loop and the fall-through switch compute the Murmur3 variant `Hash`, and the result is below the modulus |
| `HashFunction.HashIsScaled` | src/common/hash_function.hpp:66 | the result is the 32-bit hash times the modulus, without the lower 32 bits |
| `HashFunction.MurmurTellsApart` | src/common/hash_function.hpp:34-64 | two keys of one length that differ only within one group of four bytes, or only in what is left over at the end, have different hashes: no byte is ignored |
| `HashFunction.AbsorbIsInjective` | src/common/hash_function.hpp:35-42 | absorbing a word keeps different hashes apart, and different words make equal hashes differ |
| `HashFunction.FinishTellsLengths` | src/common/hash_function.hpp:59-64 | the final mixing keeps different lengths apart |
| `HashFunction.ReduceCovers` | src/common/hash_function.hpp:66 | the range reduction stays below the modulus and keeps the order of hashes |
| `HashFunction.ReduceReaches` | src/common/hash_function.hpp:66 | every partition is the image of some 32-bit hash value |
| `ShufflePartition.CountRecords` | src/tasks/shuffle/shuffle_logical_task.cpp:175-182 | record counts, byte sums and chosen partitions are those of the records that hash to each partition |
| `ShufflePartition.PlacePartitions` | src/tasks/shuffle/shuffle_logical_task.cpp:194-202 | offsets and cursors start where the encoded records of the earlier partitions end |
| `ShufflePartition.TotalSize` | src/tasks/shuffle/shuffle_logical_task.cpp:188-190 | the buffer size taken from the offset table is exactly what the partitions need |
| `ShufflePartition.WriteOne` | src/tasks/shuffle/shuffle_logical_task.cpp:204-215 | writing one record at the cursor of its partition disturbs no other partition |
| `ShufflePartition.PartitionsComplete` | src/tasks/shuffle/shuffle_logical_task.cpp:204-215 | after the last record each cursor has reached the start of the next partition and the buffer is filled without gaps |
| `ShufflePartition.PartitionFragment` | src/tasks/shuffle/shuffle_logical_task.cpp:159-220 | stretch `p` of the buffer is the encoding of exactly the records that hash to `p`, in input order; the last offset is the buffer size |
| `ShuffleSort.RecordInStretch` | src/tasks/shuffle/shuffle_logical_task.cpp:257-261 | what a record pointer shows is the record that was written there |
| `ShuffleSort.WalkEnds` | src/tasks/shuffle/shuffle_logical_task.cpp:257-261 | walking by record length ends exactly behind the last record |
| `ShuffleSort.CountRecordsIn` | src/tasks/shuffle/shuffle_logical_task.cpp:249-262 | the walk counts the records of the stretch |
| `ShuffleSort.CollectRecordsIn` | src/tasks/shuffle/shuffle_logical_task.cpp:269-281 | the walk stores one pointer per record, in order |
| `ShuffleSort.SortRecords` | src/tasks/shuffle/shuffle_logical_task.cpp:240-332 | for every list of buffers: the output is the grouped layout of the partition's records, arranged and marked by the radix sort |
| `GroupWriter.MeasureGroups` | src/tasks/shuffle/shuffle_logical_task.cpp:288-299 | group count and section sizes are those of the groups the marks describe |
| `GroupWriter.WriteGroups` | src/tasks/shuffle/shuffle_logical_task.cpp:305-328 | keys, values and the three offset tables are exactly the layout of the groups |
| `GroupWriter.LayoutNext` | src/tasks/shuffle/shuffle_logical_task.cpp:311-328 | what an unmarked and what a marked record add to each section |
| `Buffers.GroupStartsAtFirstValue` | src/tasks/shuffle/shuffle_logical_task.cpp:311-328 | the group offset of `g` equals the value offset of the first record of group `g` |
| `Shuffle.GroupsHoldRecords` | src/tasks/shuffle/shuffle_logical_task.cpp:311-328 | sorted records with exact marks become one non-empty group per key, keys strictly ascending, holding exactly the records |
| `Shuffle.GroupedExactlyWithoutCollisions` | src/tasks/shuffle/shuffle_logical_task.cpp:240-332 | a partition is written grouped by key for every memory content if and only if no two of its keys collide; the reader finds it so in every output the sort may leave if and only if, besides, no value is empty |
| `Shuffle.CollisionSpoilsOutput` | src/tasks/shuffle/shuffle_logical_task.cpp:240-332 | with a collision some memory makes every output miss one of the two keys |
| `Shuffle.OneGroupPerKey` | src/tasks/shuffle/shuffle_logical_task.cpp:240-332 | two groups have equal keys only when they are the same group of the same partition |
| `Shuffle.GroupHoldsAllValues` | src/tasks/shuffle/shuffle_logical_task.cpp:240-332 | a group holds each value exactly as often as it was stored under its key in the whole input |
| `Shuffle.EveryKeyHasItsGroup` | src/tasks/shuffle/shuffle_logical_task.cpp:240-332 | every key of the input has its group in the partition it hashes to |
| `Shuffle.TablesGroupByKey` | src/tasks/shuffle/shuffle_logical_task.cpp:159-332 | tables of all partitions together hold exactly the input, each key in one group |
| `Shuffle.ShuffleTask.ReceiveFragment` | src/tasks/shuffle/shuffle_logical_task.cpp:159-220 | appends the partitioned buffer of a fragment |
| `Shuffle.ShuffleTask.CreateSortTasks` | src/tasks/shuffle/shuffle_logical_task.cpp:222-238 | one sort per partition over all buffers, which are then given up |
| `ShuffleRuns.AddedInTime` | src/tasks/shuffle/shuffle_logical_task.cpp:231-235 | while the barrier is live, a sort task can be made to wait for it and be waited for by the terminal, and be committed: the terminal is unreleased; the same for a partition task, a producer and the barrier |
| `ShuffleRuns.StaysInTime` | src/tasks/shuffle/shuffle_logical_task.cpp:222-238 | no other step of the scheduler takes that away |
| `ShuffleRuns.SortsAfterPartitions` | src/tasks/shuffle/shuffle_logical_task.cpp:354-358 | a sort is released only after the entry and every partition task have completed, the terminal only after every sort |
| `Shuffle.ReaderFindsTable` | src/tasks/value_sort/value_sort_logical_task.cpp:150-156 | of a table in the output, reading by the offset tables finds keys and values again if and only if no group ends with an empty value |
| `Shuffle.RunShuffle` | src/tasks/shuffle/shuffle_logical_task.cpp:159-332 | for any list of fragments, without collisions: the outputs are layouts of tables that group all input by key, and what the reader finds in the outputs is all input grouped by key if and only if no group ends with an empty value, in particular when no value is empty |
| `GroupReader.GroupsFoundIffNoneEndsEmpty` | src/tasks/value_sort/value_sort_logical_task.cpp:150-156 | the offset scan starts every group at its first value if and only if no group ends with an empty value |
| `GroupReader.ReadsBackIffNoneEndsEmpty` | src/memory/serialized_buffer.cpp:298-304 | reading a grouped buffer by its tables gives the groups it was written from if and only if none of them ends with an empty value |
| `GroupReader.BytesReadBack` | src/api/internal/input_buffer_impl.hpp:66-96 | the key and the bytes of every group, which is what processors are given, are found whatever the values are |
| `GroupReader.EmptyValueIsAmbiguous` | src/memory/serialized_buffer.cpp:298-304 | two different lists of groups with the same buffer |
| `Scheduler.PhysicalGraph.CreatePhysicalTask` | src/scheduler/scheduler.cpp:115-142 | a fresh number and a vertex with a count of one |
| `Scheduler.PhysicalGraph.AddDependency` | src/scheduler/scheduler.cpp:144-160 | records the successor and raises its count, or does nothing when the predecessor is gone |
| `Scheduler.PhysicalGraph.DecrementPredecessorCount` | src/scheduler/scheduler.cpp:83-112 | lowers the count by one; at zero a pinned task goes to the end of its worker's queue, one with a preferred worker to the end of the queue of that worker's node, any other to that of the node of the worker drawn, and no other queue changes |
| `Scheduler.PhysicalGraph.CommitTask` | src/scheduler/scheduler.cpp:162-165 | counts the task as unfinished, then takes its commit token |
| `Scheduler.PhysicalGraph.TakeUnstealable` | src/scheduler/scheduler.cpp:168-174 | the front of the own queue, or nothing when it is empty |
| `Scheduler.PhysicalGraph.TakeLocalStealable` | src/scheduler/scheduler.cpp:175-181 | the back of the own node, or nothing when it is empty |
| `Scheduler.PhysicalGraph.StealTask` | src/scheduler/scheduler.cpp:182-195 | takes the front of the first non-empty node going round from the own one; fails only when all are empty |
| `Scheduler.PhysicalGraph.TryTake` | src/scheduler/scheduler.cpp:198-210 | own queue first, then the back of the own node, then stealing; empty-handed exactly when there is nothing the worker may take |
| `Scheduler.PhysicalGraph.NotifyTaskCompletion` | src/scheduler/scheduler.cpp:229-248 | erases the task, lowers every successor once per occurrence, queues exactly those that reach zero, where their affinity says and at the ends of queues, and reports the last task; the counts it asks for are those of every reachable state (`SchedulerRuns.CompletionCovered`) |
| `Scheduler.DecrementNext` | src/scheduler/scheduler.cpp:241-243 | the effect of a row of decrements, whatever the order of queueing |
| `TaskGraph.DecrementQueues` | src/scheduler/scheduler.cpp:83-112 | a decrement queues the task exactly when its count reaches zero, and queues nothing else |
| `SchedulerRuns.CountsKept` | src/scheduler/scheduler.cpp:83-165 | every step keeps: predecessor count = commit token + decrements still owed by live and by erased predecessors |
| `SchedulerRuns.InOnePlaceKept` | src/scheduler/scheduler.cpp:83-248 | every step keeps: a live task with count zero is in one queue or with one worker, any other task nowhere |
| `SchedulerRuns.ReleasedOnceKept` | src/scheduler/scheduler.cpp:83-112 | every step keeps: no task is queued twice |
| `SchedulerRuns.TallyKept` | src/scheduler/scheduler.cpp:162-165 | every step keeps: the unfinished count is the number of committed tasks that are not finished |
| `SchedulerRuns.StepIsSafe` | src/scheduler/scheduler.cpp:83-165 | in a state that keeps the invariants no assertion fires: a vertex that is decremented, committed, erased or given a successor is there, and no count goes below zero |
| `SchedulerRuns.AssertionsHold` | src/scheduler/scheduler.cpp:83-112 | so it is in every state of every run, whatever is done next |
| `SchedulerRuns.CompletionCovered` | src/scheduler/scheduler.cpp:229-243 | when a taken task completes, the counts of its successors cover all their occurrences in its list |
| `SchedulerRuns.QueuedOnceAfterPredecessors` | src/scheduler/scheduler.cpp:83-165 | in every interleaving a task is queued at most once, and only when committed and with all recorded predecessors completed |
| `SchedulerRuns.EveryTaskReleasedOnce` | src/scheduler/scheduler.cpp:83-248 | when all tasks are committed and none is unfinished, every task has been queued exactly once |
| `SchedulerRuns.FinishedMeansNothingOutstanding` | src/scheduler/scheduler.cpp:229-262 | the unfinished count is zero exactly when every committed task is finished, and then no decrement is pending |
| `SchedulerRuns.TasksWaitWherePlaced` | src/scheduler/scheduler.cpp:90-108 | in every run a task waits only where its affinity says: pinned in its worker's queue, with a preferred worker in the queue of that worker's node |
| `SchedulerRuns.PinnedTasksStayHome` | src/scheduler/scheduler.cpp:90-94 | an unstealable task only runs on its own worker |
| `SchedulerRuns.Progress` | src/scheduler/scheduler.cpp:229-262 | nobody busy, everything committed, dependencies ranked, unfinished tasks: some queue holds a task |
| `SchedulerRuns.ProgressWithoutCycles` | src/scheduler/scheduler.cpp:229-262 | the same for live dependencies without a cycle |
| `SchedulerProgress.StepsCounted` | src/scheduler/scheduler.cpp:83-262 | every step of a thread that adds nothing takes exactly one off the steps that are left: decrements of commits, takes, completions with their successors |
| `SchedulerProgress.SomeoneCanWork` | src/scheduler/scheduler.cpp:83-262 | with acyclic dependencies and everything committed, some thread can take such a step while a task is unfinished |
| `SchedulerProgress.AllWorkEnds` | src/scheduler/scheduler.cpp:83-262 | so every run in which nothing is added any more can go on until all tasks are finished, and they are finished exactly when it is as long as the steps that were left at its beginning |
| `SchedulerRuns.LateDependencyQueuesTwice` | src/scheduler/scheduler.cpp:144-160 | a dependency added onto an already released task queues it a second time |
| `SleepProtocol.StaysAlert` | src/scheduler/scheduler.cpp:213-225 | no step of a worker makes it deaf to a task that is there, or to the end once it is reached |
| `SleepProtocol.InvKept` | src/scheduler/scheduler_synchronizer.hpp:41-64 | every step of every thread keeps the invariant of flags, mutexes, polling positions and notifiers |
| `SleepProtocol.NoLostWakeup` | src/scheduler/scheduler.cpp:95-110 | all workers blocked and a stealable queue not empty: a push is still before its search, or a notifier is about to signal a worker |
| `SleepProtocol.NoLostOwnWakeup` | src/scheduler/scheduler.cpp:90-94 | a worker blocked on a non-empty queue of its own has a notifier on its way |
| `SleepProtocol.NobodySleepsOn` | src/scheduler/scheduler.cpp:77-81 | after the end, a blocked worker has a notifier that will still wake it |
| `SleepProtocol.WorkerFallsAsleep` | src/scheduler/scheduler.cpp:213-224 | in any state of any run, a busy worker with a free mutex for which nothing is queued can go through the polling loop to the end and is then blocked with its flag set |
| `SleepProtocol.PushWakesSleeper` | src/scheduler/scheduler_synchronizer.hpp:48-64 | in any state of any run, a push to any node whose search starts at a blocked worker can wake it: its flag is cleared, the task is queued, the notification over |
| `SleepProtocol.OwnPushWakesSleeper` | src/scheduler/scheduler_synchronizer.hpp:41-57 | so can a task pushed for the worker itself |
| `SleepProtocol.WokenWorkerTakes` | src/scheduler/scheduler.cpp:213-225 | from any state of any run, a woken worker with something to do can go on to be busy with its flag clear, with a task of its own if it has one, else one from the first nonempty queue going round from its node, and with nothing when the work has ended |
| `SleepProtocol.WokenWorkerSleeps` | src/scheduler/scheduler.cpp:213-225 | with nothing to do it can go round once and blocks again with its flag set |
| `SleepProtocol.PushIsAnswered` | src/scheduler/scheduler.cpp:95-110 | a push can wake the worker blocked at the head of the search, which then takes a task: its own first, else one from the first nonempty queue going round |
| `SleepProtocol.OwnPushIsAnswered` | src/scheduler/scheduler.cpp:90-94 | from the push of a task for a blocked worker to that worker being busy with it |
| `SleepProtocol.QueuedAfter` | src/scheduler/scheduler.cpp:83-225 | a push queues one task, a step that takes one removes one, no other step changes how many there are |
| `SleepProtocol.NotifierNeverStuck` | src/scheduler/scheduler_synchronizer.hpp:48-57 | a notifier can always move, or the holder of the mutex it needs can |
| `Throttle.ProcessThrottle.CommitProcessCommand` | src/tasks/process/process_task_base.cpp:289-301 | passes a command on while the limit allows, parks it otherwise |
| `Throttle.ProcessThrottle.NotifyCompletion` | src/tasks/process/process_task_base.cpp:409-418 | the loop lets exactly the longest waiting command go |
| `Throttle.EveryRunConserves` | src/tasks/process/process_task_base.cpp:289-418 | after every sequence of calls: remaining + committed but not answered = maximum, commands are parked only at zero remaining, those handed in are those committed and parked, and leave in the order in which they came; with a maximum of zero nothing ever passes |
| `Throttle.ParkedWaitsForEarlier` | src/tasks/process/process_task_base.cpp:409-418 | with a positive maximum a parked command waits for an earlier one that is still running, and none is parked once all have answered |
| `ProcessLife.RunsLieBetween` | src/tasks/process/process_task_base.cpp:336-389 | in a well ordered log every run lies between initialisation and finalisation of its worker, and no call is made twice |
| `ProcessLife.InitialisationComesFirst` | src/tasks/process/process_task_base.cpp:336-360 | global initialisation is the first call, global finalisation the last |
| `ProcessLife.ProcessTask.Run` | src/tasks/process/one_to_one_process_logical_task.cpp:105-115 | adds a local initialisation to the calls exactly when the flag of the worker was clear, then the call of the processor |
| `ProcessLife.ProcessTask.GlobalInitialize` | src/tasks/process/process_task_base.cpp:336-347 | calls the processor once and sets the flag |
| `ProcessLife.ProcessTask.ThreadLocalInitialize` | src/tasks/process/process_task_base.cpp:362-374 | calls the processor only when the flag of the worker is not set |
| `ProcessLife.ProcessTask.ThreadLocalFinalize` | src/tasks/process/process_task_base.cpp:376-389 | calls the processor only when the flag of the worker is set, and clears it |
| `ProcessLife.ProcessTask.FinalizerWorkers` | src/tasks/process/process_task_base.cpp:391-406 | finalisers are made for exactly the initialised workers, in ascending order |
| `ProcessRuns.StepIsSafe` | src/tasks/process/process_task_base.cpp:391-406 | every dependency is added while its target is unreleased, every command is committed once |
| `ProcessRuns.TargetUnreleased` | src/tasks/process/input_process_logical_task.cpp:63-79 | while a command is being added, the barrier (or the terminal, for a finaliser) still waits for the task in whose name that happens |
| `ProcessRuns.RunsBeforeBarrier` | src/tasks/process/one_to_one_process_logical_task.cpp:80-103 | while a run command is live the barrier is unreleased and the entry has completed |
| `ProcessRuns.ProcessorCalledInOrder` | src/tasks/process/process_task_base.cpp:336-406 | in every uncancelled run whose environment is polite: global initialisation first, each worker initialised before its runs, finalised once after them on the same worker, global finalisation last |
| `ProcessRuns.ProcessorCalledForEveryCommand` | src/tasks/process/one_to_one_process_logical_task.cpp:105-115 | in every run the processor has been called for a run command exactly when its code has run, once, and on the worker that took it |
| `ProcessRuns.CalledKept` | src/tasks/process/one_to_one_process_logical_task.cpp:105-115 | every step keeps that |
| `ProcessRuns.CodeGoesOn` | src/tasks/process/process_task_base.cpp:336-406 | the code of a task of the process that a worker has taken can always go on, within the rules of the scheduler |
| `ProcessRuns.CommandsKeepTheirPlace` | src/tasks/process/one_to_one_process_logical_task.cpp:91-103 | a run command has the affinity it was added with as long as it is live |
| `ProcessRuns.FinishedProcessLeavesNothing` | src/tasks/process/process_task_base.cpp:349-406 | once the terminal has run, every initialised worker is finalised, every command has run, and the processor has been called for every run command |
| `ProcessRuns.LimitKept` | src/tasks/process/process_task_base.cpp:289-418 | the throttle is conserved in every run, and every command is being added, parked or committed |
| `ProcessRuns.CreatePhysicalTasks` | src/tasks/process/process_task_base.cpp:205-225 | three tasks chained by two dependencies are a proper start |
| `ProcessNetworks.TerminalOutlives` | src/tasks/logical_task_base.cpp:41-52 | while any task of a process task runs, and so may hand over a fragment, the terminal is live and, unless it is that task, not taken |
| `ProcessNetworks.EnvironmentIsPolite` | src/tasks/logical_task_base.cpp:41-52 | what a single process task asks of its producers holds in a network: no producer completes while it hands over |
| `ProcessNetworks.StepAllowed` | src/tasks/logical_task_base.cpp:41-52 | every move of the network is for each process task a step it can take, and safe |
| `ProcessNetworks.NetInvKept` | src/tasks/logical_task_base.cpp:41-52 | every move keeps the invariant of all process tasks and of all hand-overs |
| `ProcessNetworks.NetworkCalledInOrder` | src/tasks/process/process_task_base.cpp:336-406 | in every run of any number of process tasks on one scheduler that hand fragments to each other, every processor is called in the promised order and for exactly the run commands that have run, and a producer whose task runs cannot complete |
| `ProcessNetworks.CreateNetwork` | src/graph/logical_graph.cpp:57-85 | three tasks per process task and a dependency of the consumer's barrier on the producer's terminal for every edge are a proper start |
| `ScatterGather.ScatterGatherTask.constructor` | src/tasks/process/scatter_gather_process_logical_task.cpp:88-107 | one empty slot per port and a counter of all scatter-gather ports for every partition |
| `ScatterGather.ScatterGatherTask.ReceiveNonBroadcastFragment` | src/tasks/process/scatter_gather_process_logical_task.cpp:110-139 | stores the fragment, counts down, and launches at zero with the pool of the partition |
| `ScatterGather.LaunchedOnceWithAllInputs` | src/tasks/process/scatter_gather_process_logical_task.cpp:110-139 | however arrivals interleave, a partition is launched once, exactly when all its fragments have arrived, with exactly these fragments |
| `FlowGraph.FlowGraph.AddVertex` | src/api/internal/flow_graph_impl.hpp:68-74 | the next number, without sources, and the graph stays well connected |
| `FlowGraph.FlowGraph.AddEdge` | src/api/internal/flow_graph_impl.hpp:76-98 | invalid descriptors and missing keys are refused with the right error and without effect; otherwise the producer is appended to the sources of the consumer's port, and the sources of all other ports, the ports and the number of vertices are as before |
| `FlowGraph.SourcesAreAccepted` | src/api/internal/flow_graph_impl.hpp:68-98 | after any sequence of calls the sources of a port are exactly the producers of its accepted calls, in order and with multiplicity |
| `FlowGraph.FlowGraph.HasCycleRecur` | src/api/internal/flow_graph_impl.hpp:46-65 | from a search state: finds a cycle, or leaves the vertex behind in an order in which sources come first; the unvisited vertices decrease |
| `FlowGraph.FlowGraph.HasCycle` | src/api/internal/flow_graph_impl.hpp:112-120 | true if and only if the source relation has a directed cycle, self-loops included |
| `Digraph.AcyclicIffRanked` | src/api/internal/flow_graph_impl.hpp:46-65 | a finite graph has no cycle if and only if ranks exist that fall along its edges |
| `PortSets.SameKeyIffSamePorts` | src/graph/logical_graph_builder.cpp:83-90 | two lists of ports have the same key exactly when they hold the same ports equally often |
| `LogicalGraphBuilder.Builder.CreateProcessorNodes` | src/graph/logical_graph_builder.cpp:72-80 | vertex `i` becomes node `i` |
| `LogicalGraphBuilder.Builder.CreateShuffleNode` | src/graph/logical_graph_builder.cpp:109-128 | for a key that has a node, that node and no change; for another, one more node, fed by exactly the ports of the key, and nothing else changed |
| `LogicalGraphBuilder.Builder.CreateGatherNode` | src/graph/logical_graph_builder.cpp:130-148 | the same for gather nodes |
| `LogicalGraphBuilder.Builder.CreateIntermediateNodes` | src/graph/logical_graph_builder.cpp:150-167 | afterwards every port that will look up a node finds it, and no processor port is connected yet |
| `LogicalGraphBuilder.Builder.ConnectPort` | src/graph/logical_graph_builder.cpp:178-221 | connects a port as its movement and comparator demand, and fails exactly when the node is missing |
| `LogicalGraphBuilder.Builder.CreateEdges` | src/graph/logical_graph_builder.cpp:169-224 | succeeds exactly when every lookup does, and then all ports are routed |
| `LogicalGraphBuilder.Builder.Build` | src/graph/logical_graph_builder.cpp:235-246 | fails exactly when a port without a declared movement has producers that no scatter-gather port has; otherwise every port is routed and every edge names the task its consumer waits with |
| `LogicalGraphBuilder.LoneUndefinedIsNotBuildable` | src/graph/logical_graph_builder.cpp:178-221 | the smallest graph that fails: one producer and one port without a declared movement |
| `LogicalGraphBuilder.RoutingPreserved` | src/graph/logical_graph_builder.cpp:72-224 | the processors' ports that reach an input port through the nodes in between are exactly its sources, with multiplicity |
| `LogicalGraphBuilder.SharedIffSameProducers` | src/graph/logical_graph_builder.cpp:109-148 | two ports share a shuffle node exactly when they have the same producers |
| `LogicalGraphBuilder.PathsOfPorts` | src/graph/logical_graph_builder.cpp:178-221 | between a port and its sources lies nothing for a one-to-one port, a gather for a broadcast port, a shuffle for the others, with a value sort behind it for a sorted port; it collects exactly the sources, with multiplicity |
| `LogicalGraphBuilder.SuccessorsOfEdges` | src/graph/logical_graph_builder.cpp:109-221 | edges make the entry of gathers and of processors with a broadcast port wait, the terminal of value sorts, and the barrier of all others |
| `Compilation.CompilationKeepsCycles` | src/graph/logical_graph_builder.cpp:72-246 | the logical graph is acyclic if and only if the flow graph is |
| `PhysicalTasks.CreatePhysicalTasks` | src/graph/logical_graph.cpp:57-86 | a task waits for another exactly when it follows it in the chain of a node, or an edge says so; every task is committed, and exactly the tasks that wait for nothing are queued, once |
| `PhysicalTasks.DependenciesAre` | src/graph/logical_graph.cpp:62-82 | in task numbers: the last task of the producer comes before the first task of the consumer when the edge says Entry, before the second task of a process or shuffle when it says Barrier, and before the last task when it says Terminal; besides there are only the chains of the nodes |
| `PhysicalTasks.ProducerBeforeBarrier` | src/graph/logical_graph.cpp:62-82 | the last task of a producer precedes the barrier of the consumer, or its last task along a Terminal edge |
| `PhysicalTasks.SourcesComplete` | src/graph/logical_graph.cpp:57-86 | from the flow graph: the last task of every source of a port precedes the barrier of the port's processor, and with a broadcast port even its entry |
| `PhysicalTasks.EmptySchedulerRegistered` | src/scheduler/scheduler.cpp:62-72 | a new scheduler, from which the creation starts, holds nothing |
| `PhysicalTasks.CreateNodeTasks` | src/graph/logical_graph.cpp:59-61 | one, two or three tasks per node, chained by its own dependencies |
| `PhysicalTasks.TerminalsInOrder` | src/graph/logical_graph.cpp:62-82 | the terminal of a producer precedes the terminal of its consumer, for all three kinds of edges and all kinds of nodes |
| `PhysicalTasks.PhysicalTasksKeepCycles` | src/graph/logical_graph.cpp:57-86 | the physical dependencies are acyclic if and only if the logical graph is |
| `PhysicalTasks.AcyclicEndToEnd` | src/graph/logical_graph.cpp:57-86 | from the flow graph to the scheduler: acyclic if and only if acyclic |
| `GraphNetworks.GraphIsNetwork` | src/graph/logical_graph.cpp:57-82 | the tasks and dependencies of an acyclic graph, before the commits, are a proper start of the network of its process tasks, with the producers along Barrier edges upstream |
| `GraphNetworks.GraphRunsToTheEnd` | src/graph/logical_graph.cpp:57-86 | when the scheduler holds the tasks of an acyclic graph, all committed, every run of its threads can go on until all are finished, after a number of steps known from the beginning |
| `GraphNetworks.FlowGraphIsNetwork` | src/graph/logical_graph.cpp:57-82 | the same from an acyclic flow graph, with one process task for every processor and everything that feeds a port upstream, except for broadcasts |
| `SerializedBuffer.MaskIsRemainder` | src/memory/serialized_buffer.cpp:25-28 | masking the low bits is subtracting the remainder, on 64-bit words |
| `SerializedBuffer.AlignCeilFacts` | src/memory/serialized_buffer.cpp:25-28 | the wrapped sum rounds up correctly whenever the result fits |
| `SerializedBuffer.ReparseFindsLayout` | src/memory/serialized_buffer.cpp:210-274 | reading the headers finds the sections where the allocator put them and the kind it used, if and only if it is not a key-value buffer without room for records |
| `SerializedBuffer.KeyValueWithoutRecords` | src/memory/serialized_buffer.cpp:80-127 | the smallest such buffer, and what it reads as |
| `SerializedBuffer.SectionsAreDisjoint` | src/memory/serialized_buffer.cpp:32-195 | sections lie inside the allocation, on word boundaries, one behind the other with gaps only for alignment; data sections are 16-byte aligned |
| `SerializedBuffer.SerializedBuffer.constructor` | src/memory/serialized_buffer.cpp:210-274 | the walk over the headers is the reading `Parse` |
| `SerializedBuffer.AllocateValueOnlyBuffer` | src/memory/serialized_buffer.cpp:32-78 | without overflow: headers, size and sections as laid out |
| `SerializedBuffer.AllocateKeyValueBuffer` | src/memory/serialized_buffer.cpp:80-127 | the same with key lengths |
| `SerializedBuffer.AllocateGroupedBuffer` | src/memory/serialized_buffer.cpp:129-195 | the same with a keys section and group offsets |
| `ValueSort.SortValues` | src/tasks/value_sort/value_sort_logical_task.cpp:157-161 | a sorted permutation for every strict weak order |
| `ValueSort.Run` | src/tasks/value_sort/value_sort_logical_task.cpp:119-170 | keys and group offsets are copied; the values the loop takes for each group come out sorted, with matching offsets, for all groups including those with empty values |
| `ValueSort.CollectGroup` | src/tasks/value_sort/value_sort_logical_task.cpp:151-156 | collects the values from the current position to the end of the group as the offsets show it |
| `ValueSort.GroupBytesSorted` | src/tasks/value_sort/value_sort_logical_task.cpp:119-170 | for every input, the bytes of each group in the output are those of its own values in sorted order; only empty values ever change groups |
| `ValueSort.OwnBatchesIffNoneEndsEmpty` | src/tasks/value_sort/value_sort_logical_task.cpp:150-170 | the values taken for each group are its own if and only if no group ends with an empty value, and then the output is the layout of the sorted groups |
| `ValueSort.SortsGroupwiseIffNoneEndsEmpty` | src/tasks/value_sort/value_sort_logical_task.cpp:119-170 | every output under every comparator is the layout of the same groups, each a sorted permutation of its own values, if and only if no group ends with an empty value |
| `ValueSort.UnsortedOutput` | src/tasks/value_sort/value_sort_logical_task.cpp:150-170 | for any groups of which one ends with an empty value, an output that is no such layout, with longer values first |
| `ValueSort.EmptyValueEndsUpElsewhere` | src/tasks/value_sort/value_sort_logical_task.cpp:150-170 | a concrete input with an empty last value whose output is the layout of no reordering |
| `Locality.LocalityManager.constructor` | src/scheduler/locality_manager.cpp:31-82 | both placements are balanced and in their order of dealing, the lists are the inverse of the mapping, partitions follow the threads |
| `Locality.LocalityManager.PlaceCompact` | src/scheduler/locality_manager.cpp:48-58 | terminates; each thread is placed when the nodes before its own are full in this round, those after it empty, and its own has a unit left |
| `Locality.CompactPlace` | src/scheduler/locality_manager.cpp:48-58 | so thread t lies on the node that holds unit t modulo the number of units |
| `Locality.LocalityManager.PlaceScattered` | src/scheduler/locality_manager.cpp:59-77 | terminates; each thread is placed when the nodes before its own have had their turn in this pass, the others not, and its own has a unit left; a round ends exactly when all units are used |
| `Locality.ScatterPlace` | src/scheduler/locality_manager.cpp:59-77 | so thread t gets unit t modulo the number of units when in every pass each node with a unit left gives one, from node 0 on |
| `Locality.RoundsAreBalanced` | src/scheduler/locality_manager.cpp:48-77 | with T = qU + r threads each node has between q and q + 1 times its units |
| `Locality.WorkersAreInverse` | src/scheduler/locality_manager.cpp:55-56 | the list of a node holds exactly the workers mapped to it, ascending |
| `Locality.PartitionsHaveWorkers` | src/scheduler/locality_manager.cpp:78-81 | every partition lies on a node that has a worker |
| `Locality.LocalityManager.ThreadMapping` | src/scheduler/locality_manager.cpp:93-99 | the node of a worker lists it |
| `Locality.LocalityManager.PartitionMapping` | src/scheduler/locality_manager.cpp:101-107 | the node of a partition, which has a worker |
| `Locality.AskedNodesHaveWorkers` | src/scheduler/locality_manager.cpp:116-125 | the nodes of workers and of partitions have workers; node 0 has one if and only if it has a unit |
| `Locality.LocalityManager.RandomWorkerFromNode` | src/scheduler/locality_manager.cpp:116-125 | a worker drawn for a node that has one is mapped to it |

## Left out

- Public wrappers, logging, profiling, topology discovery, thread binding and memory managers: forwarding, text, clocks and foreign calls.
- Exceptions in user code and cancellation: runs are uncancelled; in the sleep protocol the end of the work and a cancellation are the same event.
- User processors: a run is an entry in a log.
- KeyBlocks.GetBlock: alignment and byte order of the machine are not modelled; a key is a byte sequence and the load a big-endian value.
- RadixSort.MsdRadixSort: the commented-out super-alphabet branch is not part of this model; array ranges are passed by index instead of by pointer.
- ShuffleSort.SortRecords: output sections are sequences; their place inside one allocation is the subject of SerializedBuffer.
- Shuffle.RunShuffle: fragments are partitioned one after the other; the source does so concurrently and appends under a mutex, so any order of the fragments may occur, which the statement covers by holding for every list.
- SchedulerRuns: the order inside a queue is abstracted (front or back may be taken); the methods of Scheduler.PhysicalGraph state it exactly.
- SleepProtocol: queues are lengths, and the synchroniser is steps of the machine rather than an object, because its methods block. Fairness of the operating system is not modelled, so nothing is said about when a signalled worker runs.
- ProcessRuns.ProcessorCalledInOrder: that no producer completes while it hands over a fragment is a condition on the environment here; for producers that are process tasks `ProcessNetworks.NetworkCalledInOrder` proves it. Locking of broadcast inputs is not part of this model.
- ProcessNetworks.NetworkCalledInOrder: producers of other kinds (shuffles, gathers, value sorts) are part of the environment; `ShuffleRuns` has the same argument for one shuffle task at a time.
- Shuffle.ShuffleTask.CreateSortTasks: the calls into the scheduler are not part of the object; `ShuffleRuns` states them on the scheduler machine.
- ProcessRuns.LimitKept: a limit of zero is allowed, and then no command ever runs, as in the source (`Throttle.EveryRunConserves`).
- ScatterGather.LaunchedOnceWithAllInputs: assumes one fragment per partition and port, as shuffles and value sorts deliver them.
- LogicalGraphBuilder.Builder.Build: node names and the choice of the class of a process task are not modelled.
- Gather: concatenation of fragments is not modelled; the gather is a routing node with one physical task.
- SerializedBuffer: requests whose size overflows 64 bits are excluded by a precondition; the source does not check for them.
- ValueSort.Run: the library's sort is replaced by an insertion sort with the same contract; the comparator sees the bytes of a value, the source passes a pointer. The record count of the output, which the source leaves at zero, is not part of this model.
- Locality.LocalityManager.constructor: with threads and no unit both loops of the source do not end, and with partitions and no threads the source divides by zero; both are excluded.
- Locality.LocalityManager.RandomWorkerFromNode: a node without workers, for which the source draws from a wrapped range, is excluded; `Locality.AskedNodesHaveWorkers` says which nodes are asked and that only node 0 can be such a node.
