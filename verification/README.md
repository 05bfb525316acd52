# TaskProf: verified core

TaskProf profiles the parallelism of task programs on Threading Building Blocks. This project models its
two phases and the concurrent structures of the library that it instruments, and proves their main
properties with Dafny. Check it with `dafny verify dfyconfig.toml`.

## What is modelled

**The profiler.** The *collection phase* keeps one stack of open nodes per thread, a shared map of tasks
that are spawned and not started, and one id counter, and logs a dynamic program structure tree.
`Collector` is the class with these fields, each Capture operation being one atomic step that is tied to a
function on the state. `Protocol*` is the state machine of all threads calling these operations in the order
that `t_debug_task` and `exec_calls` fix; `ProtocolRuns` is about all runs, and `ProtocolExample` follows one
with two threads to its end. `Loader` reads the files,
`TaskProfiler` is the in-place analysis pass over the node array, with the critical-path attribution and the
what-if passes, and `Dpst` and `Chains` say what work and span mean. `EndToEnd.Profile` composes all of it:
from a finished run to the true work and span.

A run is a sequence of events. The scheduler is only visible in the guards of `Protocol.Enabled`:

- a wait returns only when no node below the awaited FINISH is on a stack or waiting to be started;
- a thread starts tasks only inside of the scheduler, and waits nest;
- `wait_for_all` is called only with an open implicit FINISH, which is what `CaptureWaitOnly` pops;
- a task ends with at most one open implicit FINISH in its frame. `ProtocolDiscipline` shows that this is
  exactly when `CaptureReturn` restores the stack, that programs which never call `spawn_root_and_wait`
  inside an open implicit FINISH always satisfy it, and that other programs may not.

A run is *finished* when no step is being executed and no task waits to be started; the main program may end with
an implicit FINISH still open. It is *disciplined* if it never calls `spawn_root_and_wait` inside an open implicit
FINISH, and *named* if those calls have a known source position.

Work and span are correct for all finished runs. In disciplined runs the tree orders two steps exactly as the spawns
and waits do: `ProtocolOrder` runs clocks beside the protocol that know nothing of the tree, so that the span is the
critical path of the execution. `ProtocolSites` says which call sites and flags a run leaves behind.

Attribution to call sites is not, and `Attribution`, `Shares`,
`Losses`, `Pass` and `Exactness` say exactly when it is. The pass is a function there (`Pass.PassTo`), which the class
in `TaskProfiler` refines. A tree is *lossy* if a FINISH without a call site, with nothing but FINISH nodes above
it and none of them from a parallel loop, holds a FINISH that has a call site or a task; the call sites that this
one passes on are dropped. A tree is *overtaken* if a FINISH without a call site holds a task and a FINISH of that
kind that goes on for longer; its call sites come on top of a span that is already complete, and the subtraction at
`Task_Profiler.cpp:247` borrows. For the shape of the tree of any finished run: attribution is exact for all works
of its steps if and only if it is not lossy, and no subtraction borrows for any works if and only if it is not
overtaken. Disciplined, named runs are neither. `ProtocolLosses` has runs that are. For such runs `Sites` says more: a step belongs
to the nearest task or FINISH with a call site above it, or to the outermost parallel loop, and the profile has, for
every single call site, the weight of what belongs to it on one critical path.

Shares are integers in the model, and `size_t` words in the program, which only adds and subtracts them:
`Attribution.WordShare` relates the two.

**The aggregator and the batched priority queue** (`Aggregator`, `PriorityQueue`). One step is one access to
shared memory. An operation lives on the stack of its thread, so addresses are reused from call to call.

**Lazy rehashing** (`HashBits`, `HashTable`, `BulkRehash`, `ConcurrentHashMap`, `HashProtocol`). A mask `2^e - 1` is
represented by its level `e`. The methods of the class run one after the other, each from any mask that was current
at some earlier time. `HashProtocol` is the state machine of any number of threads with bucket locks: growth, marking,
splitting, insertion and erasure come between any two steps of an operation, in particular between the search of a
bucket and the check of the mask.

**Divide and conquer** (`QuickSort`, `RangePool`, `ParallelReduce`), for every split and steal schedule.

**Stateful tables** (`ThreadTable`, `LruCache`). The thread table is a state machine over single accesses to
shared memory, with any number of threads.

The code and its comments disagree in three places, where the model follows the code. A comment in
`enumerable_thread_specific.h:98` says that each array is half the size of its predecessor; sizes only
strictly grow. A comment in `parallel_sort.h:37-38` says that the first range gets all elements less than or equal
to the splitter; elements equal to it may end up on either side. `checkRecursiveCall`
(`Task_Profiler.cpp:97-108`) ignores the call site that it is given.

## Model

| member | source | states |
|---|---|---|
| EndToEnd.Profile | ptprof_lib/analysis_phase/src/Task_Profiler.cpp:114-154 | main result: for every finished run of the collection phase, however its records are spread over files, loading and analysing give a root whose work is the sum of the work of all executed steps and whose span is the weight of the heaviest chain of steps in series; in disciplined, named runs some chain of exactly that weight explains every share: for each call site, the share of the root is the weight of the steps of the chain that the site owns by the tree alone, and the own share is the weight of the steps that the root owns; own share plus call-site shares make up the span unless the tree is lossy, and no share is negative unless it is overtaken |
| EndToEnd.Predict | ptprof_lib/analysis_phase/src/Task_Profiler.cpp:285-392 | profile followed by what-if passes on the same graph, for every finished run whose regions fit: each prediction is the span of the tree whose steps are lighter by the law of the quotients, read off the region entries of the lines (weight plus work of the region is measured work plus quotient, for region 0 summed over all regions); a factor of 1 predicts the measured span, no prediction exceeds it, a greater factor never predicts more, and no region alone predicts less than all of them |
| EndToEnd.RunShapes | ptprof_lib/analysis_phase/src/Task_Profiler.cpp:185-258 | for the tree of any finished run, with any works: attribution is exact if and only if the tree is not lossy, and no subtraction borrows if and only if it is not overtaken |
| EndToEnd.RunReady | ptprof_lib/collection_phase/include/t_debug_task.h:27-80 | a finished run gives the analysis everything it relies on: tree shape, FINISH ordering, first children, known call sites, conserved step work and, if disciplined and named, a tree that is neither lossy nor overtaken and whose shares have one owner each |
| EndToEnd.RunLogs | ptprof_lib/collection_phase/src/Task_Profiler.cpp:66-83 | no measured work is lost: the works in the log of any run sum up to the works of its EndStep events |
| EndToEnd.LoggedWork | ptprof_lib/analysis_phase/src/Task_Profiler.cpp:185-191 | the works of the records of a complete log sum up to the step work of the tree the log describes |
| EndToEnd.RegionsTotal | ptprof_lib/analysis_phase/src/AFTaskGraph.cpp:86-103 | what a step gets from a line for region r is the sum of the works of the entries of the line that name r, for every r |
| EndToEnd.FilesFresh | ptprof_lib/analysis_phase/src/AFTaskGraph.cpp:43-112 | files that together hold the log, in any distribution and order, load into the graph the analysis starts from, with exact children counters, and last_allocated_node is the number of nodes |
| Dpst.RootWork | ptprof_lib/analysis_phase/src/Task_Profiler.cpp:185-216 | conservation: the work of the root is the sum of the works of all steps |
| Chains.SpanIsHeaviestChain | ptprof_lib/analysis_phase/src/Task_Profiler.cpp:193-251 | independent meaning of the span: the recursive span of the root bounds the weight of every set of pairwise-in-series steps and is reached by one |
| Chains.ChainBound | ptprof_lib/analysis_phase/src/Task_Profiler.cpp:193-251 | the same bound for the subtree of any node |
| Chains.HeaviestChain | ptprof_lib/analysis_phase/src/Task_Profiler.cpp:193-251 | constructs a chain that reaches the span of any node |
| TaskProfiler.TaskProfiler.CalculateRecurse | ptprof_lib/analysis_phase/src/Task_Profiler.cpp:114-154 | in-place pass in id order, tied to the function of the pass: every node is completed exactly once, after all its children; all nodes get their recursive work and span; the root gets the step work and the span; on trees in which no FINISH without a call site holds one that may pass call sites on, one chain of the weight of the span accounts for the share of every single call site and for the own share; shares are exact unless the tree is lossy, not negative unless it is overtaken; region works are untouched |
| TaskProfiler.TaskProfiler.VisitNode | ptprof_lib/analysis_phase/src/Task_Profiler.cpp:119-153 | one iteration does what the function does, and keeps the children counters right |
| TaskProfiler.TaskProfiler.CheckUpdateParentWorkSpan | ptprof_lib/analysis_phase/src/Task_Profiler.cpp:156-183 | climbing from a completed node does what the function does: it completes exactly the ancestors whose last child this was |
| TaskProfiler.TaskProfiler.CalculateWorkSpan | ptprof_lib/analysis_phase/src/Task_Profiler.cpp:185-258 | whole new graph after completing one node: map hand-over, par_for collapse, deletion and merging included |
| TaskProfiler.TaskProfiler.CloseFinish | ptprof_lib/analysis_phase/src/Task_Profiler.cpp:218-248 | what a completed FINISH keeps, and what its parent and nobody else gets from it |
| TaskProfiler.TaskProfiler.InsertCsData | ptprof_lib/analysis_phase/src/Task_Profiler.cpp:260-266 | adds a share to a call site |
| TaskProfiler.TaskProfiler.MergeCriticalCallSites | ptprof_lib/analysis_phase/src/Task_Profiler.cpp:268-281 | pointwise sum of two call-site maps |
| CountMaps.SumMerge | ptprof_lib/analysis_phase/src/Task_Profiler.cpp:268-281 | merging call-site maps conserves the total |
| CountMaps.SumAdd | ptprof_lib/analysis_phase/src/Task_Profiler.cpp:260-266 | inserting a share raises the total by that share |
| Progress.KeepSpans | ptprof_lib/analysis_phase/src/Task_Profiler.cpp:185-251 | completing a node after its children keeps: serial sums and async maxima over the completed children, true span for completed nodes |
| Progress.SpawnTimeWork | ptprof_lib/analysis_phase/src/Task_Profiler.cpp:148-151 | because of the FINISH ordering, the parent work remembered when an ASYNC is visited is the serial work of all its earlier siblings |
| Progress.EverythingDone | ptprof_lib/analysis_phase/src/Task_Profiler.cpp:119-153 | at the end of the pass no node is left incomplete |
| Pass.FinalProfile | ptprof_lib/analysis_phase/src/Task_Profiler.cpp:114-154 | the invariant at the end gives the complete profile, and the shares, in total and per call site, under their conditions |
| Pass.KeepMid | ptprof_lib/analysis_phase/src/Task_Profiler.cpp:156-258 | completing a node after its children keeps everything that is known about spans, works, maps and shares |
| Pass.PassTo | ptprof_lib/analysis_phase/src/Task_Profiler.cpp:114-154 | the pass as a function keeps the invariant for every tree with the FINISH ordering, whatever its works |
| Shares.KeepAttributed | ptprof_lib/analysis_phase/src/Task_Profiler.cpp:193-256 | on trees that are not lossy, every completion keeps own share plus call-site shares equal to the serial work, at all FINISH nodes the root depends on |
| Shares.KeepBounded | ptprof_lib/analysis_phase/src/Task_Profiler.cpp:193-256 | on trees that are not overtaken, no share gets negative, and call sites never sum up to more than the span |
| Losses.KeepLost | ptprof_lib/analysis_phase/src/Task_Profiler.cpp:218-238 | if one step has all the work and its call site is dropped, nothing of it reaches any node above |
| Losses.KeepExceeded | ptprof_lib/analysis_phase/src/Task_Profiler.cpp:204-256 | if a FINISH overtakes a task, the call sites of the FINISH above sum up to the works of both |
| Exactness.ExactIff | ptprof_lib/analysis_phase/src/Task_Profiler.cpp:218-256 | attribution is exact for all works of the steps if and only if the tree is not lossy |
| Exactness.BorrowIff | ptprof_lib/analysis_phase/src/Task_Profiler.cpp:239-247 | no subtraction of call sites borrows for any works if and only if the tree is not overtaken |
| Attribution.WordShare | ptprof_lib/analysis_phase/src/Task_Profiler.cpp:239-248 | the unsigned words of the program agree with the integers modulo 2^64, and the subtraction borrows exactly if the call sites exceed the span |
| Attribution.FinishInto | ptprof_lib/analysis_phase/src/Task_Profiler.cpp:214-256 | what the own share and the call sites of the parent gain from a completed FINISH |
| Attribution.AlternatingIsFine | ptprof_lib/analysis_phase/src/Task_Profiler.cpp:193-256 | trees in which implicit FINISH nodes hold steps and tasks only are neither lossy nor overtaken |
| Sites.KeepStory | ptprof_lib/analysis_phase/src/Task_Profiler.cpp:185-258 | completing a node after its children keeps: at every FINISH on the way to the root some chain of steps explains the span field, the own share and the share of every call site |
| Sites.FinalStory | ptprof_lib/analysis_phase/src/Task_Profiler.cpp:114-154 | at the end of the pass the chain at the root has the weight of the span, and each share is the weight of its steps owned by that call site or by the root |
| Sites.UpResolves | ptprof_lib/analysis_phase/src/Task_Profiler.cpp:193-243 | passing a chain up node by node, a task or a FINISH with a call site claiming what is not yet claimed and a parallel loop claiming everything, gives each step the owner that the tree alone defines |
| Sites.CleanIsFine | ptprof_lib/analysis_phase/src/Task_Profiler.cpp:193-256 | the trees for which this is proved are neither lossy nor overtaken |
| TaskProfiler.TaskProfiler.CalculateRecurseRegion | ptprof_lib/analysis_phase/src/Task_Profiler.cpp:358-392 | a what-if pass computes the span of the same tree with reduced step weights and changes nothing but the span fields |
| TaskProfiler.TaskProfiler.ResetWorkSpan | ptprof_lib/analysis_phase/src/Task_Profiler.cpp:358-369 | clears exactly the span fields of inner nodes |
| TaskProfiler.TaskProfiler.CalculateWorkSpanRegion | ptprof_lib/analysis_phase/src/Task_Profiler.cpp:410-461 | whole new graph after completing one node in a what-if pass |
| TaskProfiler.TaskProfiler.CheckUpdateParentWorkSpanRegion | ptprof_lib/analysis_phase/src/Task_Profiler.cpp:394-408 | climbing keeps the invariant of a what-if pass |
| WhatIf.Prediction | ptprof_lib/analysis_phase/src/Task_Profiler.cpp:410-461 | the predicted span never exceeds the measured one, does not increase with the parallelism factor, and is least when all regions are optimised |
| WhatIf.WeightLaw | ptprof_lib/analysis_phase/src/Task_Profiler.cpp:414-429 | the weight e of a step in a what-if pass satisfies e + x = w + q for its measured work w, the work x of the region and the quotient q of x by the factor; for region 0 with the sums over all regions, each with its own quotient |
| WhatIf.NoUnderflow | ptprof_lib/analysis_phase/src/Task_Profiler.cpp:414-429 | if the regions of a step sum to at most its work, the unsigned subtraction never wraps |
| WhatIf.SpanMonotone | ptprof_lib/analysis_phase/src/Task_Profiler.cpp:410-461 | lighter steps never lengthen the span of any subtree |
| Loader.TaskGraph.InitializeTask | ptprof_lib/analysis_phase/src/AFTaskGraph.cpp:31-41 | whole new state after initialising one node |
| Loader.TaskGraph.ReadRegions | ptprof_lib/analysis_phase/src/AFTaskGraph.cpp:86-103 | region work of a step is accumulated per region |
| Loader.TaskGraph.ReadLine | ptprof_lib/analysis_phase/src/AFTaskGraph.cpp:53-105 | after any line, every node is exactly what the lines read so far make of it |
| Loader.TaskGraph.CreateDpst | ptprof_lib/analysis_phase/src/AFTaskGraph.cpp:43-112 | after all files, every node is exactly what all their lines make of it |
| Collector.AFTaskGraph.constructor | ptprof_lib/collection_phase/src/AFTaskGraph.cpp:6-17 | initial stacks, counter and log record of the head node |
| Collector.AFTaskGraph.CaptureSpawnOnly | ptprof_lib/collection_phase/src/AFTaskGraph.cpp:38-78 | whole new state: reuses or opens an implicit FINISH, numbers the child, its first step and the next step, and logs both kinds of node |
| Collector.AFTaskGraph.CaptureSpawnAndWaitForAll | ptprof_lib/collection_phase/src/AFTaskGraph.cpp:80-115 | the same without a next step |
| Collector.AFTaskGraph.CaptureSpawnAndWait | ptprof_lib/collection_phase/src/AFTaskGraph.cpp:126-140 | whole new state of spawn_root_and_wait |
| Collector.AFTaskGraph.CaptureExecute | ptprof_lib/collection_phase/src/AFTaskGraph.cpp:117-124 | moves a node from the map of spawned tasks to the stack of the executing thread |
| Collector.AFTaskGraph.CaptureReturn | ptprof_lib/collection_phase/src/AFTaskGraph.cpp:142-154 | pops at most one implicit FINISH and the node below it |
| Collector.AFTaskGraph.CaptureWait | ptprof_lib/collection_phase/src/AFTaskGraph.cpp:156-166 | starts a new step of the top node |
| Collector.AFTaskGraph.CaptureWaitOnly | ptprof_lib/collection_phase/src/AFTaskGraph.cpp:168-182 | pops the top node and starts a new step of the node below it |
| Collector.AFTaskGraph.CaptureSetTaskId | ptprof_lib/collection_phase/src/AFTaskGraph.cpp:184-204 | registers the call site once, drops unknown ones, and spawns |
| Collector.AFTaskGraph.CaptureSetTaskIdForAll | ptprof_lib/collection_phase/src/AFTaskGraph.cpp:206-222 | the overload for spawn_and_wait_for_all |
| Collector.AFTaskGraph.LogCurrentStep | ptprof_lib/collection_phase/src/Task_Profiler.cpp:66-83 | logs the current step of the top node below that node |
| Growth.Grow | ptprof_lib/collection_phase/src/AFTaskGraph.cpp:38-115 | appending a node below a settled node keeps: parents first, and every FINISH with a later sibling has nothing live below it |
| Growth.Shrink | ptprof_lib/collection_phase/src/AFTaskGraph.cpp:142-182 | ending steps and tasks keeps that ordering |
| Protocol.InitialInv | ptprof_lib/collection_phase/src/AFTaskGraph.cpp:6-17 | the protocol invariant holds initially, for any number of threads |
| ProtocolSteps.EndStepInv | ptprof_lib/collection_phase/src/Task_Profiler.cpp:66-83 | logging a step keeps the invariant |
| ProtocolEvents.SpawnInv | ptprof_lib/collection_phase/include/t_debug_task.h:27-40 | spawn keeps the invariant |
| ProtocolEvents.SpawnAllInv | ptprof_lib/collection_phase/include/t_debug_task.h:59-65 | the call of spawn_and_wait_for_all keeps the invariant |
| ProtocolEvents.SpawnRootInv | ptprof_lib/collection_phase/include/t_debug_task.h:42-52 | the call of spawn_root_and_wait keeps the invariant |
| ProtocolSteps.WaitAllInv | ptprof_lib/collection_phase/include/t_debug_task.h:72-75 | the call of wait_for_all keeps the invariant |
| ProtocolSteps.BeginInv | ptprof_lib/collection_phase/src/exec_calls.cpp:33-37 | the start of a task on any thread keeps the invariant |
| ProtocolSteps.EndTaskInv | ptprof_lib/collection_phase/src/exec_calls.cpp:39-44 | the end of a task keeps the invariant |
| ProtocolSteps.EndTaskIff | ptprof_lib/collection_phase/src/AFTaskGraph.cpp:142-154 | without the guard, the end of a task keeps the invariant if and only if at most one implicit FINISH is open in its frame |
| ProtocolEvents.ResumeInv | ptprof_lib/collection_phase/include/t_debug_task.h:52-80 | the return of any of the three waits keeps the invariant |
| ProtocolEvents.NextInv | ptprof_lib/collection_phase/include/t_debug_task.h:27-80 | every event of every thread keeps the invariant |
| ProtocolRuns.Run | ptprof_lib/collection_phase/include/t_debug_task.h:27-80 | every reachable state, over any number of threads and any interleaving, satisfies the invariant |
| ProtocolRuns.IdAccounting | ptprof_lib/collection_phase/src/AFTaskGraph.cpp:6-182 | in every reachable state each allocated id is logged exactly once or is the open step of exactly one live node |
| ProtocolRuns.FinishedRun | ptprof_lib/collection_phase/src/AFTaskGraph.cpp:6-182 | the log of a finished run, main program and open FINISH nodes wherever they stand, mentions exactly the ids 1 to last_allocated_node - 1, once each, and describes a tree with parents first and every FINISH subtree before its later siblings |
| ProtocolRuns.FinishedState | ptprof_lib/collection_phase/src/AFTaskGraph.cpp:6-182 | the tree described by the log of a finished run is the tree that the events have built |
| ProtocolExample.SampleRun | ptprof_lib/collection_phase/include/t_debug_task.h:27-80 | a concrete family of finished runs with a task stolen by a second thread, for any works: the span counts the longer of the task and the step beside it, once |
| ProtocolShapes.GrownRun | ptprof_lib/collection_phase/src/AFTaskGraph.cpp:38-140 | every tree that any run grows has its tasks below FINISH nodes without a call site, and the first child of every inner node directly behind it |
| ProtocolLosses.MixedRunLoses | ptprof_lib/collection_phase/include/t_debug_task.h:27-80 | a finished run (spawn, spawn_root_and_wait, wait_for_all inside of a task) whose whole span is lost from the attribution |
| ProtocolLosses.NestedRunLoses | ptprof_lib/collection_phase/include/t_debug_task.h:42-57 | the same for a spawn_root_and_wait inside of one whose source position is not known |
| ProtocolLosses.MixedRunBorrows | ptprof_lib/analysis_phase/src/Task_Profiler.cpp:239-247 | the run of the first kind with a task that takes longer than the root: the call sites exceed the span and the subtraction borrows |
| ProtocolLosses.SecondSyncRun | ptprof_lib/collection_phase/src/AFTaskGraph.cpp:142-154 | a run in which a task has two implicit FINISH nodes open, so that its CaptureReturn would leave its own node behind |
| ProtocolLosses.WaitWithoutSpawn | ptprof_lib/collection_phase/src/AFTaskGraph.cpp:168-182 | a run in which a task that has spawned nothing could call wait_for_all: CaptureWaitOnly would pop its own node, and its end the node below |
| ProtocolDiscipline.ReturnRestores | ptprof_lib/collection_phase/src/AFTaskGraph.cpp:142-154 | CaptureReturn restores the stack below the frame of an ending task if and only if at most one implicit FINISH is open in the frame |
| ProtocolDiscipline.RootInsideSync | ptprof_lib/collection_phase/src/AFTaskGraph.cpp:117-154 | in any state, spawn_root_and_wait inside an open implicit FINISH makes the next spawn open a second one, and the return then leaves a stale node (the execution of the root, which restores the stack, is left out here; the whole run is ProtocolLosses.SecondSyncRun) |
| ProtocolDiscipline.DisciplinedRun | ptprof_lib/collection_phase/src/AFTaskGraph.cpp:38-154 | in a run that never calls spawn_root_and_wait inside an open implicit FINISH, every frame has at most one of them, so every return restores |
| ProtocolDiscipline.StackRestored | ptprof_lib/collection_phase/src/AFTaskGraph.cpp:117-154 | across any nested execution, the stack of a thread after a task ends is what it was before the task started |
| ProtocolLabels.FinishedLabels | ptprof_lib/collection_phase/src/AFTaskGraph.cpp:184-222 | the call sites of a finished run are all registered, and the tree of a disciplined, named run alternates implicit FINISH nodes and spawned ones |
| ProtocolLabels.LabelsRun | ptprof_lib/collection_phase/src/AFTaskGraph.cpp:38-140 | every reachable state of a disciplined, named run has an alternating tree |
| ProtocolSites.FirstFlag | ptprof_lib/collection_phase/src/AFTaskGraph.cpp:184-222 | in every run the known call sites are those that events have named, each with the parallel-loop flag of the first event that named it |
| ProtocolSites.SiteCounts | ptprof_lib/collection_phase/src/AFTaskGraph.cpp:184-222 | in every run the log holds as many tasks, and as many roots, with call site a as events have spawned there |
| ProtocolTime.SeriesIsTime | ptprof_lib/collection_phase/src/Task_Profiler.cpp:66-83 | steps that the tree puts in series really ended in that order, on any threads |
| ProtocolOrder.SeriesIsOrder | ptprof_lib/collection_phase/src/AFTaskGraph.cpp:38-176 | in every state of a disciplined run, the tree puts a step in series before another exactly if the spawns and waits of the run make it end before the other starts; the order is kept by clocks that know activations, wait scopes and nothing of the tree |
| ProtocolOrder.LoggedOrder | ptprof_lib/collection_phase/src/AFTaskGraph.cpp:38-176 | the same for the tree that the log of a finished run describes |
| ProtocolOrder.CriticalPath | ptprof_lib/analysis_phase/src/Task_Profiler.cpp:114-154 | the span of the tree that a finished, disciplined run has logged is the largest total work of steps any two of which the spawns and waits have ordered |
| ProtocolOrder.NextLinked | ptprof_lib/collection_phase/include/t_debug_task.h:27-80 | every event keeps the clocks of all activations and of all tasks not started in step with the tree |
| ProtocolOrder.JoinEarlier | ptprof_lib/collection_phase/src/AFTaskGraph.cpp:168-176 | when a wait closes an implicit FINISH, everything below it comes before the next child of its parent, and nothing else is new |
| ProtocolOrder.WhoseStep | ptprof_lib/collection_phase/src/Task_Profiler.cpp:66-83 | a step that ends comes before the next step of its own activation and of those waiting for a root around it, and of no other |
| Aggregator.Safety | tprof-tbb-lib/include/tbb/aggregator.h:108-177 | over all interleavings of any number of threads: at most one thread waits for handler_busy, at most one runs the handler, every operation is applied exactly once before its call returns, the handler never refers to a finished operation, and unless all are idle one thread can go on |
| Aggregator.StepInv | tprof-tbb-lib/include/tbb/aggregator.h:108-177 | every shared-memory access keeps the invariant about mailbox list and work list |
| Aggregator.InvOneHandler | tprof-tbb-lib/include/tbb/aggregator.h:149-177 | mutual exclusion although the busy flag is set by a plain store |
| Aggregator.InvExactlyOnce | tprof-tbb-lib/include/tbb/aggregator.h:73-88 | no operation is applied twice, and none after its call has returned |
| Aggregator.InvNoStaleAccess | tprof-tbb-lib/include/tbb/aggregator.h:73-88 | the handler reads the next pointer before it finishes an operation |
| Aggregator.InvNotStuck | tprof-tbb-lib/include/tbb/aggregator.h:149-177 | some thread that is inside of a call can always do its next access |
| PriorityQueue.ConcurrentPriorityQueue.HandleOperations | tprof-tbb-lib/include/tbb/concurrent_priority_queue.h:353-434 | batch linearizability: some reordering of the whole batch is a legal sequential run from the old to the new contents with these outcomes (a successful pop returns a maximum, a pop fails only on empty), and afterwards data is a heap, mark and my_size are its size |
| PriorityQueue.ConcurrentPriorityQueue.HandleFirst | tprof-tbb-lib/include/tbb/concurrent_priority_queue.h:359-400 | one operation of the first pass keeps the linearization of the handled operations |
| PriorityQueue.ConcurrentPriorityQueue.HandlePostponed | tprof-tbb-lib/include/tbb/concurrent_priority_queue.h:403-428 | one postponed pop keeps the linearization |
| PriorityQueue.ConcurrentPriorityQueue.Heapify | tprof-tbb-lib/include/tbb/concurrent_priority_queue.h:437-451 | the result is a heap of all elements, and a permutation |
| PriorityQueue.ConcurrentPriorityQueue.SiftUp | tprof-tbb-lib/include/tbb/concurrent_priority_queue.h:440-449 | one more element becomes part of the heap, nothing is lost |
| PriorityQueue.ConcurrentPriorityQueue.Reheap | tprof-tbb-lib/include/tbb/concurrent_priority_queue.h:455-472 | extracts the root and keeps a heap; the last element joins the heap, whether it came from there or from the unsorted part |
| PriorityQueue.ConcurrentPriorityQueue.SinkHole | tprof-tbb-lib/include/tbb/concurrent_priority_queue.h:456-467 | the hole ends where the last element fits |
| PriorityQueue.HeapMax | tprof-tbb-lib/include/tbb/concurrent_priority_queue.h:372-381 | the root, or an unsorted element above it, is a maximum although later unsorted elements may be greater |
| PriorityQueue.BatchPopLast | tprof-tbb-lib/include/tbb/concurrent_priority_queue.h:412-420 | popping the last unsorted element is its own push followed by the pop |
| PriorityQueue.BatchPopTop | tprof-tbb-lib/include/tbb/concurrent_priority_queue.h:421-426 | popping the root linearizes before the push of the element that reheap puts into the heap |
| PriorityQueue.Conservation | tprof-tbb-lib/include/tbb/concurrent_priority_queue.h:353-434 | in any legal run, what is left plus what was popped is what was there plus what was pushed |
| HashTable.HomeByParents | tprof-tbb-lib/include/tbb/concurrent_hash_map.h:1222-1228 | the home bucket of a code is what clearing the topmost bit of its masked index finds |
| HashTable.HomeSplits | tprof-tbb-lib/include/tbb/concurrent_hash_map.h:648-678 | splitting a bucket off its parent re-homes exactly the codes whose longer mask selects it |
| HashTable.SplitHolds | tprof-tbb-lib/include/tbb/concurrent_hash_map.h:648-678 | a split keeps the contents: every item lies in its home bucket, once |
| HashTable.GrowHolds | tprof-tbb-lib/include/tbb/concurrent_hash_map.h:200-223 | new segments of pending buckets keep the contents |
| HashTable.InsertHolds | tprof-tbb-lib/include/tbb/concurrent_hash_map.h:277-290 | inserting into the home bucket inserts into the map |
| HashTable.EraseHolds | tprof-tbb-lib/include/tbb/concurrent_hash_map.h:1181-1192 | removing an item from its bucket removes the key from the map |
| HashBits.SegmentOf | tprof-tbb-lib/include/tbb/concurrent_hash_map.h:155-167 | segments partition the indices |
| HashBits.Parent | tprof-tbb-lib/include/tbb/concurrent_hash_map.h:652-657 | clearing the topmost bit gives a smaller index |
| ConcurrentHashMap.NextBucketDecides | tprof-tbb-lib/include/tbb/concurrent_hash_map.h:255-274 | the bucket found by the bit scan is rehashed if and only if the home has moved |
| ConcurrentHashMap.ConcurrentHashMap.CheckMaskRace | tprof-tbb-lib/include/tbb/concurrent_hash_map.h:246-252 | returns true exactly when the home of the code under the current mask is not the bucket of the old mask |
| ConcurrentHashMap.ConcurrentHashMap.CheckRehashingCollision | tprof-tbb-lib/include/tbb/concurrent_hash_map.h:255-274 | the same for two different masks; the scan ends at the next applicable mask |
| ConcurrentHashMap.ConcurrentHashMap.RehashBucket | tprof-tbb-lib/include/tbb/concurrent_hash_map.h:648-678 | recursive on-demand splitting keeps the contents and only turns pending buckets into rehashed ones |
| ConcurrentHashMap.ConcurrentHashMap.Acquire | tprof-tbb-lib/include/tbb/concurrent_hash_map.h:630-640 | the accessed bucket is rehashed, the contents are kept |
| ConcurrentHashMap.ConcurrentHashMap.SplitBucket | tprof-tbb-lib/include/tbb/concurrent_hash_map.h:662-677 | the relinking loop moves exactly the items of the new bucket |
| ConcurrentHashMap.ConcurrentHashMap.Lookup | tprof-tbb-lib/include/tbb/concurrent_hash_map.h:1038-1114 | find and insert on their own, started with any stale mask, agree with a finite map, and growth happens exactly when the load factor is reached; interleavings are in HashProtocol |
| ConcurrentHashMap.ConcurrentHashMap.Erase | tprof-tbb-lib/include/tbb/concurrent_hash_map.h:1166-1200 | erase on its own, started with any stale mask, agrees with a finite map; interleavings are in HashProtocol |
| ConcurrentHashMap.ConcurrentHashMap.SearchBucket | tprof-tbb-lib/include/tbb/concurrent_hash_map.h:616-622 | finds the item with the key or shows that the list has none |
| ConcurrentHashMap.ConcurrentHashMap.InsertNewNode | tprof-tbb-lib/include/tbb/concurrent_hash_map.h:277-290 | adds to the map and asks for the next segment exactly when the load factor is reached, with no other thread growing the table; that case is in HashProtocol |
| ConcurrentHashMap.ConcurrentHashMap.EnableSegment | tprof-tbb-lib/include/tbb/concurrent_hash_map.h:200-223 | growth keeps the contents and publishes the right mask, the first block in one piece |
| ConcurrentHashMap.ConcurrentHashMap.Reserve | tprof-tbb-lib/include/tbb/concurrent_hash_map.h:293-298 | enough buckets; on a table that never held an item none of them is pending |
| ConcurrentHashMap.InitialSegmentsIff | tprof-tbb-lib/include/tbb/concurrent_hash_map.h:293-298 | growing a table emptied by erases as if it were new keeps the buckets in order if and only if none of them was pending |
| BulkRehash.LastSegmentTells | tprof-tbb-lib/include/tbb/concurrent_hash_map.h:1214-1218 | if no bucket of the last segment is pending, none anywhere is, and every code is at home in its masked index |
| BulkRehash.LeftMark | tprof-tbb-lib/include/tbb/concurrent_hash_map.h:235-242 | recursive marking leaves exactly the subtrees of higher segments |
| BulkRehash.MoveAway | tprof-tbb-lib/include/tbb/concurrent_hash_map.h:1231-1239 | while items move one by one, the rest of the root bucket is the only thing out of place |
| ConcurrentHashMap.ConcurrentHashMap.MarkRehashedLevels | tprof-tbb-lib/include/tbb/concurrent_hash_map.h:235-242 | marks exactly the pending buckets whose root is the given one |
| ConcurrentHashMap.ConcurrentHashMap.MoveItems | tprof-tbb-lib/include/tbb/concurrent_hash_map.h:1231-1239 | distributes the items of a root bucket and keeps the contents |
| ConcurrentHashMap.ConcurrentHashMap.FindRoot | tprof-tbb-lib/include/tbb/concurrent_hash_map.h:1223-1229 | the root found is the home of the pending bucket |
| ConcurrentHashMap.ConcurrentHashMap.Rehash | tprof-tbb-lib/include/tbb/concurrent_hash_map.h:1212-1241 | rehash(sz) leaves at least sz buckets and none of them pending, puts every item into bucket hash & mask and keeps the map |
| HashProtocol.Linearizable | tprof-tbb-lib/include/tbb/concurrent_hash_map.h:1038-1200 | in every run of any number of threads, each find, insert and erase takes effect at one moment between its beginning and its end, with the answer of a finite map at that moment; nothing else changes the map, no operation ends without its effect, and the level grows only by the thread that was told to, when the load factor is reached |
| HashProtocol.OneEffect | tprof-tbb-lib/include/tbb/concurrent_hash_map.h:1038-1200 | in every run, between the beginning of an operation and the next moment its thread is idle, exactly one step of that thread changes the map as the operation asks, and that step fixes the answer |
| HashProtocol.OwnStepEnds | tprof-tbb-lib/include/tbb/concurrent_hash_map.h:1038-1200 | every step of an operation brings it closer to its end: it starts again only when the mask it used is no longer the current one |
| HashProtocol.StepInv | tprof-tbb-lib/include/tbb/concurrent_hash_map.h:630-678 | every step of every thread (reading the mask, locking, marking, splitting, searching, upgrading, checking the mask, inserting, erasing, growing) keeps the invariant and is atomic in that sense; an operation that sees a race starts again |
| HashProtocol.NoRace | tprof-tbb-lib/include/tbb/concurrent_hash_map.h:246-274 | with other threads growing the table and marking buckets since the search: if no race is seen, the locked bucket is still the home of the key |
| HashProtocol.FillSplits | tprof-tbb-lib/include/tbb/concurrent_hash_map.h:648-678 | a marked bucket is filled from its parent while other threads hold other buckets |
| HashProtocol.PlaceStep | tprof-tbb-lib/include/tbb/concurrent_hash_map.h:277-290 | insertion between check and growth, with at most one thread allocating the next segment |
| HashProtocol.AlwaysHolds | tprof-tbb-lib/include/tbb/concurrent_hash_map.h:616-678 | in every run the table stands for the map, half filled buckets counted as pending, and a bucket locked for writing is locked by nobody else |
| HashProtocol.NotStuck | tprof-tbb-lib/include/tbb/concurrent_hash_map.h:630-678 | as long as an operation is under way some thread can go on: rehashing waits for lower buckets only |
| QuickSort.MedianIsMiddle | tprof-tbb-lib/include/tbb/parallel_sort.h:43-46 | median_of_three returns an element that is neither less than both others nor greater than both |
| QuickSort.QuickSortRange.Partition | tprof-tbb-lib/include/tbb/parallel_sort.h:70-97 | a permutation; the pseudo-median ends at the returned place with nothing greater before it and nothing less after it |
| QuickSort.QuickSortRange.Scan | tprof-tbb-lib/include/tbb/parallel_sort.h:83-92 | both scans stay in bounds, and meet only when the range is partitioned |
| QuickSort.QuickSortRange.Split | tprof-tbb-lib/include/tbb/parallel_sort.h:70-105 | the two ranges are strictly smaller, adjacent to the pivot, and partitioned |
| QuickSort.SidesSorted | tprof-tbb-lib/include/tbb/parallel_sort.h:97-105 | sorting both sides of the pivot sorts the whole |
| QuickSort.Sort | tprof-tbb-lib/include/tbb/parallel_sort.h:141-144 | for every split schedule and every order of the two sides, the whole input ends up sorted and a permutation, and nothing outside changes |
| QuickSort.ParallelSort | tprof-tbb-lib/include/tbb/parallel_sort.h:116-176 | parallel_sort with its test for sorted input: whatever the chunks of the test and the schedule of the sort, the array ends up sorted and a permutation |
| QuickSort.NoInversion | tprof-tbb-lib/include/tbb/parallel_sort.h:156-170 | an array without neighbours in the wrong order is sorted |
| RangePool.SplitHalves | tprof-tbb-lib/include/tbb/blocked_range.h:125-131 | halves are adjacent, not empty, differ by at most one, shrink, and have at least half a grain |
| RangePool.ChainCovers | tprof-tbb-lib/include/tbb/blocked_range.h:85-95 | every iteration of an interval lies in exactly one range of a chain |
| RangePool.ChunksCover | tprof-tbb-lib/include/tbb/partitioner.h:531-536 | with the simple partitioner the executed chunks cover the range in order, with sizes between half a grain and a grain |
| RangePool.SimpleExecute | tprof-tbb-lib/include/tbb/partitioner.h:531-536 | the executed and the offered ranges are those chunks |
| RangePool.RangeVector.SplitBack | tprof-tbb-lib/include/tbb/partitioner.h:176-182 | the circular buffer gains the two halves in the right order, both one halving deeper |
| RangePool.RangeVector.PopFront | tprof-tbb-lib/include/tbb/partitioner.h:191-196 | removes the oldest range |
| RangePool.RangeVector.PopBack | tprof-tbb-lib/include/tbb/partitioner.h:185-190 | removes the leftmost range |
| RangePool.SplitToFill | tprof-tbb-lib/include/tbb/partitioner.h:174-184 | the pool ends up with what halving its leftmost range does to it as long as there is room and depth |
| RangePool.RunPool | tprof-tbb-lib/include/tbb/partitioner.h:254-270 | the pool part, for any answers: what is run, what a cancelled task drops and what is given away follow each other and make up the range; what is given away is the rightmost piece of each round with demand and more than one piece, with its depth, and the ranges run are the leftmost ones of the rounds without demand, or with one piece that cannot be split |
| RangePool.Execute | tprof-tbb-lib/include/tbb/partitioner.h:236-271 | for any answers of the partitioner: terminates, and executed, dropped and offered ranges partition the input; the first offers are the right halves as long as the range can and may be divided, the rest those of the pool; without demand the pool offers nothing, and with demand in every round exactly one range is run, which cannot be divided or is at the depth limit; nothing is dropped unless the task is cancelled |
| RangePool.HandedCount | tprof-tbb-lib/include/tbb/partitioner.h:258-262 | the pool gives away as many pieces as there were demands while it held more than one |
| RangePool.PooledLaws | tprof-tbb-lib/include/tbb/partitioner.h:254-270 | what follows for a pool that is never asked, always asked, or never cancelled |
| RangePool.WorkedIsSmall | tprof-tbb-lib/include/tbb/partitioner.h:174-184 | a range is run only if it cannot be split within the depth of its round, or if the pool is full |
| RangePool.FilledChain | tprof-tbb-lib/include/tbb/partitioner.h:174-184 | filling up moves no iteration, and the size of every piece fits its depth |
| ParallelReduce.SequentialResult | tprof-tbb-lib/include/tbb/parallel_reduce.h:190-210 | whatever is split, stolen, reused or joined when, a finished reduction has the value of the sequential fold; it has joined as many bodies as right children have started before their left siblings had finished, and if none has, associativity and identity are not needed |
| ParallelReduce.StepKeepsAnswer | tprof-tbb-lib/include/tbb/parallel_reduce.h:66-76 | no single step of any task changes the value that the tree will deliver |
| ParallelReduce.StepBodies | tprof-tbb-lib/include/tbb/parallel_reduce.h:195-200 | a body is split off exactly when a right child starts before its left sibling has finished, and goes exactly when it is joined |
| ParallelReduce.StepEnds | tprof-tbb-lib/include/tbb/parallel_reduce.h:190-210 | every step uses up effort, so every reduction ends |
| ParallelReduce.CanStep | tprof-tbb-lib/include/tbb/parallel_reduce.h:190-210 | an unfinished reduction can always go on |
| ParallelReduce.LambdaReduceBody.Split | tprof-tbb-lib/include/tbb/parallel_reduce.h:327-332 | a split body starts from the identity |
| ParallelReduce.LambdaReduceBody.Join | tprof-tbb-lib/include/tbb/parallel_reduce.h:336-338 | joins the value of the right body on the right |
| ThreadTable.LoopsEnd | tprof-tbb-lib/include/tbb/enumerable_thread_specific.h:164-234 | in every reachable state every array is at most half full, root sizes strictly grow, every probe is within the size of its array, and every thread can go on |
| ThreadTable.OneLocal | tprof-tbb-lib/include/tbb/enumerable_thread_specific.h:190-230 | a thread creates its object at most once, and all its lookups return that object, across any growth |
| ThreadTable.OwnLocal | tprof-tbb-lib/include/tbb/enumerable_thread_specific.h:190-230 | lookups of different threads return different objects |
| ThreadTable.WholeLookup | tprof-tbb-lib/include/tbb/enumerable_thread_specific.h:164-234 | every lookup returns one pointer, the object of its thread, and leaves it in an array at least as new as the root was when the lookup began |
| ThreadTable.LookupEnds | tprof-tbb-lib/include/tbb/enumerable_thread_specific.h:164-234 | every step of a lookup, retries of the swap of the root included, brings it closer to its end |
| ThreadTable.LookupUndisturbed | tprof-tbb-lib/include/tbb/enumerable_thread_specific.h:164-234 | the steps of other threads never set it back |
| ThreadTable.NoWaste | tprof-tbb-lib/include/tbb/enumerable_thread_specific.h:196-214 | in every run, an array has four slots or fewer than four times as many as threads were counted |
| ThreadTable.StepInv | tprof-tbb-lib/include/tbb/enumerable_thread_specific.h:164-234 | every access of every thread keeps the invariant |
| ThreadTable.HalfFull | tprof-tbb-lib/include/tbb/enumerable_thread_specific.h:196-201 | distinct numbers from my_count keep an array at most half full |
| ThreadTable.ProbeEnds | tprof-tbb-lib/include/tbb/enumerable_thread_specific.h:173-175 | a probe meets an empty slot before it comes round |
| ThreadTable.ProbeFinds | tprof-tbb-lib/include/tbb/enumerable_thread_specific.h:173-176 | a probe that meets an empty slot has not missed the key |
| ThreadTable.ThreadFrame | tprof-tbb-lib/include/tbb/enumerable_thread_specific.h:218-233 | the steps of other threads, publication of arrays included, do not disturb what a thread knows |
| LruCache.Run | tprof-tbb-lib/include/tbb/concurrent_lru_cache.h:188-228 | after any call sequence every counter equals the outstanding handles, and the list holds without duplicates exactly the resident unused entries, at most the history size |
| LruCache.RetrievedInv | tprof-tbb-lib/include/tbb/concurrent_lru_cache.h:188-205 | a retrieval keeps that invariant |
| LruCache.EndedInv | tprof-tbb-lib/include/tbb/concurrent_lru_cache.h:207-228 | an end of usage, evictions included, keeps that invariant |
| LruCache.RunLatest | tprof-tbb-lib/include/tbb/concurrent_lru_cache.h:207-228 | in every reachable state the list is ordered by the time since when its entries are unused |
| LruCache.EvictsLongestUnused | tprof-tbb-lib/include/tbb/concurrent_lru_cache.h:215-223 | an evicted entry has no handles and was unused for longer than every entry that stays |
| LruCache.EndedKeeps | tprof-tbb-lib/include/tbb/concurrent_lru_cache.h:207-228 | in every reachable state, an end of usage evicts at most the last entry of a full list and leaves a full list then; the entry whose last handle is gone stays, at the head |
| LruCache.ResidentIff | tprof-tbb-lib/include/tbb/concurrent_lru_cache.h:188-228 | after any run an entry is resident if and only if it is in use, or went out of use and at no time since then had as many other keys gone out of use later, and stayed so, as the history may hold; all other retrievals need a new value |
| LruCache.ConcurrentLruCache.RetrieveSerial | tprof-tbb-lib/include/tbb/concurrent_lru_cache.h:188-205 | whole new map and list, and whether a value is needed |
| LruCache.ConcurrentLruCache.SignalEndOfUsageSerial | tprof-tbb-lib/include/tbb/concurrent_lru_cache.h:207-228 | whole new map and list |

## Left out

Profiler:

- Aggregation of work and span per call site (`workSpanMap`), the reports, percentages and parallelism ratios.
- Performance counters, file formats and the buffers of `Task_Logger`: the work of a step is a number in its
  event, and the log is one append-only sequence in time order. The loader accepts any distribution of its
  records over files.
- `log_intermediate_step` and `buffer_info` around optimised regions: the region works of a step are inputs of
  the lines that the loader reads, and the what-if results assume that they sum up to at most the work of the step.
- Overflow of `size_t`, except for the subtractions in the attribution and in the what-if passes.
- ProtocolSteps.WaitAllInv: `wait_for_all` without an open implicit FINISH is excluded, because `CaptureWaitOnly` then
  pops the node of the task itself (ProtocolLosses.WaitWithoutSpawn).
- ProtocolSteps.EndTaskInv: the end of a task with two open implicit FINISH nodes is excluded, because `CaptureReturn`
  then leaves a stale node (ProtocolSteps.EndTaskIff says exactly when).
- ProtocolDiscipline.RootInsideSync: on the Capture functions only; ProtocolLosses.SecondSyncRun is a run.
- EndToEnd.Profile: the account of every single call site is for disciplined, named runs; for others the totals of the
  shares are what is proved.
- ProtocolOrder.SeriesIsOrder: disciplined runs only; in others a wait joins the innermost of several open implicit
  FINISH nodes, and not every task that the waiting task has spawned.
- Thread ids, and the locks: every locked operation is one atomic step. `CaptureReturn` takes no lock, and touches
  only the stack of its own thread.
- Task ids are fresh (`++task_id_ctr`), so that insertions into the map of spawned tasks never collide.
- The scheduler itself: which task a thread starts, and when, is arbitrary within the guards above.

Threading Building Blocks:

- Weak memory ordering, exceptions, allocation failure and fences: steps are sequentially consistent. Cancellation is
  modelled in the range pool only.
- PriorityQueue.ConcurrentPriorityQueue.HandleOperations: a push never fails, as no copy throws.
- ConcurrentHashMap.ConcurrentHashMap.Lookup: runs on its own, from an arbitrary stale mask; HashProtocol interleaves.
- ConcurrentHashMap.ConcurrentHashMap.Erase: the same.
- ConcurrentHashMap.ConcurrentHashMap.InsertNewNode: the same; the flag of a segment being allocated is in HashProtocol.
- HashProtocol.StepInv: searching a bucket and relinking the items of one split are single steps, as both happen under
  the lock of the bucket; locks are granted in any order; item locks, accessors, iterators, copying and swapping are
  not modelled, nor is the bulk rehash, which may not run beside other operations.
- ConcurrentHashMap.ConcurrentHashMap.Reserve: not on a table that has been emptied by erases while buckets are pending,
  where the code creates rehashed buckets above pending ones (ConcurrentHashMap.InitialSegmentsIff says exactly when).
- QuickSort.SortLeaf: leaves are sorted by insertion, in the place of `std::sort`.
- QuickSort.Sort: sides are sorted in either order but not at the same time, which their disjoint ranges make
  equivalent; likewise the chunks of the test for sorted input.
- RangePool.Execute: proportional splitting, affinity and the policies that decide about demand and depth; these
  decisions are arbitrary inputs.
- Depths in the range pool are unbounded numbers, not `unsigned char`.
- ParallelReduce.SequentialResult: bodies are the functions of the lambda interface; destruction of bodies and
  `parallel_deterministic_reduce` are not modelled.
- ThreadTable.LoopsEnd: the key of thread `t` is `t + 1`, one of the injective maps from threads to keys that are not
  0; a superfluous array is freed at once; clearing and copying the table are not modelled.
- LruCache.Run: a history size of 0, for which the code takes the last element of an empty list; values and the
  ready flag of entries, and the aggregator in front of the serial core.
- LruCache.EndedInv: a history size of 0, as above.
- LruCache.ConcurrentLruCache.SignalEndOfUsageSerial: a history size of 0, as above.
- Mutexes, arenas, pipelines, vectors, queues, flow graphs and the remaining parallel algorithms.
