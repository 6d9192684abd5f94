# Verification of the job library

The library runs jobs on worker threads, one pinned to each processor.  A worker thread runs a
*fiber pool*: a master fiber creates worker fibers, each of which pops jobs from the thread's queue
and executes them.  Any thread may submit; jobs may submit sub-jobs to their own worker and wait for
them.  This project models that machinery in Dafny and proves what every run of it keeps.

## How the model is built

* `QueueProtocol` - the work queue as its clients see it: an open flag, the works in push order, and
  the sets of sleeping and of woken fibers.  Every operation is one critical section of the mutex.
* `WorkQueue` - the same queue on the heap: intrusively counted works, a singly linked list, a tail
  that points to the link the next work goes into.  It is proved to refine `QueueProtocol`.
* `PoolMachine` - both pools as one step machine.  A fiber is its program counter; a step is the code
  from one suspension point to the next; submitters interleave at every step.  `PoolInvariant` and
  `PoolSteps` hold the invariant and its preservation, `PoolTheorems`, `PoolBounds` and `PoolJoins`
  the statements about all runs; `PoolDecisions` says what a worker decides between two jobs, and what
  the map of fibers holds in consequence.
* `FiberPool` - the pools as a class over the heap queue, with the map of fibers, the counter and the
  loops of the source.  Each method is proved to be a step of the machine and to keep its invariant;
  `AllowedExactly` says that the class can make exactly the machine's steps, and `Lifetime` that for any
  sequence of requests each step that can be made is made, so that the statements about all runs hold
  for it.  A fiber keeps its handle on the work it has popped until the end of the loop body.
* `JobTrees`, `JobValues`, `JobProgress`, `JobSchedules`, `JobDeadlock`, `JobShutdown`, `JobHangs`,
  `Fibonacci` - jobs that submit sub-jobs and wait, on top of the pool machine: before close and after.
* `Handshake` - the rendezvous flag and the shutdown of one worker; `Scheduler` - the two tables, the
  routing of submits and the shutdown of all workers.
* `Bits`, `CacheSharing`, `WindowsTopology` - processor ids, pinning and cache tables on Windows; `Decimals`,
  `CpuList`, `CpuEntries`, `CpuRanges` - the parser of processor lists on Linux and a printer it undoes.
* `Options`, `OrderedKeys`, `Sums`, `Words` - helpers.

## Assumptions

Boost.Fiber is not part of this model.  What is assumed of it:

* Fibers of one thread are cooperative.  Only locking a mutex, waiting on a condition variable,
  joining and executing a job can suspend a fiber.
* Creating a fiber only makes it ready: its creator goes on before it starts.
* The id of a fiber is not used again while the fiber runs, while a joinable handle holds it, or while
  it is being joined.
* `join` returns only after the fiber has exited, and leaves the handle empty.
* `notify_one` wakes some sleeper if there is one; sleepers may also wake for no reason.
* `has_ready_fibers` may answer anything at any time.  The schedules that leave job trees stuck need no
  wrong answers: in them it says yes exactly when another fiber of the pool could run.

Also assumed: increments and decrements of the plain `use_count_` of a work are atomic; counters do
not overflow unless the model says so (the 32-bit arithmetic of the tables, the parsers, the encoding
of processor ids and the iterative Fibonacci is explicit); `unsigned long` has 64 bits, as on 64-bit
Linux, so that `std::stoul` reads numbers below 2^64; white space is that of the C locale; jobs do not throw out of `execute` (packaged
tasks store exceptions in their futures).

## Where the code and its promises part

Each of these is proved with the exact condition under which the promise holds.

* Max does not bound the number of live fibers, even when lines 57-61 of `dynamic_pool.hpp` are never
  interrupted: `*spawned` is raised only when a fiber starts (`MaxCanBeBroken`).  It does if and only
  if Min is 0 or Max is at most 1 (`MaxHoldsExactly`), and on every run in which each created fiber
  starts before another is created (`UpperBound`).
* A worker that popped a job before `close()` may still create a fiber afterwards.  Under an id the
  join loop has already passed it is never joined; unless it retires and is detached in time,
  destroying the map ends the program (`LoopCanMiss`, `AbortsExactly`).  No run does so if and only if
  Min is 0 or Max is at most 1 (`JoinLoopMissesNobodyExactly`).
* A tree of waiting jobs can block a pool: a pool serves all trees with k waiting jobs, before close
  and whatever the schedule, if and only if k is below N, or below Min for a dynamic pool.  A larger Max
  never helps, not even if `has_ready_fibers` always tells the truth about the pool's fibers: no fiber is
  created while the queue is empty and another job merely yields, and one that was created early retires
  beside it (`ProgressExactly`).
* Shutting down need not complete.  A job that waits for a sub-job still in the queue when it is closed
  waits for ever if the other workers have left, and so do the master in `join` and the owner in
  `std::thread::join`.  For each pool with a fiber and each set of job trees with a waiting job there is
  such a schedule (`ShutdownHangs`): every schedule of the given trees can go on until the pool has
  returned if and only if none of their jobs ever waits or the pool has no fibers
  (`ShutdownCompletesExactly`).  A caller who waits for all futures before shutting down is safe: once
  every submitted job is over or broken, every schedule after close can go on until the pool has returned
  (`ShutdownAfterAllDone`).  Either way a schedule after close ends, returned or stuck, after a bounded
  number of steps (`EveryClosedRunEnds`).  The rendezvous itself holds nobody up
  (`OnlyThePoolDelaysTheJoin`).
* `max + 1` wraps to an empty table of workers if and only if some processor has the id 2^32-1
  (`TableCoversExactly`).
* The loop over a range of processor ids never ends if and only if the range, not backwards, goes up
  to 2^32-1 (`LoopEndsExactly`, `LineOfList`, `RoundTripExactly`).
* The Linux topology takes an empty set of ids for a failed parse.  An empty line throws instead; the
  set is empty if and only if every entry is a range written backwards (`EmptyExactly`).
* A cache record for a processor that no NUMA record has makes an entry with processor id 0
  (`EntriesNameThemselvesExactly`).
* Sharing a cache goes both ways if and only if, of the processors of each record, the later records of
  the level have none or all (`SharingIsSymmetricExactly`).

Where comments and documentation differ from the code, the model follows the code: the parameter N of
`dynamic_pool` is unused although the comments and the reference speak of it; terminated entries are
detached but not erased from the map (`EntriesAreNeverErased`); shutdown does not interrupt anything, it closes the queue and
joins.

## Model

| member | source | states |
|---|---|---|
| QueueProtocol.StepKeepsNoLostWakeUp | include/boost/job/detail/queue.hpp:54-80 | Each critical section of the queue keeps: whoever sleeps on the condition variable sleeps beside an open queue with no more works than woken fibers |
| QueueProtocol.NobodySleepsBesideWork | include/boost/job/detail/queue.hpp:129-162 | No lost wake-up over every interleaving of push, pop, value_pop, try_pop, close and spurious wake-ups: all poppers asleep means open and empty |
| QueueProtocol.FirstInFirstOut | include/boost/job/detail/queue.hpp:63-95 | Over every interleaving, what was queued and accepted is, in order, what was popped followed by what is queued |
| QueueProtocol.ClosedForGood | include/boost/job/detail/queue.hpp:54-69 | A closed queue stays closed and accepts nothing more |
| QueueProtocol.AnswersExactly | include/boost/job/detail/queue.hpp:129-162 | pop and try_pop hand out the front of a queue that has one, closed or not; an empty one answers closed exactly if it is closed; only pop goes to sleep |
| QueueProtocol.ClosedDrains | include/boost/job/detail/queue.hpp:129-162 | Over any interleaving after close, the pops take the works that were left, in order, and once none is left every pop answers closed |
| WorkQueue.Work.constructor | include/boost/job/detail/work.hpp:37-40 | A new work has count zero and no successor |
| WorkQueue.Release | include/boost/job/detail/work.hpp:54-60 | Giving up a handle cascades along the links: the works nobody else holds are deallocated, each exactly once, and the first one that is held loses one handle and survives |
| WorkQueue.DropLocal | include/boost/job/detail/work.hpp:54-60 | A local handle on a work without successor deallocates it exactly if it was the last handle |
| WorkQueue.LinksTail | include/boost/job/detail/queue.hpp:87-95 | What follows the front of an acyclic, complete list is such a list and does not contain the front |
| WorkQueue.Queue.constructor | include/boost/job/detail/queue.hpp:98-104 | A new queue is open and empty, its tail on `head_` |
| WorkQueue.Queue.PushTail | include/boost/job/detail/queue.hpp:82-85 | Appends at the end through the tail's link, keeps the chain acyclic and the tail on its one null link, and adds exactly one handle |
| WorkQueue.Queue.PopHead | include/boost/job/detail/queue.hpp:87-95 | Removes the front, clears its `nxt`, hands its list handle to the caller, deallocates nothing and leaves every other count exact |
| WorkQueue.Queue.Push | include/boost/job/detail/queue.hpp:63-80 | Refines the protocol's push: a closed queue refuses and changes nothing; an open one appends and wakes one sleeper if there is one |
| WorkQueue.Queue.Pop | include/boost/job/detail/queue.hpp:129-150 | Refines one pass of pop through its test: sleep, answer closed, or hand out the front |
| WorkQueue.Queue.TryPop | include/boost/job/detail/queue.hpp:152-162 | Refines try_pop: closed, empty or the front, and never sleeps |
| WorkQueue.Queue.Close | include/boost/job/detail/queue.hpp:109-112 | Refines close: the state changes and every sleeper is woken |
| WorkQueue.Queue.Closed | include/boost/job/detail/queue.hpp:114-117 | Answers whether the abstract queue is closed |
| WorkQueue.Queue.Empty | include/boost/job/detail/queue.hpp:119-122 | `head_` is null exactly when the abstract queue is empty |
| WorkQueue.Queue.Submit | include/boost/job/detail/worker_thread.hpp:107-132 | An accepted work is queued with count 1 once the temporary is gone; a refused one is deallocated at once |
| WorkQueue.Queue.Destroy | include/boost/job/detail/work.hpp:54-62 | Destroying a queue of k works that nobody else holds frees all k, each exactly once |
| WorkQueue.Take | include/boost/job/detail/queue.hpp:129-162 | pop or try_pop by a fiber is the protocol's step; a popped work passes from the list into that fiber's hands with exactly one handle, and every other work stays where it was |
| WorkQueue.Drop | include/boost/job/static_pool.hpp:46-51 | When a fiber's handle goes out of scope its work is deallocated, once, whatever the other fibers hold and the queue contains |
| WorkQueue.Serve | include/boost/job/detail/queue.hpp:109-162 | Any call of a client that is possible is made and is a step of the protocol; every work is then queued, or in the hands of exactly one fiber, with exact counts, or deallocated once |
| WorkQueue.Lifetime | include/boost/job/detail/queue.hpp:37-162 | From construction to destruction under any calls of any fibers, each of which may hold its popped work while the others push, pop and close: every possible call is made, the operations form a run of the protocol, push what was submitted in order, and every work ever submitted is deallocated exactly once |
| PoolInvariant.QueueStep | include/boost/job/detail/queue.hpp:109-162 | The pool changes its queue by the queue's own operations only |
| PoolInvariant.KeepsNoLostWakeUp | include/boost/job/detail/queue.hpp:129-139 | Every step of a pool keeps the wake-up property of its queue |
| PoolSteps.StepKeepsInv | include/boost/job/dynamic_pool.hpp:43-80 | Every step of either pool keeps the whole invariant: sleepers, count, map of fibers, join loop, history and futures |
| PoolSteps.RunKeepsInvariant | include/boost/job/dynamic_pool.hpp:149-169 | The invariant holds after every run, whatever is pushed, whatever `has_ready_fibers` answers and however jobs suspend |
| PoolTheorems.NoWorkerSleepsBesideWork | include/boost/job/detail/queue.hpp:129-139 | In no reachable state of a pool is every popper asleep beside a non-empty or closed queue |
| PoolTheorems.LowerBound | include/boost/job/dynamic_pool.hpp:43-80 | `*spawned` equals the number of fibers between lines 43 and 80, and until close it never drops, with the fibers not yet started, below Min |
| PoolTheorems.MapSafety | include/boost/job/dynamic_pool.hpp:58-77 | `fibs->at` always finds the caller's entry, no joinable handle is overwritten, no fiber is detached inside its worker function, and live fibers have different ids |
| PoolTheorems.ReturnedPoolIsEmpty | include/boost/job/dynamic_pool.hpp:162-168 | When `operator()` has returned, the queue is closed and every fiber has left the worker function |
| PoolTheorems.JoinLoopReachesEarlyFibers | include/boost/job/dynamic_pool.hpp:164-168 | No fiber is marked as inserted behind the join loop while the queue is open, and however the loop ends every fiber without that mark has left |
| PoolTheorems.FibersBeforeCloseHaveLeft | include/boost/job/dynamic_pool.hpp:162-168 | Every fiber created before close has left the worker function when the join loop has ended, so none can still reach the counter and the map on the stack |
| PoolTheorems.AbortsExactly | include/boost/job/dynamic_pool.hpp:119-123 | Destroying the map ends the program exactly when a fiber inserted behind the loop still has its joinable handle |
| PoolTheorems.StaticPoolJoinsAll | include/boost/job/static_pool.hpp:38-64 | The static pool never ends the program and returns with a closed queue and all N fibers out |
| PoolTheorems.BoundedWorkAfterClose | include/boost/job/dynamic_pool.hpp:44-49 | After close a worker calls pop at most once more and only if it is past the loop test, fibers that start later never do, and each of its at most five own steps brings it nearer to the exit |
| PoolTheorems.NoStepsLeftMeansOut | include/boost/job/dynamic_pool.hpp:79-81 | A worker has no step left exactly when it is out of the worker function |
| PoolTheorems.WorkerCanStepAfterClose | include/boost/job/dynamic_pool.hpp:44-80 | After close every worker that is not out has a step of its own to take; only the job it runs can hold it up |
| PoolTheorems.ConservationOfJobs | include/boost/job/dynamic_pool.hpp:46-63 | Accepted jobs, in push order, are the popped ones followed by the queue; each popped job has one popper and is run by nobody else, at most once |
| PoolTheorems.FateOfFutures | include/boost/job/detail/worker_thread.hpp:107-132 | After the worker is destroyed each future is fulfilled by exactly one run of its popped job or broken once, never both, never neither |
| PoolDecisions.CreatesExactly | include/boost/job/dynamic_pool.hpp:156-160 | The first fibers are N in a static pool and Min in a dynamic one, ready and joinable each under its own id |
| PoolDecisions.PopsExactly | include/boost/job/dynamic_pool.hpp:46-57 | A pass of pop takes the front, sleeps, or goes back to the loop test; with a job in hand the fiber asks for help exactly if the pool is dynamic and fewer than Max are in the loop |
| PoolDecisions.SpawnsExactly | include/boost/job/dynamic_pool.hpp:57-61 | Nobody is created while nothing is queued and another fiber is ready; in every other case exactly one fiber is, ready and joinable under its id |
| JobSchedules.SomebodyElseAfterSpawn | include/boost/job/dynamic_pool.hpp:50-57 | The purpose of line 57: when a fiber has asked, been told the truth and acted on it, some other fiber can go on |
| PoolDecisions.RetiresExactly | include/boost/job/dynamic_pool.hpp:74-80 | A fiber leaves exactly if nothing is queued, more than Min are in the loop and another fiber is ready; its entry is then marked and keeps its handle, and nothing else changes |
| JobSchedules.SomebodyElseAfterRetire | include/boost/job/dynamic_pool.hpp:70-78 | With true answers a fiber retires only beside another one that can go on |
| PoolDecisions.FinishDetachesExactly | include/boost/job/dynamic_pool.hpp:64-69 | Over every run of a dynamic pool before close: after a fiber has finished a job and gone through the map, an entry has a handle if and only if a fiber of its id is still there, and that is the one it joins |
| PoolDecisions.EntriesAreNeverErased | include/boost/job/dynamic_pool.hpp:64-69 | The keys of the map are the ids of all fibers there have ever been |
| PoolDecisions.FlagExactly | src/detail/rendezvous.cpp:23-35 | The flag is set by notify, taken back when the master wakes, and touched by nothing else |
| PoolDecisions.OthersCanStep | include/boost/job/dynamic_pool.hpp:149-169 | Until the worker is destroyed anybody can submit and notify; the master is held up only by a rendezvous without notification and by the fiber it joins |
| PoolBounds.UpperBound | include/boost/job/dynamic_pool.hpp:57-61 | With lines 57-61 uninterrupted and every created fiber started before the next one is created, live fibers never exceed the larger of Min and Max |
| PoolBounds.MaxCanBeBroken | include/boost/job/dynamic_pool.hpp:50-61 | For every Min of at least 1 and Max of at least 2, a run with uninterrupted spawn tests whose fibers outnumber both, because `*spawned` is raised only when a fiber starts |
| PoolBounds.MaxHoldsExactly | include/boost/job/dynamic_pool.hpp:50-61 | Over all runs with uninterrupted spawn tests the bound holds if and only if Min is 0 or Max is at most 1 |
| PoolJoins.LoopCanMiss | include/boost/job/dynamic_pool.hpp:57-61 | For every Min of at least 1 and Max of at least 2, a run in which a fiber created after close is missed by the join loop and the program ends |
| PoolJoins.JoinLoopMissesNobodyExactly | include/boost/job/dynamic_pool.hpp:162-168 | No run ends the program in the join loop if and only if Min is 0 or Max is at most 1 |
| FiberPool.FiberPool.constructor | include/boost/job/dynamic_pool.hpp:153-154 | A new pool is in the machine's initial state and satisfies its invariant |
| FiberPool.FiberPool.Create | include/boost/job/dynamic_pool.hpp:156-160 | The creation loop is the machine's Create step: Min ready fibers, each under its own id |
| FiberPool.FiberPool.Submit | include/boost/job/detail/worker_thread.hpp:107-132 | Submitting is the machine's Push step over the heap queue, the status ignored |
| FiberPool.FiberPool.Start | include/boost/job/dynamic_pool.hpp:43 | A fiber that starts raises the counter; the counter again equals the fibers in the loop, as the whole invariant is kept |
| FiberPool.FiberPool.Test | include/boost/job/dynamic_pool.hpp:44 | The loop test is the machine's Test step, with the decrement of line 80 on leaving |
| FiberPool.FiberPool.TryPop | include/boost/job/dynamic_pool.hpp:46-57 | A pass of pop and the first half of line 57 are the machine's TryPop step over the heap queue; the fiber holds the popped work, with exact counts, from then on |
| FiberPool.FiberPool.Spawn | include/boost/job/dynamic_pool.hpp:57-61 | The second half of line 57 and the creation are the machine's Spawn step: one fiber more, unless nothing is queued and another fiber is ready |
| FiberPool.FiberPool.DetachLoop | include/boost/job/dynamic_pool.hpp:65-69 | The loop over the map empties the handle of exactly the entries marked terminated, erases none and unmarks none, and detaches a live fiber only if one is marked |
| FiberPool.FiberPool.Finish | include/boost/job/dynamic_pool.hpp:63-69 | The end of a job and the detach loop are the machine's Finish step; in a static pool the loop body ends here and the work is deallocated |
| FiberPool.FiberPool.Retire | include/boost/job/dynamic_pool.hpp:74-80 | The retire test is the machine's Retire step: the fiber leaves exactly if the queue is empty, the counter is above Min and another fiber is ready; whichever way it goes its work is deallocated |
| FiberPool.FiberPool.Shut | include/boost/job/dynamic_pool.hpp:162-166 | Waking from the rendezvous, closing and entering the join loop are the machine's Shut step |
| FiberPool.FiberPool.Join | include/boost/job/dynamic_pool.hpp:166-168 | One join and the move to the next key, or the end of the loop, are the machine's Join step |
| FiberPool.FiberPool.Destroy | src/detail/worker_thread.cpp:24-26 | Destroying the worker deallocates the works left in its queue, unrun, and breaks exactly their promises; with that every work ever submitted has been deallocated exactly once |
| FiberPool.FiberPool.NothingLeaks | include/boost/job/detail/work.hpp:54-62 | When the worker has been destroyed there is one work for each job ever submitted, and each has been deallocated exactly once |
| FiberPool.FiberPool.AllowedExactly | include/boost/job/dynamic_pool.hpp:43-80 | The class can make a step exactly when the machine can |
| FiberPool.FiberPool.Serve | include/boost/job/dynamic_pool.hpp:43-80 | Any step that is asked for and possible is made, and keeps the invariant |
| FiberPool.Lifetime | include/boost/job/dynamic_pool.hpp:149-169 | From its creation on, under any requests, the pool makes each step that is asked for unless the machine can make none such, so that it makes a run of the machine; it keeps the invariant, and once destroyed it has deallocated every work exactly once |
| OrderedKeys.NextKey | include/boost/job/dynamic_pool.hpp:166-168 | Walking an ordered map: the least key above the current one, if there is one |
| JobValues.EveryScheduleSameValue | include/boost/job/operation.hpp:40-47 | Whatever the schedule and the number of fibers, a job that returned a value returned what its program means, sub-jobs evaluated in sequence |
| JobValues.ExceptionEndsTheJob | examples/dependent_jobs.cpp:17-26 | Getting a broken future, or that of a job that has thrown, leaves the job: its fiber can only end it, and then it has thrown too |
| JobValues.ExceptionsHaveACause | examples/dependent_jobs.cpp:17-26 | Over every run a job throws only if one of its sub-jobs has thrown or has a broken promise |
| JobProgress.JobTreesProgress | include/boost/job/operation.hpp:40-47 | For all job trees, with N or Min above the number of jobs that ever wait: in no reachable state before close is a submitted job stuck, the pool can go on by itself without another submission |
| JobProgress.EveryRunEnds | include/boost/job/static_pool.hpp:43-52 | Every run before close makes at most a fixed number of productive steps plus its spurious wake-ups |
| JobProgress.OverMeansAllValues | include/boost/job/operation.hpp:40-47 | When everything is over before close, every job of every tree was submitted and has returned its meaning |
| JobDeadlock.ChainGetsStuck | include/boost/job/static_pool.hpp:43-52 | For either pool and every k of at least N, or Min: job trees with k waiting jobs and a schedule, with true answers of `has_ready_fibers`, that leave a submitted job stuck |
| JobDeadlock.ProgressExactly | include/boost/job/dynamic_pool.hpp:44-79 | Either pool never leaves a submitted job stuck before close on trees with k waiting jobs, whatever the trees and the schedule, if and only if k is below N, or Min; and the same if only schedules with true answers of `has_ready_fibers` count |
| JobShutdown.EveryClosedRunEnds | include/boost/job/dynamic_pool.hpp:162-168 | After close every schedule ends: the state at close bounds all steps of the fibers and of the join loop |
| JobShutdown.ShutdownAfterAllDone | examples/dependent_jobs.cpp:33-36 | For any trees: if every submitted job is over or broken at close, every schedule from then on can go on until the pool has returned, whoever still submits |
| JobHangs.LoneUntilBlocked | include/boost/job/static_pool.hpp:43-52 | One fiber alone, the others not yet started, works through any trees with a waiting job until its own job waits for a sub-job still queued |
| JobHangs.ShutdownHangs | include/boost/job/static_pool.hpp:56-64 | For any pool with a fiber and any trees one of whose jobs ever waits: a schedule, with true answers of `has_ready_fibers`, that leaves the master in `join` for ever |
| JobHangs.ShutdownCompletesExactly | include/boost/job/dynamic_pool.hpp:162-168 | For each set of trees: after close every schedule can go on until the pool has returned, or has ended the program, if and only if none of their jobs ever waits or there are no fibers; and the same if only schedules with true answers count |
| Fibonacci.FibMeaning | examples/dependent_jobs.cpp:17-26 | The job graph of `fibonacci(n)` is well formed and means Fib(n) |
| Fibonacci.FibJobs | examples/dependent_jobs.cpp:17-26 | It has 2*Fib(n)-1 jobs, of which Fib(n)-1 wait |
| Fibonacci.FibonacciEndToEnd | examples/dependent_jobs.cpp:17-26 | With at least Fib(n) fibers no schedule leaves a job stuck before close, each ends, and at the end 2*Fib(n)-1 jobs have run and the root has returned Fib(n) |
| Fibonacci.NineJobsForFive | doc/job.qbk:136-138 | Nine jobs are processed for fibonacci(5) |
| Fibonacci.IterativeFibonacci | test/test_job.cpp:22-30 | The 32-bit loop returns Fib(n) for n of at least 3 whenever that fits, without overflow, and -1 below |
| Handshake.Rendezvous.Notify | src/detail/rendezvous.cpp:23-28 | Sets the flag and wakes a sleeping master, as the handshake's notify step |
| Handshake.Rendezvous.WaitPass | src/detail/rendezvous.cpp:30-35 | One test of the flag: take it back and pass, or sleep |
| Handshake.NotificationIsNeverLost | src/detail/worker_thread.cpp:36-44 | Under every interleaving the worker is notified and joined at most once, the pool is not left unnotified, a notified master does not sleep, and a second shutdown changes nothing |
| Handshake.OnlyThePoolDelaysTheJoin | src/detail/worker_thread.cpp:36-44 | Once notified, a master that has not passed the rendezvous is awake and passes at its next step, and join can return exactly when the pool has returned |
| Scheduler.CreateTopologyMap | include/boost/job/scheduler.hpp:43-50 | The loop builds the map in which the last entry of an id wins |
| Scheduler.TopologyKeys | include/boost/job/scheduler.hpp:43-50 | The keys are exactly the listed ids; with distinct ids every entry is kept |
| Scheduler.LastEntryWins | include/boost/job/scheduler.hpp:43-50 | Of several entries with the same id the last one is kept |
| Scheduler.MaxElement | include/boost/job/scheduler.hpp:63-67 | Finds an entry of the largest processor id |
| Scheduler.TableCoversExactly | include/boost/job/scheduler.hpp:62-67 | In 32-bit arithmetic the table of maximum plus 1 workers has room for every id if and only if no id is 2^32-1 |
| Scheduler.FillTable | include/boost/job/scheduler.hpp:70-75 | A new worker, pinned to its own index, stands at exactly the listed ids; every other index is null |
| Scheduler.Scheduler.constructor | include/boost/job/scheduler.hpp:58-76 | The keys of the topology are exactly the non-null indices of a table whose length is the maximum id plus 1 |
| Scheduler.Scheduler.Subscript | include/boost/job/scheduler.hpp:121 | `operator[]` adds a default entry exactly for an unknown id |
| Scheduler.Scheduler.Submit | include/boost/job/scheduler.hpp:118-142 | A job for a known id reaches the worker pinned to it, on that processor's node; nothing else changes |
| Scheduler.Scheduler.SubmitAll | include/boost/job/scheduler.hpp:118-142 | Any run of submits to known ids gives each worker, in order, the jobs sent to its id, and leaves the topology unchanged |
| Scheduler.Worker.Shutdown | src/detail/worker_thread.cpp:36-44 | A joinable worker is joined unless the join throws; any other is left alone |
| Scheduler.Scheduler.Shutdown | src/scheduler.cpp:23-38 | The loop over the map shuts down the workers in the order of the ids and keeps the last exception |
| Scheduler.EveryWorkerIsAttempted | src/scheduler.cpp:23-38 | Every worker is attempted exactly once even when some attempts throw, and is joined and no longer joinable unless its join throws; an exception leaves exactly if one is thrown, and it is that of the largest id |
| Scheduler.Scheduler.Destroy | src/scheduler.cpp:19-21 | The destructor shuts down once more, and ends the program exactly if a join throws again |
| Scheduler.SecondShutdownChangesNothing | src/scheduler.cpp:19-21 | After a shutdown that threw nothing, the destructor's throws nothing and joins nobody |
| Scheduler.SecondThrowsTheSame | src/scheduler.cpp:23-38 | A second shutdown throws what the first one threw, because a worker whose join has thrown is still joinable |
| Scheduler.Scheduler.ShutdownAndDestroy | src/scheduler.cpp:19-38 | A shutdown throws exactly if the join of a joinable worker does, then the destructor ends the program, and otherwise it does not; no worker is joined twice |
| WindowsTopology.ComputeCpuSet | src/windows/topology.cpp:82-90 | The loop over the bits collects the ids of exactly the bits set in the mask |
| WindowsTopology.DecodeExactly | src/windows/pin.cpp:30-34 | For every 32-bit group and bit, decoding gives back the bit, and the group if and only if it has 16 bits |
| WindowsTopology.IdsLeadBack | src/windows/pin.cpp:30-34 | For every 16-bit group and every mask, each id decodes to that group and one bit of the mask, and the union of those bits is the mask |
| WindowsTopology.IdsAreUnambiguous | doc/rational.qbk:37-40 | Different groups have no id in common, and different masks of a group have different ids |
| WindowsTopology.RecordAtStart | src/windows/topology.cpp:61-70 | At the address reached after k records lies record k |
| WindowsTopology.Enumerator.Current | src/windows/topology.cpp:72-74 | Answers the record the enumerator stands at, or nothing at the end |
| WindowsTopology.Enumerator.Next | src/windows/topology.cpp:61-70 | Moves on by the record's own size and ends exactly after the last record |
| WindowsTopology.AssignShared | src/windows/topology.cpp:123-128 | The loop of one case: each processor of the record shares with the others and not with itself |
| WindowsTopology.CpuTopology | src/windows/topology.cpp:97-156 | The two record loops compute the node table and the cache tables |
| WindowsTopology.NodeIsLastNode | src/windows/topology.cpp:97-110 | Whatever the caches, a processor belongs to the node of the last NUMA record that has it, and to node 0 if none has |
| WindowsTopology.SharedIsLastSet | src/windows/topology.cpp:113-156 | The last data or unified record of level 1, 2 or 3 that has a processor says with which others it shares `l1`, `l2` or `l3`; without such a record it shares with nobody |
| WindowsTopology.OtherCachesDoNotMatter | src/windows/topology.cpp:113-117 | A record of an instruction or trace cache, or of another level, might as well not be there |
| CacheSharing.SymmetricExactly | src/windows/topology.cpp:123-128 | Where the last set counts, sharing is symmetric if and only if the later sets have all or nothing of each set, and then it is transitive too |
| WindowsTopology.SharingIsSymmetricExactly | src/windows/topology.cpp:113-156 | Sharing a cache of a level goes both ways if and only if, of the processors of each record, the later records of the level have none or all |
| WindowsTopology.SharingIsAnEquivalence | src/windows/topology.cpp:113-156 | Under that condition, and with disjoint records per level in particular, nobody shares with itself, sharing goes both ways and it carries over |
| WindowsTopology.OverlapIsOneWay | src/windows/topology.cpp:113-156 | For instance two records of a level of which the second takes some but not all processors of the first leave sharing that goes one way only |
| WindowsTopology.EntriesNameThemselvesExactly | src/windows/topology.cpp:97-156 | Every entry carries its own id if and only if each processor of a used cache record is in some NUMA record or is processor 0 |
| Decimals.StoulOfDecimal | src/linux/topology.cpp:104 | Reading undoes decimal printing, whatever stands after the number, below 2^64, and fails above |
| CpuList.LoopEndsExactly | src/linux/topology.cpp:106-108 | The 32-bit loop over a range ends if and only if the range is backwards or its last number is not 2^32-1, and then visits each number once |
| CpuList.IdsFromLine | src/linux/topology.cpp:90-112 | The nested loops compute the outcome of the line: ids, the first exception, or no end |
| CpuList.TokensHaveNoSeparator | src/linux/topology.cpp:96-97 | No token contains the separator, so `std::stoul` never sees a minus sign |
| CpuList.CommaIsUnion | src/linux/topology.cpp:90-112 | For any two texts, joining them by a comma unites their ids, or keeps what went wrong first |
| CpuList.SpacesAroundEntry | src/linux/topology.cpp:95 | White space around an entry does not matter |
| CpuEntries.NumberEntry | src/linux/topology.cpp:100-102 | A number, with white space and zeros before it and anything but a digit or a dash after it, is cut to 32 bits if it has at most 64 and throws out_of_range otherwise |
| CpuEntries.RangeEntry | src/linux/topology.cpp:104-109 | A range throws what its first text throws, else what its last one throws, else holds the numbers from the first to the last, or never ends if the last is 2^32-1 |
| CpuEntries.MiddleIsIgnored | src/linux/topology.cpp:104-105 | Of more than two texts between dashes only the first and the last count |
| CpuEntries.FirstCharacter | src/linux/topology.cpp:94-105 | The first character that is not white space must be a digit, or one plus right before a digit, which does not matter; anything else throws invalid_argument, whatever follows |
| CpuEntries.BlankThrows | src/linux/topology.cpp:94-102 | An entry or a line of nothing but blanks, tabulators, line feeds, vertical tabulators, form feeds and returns throws invalid_argument |
| CpuList.IdsFit | src/linux/topology.cpp:91 | Every id of a result has 32 bits |
| CpuList.EmptyExactly | src/linux/topology.cpp:126-130 | The result is empty, which the caller takes for a failure, if and only if every entry is a range written backwards |
| CpuList.EmptyLineThrows | src/linux/topology.cpp:126-130 | An empty line throws instead of giving an empty result |
| CpuRanges.LineOfList | src/linux/topology.cpp:90-112 | On a well-formed list of 32-bit ids, with any white space around the items and the dashes, the parser ends if and only if no range goes up to 2^32-1, and yields exactly the union of the listed ids and ranges |
| CpuRanges.RoundTripExactly | src/linux/topology.cpp:90-112 | The parser undoes the canonical range printer on every finite non-empty set of 32-bit ids, except exactly those with both of the two largest ids, on which it never ends |
| CpuRanges.RunsAreApart | src/linux/topology.cpp:90-112 | The printed list is canonical: there is a gap between each run and the next |

## Left out

- `PoolMachine`: the spawn and retire tests see the answer of `has_ready_fibers` as an arbitrary input, so nothing is said about how often the pool grows or shrinks.
- `JobProgress.JobTreesProgress`: waits only on sub-jobs of the same worker; a job that waits for another worker, or for anything that never happens, is not covered.
- `JobHangs.ShutdownCompletesExactly`: counts a dynamic pool that ends the program in its join loop as done; when that can happen is `PoolJoins.JoinLoopMissesNobodyExactly`.
- `JobProgress.EveryRunEnds`: spurious wake-ups are counted separately, because nothing in the code bounds them.
- `WorkQueue.Queue.Pop`: the loop around the condition variable is one pass per wake-up; the sleeping in between belongs to the protocol and the pool machine.
- `FiberPool.FiberPool.TryPop`: the caller of the class chooses the interleaving; the class itself has no threads.
- `WorkQueue.Lifetime`: the critical sections of the clients come one after the other, as the mutex makes them; fibers that still hold a work when the calls end drop it before the queue is destroyed.
- `Handshake.Rendezvous.WaitPass`: one test of the predicate; the waiting loop is in the machine of the same module.
- `Handshake.OnlyThePoolDelaysTheJoin`: says nothing about whether the pool returns; that is `JobHangs.ShutdownCompletesExactly`.
- `Scheduler.Scheduler.Submit`: unknown ids are excluded, because the source then dereferences a null or missing worker.
- `Scheduler.Worker.Shutdown`: every join either returns or throws; a join that waits for ever is the subject of `JobShutdown` and `JobHangs`.
- `Scheduler.Scheduler.Shutdown`: what a join throws is an input; a failed join leaves the thread joinable and its next attempt fails the same way.
- `WindowsTopology.CpuTopology`: the records are an input, their sizes positive; copying the table into a vector is not modelled.
- `pop_wait_for` and `pop_wait_until`: no pool uses them, and their wake-ups depend on clocks.
- The catch clause of `push_and_notify_`: neither linking a work nor notifying throws in this model.
- The intrusive count of worker threads, `this_worker::queue_at` and `topology`: plain lookups and a count of the same kind as that of works.
- Packaged tasks, futures' values across threads, allocators, `numa_alloc`, stacks, `mbind` and valgrind hooks: library code and system calls.
- File reading, the directory iterator and the Linux, AIX, FreeBSD, HP-UX and Solaris system calls: input and output.
