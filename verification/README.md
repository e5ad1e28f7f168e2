# A verified model of libfly

libfly is a fork/join scheduler in C: `fly_parallel_for`, `fly_parallel_for_arr` and pushed tasks run on a fixed set of
workers, two threads each. This project models its four layers in Dafny and proves what each promises, over every input,
every number of workers and every interleaving.

| layer | files | form |
|---|---|---|
| doubly linked list with a sentinel | `SeqOps.dfy`, `FlyList.dfy` | classes in the heap, refined to a sequence |
| jobs: cutting, rollback, claiming, running | `Split.dfy`, `FlyJob.dfy` | classes in the heap over pure arithmetic |
| multiple-reader single-writer lock | `MrswLock.dfy`, `MrswLockRuns.dfy`, `MrswLockFair.dfy` | a class for the sections under `plock`, and a transition system for any number of threads made of the same sections |
| worker threads and exit | `WorkerExit.dfy` | a transition system and the worker's classes |
| scheduler protocol | `SchedModel.dfy` (the machine), `SchedInv.dfy` (the invariant), `SchedSteps.dfy`, `SchedRuns.dfy` (every step and run keeps it) | a transition system |
| what the scheduler promises | `SchedCalls.dfy`, `ArrayLoop.dfy` (of each call); `SchedLife.dfy`, `SchedTell.dfy`, `SchedOrder.dfy`, `SchedDone.dfy`, `SchedCounts.dfy`, `SchedWitness.dfy`, `SchedWork.dfy`, `SchedProgress.dfy`, `SchedDrain.dfy`, `SchedDrainRuns.dfy`, `SchedFair.dfy` (of the machine) | theorems about the machine |

In the scheduler machine a step is one access to shared state: a list operation under its lock, one read of the running
list, a compare-and-swap, an atomic add, a semaphore operation, the start or the end of one call of the user's function.
Jobs are unbounded in number, `nbworkers >= 1` is arbitrary, and bodies may call `fly_parallel_for` and `fly_push_task`
again to any depth, so every thread has a stack of suspended bodies. `Reachable(s)` means that some run from the initial
state ends in `s`. The invariant is proved by rely-guarantee: `Evolves` says what a step of one thread may do to a job,
and what a thread or job relies on survives it (`SchedSteps.ThreadStable`, `SchedSteps.JobKept`, `SchedSteps.Compose`).

Main results:

- Every call: from any reachable state, a call of parallel_for for a range, from outside or from a body, returns on every
  fair run, and then the body has been called once for each index the batches of that range cover and for nothing else
  (`SchedCalls.ForCallCompletes`, `SchedCalls.ForCallRunsEachOnce`); no thread calls it later (`SchedDone.NoLateCalls`).
  A nested call returns into the very point of the body that made it (`SchedCalls.ForkReturns`). A pushed task runs and the
  wait for it returns (`SchedCalls.TaskCallCompletes`).
- The array: with a body that changes only its own cell, the array after the call is what the sequential loop over the
  range of the call leaves, although calls overlap (`ArrayLoop.ParallelForArr`).
- No lost work (`SchedWork.NoLostWork`, `SchedWork.AsleepMeansFinished`) and no circular wait
  (`SchedProgress.NoCircularWait`). A state in which nothing useful can be done is one in which everything is completed
  (`SchedDrainRuns.QuietMeansCompleted`), the library alone can always get there (`SchedDrainRuns.CanDrain`), and on every
  weakly fair run it does, for good (`SchedFair.FairRunsFinish`; `SchedFair.FairRunExists` gives such a run from every
  reachable state).
- The lock excludes, loses no wake-up and prefers writers (`MrswLock.ReachableOk`, `MrswLockRuns.WriterPreference`), and on
  every fair run everybody who asked gets in and out again (`MrswLockFair.EverybodyGetsThrough`).

Where the code does not do what is written about it, the model follows the code:

- libfly's own README, lines 10 to 17, promises `count`, or `end - start`, calls. With fewer indices than workers the code
  makes one batch of one index for every worker, past `end`. `SchedCalls.ForCallKeepsPromiseIff` gives the exact
  condition, `Split.ShortRangeOverruns` a case that fails. (`fly_create_job_pfarr` refuses an empty or backward range;
  `fly_parallel_for` does not.)
- The comment at src/fly_sched.c:476 says that setting `batches_done` early keeps other threads off a task.
  `SchedWitness.TaskMayRunTwice` is a run in which two threads are in the same task. `SchedDone.SearchTakesTaskIff` says
  exactly when a search ends with a task, and `SchedCounts.TaskStarts` that a task is started once more for every search
  that did. What holds is that every wait finds the result (`SchedDone.TaskResultIsThere`).

Nothing is written about how often a job's semaphore is posted. It is posted once for each thread that passes the done
test (`SchedCounts.PostsArePasses`), which can be more than once (`SchedWitness.JobMayBePostedTwice`).

## Model

| member | source | states |
|---|---|---|
| Split.ExactPartition | src/fly_job.c:145-186 | with an index for every batch the batches are contiguous, start at `start`, end at `end`, all but the last have size count / nb >= 1, and the last exceeds it by less than nb |
| Split.ShortRangeIsSingletons | src/fly_job.c:147-158 | with fewer indices than batches (in either direction) the cut is exactly nb single indices from `start`, whatever `end` is |
| Split.BackwardRangeIsEmpty | src/fly_job.c:147-158 | a range that runs backwards by nb or more is cut into batches that run nothing, each ending (start - end) / nb before it starts |
| Split.SpansDisjoint | src/fly_job.c:154-182 | for every range no index lies in two batches |
| Split.CoveredRange | src/fly_job.c:145-186 | for every range, an index is in some batch if and only if it is in [start, CoveredEnd) |
| Split.CoversExactlyIff | src/fly_job.c:145-186 | the batches cover exactly [start, end) if and only if the range has at least nb indices forward or backward |
| Split.ShortRangeOverruns | src/fly_job.c:147-158 | concrete failing case: [0, 1) cut for two workers covers index 1 |
| Split.NoOverflow | src/fly_job.c:147-182 | every intermediate value of the cut fits a 32-bit int when start, end, their difference and, for a short range, start + nb do |
| SeqOps.RemoveFirstTakesOne | src/fly_list.h:130-137 | removal by element takes away one occurrence, the first, and keeps the order of the rest |
| FlyList.List.AppendNode | src/fly_list.h:61-71 | both link directions and the sentinel stay consistent and the node is last |
| FlyList.List.Append | src/fly_list.h:73-82 | the element is appended in a new node, or, when memory is refused, nothing changes |
| FlyList.List.RemoveNode | src/fly_list.h:102-120 | takes the node out wherever it is (first, last, only, absent) and relinks both directions and the sentinel |
| FlyList.List.Get | src/fly_list.h:122-128 | finds the node of the first occurrence, null only if the element is not in the list |
| FlyList.List.Remove | src/fly_list.h:130-137 | removes the first occurrence of the element and frees exactly its node; without an occurrence changes nothing |
| FlyList.List.TailRemove | src/fly_list.h:144-156 | returns and removes the last element and frees its node; null on an empty list |
| FlyList.BothDirections | src/fly_list.h:51-82 | following next-links from the sentinel meets the contents in order, following prev-links meets the same contents in reverse, and both end there |
| FlyJob.CreateArrayJob | src/fly_job.c:61-87 | a job exists exactly when the range is not empty and neither memory nor the semaphore is refused; otherwise nothing stays allocated |
| FlyJob.Job.FillBatches | src/fly_job.c:154-167 | the loop appends all batches of the plain cut, or stops after the first refused allocation with what it had appended |
| FlyJob.Job.Drain | src/fly_job.c:188-198 | the drain loop frees exactly every remaining node and batch and empties the list |
| FlyJob.Job.MakeBatches | src/fly_job.c:145-186 | all or nothing: the batches are cut as `Split.Spans` says and READY, or the list is empty, nothing stays allocated and the state is IDLE, exactly when an allocation was refused |
| FlyJob.Job.Destroy | src/fly_job.c:110-122 | frees exactly every remaining node and batch and the job |
| FlyJob.ParallelForArr | src/fly.c:123-133 | create, cut, run and destroy on a worker no other thread helps: the allocator's live set is as before whichever allocation is refused, and without a refusal the k-th call of the body is for start + k with the address of that element, and there are as many calls as covered indices |
| FlyJob.Job.GetExecBatch | src/fly_job.c:200-211 | with other threads claiming before every attempt, the search claims a batch that none of them got, every batch before it being claimed, or returns null only if every batch is claimed; besides its own batch exactly those the others got are newly claimed |
| FlyJob.Job.RunAll | src/fly.c:100-103 | left alone with a job, the worker's loop runs the batches in list order, calls each index once for every batch that contains it, always with its own element's address, and ends with batches_done = nbbatches |
| FlyJob.Job.RunArrayBatch | src/fly_sched.c:372-389 | as many calls as the batch has indices, the k-th for start + k with the address of that element |
| FlyJob.Job.RunPointerBatch | src/fly_sched.c:391-404 | the loop calls the body once for each index of the batch in order, always with the job's own pointer |
| FlyJob.AddressesStayInside | src/fly_sched.c:372-389 | across all batches, each call gets data + i * elsize, and that element lies inside [data + start * elsize, data + end * elsize) |
| MrswLock.FlyMrswLock.RlockSection | src/fly_mrswlock.h:66-98 | one pass of the reader's loop under plock is the reader's section of the transition system |
| MrswLock.FlyMrswLock.WlockSection | src/fly_mrswlock.h:100-122 | one pass of the writer's loop under plock is the writer's section of the transition system |
| MrswLock.FlyMrswLock.RunlockSection | src/fly_mrswlock.h:144-158 | leaves one reader less, and the post still to make is chosen from the counters read inside the section |
| MrswLock.FlyMrswLock.WunlockSection | src/fly_mrswlock.h:160-174 | frees the lock, and the post still to make is chosen from the counters read inside the section |
| MrswLock.ReachableOk | src/fly_mrswlock.h:22-27 | in every reachable state: one writer alone with nbin = maxin, or nbin readers, at most maxin; the waiting counters count the waiting threads; and while nobody is inside, a waiting writer, or else a waiting reader, has a token, a pending post or is awake |
| MrswLock.OnlyReadersShare | src/fly_mrswlock.h:22-27 | two threads inside at once are both readers |
| MrswLockRuns.NoDeadlock | src/fly_mrswlock.h:66-174 | if some thread is not outside the lock, some such thread can step |
| MrswLockRuns.WaitingWriterGetsIn | src/fly_mrswlock.h:100-122 | from every reachable state with a free lock and a waiting writer at most three steps let a waiting writer in |
| MrswLockRuns.WaitingReaderGetsIn | src/fly_mrswlock.h:66-98 | from every reachable state with a free lock, a waiting reader and no waiting writer at most three steps let a waiting reader in |
| MrswLockRuns.ReaderEntersIff | src/fly_mrswlock.h:73-81 | a reader's attempt succeeds exactly when no writer is inside or waits, fewer than maxin readers are inside and it is not on its way to wake the writers |
| MrswLockRuns.ReaderSleepsIff | src/fly_mrswlock.h:83-94 | a reader goes to sleep exactly when a writer is inside or maxin readers are |
| MrswLockRuns.ReaderWakesWriters | src/fly_mrswlock.h:79-91 | a reader that only waiting writers keep out posts once for the writers, is counted as waiting, and tries again |
| MrswLockRuns.WriterEntersIff | src/fly_mrswlock.h:106-119 | a writer's attempt succeeds exactly when nobody is inside, and otherwise it goes to sleep |
| MrswLockRuns.ExitWakes | src/fly_mrswlock.h:144-174 | whoever leaves and whoever stays inside, a waiting writer makes the exit post for writers, and without one a waiting reader makes it post for readers |
| MrswLockRuns.TokensArePosts | src/fly_mrswlock.h:89-94 | on every run each semaphore holds the posts made to it less the waits that passed |
| MrswLockRuns.MaxinReadersInside | src/fly_mrswlock.h:22-27 | for every maxin a state with maxin readers inside is reachable |
| MrswLockRuns.WriterPreference | src/fly_mrswlock.h:22-27 | once a writer is counted the next thread to enter is a writer, and at most maxin threads leave before it does |
| MrswLockFair.EverybodyGetsThrough | src/fly_mrswlock.h:66-174 | on every weakly fair run on which nobody asks anew every thread that had asked gets inside, as the reader or writer it asked to be, and from some point on all are out |
| MrswLockFair.AskedIsServed | src/fly_mrswlock.h:66-122 | whoever asks to read gets in as a reader, and whoever asks to write as a writer, on every such run from there |
| MrswLockFair.FairRunExists | src/fly_mrswlock.h:66-174 | from every reachable state such a run starts |
| WorkerExit.ServesUntilRequested | src/fly_worker.c:54-56 | before the request the thread stays in its loop, and each test lets it begin another fly_schedule |
| WorkerExit.IdleRoundsTakeTokens | src/fly_sched.c:179-184 | on every run the semaphore holds the posts less one token for each fly_schedule that found nothing and has gone on |
| WorkerExit.AtMostOneMore | src/fly_worker.c:48-60 | after the exit request a thread begins at most one more fly_schedule |
| WorkerExit.NeverLeftAsleep | src/fly_worker.c:95-99 | once the request is posted the thread is never asleep with a zero semaphore and can always take its next step |
| WorkerExit.ReachesFinished | src/fly_worker.c:48-60 | after the request at most five moves of the thread, whatever others post meanwhile, bring it to FINISHED |
| WorkerExit.Worker.WorkAvailable | src/fly_worker.c:168-176 | gives one token to one of the two threads, to the backup thread exactly when the main thread alone is blocked |
| WorkerExit.Worker.RequestExit | src/fly_worker.c:155-159 | both threads are marked EXITING and both get a token |
| SchedSteps.Compose | src/fly_sched.c:179-192 | rely-guarantee: a step that evolves jobs as allowed keeps the invariant if it keeps it for its own thread, the jobs it touches and the lists |
| SchedSteps.StackAscends | src/fly_sched.c:144-166 | the jobs along a thread's stack are created later and later, so they are pairwise different |
| SchedRuns.NextKeeps | src/fly_sched.c:413-510 | every step of every thread and caller keeps the invariant |
| SchedRuns.ReachableOk | src/fly_sched.c:127-192 | the invariant holds in every reachable state |
| SchedTell.CallerTellsEveryWorker | src/fly_sched.c:127-142 | from the submission to the end of the caller's posts every worker gets exactly one wake-up token from it, however interleaved |
| SchedTell.ThreadTellsEveryOther | src/fly_sched.c:153-159 | from before a thread publishes a parallel-for job to the end of its posting loop every other worker gets exactly one wake-up token from it and its own worker none, and then the thread turns to that job's batches |
| SchedTell.ChosenThreadIsWoken | src/fly_worker.c:168-176 | a post gives its token to the main or the backup thread, as fly_worker_work_available chose, and to no other |
| SchedOrder.NewestFirst | src/fly_sched.c:413-420 | the job taken from ready is the one submitted last of those in the list |
| SchedOrder.OldestFirst | src/fly_sched.c:422-439 | a search that stops before the end of the list stops at the job published first among those not done: every job published before it, at any earlier state, is done |
| SchedOrder.SearchFindsNothingIff | src/fly_sched.c:422-439 | a search comes back without a job exactly when the running list is empty |
| SchedCalls.WorkersStartAwake | src/fly_worker.c:48-56 | at the start each worker has two threads, and each can step and looks for work before it ever sleeps |
| SchedCalls.CallsArePossible | src/fly.c:87-107 | in every reachable state a caller outside, and every body under way, can call parallel_for and push_task |
| SchedCalls.ForCallAdds | src/fly.c:112-133 | a call for a range adds exactly one job, for that range and not begun, at the end of ready or, from a body, in the hands of the thread, whose body is suspended |
| SchedCalls.TaskCallAdds | src/fly.c:152-163 | fly_push_task adds exactly one task, not run yet, at the end of ready, and changes neither threads nor earlier jobs |
| SchedCalls.ForCallRunsEachOnce | src/fly.c:112-133 | when a call for [first, last) has returned, each index of [first, CoveredEnd) has been called exactly once and no other index at all |
| SchedCalls.ForCallKeepsPromiseIff | src/fly.c:112-121 | "once for each index asked for" is kept if and only if the range of the call has, forward or backward, at least one index per worker |
| SchedCalls.TaskCallRuns | src/fly.c:165-175 | when a pushed task has been signalled, or the wait for it has returned, its function has run to its end |
| SchedCalls.ForCallCompletes | src/fly.c:87-107 | every call of parallel_for returns on every fair run, with its range run exactly once |
| SchedCalls.TaskCallCompletes | src/fly.c:152-175 | every pushed task runs, and the wait for it returns, on every fair run |
| SchedCalls.ForkReturns | src/fly.c:97-104 | when a thread first comes back to the level of a body that called parallel_for it is at the very point where it called, and the nested job is done and its call returned |
| SchedLife.JobsMoveForward | src/fly_sched.c:463-510 | over every continuation of a run a job's state, place, batches, counters and calls only move forward, and a claimed batch keeps its claimer until it is finished |
| SchedDone.CompletionAccounting | src/fly_sched.c:400-401 | batches_done counts the finished batches, is at most the claimed ones, reaches nbbatches exactly when all are finished; a post comes only then, and from then on a post has happened or the last finisher is on its way to it |
| SchedDone.ExactlyOnce | src/fly_sched.c:372-404 | when the call has returned, each index of [first, CoveredEnd) has been called exactly once and no other index at all |
| SchedDone.ExactlyOnceIff | src/fly.c:112-121 | the promise "once for each index of [first, last)" is kept if and only if the range has, forward or backward, at least one index per worker |
| SchedDone.NoLateCalls | src/fly_sched.c:488-510 | after a job is done no continuation of the run calls its body again |
| SchedDone.SearchMissesNothing | src/fly_job.c:200-211 | under interference the claim search ends empty-handed only when every batch is claimed |
| SchedDone.SearchTakesFirst | src/fly_job.c:200-211 | under interference the batch got was unclaimed, every batch before it is claimed, and its loop starts at its first index |
| SchedDone.BatchRunsInOrder | src/fly_sched.c:381-384 | of a batch being run exactly the indices below the loop's have been called, each once, and its own while that call is under way |
| SchedDone.ClaimedByOne | src/fly_job.c:205-206 | a claimed batch is executed by its claimer only, in every later state |
| SchedDone.TaskResultIsThere | src/fly_sched.c:406-411 | every post to a task's semaphore, and every return from a wait, follows a complete run of the task's function; an unposted task that left ready has a thread on it |
| SchedWitness.TaskMayRunTwice | src/fly_sched.c:475-478 | a reachable state in which two threads are inside the same task's function |
| SchedWitness.JobMayBePostedTwice | src/fly_sched.c:503-508 | a reachable state in which a parallel-for job has been posted twice |
| SchedCounts.PostsArePasses | src/fly_sched.c:503-508 | on every run the posts to a job, with the threads on their way to one, are as many as the passes of its done test |
| SchedCounts.RunsAreStarts | src/fly_sched.c:406-411 | on every run the complete runs of a task, with the threads in it, are as many as its starts |
| SchedCounts.TaskStarts | src/fly_sched.c:475-478 | on every run a published task is started once by the thread that took it from ready and once for every search of the running list that ended with it, hence exactly once if and only if no search did |
| SchedDone.SearchTakesTaskIff | src/fly_sched.c:422-439 | a search of the running list yields a task if and only if it read to the end of a list whose last entry is a task |
| SchedDone.ListedOnce | src/fly_sched.c:441-454 | a job is at most once in ready and running together, is READY without calls in ready, and not READY in running |
| SchedDone.LeavesForGood | src/fly_sched.c:503-508 | a job leaves the running list only when done and DONE, and is in neither list ever after |
| SchedWork.ReadyIsWatched | src/fly_sched.c:127-142 | while ready is not empty a thread is in a body or will look there before it sleeps, or carries a job with an unclaimed batch, or has a token, or a caller still posts; a thread already past ready does not count |
| SchedWork.NoLostWork | src/fly_sched.c:127-166 | the same while anything submitted is unclaimed; only for a published job a thread about to read the running list counts too |
| SchedWork.AsleepMeansFinished | src/fly_sched.c:179-184 | when all threads sleep without tokens and no caller posts, ready is empty, every batch and task has run and every job has been posted |
| SchedProgress.StackIsDescent | src/fly.c:97-104 | each level of a thread's stack works for a job created by the body one level below, which still awaits it |
| SchedProgress.NoCircularWait | src/fly.c:100-103 | at any nesting depth, while a batch is claimed and unfinished some thread executes, publishes, or waits for a job it can claim from or that is done |
| SchedDrainRuns.NextDrops | src/fly_sched.c:179-192 | every step but new calls lowers a well-founded rank, except the spinning of a nested call with nothing to claim, which leaves it as it is |
| SchedDrainRuns.CanBeProductive | src/fly_sched.c:186-192 | while a job is unposted, a step of a thread or of a posting caller that lowers the rank is possible, so no state is stuck and nobody has only spinning to do |
| SchedDrainRuns.QuietMeansCompleted | src/fly.c:87-107 | a reachable state in which no step lowers the rank has every job done and posted, every call and wait returned, ready empty and all workers asleep |
| SchedDrainRuns.CanDrain | src/fly.c:87-107 | from every reachable state steps without new calls lead to a state in which all is completed |
| SchedFair.EndlessRunsSettle | src/fly.c:100-103 | every endless run without new calls, fair or not, consists from some point on of idling and of spinning nested calls only |
| SchedFair.FairRunsFinish | src/fly.c:87-107 | on every weakly fair run without new calls there is a point from which on all is completed |
| SchedFair.FairRunExists | src/fly.c:87-107 | from every reachable state such a run starts |
| ArrayLoop.LoopAt | src/fly_sched.c:381-384 | the sequential loop applies the body once to each cell of its range and leaves the others |
| ArrayLoop.ParallelIsLoop | src/fly_sched.c:372-389 | when a call for [first, last), from outside or from a body, has returned, for a body that reads its cell when its call begins and writes it when it ends, the array is what the sequential loop over the covered indices of that range leaves, in every interleaving |
| ArrayLoop.ParallelForArr | src/fly.c:123-133 | with at least one index per worker that is the loop from the start to the end the caller gave |

## Left out

- Thread creation, thread states and the /proc reader (src/fly_thread.c, src/fly_thread.h): in the scheduler machine the
  choice between main and backup thread in `fly_worker_work_available` is arbitrary.
- The insides of mutexes, semaphores and atomic operations (src/fly_sem.h, src/fly_atomic.h): each is one atomic step;
  memory is sequentially consistent.
- Waiting for a list lock inside a scheduler step: a list operation is one step, a reader walks the running list in many
  steps and keeps its writers out meanwhile. That a free lock lets waiters in is proved of the lock itself.
- More than FLY_SCHED_MAX_RLOCK threads reading the running list at once: in the scheduler machine readers never wait for
  each other.
- Memory reclamation: jobs are never freed while the machine runs, so a late finisher that still holds a job its waiter
  has destroyed is outside the model.
- The done list (src/fly_sched.c:456-461, src/fly_sched.c:168-174): a job can be appended to it more than once.
- Refused allocations after a job is prepared: `fly_sched_move_to_running` ignores them (src/fly_sched.c:445), and the
  scheduler machine has none. They are modelled where jobs are cut.
- Failing semaphore waits and the error codes that follow from them.
- Bodies that block in `fly_wait_task`: a task pushed from a body is waited for from outside.
- In the scheduler machine `fly_parallel_for` and `fly_parallel_for_arr` are one kind of job; what their calls receive as
  pointer is stated in `FlyJob.dfy`.
- Widths of C integers: only the cut is checked against 32 bits; counters are unbounded.
- `fly_list_prepend` and `fly_list_prepend_node`: unused, and they do not keep prev-links.
- Init and uninit of locks, lists, workers and the library (src/fly_sched.c:90-122, src/fly_sched.c:220-344), the update
  thread, the start gate of a worker thread, allocation tracking (src/fly_memdebug.h), task objects, profiling.
- SchedDone.TaskResultIsThere: says at least one complete run, not exactly one, because the code can run a task twice.
- FlyJob.ParallelForArr: is one worker without the help of others, and leaves the scheduler's lists and semaphores out;
  any number of workers are `SchedDone.ExactlyOnce` and `ArrayLoop.ParallelForArr`.
- SchedFair.FairRunsFinish: takes for granted that bodies return and that whoever pushed a task waits for it; that is what
  fairness says of their steps.
- MrswLockFair.EverybodyGetsThrough: has no new requests; with a stream of writers readers can wait for ever, by design.
- MrswLockRuns.WaitingWriterGetsIn: gives a schedule of three steps; that fair runs let every waiting thread in is
  `MrswLockFair.EverybodyGetsThrough`.
- MrswLockRuns.WaitingReaderGetsIn: likewise.
- WorkerExit.ReachesFinished: counts fly_schedule as one move, so it takes for granted that bodies return.
