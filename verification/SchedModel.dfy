/** The scheduler of src/fly_sched.c with its workers (src/fly_worker.c) and callers (src/fly.c) as a transition system.

    Worker `w` owns the threads `2 * w` (main) and `2 * w + 1` (backup). A step is one access to shared state: a list
    operation under its lock, a compare-and-swap, an atomic add, one semaphore operation, the start or the end of one
    call of the user's function. Jobs are never reclaimed. */
module SchedModel {
  import opened SeqOps
  import opened Split

  /** What happened to a batch. `execed` in the source is 0 exactly for Free; who claimed it is history. */
  datatype Mark = Free | Taken(t: nat, lvl: nat) | Finished

  datatype Batch = Batch(span: Span, mark: Mark)

  datatype Kind = ForJob | TaskJob

  /** FLY_JOB_READY, FLY_JOB_RUNNING, FLY_JOB_DONE; the two earlier states are private to the submitter. */
  datatype JobState = READY | RUNNING | DONE

  /** Where the scheduler's reference to the job is: a list, or the hands of one thread between two lists. */
  datatype Place = InReady | Held(holder: nat) | InRunning | Left

  /** Who called: a thread outside libfly, or the body that thread `t` runs at nesting level `lvl` for job `parent`. */
  datatype Caller = Outside | Nested(t: nat, lvl: nat, parent: nat)

  /** How far the submitting call got: posting to worker `i`, waiting for the job, back in its caller. */
  datatype Phase = Posting(i: nat) | Waiting | Returned

  /** A published job. `calls` (indices in call order), `runs` (completed task runs), `posts`, `place` and `closer`
      (the thread bound to post first) are history. */
  datatype Job = Job(
    kind: Kind, first: int, last: int, batches: seq<Batch>, nbbatches: nat, done: nat, state: JobState, sem: nat,
    caller: Caller, phase: Phase, place: Place, calls: seq<int>, runs: nat, posts: nat, closer: nat)

  /** A body suspended in a nested parallel_for: a batch loop at index `at`, or a task function. */
  datatype Frame = InBatch(j: nat, b: nat, at: int) | InTask(j: nat)

  /** What a thread does next. `idle` is the nonzero result of an exec function: no batch was left. */
  datatype Ctl =
    | Look                                      // fly_sched_get_ready
    | SawEmpty                                  // before the reader lock of fly_sched_get_running
    | Walk(k: nat)                              // reading entry k of the running list
    | Sleep                                     // fly_worker_thread_wait_work
    | Popped(j: nat)                            // took j from ready
    | Marked(j: nat)                            // task with batches_done already set
    | Post(j: nat, i: nat)                      // telling worker i about j
    | Enter(j: nat)                             // nested: before fly_sched_move_to_running
    | Check(j: nat)                             // nested: while (!fly_job_is_done(job))
    | Await(j: nat)                             // nested: fly_wait_job
    | Claim(j: nat, pos: nat)                   // fly_get_exec_batch at batch pos
    | Exec(j: nat, b: nat, at: int, inCall: bool)
    | Run(j: nat, inCall: bool)                 // fly_taskjob_exec
    | Test(j: nat, idle: bool)                  // fly_job_is_done after the exec function
    | SetDone(j: nat, idle: bool)
    | Unlist(j: nat, idle: bool)                // fly_sched_remove_running
    | Signal(j: nat, idle: bool)                // fly_sem_post of the job

  /** `susp` holds the bodies waiting in nested calls, outermost first; `ctl` is the innermost activity. */
  datatype Thread = Thread(susp: seq<Frame>, ctl: Ctl)

  datatype State = State(
    nw: nat, jobs: seq<Job>, ready: seq<nat>, running: seq<nat>, tokens: seq<nat>, threads: seq<Thread>)

  /** How a thread resolves its next step: go on (a running body returns, a post wakes the main thread), wake the
      backup thread, or call libfly again from inside a body. */
  datatype Choice = Go | Backup | Fork(first: int, last: int) | Push

  datatype Action =
    | SubmitFor(first: int, last: int)          // fly_parallel_for(_arr) outside: append to ready
    | SubmitTask                                // fly_push_task outside: append to ready
    | CallerPosts(j: nat, backup: bool)         // one fly_worker_work_available of fly_sched_add_job
    | CallerWaits(j: nat)                       // fly_wait_job takes a token of the job's semaphore
    | Step(t: nat, c: Choice)

  function Init(nw: nat): State {
    State(nw, [], [], [], seq(2 * nw, _ => 0), seq(2 * nw, _ => Thread([], Look)))
  }

  function NewBatches(first: int, last: int, nw: nat): seq<Batch>
    requires nw > 0
  {
    var s := Spans(first, last, nw);
    seq(|s|, b requires 0 <= b < |s| => Batch(s[b], Free))
  }

  function NewFor(nw: nat, first: int, last: int, caller: Caller, phase: Phase, place: Place): Job
    requires nw > 0
  {
    Job(ForJob, first, last, NewBatches(first, last, nw), nw, 0, READY, 0, caller, phase, place, [], 0, 0, 0)
  }

  function NewTask(phase: Phase): Job {
    Job(TaskJob, 0, 0, [], 1, 0, READY, 0, Outside, phase, InReady, [], 0, 0, 0)
  }

  predicate IsDone(job: Job) {
    job.done == job.nbbatches
  }

  /** Nobody reads the running list, so its writer lock can be held. */
  predicate NoWalker(s: State) {
    forall t :: 0 <= t < |s.threads| ==> !s.threads[t].ctl.Walk?
  }

  function ThreadOf(worker: nat, backup: bool): nat {
    2 * worker + if backup then 1 else 0
  }

  function SetJob(s: State, j: nat, job: Job): State
    requires j < |s.jobs|
  {
    s.(jobs := s.jobs[j := job])
  }

  function SetThread(s: State, t: nat, th: Thread): State
    requires t < |s.threads|
  {
    s.(threads := s.threads[t := th])
  }

  function SetCtl(s: State, t: nat, c: Ctl): State
    requires t < |s.threads|
  {
    SetThread(s, t, s.threads[t].(ctl := c))
  }

  function AddToken(s: State, t: nat): State
    requires t < |s.tokens|
  {
    s.(tokens := s.tokens[t := s.tokens[t] + 1])
  }

  /** Where a thread goes when fly_sched_exec_job returns: its main loop, or the waiting loop of a nested call. */
  function AfterExec(th: Thread, j: nat, idle: bool): Ctl {
    if th.susp != [] then Check(j) else if idle then Sleep else Look
  }

  /** fly_sched_exec_job chooses by job type. */
  function StartExec(job: Job, j: nat): Ctl {
    if job.kind == ForJob then Claim(j, 0) else Run(j, false)
  }

  function MoveToRunning(s: State, j: nat): State
    requires j < |s.jobs|
  {
    SetJob(s, j, s.jobs[j].(state := RUNNING, place := InRunning)).(running := s.running + [j])
  }

  /** The job a control state refers to exists, and so does the batch. */
  predicate RefersWell(s: State, c: Ctl) {
    match c
    case Look | SawEmpty | Sleep => s.ready != [] ==> s.ready[|s.ready| - 1] < |s.jobs|
    case Walk(k) => k <= |s.running| && forall i :: 0 <= i < |s.running| ==> s.running[i] < |s.jobs|
    case Claim(j, pos) => j < |s.jobs| && pos <= |s.jobs[j].batches|
    case Exec(j, b, _, _) => j < |s.jobs| && b < |s.jobs[j].batches|
    case _ => c.j < |s.jobs|
  }

  /** Between the exec function of a job and the end of fly_sched_exec_job. */
  predicate Ending(c: Ctl) {
    c.Test? || c.SetDone? || c.Unlist? || c.Signal?
  }

  predicate InBody(c: Ctl) {
    (c.Exec? || c.Run?) && c.inCall
  }

  /** When thread `t` can take the step it is at. */
  predicate Enabled(s: State, t: nat, c: Choice) {
    && s.nw > 0
    && t < |s.threads| == |s.tokens| == 2 * s.nw
    && RefersWell(s, s.threads[t].ctl)
    && var ctl := s.threads[t].ctl;
       match c
       case Fork(_, _) => InBody(ctl)
       case Push => InBody(ctl)
       case Backup => ctl.Post? && ctl.i < s.nw
       case Go =>
         match ctl
         case Sleep => s.tokens[t] > 0
         case Await(j) => s.jobs[j].sem > 0 && s.threads[t].susp != []
         case Marked(_) | Enter(_) | Unlist(_, _) => NoWalker(s)
         case Popped(j) => s.jobs[j].kind == ForJob ==> NoWalker(s)
         case _ => true
  }

  /** A body calls fly_parallel_for: the job is prepared, the body waits, the job is not published yet. */
  function ForkStep(s: State, t: nat, first: int, last: int): State
    requires s.nw > 0 && t < |s.threads| && InBody(s.threads[t].ctl)
  {
    var th := s.threads[t];
    var frame := if th.ctl.Exec? then InBatch(th.ctl.j, th.ctl.b, th.ctl.at) else InTask(th.ctl.j);
    var child := |s.jobs|;
    var job := NewFor(s.nw, first, last, Nested(t, |th.susp|, th.ctl.j), Waiting, Held(t));
    SetThread(s, t, Thread(th.susp + [frame], Enter(child))).(jobs := s.jobs + [job])
  }

  /** A body calls fly_push_task: appended to ready, and no worker is told. */
  function PushStep(s: State): State {
    s.(jobs := s.jobs + [NewTask(Waiting)], ready := s.ready + [|s.jobs|])
  }

  function LookStep(s: State, t: nat): State
    requires t < |s.threads| && (s.ready != [] ==> s.ready[|s.ready| - 1] < |s.jobs|)
  {
    if s.ready == [] then SetCtl(s, t, SawEmpty)
    else
      var j := s.ready[|s.ready| - 1];
      var job := s.jobs[j];
      var taken := job.(place := Held(t), closer := if job.kind == TaskJob then t else job.closer);
      SetCtl(SetJob(s, j, taken), t, Popped(j)).(ready := s.ready[..|s.ready| - 1])
  }

  /** One iteration of the loop in fly_sched_get_running: the first job that is not done, else the last one read. */
  function WalkStep(s: State, t: nat): State
    requires t < |s.threads| && s.threads[t].ctl.Walk? && s.threads[t].ctl.k <= |s.running|
    requires forall i :: 0 <= i < |s.running| ==> s.running[i] < |s.jobs|
  {
    var k := s.threads[t].ctl.k;
    if k < |s.running| then
      var j := s.running[k];
      if IsDone(s.jobs[j]) then SetCtl(s, t, Walk(k + 1)) else SetCtl(s, t, StartExec(s.jobs[j], j))
    else if k == 0 then SetCtl(s, t, Sleep)
    else SetCtl(s, t, StartExec(s.jobs[s.running[k - 1]], s.running[k - 1]))
  }

  function PoppedStep(s: State, t: nat): State
    requires t < |s.threads| && s.threads[t].ctl.Popped? && s.threads[t].ctl.j < |s.jobs|
  {
    var j := s.threads[t].ctl.j;
    if s.jobs[j].kind == ForJob then SetCtl(MoveToRunning(s, j), t, Post(j, 0))
    else SetCtl(SetJob(s, j, s.jobs[j].(done := s.jobs[j].nbbatches)), t, Marked(j))
  }

  /** The loop over all workers but the thread's own. */
  function PostStep(s: State, t: nat, backup: bool): State
    requires t < |s.threads| && s.threads[t].ctl.Post? && |s.tokens| == 2 * s.nw
  {
    var Post(j, i) := s.threads[t].ctl;
    if i >= s.nw then SetCtl(s, t, if s.threads[t].susp == [] then Claim(j, 0) else Check(j))
    else if i == t / 2 then SetCtl(s, t, Post(j, i + 1))
    else SetCtl(AddToken(s, ThreadOf(i, backup)), t, Post(j, i + 1))
  }

  function ClaimStep(s: State, t: nat): State
    requires t < |s.threads| && s.threads[t].ctl.Claim? && s.threads[t].ctl.j < |s.jobs|
    requires s.threads[t].ctl.pos <= |s.jobs[s.threads[t].ctl.j].batches|
  {
    var Claim(j, pos) := s.threads[t].ctl;
    var job := s.jobs[j];
    if pos == |job.batches| then SetCtl(s, t, Test(j, true))
    else if job.batches[pos].mark.Free? then
      var mine := job.batches[pos].(mark := Taken(t, |s.threads[t].susp|));
      SetCtl(SetJob(s, j, job.(batches := job.batches[pos := mine])), t, Exec(j, pos, mine.span.lo, false))
    else SetCtl(s, t, Claim(j, pos + 1))
  }

  function ExecStep(s: State, t: nat): State
    requires t < |s.threads| && s.threads[t].ctl.Exec? && s.threads[t].ctl.j < |s.jobs|
    requires s.threads[t].ctl.b < |s.jobs[s.threads[t].ctl.j].batches|
  {
    var Exec(j, b, at, inCall) := s.threads[t].ctl;
    var job := s.jobs[j];
    if inCall then SetCtl(s, t, Exec(j, b, at + 1, false))
    else if at < job.batches[b].span.hi then
      SetCtl(SetJob(s, j, job.(calls := job.calls + [at])), t, Exec(j, b, at, true))
    else
      var over := job.batches[b].(mark := Finished);
      var last := job.done + 1 == job.nbbatches;
      SetCtl(SetJob(s, j, job.(batches := job.batches[b := over], done := job.done + 1,
                               closer := if last then t else job.closer)), t, Test(j, false))
  }

  function RunStep(s: State, t: nat): State
    requires t < |s.threads| && s.threads[t].ctl.Run? && s.threads[t].ctl.j < |s.jobs|
  {
    var Run(j, inCall) := s.threads[t].ctl;
    if inCall then SetCtl(SetJob(s, j, s.jobs[j].(runs := s.jobs[j].runs + 1)), t, Test(j, false))
    else SetCtl(s, t, Run(j, true))
  }

  function AwaitStep(s: State, t: nat): State
    requires t < |s.threads| && s.threads[t].ctl.Await? && s.threads[t].ctl.j < |s.jobs|
    requires s.threads[t].susp != [] && s.jobs[s.threads[t].ctl.j].sem > 0
  {
    var th := s.threads[t];
    var j := th.ctl.j;
    var body := th.susp[|th.susp| - 1];
    var back := if body.InBatch? then Exec(body.j, body.b, body.at, true) else Run(body.j, true);
    SetThread(SetJob(s, j, s.jobs[j].(sem := s.jobs[j].sem - 1, phase := Returned)), t,
              Thread(th.susp[..|th.susp| - 1], back))
  }

  /** The end of fly_sched_exec_job: done test, state, running list, post. */
  function FinishStep(s: State, t: nat): State
    requires t < |s.threads| && Ending(s.threads[t].ctl) && s.threads[t].ctl.j < |s.jobs|
  {
    var th := s.threads[t];
    var job := s.jobs[th.ctl.j];
    match th.ctl
    case Test(j, idle) => SetCtl(s, t, if IsDone(job) then SetDone(j, idle) else AfterExec(th, j, idle))
    case SetDone(j, idle) => SetCtl(SetJob(s, j, job.(state := DONE)), t, Unlist(j, idle))
    case Unlist(j, idle) =>
      SetCtl(SetJob(s, j, job.(place := Left)), t, Signal(j, idle)).(running := RemoveFirst(s.running, j))
    case Signal(j, idle) =>
      SetCtl(SetJob(s, j, job.(sem := job.sem + 1, posts := job.posts + 1)), t, AfterExec(th, j, idle))
  }

  function ThreadStep(s: State, t: nat, c: Choice): State
    requires Enabled(s, t, c)
  {
    match c
    case Fork(first, last) => ForkStep(s, t, first, last)
    case Push => PushStep(s)
    case Backup => PostStep(s, t, true)
    case Go =>
      match s.threads[t].ctl
      case Look => LookStep(s, t)
      case SawEmpty => SetCtl(s, t, Walk(0))
      case Walk(_) => WalkStep(s, t)
      case Sleep => SetCtl(s.(tokens := s.tokens[t := s.tokens[t] - 1]), t, Look)
      case Popped(_) => PoppedStep(s, t)
      case Marked(j) => SetCtl(MoveToRunning(s, j), t, Run(j, false))
      case Post(_, _) => PostStep(s, t, false)
      case Enter(j) => SetCtl(MoveToRunning(s, j), t, Post(j, 0))
      case Check(j) => SetCtl(s, t, if IsDone(s.jobs[j]) then Await(j) else Claim(j, 0))
      case Await(_) => AwaitStep(s, t)
      case Claim(_, _) => ClaimStep(s, t)
      case Exec(_, _, _, _) => ExecStep(s, t)
      case Run(_, _) => RunStep(s, t)
      case Test(_, _) | SetDone(_, _) | Unlist(_, _) | Signal(_, _) => FinishStep(s, t)
  }

  predicate Allowed(s: State, a: Action) {
    match a
    case SubmitFor(_, _) => s.nw > 0
    case SubmitTask => s.nw > 0
    case CallerPosts(j, _) =>
      j < |s.jobs| && s.jobs[j].phase.Posting? && s.jobs[j].phase.i < s.nw && |s.tokens| == 2 * s.nw
    case CallerWaits(j) =>
      j < |s.jobs| && s.jobs[j].caller.Outside? && s.jobs[j].phase.Waiting? && s.jobs[j].sem > 0
    case Step(t, c) => Enabled(s, t, c)
  }

  function Next(s: State, a: Action): State
    requires Allowed(s, a)
  {
    match a
    case SubmitFor(first, last) =>
      s.(jobs := s.jobs + [NewFor(s.nw, first, last, Outside, Posting(0), InReady)], ready := s.ready + [|s.jobs|])
    case SubmitTask =>
      s.(jobs := s.jobs + [NewTask(Posting(0))], ready := s.ready + [|s.jobs|])
    case CallerPosts(j, backup) =>
      var i := s.jobs[j].phase.i;
      var phase := if i + 1 == s.nw then Waiting else Posting(i + 1);
      SetJob(AddToken(s, ThreadOf(i, backup)), j, s.jobs[j].(phase := phase))
    case CallerWaits(j) =>
      SetJob(s, j, s.jobs[j].(sem := s.jobs[j].sem - 1, phase := Returned))
    case Step(t, c) => ThreadStep(s, t, c)
  }

  /** The state after performing `acts` from `s`, if each is allowed in turn. */
  predicate Runs(s: State, acts: seq<Action>)
    decreases |acts|
  {
    acts == [] || (Allowed(s, acts[0]) && Runs(Next(s, acts[0]), acts[1..]))
  }

  function After(s: State, acts: seq<Action>): State
    requires Runs(s, acts)
    decreases |acts|
  {
    if acts == [] then s else After(Next(s, acts[0]), acts[1..])
  }
}
