/** The invariant of the scheduler: one predicate a thread satisfies about the jobs it refers to, one a job satisfies
    about the threads it refers to, and one about the two lists.

    Here and in the modules above it a conjunction written `( ... ) == true` means just that conjunction. As an equation
    the verifier handles it as one fact, where a plain conjunction is taken apart and proved clause by clause wherever
    the predicate is required or ensured. */
module SchedInv {
  import opened SeqOps
  import opened Split
  import opened SchedModel

  // ----- what a thread is doing for a job -----

  /** The level-`lvl` activity of the thread is the loop over batch `b` of job `j`. */
  predicate FrameIs(th: Thread, lvl: nat, j: nat, b: nat) {
    || (lvl < |th.susp| && th.susp[lvl].InBatch? && th.susp[lvl].j == j && th.susp[lvl].b == b)
    || (lvl == |th.susp| && th.ctl.Exec? && th.ctl.j == j && th.ctl.b == b)
  }

  /** The first index whose call the level-`lvl` batch loop has not begun. */
  function Begun(th: Thread, lvl: nat): int {
    if lvl < |th.susp| && th.susp[lvl].InBatch? then th.susp[lvl].at + 1
    else if lvl == |th.susp| && th.ctl.Exec? then th.ctl.at + (if th.ctl.inCall then 1 else 0)
    else 0
  }

  /** The job whose completion the body below level `lvl` waits for. */
  predicate LevelJobIs(th: Thread, lvl: nat, j: nat) {
    || (lvl < |th.susp| && th.susp[lvl].j == j)
    || (lvl == |th.susp| && !BaseOnly(th.ctl) && th.ctl.j == j)
  }

  /** Control states of the main loop, which no nested call reaches. */
  predicate BaseOnly(c: Ctl) {
    Jobless(c) || c.Popped? || c.Marked? || c.Run?
  }

  predicate NestedOnly(c: Ctl) {
    c.Enter? || c.Check? || c.Await?
  }

  /** The thread is past the exec function of `j` and has not posted yet. */
  predicate Finishing(th: Thread, j: nat) {
    Ending(th.ctl) && th.ctl.j == j
  }

  /** The thread took task `j` from ready and has not posted yet. */
  predicate OnTask(th: Thread, j: nat) {
    || (th.susp != [] && th.susp[0] == InTask(j))
    || (th.susp == [] && (th.ctl.Popped? || th.ctl.Marked? || th.ctl.Run?) && th.ctl.j == j)
    || (th.susp == [] && Finishing(th, j))
  }

  predicate Holds(th: Thread, j: nat) {
    (th.ctl.Popped? || th.ctl.Marked? || th.ctl.Enter?) && th.ctl.j == j
  }

  // ----- what a job went through -----

  predicate Published(job: Job) {
    job.place.InRunning? || job.place.Left?
  }

  function DoneCount(bs: seq<Batch>): (n: nat)
    ensures n <= |bs|
  {
    if bs == [] then 0 else DoneCount(bs[..|bs| - 1]) + if bs[|bs| - 1].mark.Finished? then 1 else 0
  }

  predicate HasFree(job: Job) {
    exists b :: 0 <= b < |job.batches| && job.batches[b].mark.Free?
  }

  /** How far the calls of a batch got. */
  function BegunIn(threads: seq<Thread>, batch: Batch): int {
    match batch.mark
    case Free => batch.span.lo
    case Finished => batch.span.hi
    case Taken(t, lvl) => if t < |threads| then Begun(threads[t], lvl) else batch.span.lo
  }

  /** The calls so far: one for each index a batch loop has begun, none for any other index. */
  ghost predicate CallsOk(threads: seq<Thread>, job: Job) {
    (
    && (forall b, i :: 0 <= b < |job.batches| && Inside(job.batches[b].span, i) ==>
          multiset(job.calls)[i] == if i < BegunIn(threads, job.batches[b]) then 1 else 0)
    && (forall i :: i in job.calls ==> exists b :: 0 <= b < |job.batches| && Inside(job.batches[b].span, i))
    ) == true
  }

  ghost predicate SpansOk(nw: nat, job: Job)
    requires nw > 0
  {
    && |job.batches| == nw
    && forall b :: 0 <= b < |job.batches| ==> job.batches[b].span == Spans(job.first, job.last, nw)[b]
  }

  // ----- the invariant -----

  /** What a control state says of the job it is about. */
  ghost predicate AboutJob(job: Job, nw: nat, t: nat, lvl: nat, c: Ctl) {
    match c
    case Look | SawEmpty | Sleep | Walk(_) => true
    case Popped(_) => job.place == Held(t) && job.caller.Outside?
    case Marked(_) => job.kind == TaskJob && job.place == Held(t) && IsDone(job)
    case Enter(_) => job.kind == ForJob && job.place == Held(t)
    case Post(_, i) => job.kind == ForJob && Published(job) && i <= nw
    case Check(_) => job.kind == ForJob && Published(job)
    case Await(_) => job.kind == ForJob && Published(job) && IsDone(job)
    case Claim(_, pos) =>
      && job.kind == ForJob && Published(job) && pos <= |job.batches|
      && forall b :: 0 <= b < pos ==> !job.batches[b].mark.Free?
    case Exec(_, b, at, inCall) =>
      && job.kind == ForJob && Published(job) && b < |job.batches| && job.batches[b].mark == Taken(t, lvl)
      && var sp := job.batches[b].span;
         sp.lo <= at && (inCall ==> at < sp.hi) && (at <= sp.hi || at == sp.lo)
    case Run(_, _) => job.kind == TaskJob && Published(job) && IsDone(job)
    case Test(_, idle) =>
      Published(job) && (job.kind == TaskJob ==> job.runs > 0 && IsDone(job) && !idle)
    case SetDone(_, idle) =>
      Published(job) && IsDone(job) && (job.kind == TaskJob ==> job.runs > 0 && !idle)
    case Unlist(_, idle) =>
      Published(job) && IsDone(job) && job.state == DONE && (job.kind == TaskJob ==> job.runs > 0 && !idle)
    case Signal(_, idle) =>
      job.place.Left? && IsDone(job) && job.state == DONE && (job.kind == TaskJob ==> job.runs > 0 && !idle)
  }

  /** Control states that are about no job. */
  predicate Jobless(c: Ctl) {
    c.Look? || c.SawEmpty? || c.Walk? || c.Sleep?
  }

  ghost predicate CtlOk(jobs: seq<Job>, running: seq<nat>, nw: nat, t: nat, lvl: nat, c: Ctl) {
    && (c.Walk? ==>
          && c.k <= |running|
          && forall i :: 0 <= i < c.k ==> running[i] < |jobs| && IsDone(jobs[running[i]]))
    && (!Jobless(c) ==> c.j < |jobs| && AboutJob(jobs[c.j], nw, t, lvl, c))
  }

  ghost predicate FrameOk(jobs: seq<Job>, t: nat, lvl: nat, f: Frame) {
    && f.j < |jobs| && Published(jobs[f.j])
    && match f
       case InBatch(j, b, at) =>
         && jobs[j].kind == ForJob && b < |jobs[j].batches|
         && jobs[j].batches[b].mark == Taken(t, lvl) && Inside(jobs[j].batches[b].span, at)
       case InTask(j) => lvl == 0 && jobs[j].kind == TaskJob && IsDone(jobs[j])
  }

  /** A job a body of this thread waits for was created by that very body and is still awaited. */
  ghost predicate AwaitedFrom(jobs: seq<Job>, t: nat, th: Thread, lvl: nat, j: nat)
    requires 0 < lvl <= |th.susp|
  {
    && j < |jobs| && jobs[j].kind == ForJob
    && jobs[j].caller == Nested(t, lvl - 1, th.susp[lvl - 1].j) && jobs[j].phase == Waiting
  }

  ghost predicate ThreadOk(jobs: seq<Job>, running: seq<nat>, nw: nat, t: nat, th: Thread) {
    (
    && (forall l :: 0 <= l < |th.susp| ==> FrameOk(jobs, t, l, th.susp[l]))
    && (forall l {:trigger AwaitedFrom(jobs, t, th, l, th.susp[l].j)} ::
          0 < l < |th.susp| ==> AwaitedFrom(jobs, t, th, l, th.susp[l].j))
    && (if th.susp == [] then !NestedOnly(th.ctl)
        else !BaseOnly(th.ctl) && AwaitedFrom(jobs, t, th, |th.susp|, th.ctl.j))
    && CtlOk(jobs, running, nw, t, |th.susp|, th.ctl)
    ) == true
  }

  ghost predicate ForOk(nw: nat, threads: seq<Thread>, j: nat, job: Job)
    requires nw > 0
  {
    (
    && job.nbbatches == nw && SpansOk(nw, job)
    && job.done == DoneCount(job.batches)
    && (forall b :: 0 <= b < |job.batches| && job.batches[b].mark.Taken? ==>
          && job.batches[b].mark.t < |threads|
          && FrameIs(threads[job.batches[b].mark.t], job.batches[b].mark.lvl, j, b))
    && CallsOk(threads, job)
    && (!Published(job) ==> job.done == 0 && job.calls == [] && forall b :: 0 <= b < |job.batches| ==> job.batches[b].mark.Free?)
    && (IsDone(job) && job.posts == 0 ==> job.closer < |threads| && Finishing(threads[job.closer], j))
    ) == true
  }

  ghost predicate TaskOk(threads: seq<Thread>, j: nat, job: Job) {
    (
    && job.nbbatches == 1 && job.batches == [] && job.calls == [] && job.done <= 1 && job.caller.Outside?
    && (job.place.InReady? ==> job.done == 0)
    && (!Published(job) ==> job.runs == 0)
    && (Published(job) ==> IsDone(job))
    && (job.posts > 0 ==> job.runs > 0)
    && (!job.place.InReady? && job.posts == 0 ==> job.closer < |threads| && OnTask(threads[job.closer], j))
    ) == true
  }

  ghost predicate JobOk(nw: nat, threads: seq<Thread>, j: nat, job: Job)
    requires nw > 0
  {
    (
    && (job.kind == ForJob ==> ForOk(nw, threads, j, job))
    && (job.kind == TaskJob ==> TaskOk(threads, j, job))
    && (Published(job) <==> job.state != READY)
    && (job.place.Left? ==> job.state == DONE)
    && (job.state == DONE ==> IsDone(job))
    && (job.posts > 0 ==> job.place.Left? && IsDone(job))
    && job.sem + (if job.phase.Returned? then 1 else 0) == job.posts
    && (job.place.Held? ==> job.place.holder < |threads| && Holds(threads[job.place.holder], j))
    && (job.phase.Posting? ==> job.phase.i < nw && job.caller.Outside?)
    && (job.caller.Nested? ==>
          && job.caller.parent < j && !job.place.InReady?
          && (job.phase.Waiting? ==>
                && job.caller.t < |threads| && job.caller.lvl < |threads[job.caller.t].susp|
                && threads[job.caller.t].susp[job.caller.lvl].j == job.caller.parent
                && LevelJobIs(threads[job.caller.t], job.caller.lvl + 1, j)))
    ) == true
  }

  ghost predicate ListsOk(s: State) {
    (
    && Distinct(s.ready) && Distinct(s.running)
    && (forall j :: j in s.ready ==> j < |s.jobs| && s.jobs[j].place.InReady?)
    && (forall j :: j in s.running ==> j < |s.jobs| && s.jobs[j].place.InRunning?)
    && (forall j :: 0 <= j < |s.jobs| && s.jobs[j].place.InReady? ==> j in s.ready)
    && (forall j :: 0 <= j < |s.jobs| && s.jobs[j].place.InRunning? ==> j in s.running)
    ) == true
  }

  predicate Shape(s: State) {
    s.nw > 0 && |s.threads| == |s.tokens| == 2 * s.nw
  }

  ghost predicate ThreadsOk(s: State) {
    forall t {:trigger ThreadOk(s.jobs, s.running, s.nw, t, s.threads[t])} ::
      0 <= t < |s.threads| ==> ThreadOk(s.jobs, s.running, s.nw, t, s.threads[t])
  }

  ghost predicate JobsOk(s: State)
    requires s.nw > 0
  {
    forall j {:trigger JobOk(s.nw, s.threads, j, s.jobs[j])} ::
      0 <= j < |s.jobs| ==> JobOk(s.nw, s.threads, j, s.jobs[j])
  }

  ghost predicate Inv(s: State) {
    (
    Shape(s) && ThreadsOk(s) && JobsOk(s) && ListsOk(s)
    ) == true
  }

  // ----- how a step of one thread may change a job -----

  function StateRank(st: JobState): nat {
    match st case READY => 0 case RUNNING => 1 case DONE => 2
  }

  function PlaceRank(p: Place): nat {
    match p case InReady => 0 case Held(_) => 1 case InRunning => 2 case Left => 3
  }

  predicate MarkEvolves(a: Mark, b: Mark, actor: nat) {
    a == b || (a.Free? && b.Taken? && b.t == actor) || (a.Taken? && a.t == actor && b.Finished?)
  }

  /** What any step of thread `actor` may do to a job; an actor that is no thread stands for an outside caller. */
  ghost predicate Evolves(a: Job, b: Job, actor: nat) {
    (
    && b.kind == a.kind && b.first == a.first && b.last == a.last && b.caller == a.caller
    && b.nbbatches == a.nbbatches && |b.batches| == |a.batches|
    && (forall k :: 0 <= k < |a.batches| ==>
          b.batches[k].span == a.batches[k].span && MarkEvolves(a.batches[k].mark, b.batches[k].mark, actor))
    && a.done <= b.done && (IsDone(a) ==> IsDone(b))
    && a.runs <= b.runs && a.posts <= b.posts && a.calls <= b.calls
    && StateRank(a.state) <= StateRank(b.state)
    && (a.place == b.place || (PlaceRank(a.place) < PlaceRank(b.place) && (a.place.Held? ==> a.place.holder == actor)))
    && (a.phase.Returned? ==> b.phase.Returned?)
    && (a.caller.Nested? && a.caller.t != actor ==> a.phase == b.phase)
    ) == true
  }
}
