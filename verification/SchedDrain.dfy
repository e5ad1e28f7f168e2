/** The work that was submitted gets done: a rank that every step lowers, except the spinning of a nested call that has
    nothing to claim; and a step that lowers it is always possible until every job has been signalled. */
module SchedDrain {
  import opened SchedModel
  import opened SchedInv

  // ----- sums -----

  function Total(q: seq<nat>): nat {
    if q == [] then 0 else Total(q[..|q| - 1]) + q[|q| - 1]
  }

  lemma {:induction false} TotalAtMost(p: seq<nat>, q: seq<nat>)
    requires |p| == |q| && forall i :: 0 <= i < |p| ==> p[i] <= q[i]
    ensures Total(p) <= Total(q)
    decreases |p|
  {
    if p != [] {
      TotalAtMost(p[..|p| - 1], q[..|q| - 1]);
    }
  }

  lemma {:induction false} TotalLess(p: seq<nat>, q: seq<nat>, k: nat)
    requires |p| == |q| && k < |p| && p[k] < q[k] && forall i :: 0 <= i < |p| ==> p[i] <= q[i]
    ensures Total(p) < Total(q)
    decreases |p|
  {
    var n := |p| - 1;
    if k < n {
      TotalLess(p[..n], q[..n], k);
    } else {
      TotalAtMost(p[..n], q[..n]);
    }
  }

  // ----- the rank -----

  /** Compared from left to right: what jobs have before them, how often workers have still to be told, how often tasks
      still in the running list can be run again, wake-up tokens, and how far threads are from sleep. */
  datatype Rank = Rank(work: nat, tells: nat, repeats: nat, tokens: nat, local: nat)

  predicate Below(a: Rank, b: Rank) {
    || a.work < b.work
    || (a.work == b.work && a.tells < b.tells)
    || (a.work == b.work && a.tells == b.tells && a.repeats < b.repeats)
    || (a.work == b.work && a.tells == b.tells && a.repeats == b.repeats && a.tokens < b.tokens)
    || (a.work == b.work && a.tells == b.tells && a.repeats == b.repeats && a.tokens == b.tokens && a.local < b.local)
  }

  function MarkLeft(m: Mark): nat {
    match m case Free => 2 case Taken(_, _) => 1 case Finished => 0
  }

  function Marks(bs: seq<Batch>): (r: seq<nat>)
    ensures |r| == |bs|
  {
    seq(|bs|, b requires 0 <= b < |bs| => MarkLeft(bs[b].mark))
  }

  function MarksLeft(bs: seq<Batch>): nat {
    Total(Marks(bs))
  }

  function JobWork(job: Job): nat {
    (3 - PlaceRank(job.place)) + (2 - StateRank(job.state)) + (if job.phase.Returned? then 0 else 1)
    + (if IsDone(job) then 0 else 1) + MarksLeft(job.batches)
  }

  function Monus(a: int, b: int): nat {
    if a > b then a - b else 0
  }

  /** Posts the submitter of a job has still to make, and a thread has still to make. */
  function CallerTells(nw: nat, job: Job): nat {
    if job.phase.Posting? then Monus(nw, job.phase.i) else 0
  }

  function ThreadTells(nw: nat, th: Thread): nat {
    if th.ctl.Post? then Monus(nw + 1, th.ctl.i) else 0
  }

  /** The task the thread is running, if any. */
  function Own(th: Thread): int {
    if th.susp != [] then (if th.susp[0].InTask? then th.susp[0].j else -1)
    else if th.ctl.Run? || Ending(th.ctl) then th.ctl.j
    else -1
  }

  predicate IsTask(jobs: seq<Job>, j: nat) {
    j < |jobs| && jobs[j].kind == TaskJob
  }

  /** 1 for each task in the running list, except the thread's own. */
  function OtherTasks(jobs: seq<Job>, running: seq<nat>, own: int): (r: seq<nat>)
    ensures |r| == |running|
  {
    seq(|running|, k requires 0 <= k < |running| => if IsTask(jobs, running[k]) && running[k] != own then 1 else 0)
  }

  function Repeats(jobs: seq<Job>, running: seq<nat>, th: Thread): nat {
    Total(OtherTasks(jobs, running, Own(th)))
  }

  function ExecLocal(job: Job, b: nat, at: int, inCall: bool): nat {
    if b < |job.batches| then 2 * Monus(job.batches[b].span.hi, at) + (if inCall then 0 else 1) else 0
  }

  function BaseLocal(nw: nat, jobs: seq<Job>, n: nat, c: Ctl): nat {
    var look := 8 + nw + n;
    match c
    case Sleep => 0
    case Signal(_, idle) => 1 + if idle then 0 else look
    case Unlist(_, idle) => 2 + if idle then 0 else look
    case SetDone(_, idle) => 3 + if idle then 0 else look
    case Test(_, idle) => 4 + if idle then 0 else look
    case Claim(_, pos) => 5 + Monus(nw, pos)
    case Walk(k) => 6 + nw + Monus(n, k)
    case SawEmpty => 7 + nw + n
    case Look => look
    case Exec(j, b, at, inCall) => look + 5 + if j < |jobs| then ExecLocal(jobs[j], b, at, inCall) else 0
    case Run(_, inCall) => look + if inCall then 5 else 6
    case Marked(_) => look + 7
    case Popped(_) => look + 8
    case _ => 0
  }

  /** A nested call is done with its loop once the job is done, and has a batch to claim while there is one. */
  function NestedLocal(nw: nat, job: Job, c: Ctl): nat {
    match c
    case Exec(_, b, at, inCall) => ExecLocal(job, b, at, inCall)
    case Await(_) => if IsDone(job) then 1 else 0
    case Check(_) => if IsDone(job) then 2 else if HasFree(job) then 2 + nw else 0
    case Signal(_, _) => if IsDone(job) then 3 else 0
    case Unlist(_, _) => if IsDone(job) then 4 else 0
    case SetDone(_, _) => if IsDone(job) then 5 else 0
    case Test(_, _) => if IsDone(job) then 6 else if HasFree(job) then 3 + nw else 0
    case Claim(_, pos) => if IsDone(job) then 7 + Monus(nw, pos) else if HasFree(job) then 1 + Monus(nw, pos) else 0
    case _ => 0
  }

  function Local(nw: nat, jobs: seq<Job>, n: nat, th: Thread): nat {
    if th.susp == [] then BaseLocal(nw, jobs, n, th.ctl)
    else if !Jobless(th.ctl) && th.ctl.j < |jobs| then NestedLocal(nw, jobs[th.ctl.j], th.ctl)
    else 0
  }

  function Works(jobs: seq<Job>): (r: seq<nat>)
    ensures |r| == |jobs|
  {
    seq(|jobs|, j requires 0 <= j < |jobs| => JobWork(jobs[j]))
  }

  function CallersTell(nw: nat, jobs: seq<Job>): (r: seq<nat>)
    ensures |r| == |jobs|
  {
    seq(|jobs|, j requires 0 <= j < |jobs| => CallerTells(nw, jobs[j]))
  }

  function ThreadsTell(nw: nat, threads: seq<Thread>): (r: seq<nat>)
    ensures |r| == |threads|
  {
    seq(|threads|, t requires 0 <= t < |threads| => ThreadTells(nw, threads[t]))
  }

  function AllRepeats(s: State): (r: seq<nat>)
    ensures |r| == |s.threads|
  {
    seq(|s.threads|, t requires 0 <= t < |s.threads| => Repeats(s.jobs, s.running, s.threads[t]))
  }

  function Locals(s: State): (r: seq<nat>)
    ensures |r| == |s.threads|
  {
    seq(|s.threads|, t requires 0 <= t < |s.threads| => Local(s.nw, s.jobs, |s.running|, s.threads[t]))
  }

  function RankOf(s: State): Rank {
    Rank(Total(Works(s.jobs)), Total(CallersTell(s.nw, s.jobs)) + Total(ThreadsTell(s.nw, s.threads)),
         Total(AllRepeats(s)), Total(s.tokens), Total(Locals(s)))
  }

  // ----- steps of three kinds -----

  /** A job got further. */
  lemma WorkDrops(s: State, s': State, j: nat)
    requires |s'.jobs| == |s.jobs| && j < |s.jobs| && s'.jobs == s.jobs[j := s'.jobs[j]]
    requires JobWork(s'.jobs[j]) < JobWork(s.jobs[j])
    ensures Below(RankOf(s'), RankOf(s))
  {
    TotalLess(Works(s'.jobs), Works(s.jobs), j);
  }

  /** The jobs differ at most in what neither their work nor the local ranks depend on. */
  predicate Alike(a: Job, b: Job) {
    b == a.(sem := b.sem, posts := b.posts, closer := b.closer, phase := b.phase, calls := b.calls, runs := b.runs)
    && (b.phase.Returned? <==> a.phase.Returned?)
  }

  /** A step that changes thread `t` and no job's work. */
  ghost predicate Light(s: State, s': State, t: nat) {
    (
    && s'.nw == s.nw && s'.running == s.running && |s'.jobs| == |s.jobs|
    && (forall j :: 0 <= j < |s.jobs| ==> Alike(s.jobs[j], s'.jobs[j]))
    && (forall j :: 0 <= j < |s.jobs| ==> CallerTells(s.nw, s'.jobs[j]) <= CallerTells(s.nw, s.jobs[j]))
    && t < |s.threads| == |s'.threads| && s'.threads == s.threads[t := s'.threads[t]]
    && ThreadTells(s.nw, s'.threads[t]) <= ThreadTells(s.nw, s.threads[t])
    ) == true
  }

  lemma LightWorks(s: State, s': State, t: nat)
    requires Light(s, s', t)
    ensures Works(s'.jobs) == Works(s.jobs)
    ensures Total(CallersTell(s.nw, s'.jobs)) <= Total(CallersTell(s.nw, s.jobs))
    ensures Total(ThreadsTell(s.nw, s'.threads)) <= Total(ThreadsTell(s.nw, s.threads))
  {
    forall j | 0 <= j < |s.jobs| ensures JobWork(s'.jobs[j]) == JobWork(s.jobs[j]) {
      assert Alike(s.jobs[j], s'.jobs[j]);
    }
    TotalAtMost(CallersTell(s.nw, s'.jobs), CallersTell(s.nw, s.jobs));
    TotalAtMost(ThreadsTell(s.nw, s'.threads), ThreadsTell(s.nw, s.threads));
  }

  lemma RepeatsSame(jobs: seq<Job>, jobs': seq<Job>, running: seq<nat>, th: Thread)
    requires |jobs'| == |jobs| && forall j :: 0 <= j < |jobs| ==> jobs'[j].kind == jobs[j].kind
    ensures Repeats(jobs', running, th) == Repeats(jobs, running, th)
  {
    assert OtherTasks(jobs', running, Own(th)) == OtherTasks(jobs, running, Own(th));
  }

  lemma LocalSame(nw: nat, jobs: seq<Job>, jobs': seq<Job>, n: nat, th: Thread)
    requires |jobs'| == |jobs| && forall j :: 0 <= j < |jobs| ==> Alike(jobs[j], jobs'[j])
    ensures Local(nw, jobs', n, th) == Local(nw, jobs, n, th)
  {
    if !Jobless(th.ctl) && th.ctl.j < |jobs| {
      assert Alike(jobs[th.ctl.j], jobs'[th.ctl.j]);
    }
  }

  /** Another worker was told. */
  lemma TellsDrop(s: State, s': State, t: nat)
    requires Light(s, s', t)
    requires || ThreadTells(s.nw, s'.threads[t]) < ThreadTells(s.nw, s.threads[t])
             || exists j :: 0 <= j < |s.jobs| && CallerTells(s.nw, s'.jobs[j]) < CallerTells(s.nw, s.jobs[j])
    ensures Below(RankOf(s'), RankOf(s))
  {
    LightWorks(s, s', t);
    if ThreadTells(s.nw, s'.threads[t]) < ThreadTells(s.nw, s.threads[t]) {
      TotalLess(ThreadsTell(s.nw, s'.threads), ThreadsTell(s.nw, s.threads), t);
    } else {
      var j :| 0 <= j < |s.jobs| && CallerTells(s.nw, s'.jobs[j]) < CallerTells(s.nw, s.jobs[j]);
      TotalLess(CallersTell(s.nw, s'.jobs), CallersTell(s.nw, s.jobs), j);
    }
  }

  /** The repeats and local ranks after a light step of thread `t`: only its own can differ. */
  lemma LightRest(s: State, s': State, t: nat)
    requires Light(s, s', t)
    ensures forall u :: 0 <= u < |s.threads| && u != t ==>
              AllRepeats(s')[u] == AllRepeats(s)[u] && Locals(s')[u] == Locals(s)[u]
    ensures AllRepeats(s')[t] == Repeats(s.jobs, s.running, s'.threads[t])
    ensures Locals(s')[t] == Local(s.nw, s.jobs, |s.running|, s'.threads[t])
  {
    forall j | 0 <= j < |s.jobs| ensures s'.jobs[j].kind == s.jobs[j].kind {
      assert Alike(s.jobs[j], s'.jobs[j]);
    }
    forall u | 0 <= u < |s.threads|
      ensures Repeats(s'.jobs, s.running, s'.threads[u]) == Repeats(s.jobs, s.running, s'.threads[u])
      ensures Local(s.nw, s'.jobs, |s.running|, s'.threads[u]) == Local(s.nw, s.jobs, |s.running|, s'.threads[u])
    {
      RepeatsSame(s.jobs, s'.jobs, s.running, s'.threads[u]);
      LocalSame(s.nw, s.jobs, s'.jobs, |s.running|, s'.threads[u]);
    }
  }

  /** A thread starts to run a task of the running list. */
  lemma RepeatsDrop(s: State, s': State, t: nat)
    requires Light(s, s', t)
    requires Repeats(s.jobs, s.running, s'.threads[t]) < Repeats(s.jobs, s.running, s.threads[t])
    ensures Below(RankOf(s'), RankOf(s))
  {
    LightWorks(s, s', t);
    LightRest(s, s', t);
    TotalLess(AllRepeats(s'), AllRepeats(s), t);
  }

  lemma LightRepeats(s: State, s': State, t: nat)
    requires Light(s, s', t) && Repeats(s.jobs, s.running, s'.threads[t]) <= Repeats(s.jobs, s.running, s.threads[t])
    ensures Total(AllRepeats(s')) <= Total(AllRepeats(s))
  {
    LightRest(s, s', t);
    TotalAtMost(AllRepeats(s'), AllRepeats(s));
  }

  /** A thread wakes up. */
  lemma TokensDrop(s: State, s': State, t: nat)
    requires Light(s, s', t) && Repeats(s.jobs, s.running, s'.threads[t]) <= Repeats(s.jobs, s.running, s.threads[t])
    requires t < |s.tokens| && s.tokens[t] > 0 && s'.tokens == s.tokens[t := s.tokens[t] - 1]
    ensures Below(RankOf(s'), RankOf(s))
  {
    LightWorks(s, s', t);
    LightRepeats(s, s', t);
    TotalLess(s'.tokens, s.tokens, t);
  }

  /** A thread comes nearer to sleep, or at least not farther. */
  lemma LocalDrops(s: State, s': State, t: nat)
    requires Light(s, s', t) && Repeats(s.jobs, s.running, s'.threads[t]) <= Repeats(s.jobs, s.running, s.threads[t])
    requires s'.tokens == s.tokens
    requires Local(s.nw, s.jobs, |s.running|, s'.threads[t]) <= Local(s.nw, s.jobs, |s.running|, s.threads[t])
    ensures RankOf(s') == RankOf(s) || Below(RankOf(s'), RankOf(s))
    ensures Local(s.nw, s.jobs, |s.running|, s'.threads[t]) < Local(s.nw, s.jobs, |s.running|, s.threads[t]) ==>
              Below(RankOf(s'), RankOf(s))
  {
    LightWorks(s, s', t);
    LightRepeats(s, s', t);
    LightRest(s, s', t);
    TotalAtMost(Locals(s'), Locals(s));
    if Local(s.nw, s.jobs, |s.running|, s'.threads[t]) < Local(s.nw, s.jobs, |s.running|, s.threads[t]) {
      TotalLess(Locals(s'), Locals(s), t);
    }
  }
}
