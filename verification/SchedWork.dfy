/** No lost work: an unclaimed batch or a waiting job always has someone who will come to it. */
module SchedWork {
  import opened SeqOps
  import opened SchedModel
  import opened SchedInv
  import opened SchedSteps
  import opened SchedRuns

  /** The thread is in a body, or will look at the ready list again before it sleeps. */
  predicate Committed(th: Thread) {
    || th.susp != []
    || th.ctl.Look? || th.ctl.Popped? || th.ctl.Marked? || th.ctl.Exec? || th.ctl.Run?
    || (Ending(th.ctl) && !th.ctl.idle)
  }

  /** The thread is about to claim batches of a job that has an unclaimed one. */
  predicate Carrying(jobs: seq<Job>, th: Thread) {
    (th.ctl.Post? || th.ctl.Claim?) && th.ctl.j < |jobs| && HasFree(jobs[th.ctl.j])
  }

  predicate Worker(s: State, t: nat) {
    t < |s.threads| == |s.tokens| && (Committed(s.threads[t]) || Carrying(s.jobs, s.threads[t]) || s.tokens[t] > 0)
  }

  predicate StillPosting(s: State, j: nat) {
    j < |s.jobs| && s.jobs[j].phase.Posting?
  }

  /** Someone will look at the ready list: a thread, a thread with a wake-up token, or a caller that still posts. */
  ghost predicate Active(s: State) {
    (exists t: nat :: Worker(s, t)) || (exists j: nat :: StillPosting(s, j))
  }

  predicate Scout(s: State, t: nat) {
    t < |s.threads| && (s.threads[t].ctl.SawEmpty? || s.threads[t].ctl.Walk?)
  }

  /** Some running job has a batch nobody claimed. */
  ghost predicate OpenWork(s: State) {
    exists j :: j in s.running && j < |s.jobs| && HasFree(s.jobs[j])
  }

  ghost predicate WorkOk(s: State) {
    (
    && (s.ready != [] ==> Active(s))
    && (OpenWork(s) ==> Active(s) || exists t: nat :: Scout(s, t))
    ) == true
  }

  lemma WorkerIsActive(s: State, t: nat)
    requires Worker(s, t)
    ensures Active(s) && WorkOk(s)
  {
  }

  lemma PosterIsActive(s: State, j: nat)
    requires StillPosting(s, j)
    ensures Active(s) && WorkOk(s)
  {
  }

  /** A step of thread `t` after which the thread counts if it counted before, and which claims nothing. */
  ghost predicate Quiet(s: State, s': State, t: nat) {
    && t < |s.threads| == |s'.threads| == |s.tokens| == |s'.tokens|
    && (forall u :: 0 <= u < |s.threads| && u != t ==> s'.threads[u] == s.threads[u] && s'.tokens[u] >= s.tokens[u])
    && |s'.jobs| == |s.jobs|
    && (forall j :: 0 <= j < |s.jobs| ==> s'.jobs[j].phase == s.jobs[j].phase && s'.jobs[j].batches == s.jobs[j].batches)
    && (Worker(s, t) ==> Worker(s', t))
  }

  lemma StaysActive(s: State, s': State, t: nat)
    requires Quiet(s, s', t) && Active(s)
    ensures Active(s')
  {
    if u: nat :| Worker(s, u) {
      if u != t && Carrying(s.jobs, s.threads[u]) {
        var j := s.threads[u].ctl.j;
        var b :| 0 <= b < |s.jobs[j].batches| && s.jobs[j].batches[b].mark.Free?;
        assert s'.jobs[j].batches[b].mark.Free?;
      }
      assert Worker(s', u);
    } else {
      var j: nat :| StillPosting(s, j);
      assert StillPosting(s', j);
    }
  }

  /** A quiet step keeps work from being lost when the lists do not grow and scouts go on scouting. */
  lemma QuietKeeps(s: State, s': State, t: nat)
    requires WorkOk(s) && Quiet(s, s', t)
    requires s'.ready == s.ready && forall j :: j in s'.running ==> j in s.running
    requires Scout(s, t) ==> Scout(s', t)
    ensures WorkOk(s')
  {
    if Active(s) {
      StaysActive(s, s', t);
    } else {
      if OpenWork(s') {
        var j :| j in s'.running && j < |s'.jobs| && HasFree(s'.jobs[j]);
        assert j in s.running && HasFree(s.jobs[j]);
        var u: nat :| Scout(s, u);
        assert Scout(s', u);
      }
    }
  }

  /** An unfinished job without an unclaimed batch has a batch some thread is executing. */
  lemma SomeoneExecutes(s: State, j: nat)
    requires Inv(s) && j < |s.jobs| && s.jobs[j].kind == ForJob && !IsDone(s.jobs[j]) && !HasFree(s.jobs[j])
    ensures exists u :: 0 <= u < |s.threads| && Committed(s.threads[u])
  {
    JobFact(s, j);
    var job := s.jobs[j];
    DoneCountFull(job.batches);
    var b :| 0 <= b < |job.batches| && !job.batches[b].mark.Finished?;
    var u := job.batches[b].mark.t;
    assert FrameIs(s.threads[u], job.batches[b].mark.lvl, j, b);
    assert Committed(s.threads[u]);
  }

  lemma LookWorks(s: State, t: nat)
    requires Inv(s) && WorkOk(s) && Enabled(s, t, Go) && s.threads[t].ctl.Look?
    ensures WorkOk(LookStep(s, t))
  {
    var s' := LookStep(s, t);
    if s.ready == [] {
      assert Scout(s', t);
    } else {
      WorkerIsActive(s', t);
    }
  }

  lemma WalkWorks(s: State, t: nat)
    requires Inv(s) && WorkOk(s) && Enabled(s, t, Go) && s.threads[t].ctl.Walk?
    ensures WorkOk(WalkStep(s, t))
  {
    var s' := WalkStep(s, t);
    var k := s.threads[t].ctl.k;
    ThreadFact(s, t);
    if k < |s.running| {
      var j := s.running[k];
      if IsDone(s.jobs[j]) {
        QuietKeeps(s, s', t);
      } else {
        assert j in s.running;
        JobFact(s, j);
        if HasFree(s.jobs[j]) {
          WorkerIsActive(s', t);
        } else {
          SomeoneExecutes(s, j);
          var u :| 0 <= u < |s.threads| && Committed(s.threads[u]);
          assert s'.threads[u] == s.threads[u];
          WorkerIsActive(s', u);
        }
      }
    } else {
      WalkEnds(s, t);
    }
  }

  /** The walk ends only when every running job is done, so nothing in the list is unclaimed. */
  lemma WalkEnds(s: State, t: nat)
    requires Inv(s) && WorkOk(s) && Enabled(s, t, Go) && s.threads[t].ctl == Walk(|s.running|)
    ensures WorkOk(WalkStep(s, t))
  {
    var s' := WalkStep(s, t);
    ThreadFact(s, t);
    forall j | j in s.running ensures j < |s.jobs| && !HasFree(s.jobs[j]) {
      JobFact(s, j);
      DoneCountFull(s.jobs[j].batches);
    }
    if s.ready != [] {
      StaysActive(s, s', t);
    }
    assert !OpenWork(s');
  }

  /** A thread that is not in a body goes on telling workers or claiming. */
  lemma CarryWorks(s: State, s': State, t: nat, c: Ctl)
    requires Inv(s) && WorkOk(s) && t < |s.threads| && (s.threads[t].ctl.Post? || s.threads[t].ctl.Claim?)
    requires s' == SetCtl(s, t, c).(tokens := s'.tokens) && |s'.tokens| == |s.tokens|
    requires forall u :: 0 <= u < |s.tokens| ==> s'.tokens[u] >= s.tokens[u]
    requires var j := s.threads[t].ctl.j;
             || ((c.Post? || c.Claim?) && c.j == j)
             || (c == Test(j, true) && j < |s.jobs| && !HasFree(s.jobs[j]))
    ensures WorkOk(s')
  {
    ThreadFact(s, t);
    QuietKeeps(s, s', t);
  }

  lemma RunningShrinks(s: State, t: nat)
    requires Inv(s) && Enabled(s, t, Go) && Ending(s.threads[t].ctl)
    ensures forall i :: i in FinishStep(s, t).running ==> i in s.running
  {
    RemoveFirstDistinct(s.running, s.threads[t].ctl.j);
  }

  /** The rest of fly_sched_exec_job. */
  lemma EndWorks(s: State, t: nat)
    requires Inv(s) && WorkOk(s) && Enabled(s, t, Go) && Ending(s.threads[t].ctl)
    ensures WorkOk(FinishStep(s, t))
  {
    var s' := FinishStep(s, t);
    if Committed(s'.threads[t]) {
      WorkerIsActive(s', t);
    } else {
      RunningShrinks(s, t);
      QuietKeeps(s, s', t);
    }
  }

  lemma ClaimWorks(s: State, t: nat, j: nat, pos: nat)
    requires Inv(s) && WorkOk(s) && Enabled(s, t, Go) && s.threads[t].ctl == Claim(j, pos)
    ensures WorkOk(ClaimStep(s, t))
  {
    if pos < |s.jobs[j].batches| && s.jobs[j].batches[pos].mark.Free? {
      WorkerIsActive(ClaimStep(s, t), t);
    } else {
      Facts(s, t, j);
      CarryWorks(s, ClaimStep(s, t), t, if pos == |s.jobs[j].batches| then Test(j, true) else Claim(j, pos + 1));
    }
  }

  lemma PostWorks(s: State, t: nat, backup: bool)
    requires Inv(s) && WorkOk(s) && t < |s.threads| && s.threads[t].ctl.Post?
    ensures WorkOk(PostStep(s, t, backup))
  {
    var s' := PostStep(s, t, backup);
    if s.threads[t].susp != [] {
      WorkerIsActive(s', t);
    } else {
      CarryWorks(s, s', t, s'.threads[t].ctl);
    }
  }

  /** A job taken from ready has all its batches, and there is at least one. */
  lemma PoppedWorks(s: State, t: nat, j: nat)
    requires Inv(s) && Enabled(s, t, Go) && s.threads[t].ctl == Popped(j)
    ensures WorkOk(PoppedStep(s, t))
  {
    Facts(s, t, j);
    var s' := PoppedStep(s, t);
    if s.jobs[j].kind == ForJob {
      assert s'.jobs[j].batches[0].mark.Free?;
      assert Carrying(s'.jobs, s'.threads[t]);
    }
    WorkerIsActive(s', t);
  }

  /** Steps inside a body, of a task, or of a nested call: the thread stays committed. */
  lemma InsideWorks(s: State, t: nat)
    requires Inv(s) && Enabled(s, t, Go)
    requires var c := s.threads[t].ctl;
             c.Sleep? || c.Marked? || c.Enter? || c.Check? || c.Await? || c.Exec? || c.Run?
    ensures WorkOk(ThreadStep(s, t, Go))
  {
    var s' := ThreadStep(s, t, Go);
    ThreadFact(s, t);
    assert Committed(s'.threads[t]);
    WorkerIsActive(s', t);
  }

  lemma GoWorks(s: State, t: nat)
    requires Inv(s) && WorkOk(s) && Enabled(s, t, Go)
    ensures WorkOk(ThreadStep(s, t, Go))
  {
    match s.threads[t].ctl
    case Look => LookWorks(s, t);
    case SawEmpty => QuietKeeps(s, ThreadStep(s, t, Go), t);
    case Walk(_) => WalkWorks(s, t);
    case Popped(j) => PoppedWorks(s, t, j);
    case Post(_, _) => PostWorks(s, t, false);
    case Claim(j, pos) => ClaimWorks(s, t, j, pos);
    case Test(_, _) => EndWorks(s, t);
    case SetDone(_, _) => EndWorks(s, t);
    case Unlist(_, _) => EndWorks(s, t);
    case Signal(_, _) => EndWorks(s, t);
    case _ => InsideWorks(s, t);
  }

  lemma StepWorks(s: State, t: nat, c: Choice)
    requires Inv(s) && WorkOk(s) && Enabled(s, t, c)
    ensures WorkOk(ThreadStep(s, t, c))
  {
    match c
    case Go => GoWorks(s, t);
    case Backup => PostWorks(s, t, true);
    case Fork(_, _) => WorkerIsActive(ThreadStep(s, t, c), t);
    case Push => ThreadFact(s, t); WorkerIsActive(ThreadStep(s, t, c), t);
  }

  lemma CallerWorks(s: State, a: Action)
    requires Inv(s) && WorkOk(s) && Allowed(s, a) && !a.Step?
    ensures WorkOk(Next(s, a))
  {
    var s' := Next(s, a);
    match a
    case SubmitFor(_, _) => PosterIsActive(s', |s.jobs|);
    case SubmitTask => PosterIsActive(s', |s.jobs|);
    case CallerPosts(j, backup) =>
      JobFact(s, j);
      WorkerIsActive(s', ThreadOf(s.jobs[j].phase.i, backup));
    case CallerWaits(j) =>
      if Active(s) {
        WaiterChangesNothing(s, s', j);
      } else if OpenWork(s') {
        var i :| i in s'.running && i < |s'.jobs| && HasFree(s'.jobs[i]);
        assert HasFree(s.jobs[i]);
        var u: nat :| Scout(s, u);
        assert Scout(s', u);
      }
  }

  lemma WaiterChangesNothing(s: State, s': State, j: nat)
    requires Inv(s) && Active(s) && Allowed(s, CallerWaits(j)) && s' == Next(s, CallerWaits(j))
    ensures Active(s')
  {
    if u: nat :| Worker(s, u) {
      if Carrying(s.jobs, s.threads[u]) {
        var i := s.threads[u].ctl.j;
        assert s'.jobs[i].batches == s.jobs[i].batches;
        assert HasFree(s'.jobs[i]);
      }
      assert Worker(s', u);
    } else {
      var i: nat :| StillPosting(s, i);
      assert StillPosting(s', i);
    }
  }

  lemma {:induction false} AfterWorks(s: State, acts: seq<Action>)
    requires Inv(s) && WorkOk(s) && Runs(s, acts)
    ensures WorkOk(After(s, acts))
    decreases |acts|
  {
    if acts != [] {
      if acts[0].Step? {
        StepWorks(s, acts[0].t, acts[0].c);
      } else {
        CallerWorks(s, acts[0]);
      }
      NextKeeps(s, acts[0]);
      AfterWorks(Next(s, acts[0]), acts[1..]);
    }
  }

  lemma ReachableWorks(s: State)
    requires Reachable(s)
    ensures Inv(s) && WorkOk(s)
  {
    var acts :| Runs(Init(s.nw), acts) && After(Init(s.nw), acts) == s;
    InitOk(s.nw);
    AfterKeeps(Init(s.nw), acts);
    AfterWorks(Init(s.nw), acts);
  }

  /** A submitted job that still has something nobody claimed: an unclaimed batch, or a task nobody took up. */
  predicate Unclaimed(job: Job) {
    HasFree(job) || (job.kind == TaskJob && !Published(job))
  }

  /** A job in the ready list has somebody who will still look there: one that is already past it does not do. */
  lemma ReadyIsWatched(s: State)
    requires Reachable(s) && s.ready != []
    ensures Active(s)
  {
    ReachableWorks(s);
  }

  /** No lost work: in every reachable state with something unclaimed, a thread is in a body or will look at the ready
      list before it sleeps, or carries a job with an unclaimed batch, or has a wake-up token, or a caller still posts;
      only for a job in the running list it may instead be a thread about to read that list. */
  lemma NoLostWork(s: State, j: nat)
    requires Reachable(s) && j < |s.jobs| && Unclaimed(s.jobs[j])
    ensures Active(s) || (Published(s.jobs[j]) && exists t: nat :: Scout(s, t))
  {
    ReachableWorks(s);
    JobFact(s, j);
    var job := s.jobs[j];
    if job.place.InReady? {
      assert j in s.ready;
    } else if job.place.Held? {
      var t := job.place.holder;
      ThreadFact(s, t);
      assert Worker(s, t);
    } else {
      DoneCountFull(job.batches);
      assert j in s.running;
    }
  }

  /** All workers sleep without a token and no caller is in the middle of its posts. */
  predicate AllAsleep(s: State) {
    && |s.tokens| == |s.threads|
    && (forall t :: 0 <= t < |s.threads| ==> s.threads[t].ctl.Sleep? && s.tokens[t] == 0)
    && (forall j :: 0 <= j < |s.jobs| ==> !s.jobs[j].phase.Posting?)
  }

  lemma AsleepIsIdle(s: State)
    requires Inv(s) && AllAsleep(s)
    ensures !Active(s) && forall t: nat :: !Scout(s, t)
    ensures forall t :: 0 <= t < |s.threads| ==> s.threads[t] == Thread([], Sleep)
  {
    forall t | 0 <= t < |s.threads| ensures s.threads[t] == Thread([], Sleep) {
      ThreadFact(s, t);
    }
  }

  /** When everybody sleeps all work is done: ready is empty, every batch has run, every task has run, and every job
      has been signalled. */
  lemma AsleepMeansFinished(s: State, j: nat)
    requires Reachable(s) && AllAsleep(s)
    ensures s.ready == []
    ensures j < |s.jobs| ==>
              var job := s.jobs[j];
              && IsDone(job) && job.posts > 0
              && (job.kind == ForJob ==> forall b :: 0 <= b < |job.batches| ==> job.batches[b].mark.Finished?)
              && (job.kind == TaskJob ==> job.runs > 0)
  {
    ReachableWorks(s);
    AsleepIsIdle(s);
    if j < |s.jobs| {
      JobFact(s, j);
      var job := s.jobs[j];
      if Unclaimed(job) {
        NoLostWork(s, j);
      }
      DoneCountFull(job.batches);
    }
  }
}
