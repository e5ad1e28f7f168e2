/** Waiting never closes a circle: as long as a job is unfinished somebody can take a useful step. */
module SchedProgress {
  import opened SchedModel
  import opened SchedInv
  import opened SchedSteps
  import opened SchedRuns

  /** A thread that waits only works for the job it waits for: each level's job was created by the body one level
      below, so the stack is a chain of descendants in the job tree, and every waited-for job is still awaited. */
  lemma StackIsDescent(s: State, t: nat, lvl: nat)
    requires Reachable(s) && t < |s.threads| && 0 < lvl <= |s.threads[t].susp|
    ensures var th := s.threads[t];
            && !Jobless(th.ctl)
            && LevelJob(th, lvl) < |s.jobs|
            && var job := s.jobs[LevelJob(th, lvl)];
               && job.caller == Nested(t, lvl - 1, LevelJob(th, lvl - 1)) && job.phase == Waiting
               && LevelJob(th, lvl - 1) < LevelJob(th, lvl)
               && job.kind == ForJob
  {
    ReachableOk(s);
    ThreadFact(s, t);
    var th := s.threads[t];
    LevelAwaited(s.jobs, s.running, s.nw, t, th, lvl);
    ParentBefore(s, LevelJob(th, lvl));
  }

  /** The thread is in a body or in the loop around it, publishes a nested job, or waits for a job that it can go on
      with: one with an unclaimed batch, or a finished one. */
  predicate Moving(s: State, t: nat) {
    && t < |s.threads|
    && var th := s.threads[t];
    || th.ctl.Exec?
    || (th.susp != [] && (th.ctl.Enter? || th.ctl.Post?))
    || (th.susp != [] && !Jobless(th.ctl) && th.ctl.j < |s.jobs| && (HasFree(s.jobs[th.ctl.j]) || IsDone(s.jobs[th.ctl.j])))
  }

  predicate InProgress(job: Job) {
    exists b :: 0 <= b < |job.batches| && job.batches[b].mark.Taken?
  }

  /** What the body at level `lvl` waits for: a later parallel-for job. */
  lemma WaitsForLater(s: State, t: nat, lvl: nat)
    requires Inv(s) && t < |s.threads| && lvl < |s.threads[t].susp|
    ensures var th := s.threads[t];
            && !Jobless(th.ctl) && LevelJob(th, lvl) < LevelJob(th, lvl + 1) < |s.jobs|
            && s.jobs[LevelJob(th, lvl + 1)].kind == ForJob
  {
    ThreadFact(s, t);
    LevelAwaited(s.jobs, s.running, s.nw, t, s.threads[t], lvl + 1);
    ParentBefore(s, LevelJob(s.threads[t], lvl + 1));
  }

  /** A thread whose innermost wait is for a job not in progress goes on with it. */
  lemma IdleChildMoves(s: State, t: nat)
    requires Inv(s) && t < |s.threads| && s.threads[t].susp != []
    requires var c := s.threads[t].ctl; !Jobless(c) && c.j < |s.jobs| && !InProgress(s.jobs[c.j])
    requires s.jobs[s.threads[t].ctl.j].kind == ForJob
    ensures Moving(s, t)
  {
    JobFact(s, s.threads[t].ctl.j);
    DoneCountFull(s.jobs[s.threads[t].ctl.j].batches);
  }

  /** The deepest job in progress has an executor that moves. */
  lemma DeepestMoves(s: State, j: nat)
    requires Inv(s) && j < |s.jobs| && s.jobs[j].kind == ForJob && InProgress(s.jobs[j])
    requires forall i :: j < i < |s.jobs| && s.jobs[i].kind == ForJob ==> !InProgress(s.jobs[i])
    ensures exists t: nat :: Moving(s, t)
  {
    JobFact(s, j);
    var b :| 0 <= b < |s.jobs[j].batches| && s.jobs[j].batches[b].mark.Taken?;
    var Taken(t, lvl) := s.jobs[j].batches[b].mark;
    assert FrameIs(s.threads[t], lvl, j, b);
    if lvl < |s.threads[t].susp| {
      StackAscends(s, t, lvl);
      WaitsForLater(s, t, |s.threads[t].susp| - 1);
      IdleChildMoves(s, t);
    }
    assert Moving(s, t);
  }

  lemma {:induction false} NoCircle(s: State, j: nat)
    requires Inv(s) && j < |s.jobs| && s.jobs[j].kind == ForJob && InProgress(s.jobs[j])
    ensures exists t: nat :: Moving(s, t)
    decreases |s.jobs| - j
  {
    if i :| j < i < |s.jobs| && s.jobs[i].kind == ForJob && InProgress(s.jobs[i]) {
      NoCircle(s, i);
    } else {
      DeepestMoves(s, j);
    }
  }

  /** No circular wait, whatever the nesting: while any batch is claimed and unfinished, some thread moves. */
  lemma NoCircularWait(s: State, j: nat)
    requires Reachable(s) && j < |s.jobs| && s.jobs[j].kind == ForJob && InProgress(s.jobs[j])
    ensures exists t: nat :: Moving(s, t)
  {
    ReachableOk(s);
    NoCircle(s, j);
  }

  /** A step that needs no new call from outside: a thread goes on, or a submitting caller posts. */
  predicate CanGoOn(s: State) {
    || (exists t :: 0 <= t < |s.threads| && Enabled(s, t, Go))
    || (exists j :: 0 <= j < |s.jobs| && Allowed(s, CallerPosts(j, false)))
  }

  /** A thread at a state about a job is blocked only by a reader of the running list or a token it waits for. */
  lemma EnabledUnless(s: State, t: nat)
    requires Inv(s) && t < |s.threads|
    requires s.threads[t].ctl.Sleep? ==> s.tokens[t] > 0
    requires s.threads[t].ctl.Await? ==> s.threads[t].ctl.j < |s.jobs| && s.jobs[s.threads[t].ctl.j].sem > 0
    requires s.threads[t].ctl.Walk? || NoWalker(s)
    ensures Enabled(s, t, Go)
  {
    ThreadFact(s, t);
    if s.ready != [] {
      assert s.ready[|s.ready| - 1] in s.ready;
    }
    forall i | 0 <= i < |s.running| ensures s.running[i] < |s.jobs| {
      assert s.running[i] in s.running;
    }
  }

  /** A thread blocked on the semaphore of its nested job: somebody is on the way to post it. */
  lemma AwaitHasPoster(s: State, t: nat)
    requires Inv(s) && t < |s.threads| && s.threads[t].ctl.Await? && NoWalker(s)
    requires s.threads[t].ctl.j < |s.jobs|
    ensures s.jobs[s.threads[t].ctl.j].sem > 0
            || exists u: nat :: u < |s.threads| && Finishing(s.threads[u], s.threads[t].ctl.j) && Enabled(s, u, Go)
  {
    var j := s.threads[t].ctl.j;
    AwaitFacts(s, t, j);
    var job := s.jobs[j];
    if job.sem == 0 {
      assert job.posts == 0;
      EnabledUnless(s, job.closer);
    }
  }
}
