/** Who is told of a job. */
module SchedTell {
  import opened SchedModel
  import opened SchedInv
  import opened SchedSteps
  import opened SchedRuns
  import opened SchedLife

  // ----- every worker is told once -----

  /** The wake-up tokens of the two threads of a worker. */
  function WorkerTokens(s: State, w: nat): nat {
    if 2 * w + 1 < |s.tokens| then s.tokens[2 * w] + s.tokens[2 * w + 1] else 0
  }

  function Given(s: State, a: Action, w: nat): int
    requires Allowed(s, a)
  {
    WorkerTokens(Next(s, a), w) - WorkerTokens(s, w)
  }

  /** What worker `w` got during a run from the caller that submitted job `j`. */
  function FromCaller(s: State, acts: seq<Action>, j: nat, w: nat): int
    requires Runs(s, acts)
    decreases |acts|
  {
    if acts == [] then 0
    else (if acts[0].CallerPosts? && acts[0].j == j then Given(s, acts[0], w) else 0)
         + FromCaller(Next(s, acts[0]), acts[1..], j, w)
  }

  /** What worker `w` got during a run from thread `t`. */
  function FromThread(s: State, acts: seq<Action>, t: nat, w: nat): int
    requires Runs(s, acts)
    decreases |acts|
  {
    if acts == [] then 0
    else (if acts[0].Step? && acts[0].t == t then Given(s, acts[0], w) else 0)
         + FromThread(Next(s, acts[0]), acts[1..], t, w)
  }

  function ToldBefore(job: Job, w: nat): int {
    if job.phase.Posting? && job.phase.i <= w then 0 else 1
  }

  lemma OtherPhases(s: State, t: nat, c: Choice, j: nat)
    requires Inv(s) && Enabled(s, t, c) && j < |s.jobs| && !(c == Go && s.threads[t].ctl.Await?)
    ensures j < |ThreadStep(s, t, c).jobs| && ThreadStep(s, t, c).jobs[j].phase == s.jobs[j].phase
  {
  }

  /** A thread changes the phase of a job only from waiting to returned. */
  lemma StepPhase(s: State, t: nat, c: Choice, j: nat)
    requires Inv(s) && Enabled(s, t, c) && j < |s.jobs|
    ensures var s' := ThreadStep(s, t, c);
            && j < |s'.jobs|
            && (s'.jobs[j].phase == s.jobs[j].phase || (!s.jobs[j].phase.Posting? && !s'.jobs[j].phase.Posting?))
  {
    if c == Go && s.threads[t].ctl.Await? {
      AwaitFacts(s, t, s.threads[t].ctl.j);
    } else {
      OtherPhases(s, t, c, j);
    }
  }

  lemma CallerStep(s: State, a: Action, j: nat, w: nat)
    requires Inv(s) && Allowed(s, a) && j < |s.jobs| && w < s.nw
    ensures j < |Next(s, a).jobs|
    ensures ToldBefore(Next(s, a).jobs[j], w)
            == ToldBefore(s.jobs[j], w) + if a.CallerPosts? && a.j == j then Given(s, a, w) else 0
  {
    if a.Step? {
      StepPhase(s, a.t, a.c, j);
    }
  }

  lemma {:induction false} CallerTellsSoFar(s: State, acts: seq<Action>, j: nat, w: nat)
    requires Inv(s) && Runs(s, acts) && j < |s.jobs| && w < s.nw
    ensures j < |After(s, acts).jobs|
    ensures ToldBefore(After(s, acts).jobs[j], w) == ToldBefore(s.jobs[j], w) + FromCaller(s, acts, j, w)
    decreases |acts|
  {
    if acts != [] {
      CallerStep(s, acts[0], j, w);
      NextKeeps(s, acts[0]);
      CallerTellsSoFar(Next(s, acts[0]), acts[1..], j, w);
    }
  }

  /** fly_sched_add_job: between the submission and the moment the caller waits it gives every worker exactly one token,
      to one of its threads, whatever happens in between. */
  lemma CallerTellsEveryWorker(s: State, submit: Action, acts: seq<Action>, w: nat)
    requires Reachable(s) && (submit.SubmitFor? || submit.SubmitTask?) && Allowed(s, submit)
    requires Runs(Next(s, submit), acts) && w < s.nw
    ensures var j, s' := |s.jobs|, After(Next(s, submit), acts);
            j < |s'.jobs| && (!s'.jobs[j].phase.Posting? ==> FromCaller(Next(s, submit), acts, j, w) == 1)
  {
    ReachableOk(s);
    NextKeeps(s, submit);
    CallerTellsSoFar(Next(s, submit), acts, |s.jobs|, w);
  }

  /** The thread is about to publish parallel-for job `j`, or in the posting loop after that. */
  predicate Tells(s: State, t: nat, j: nat) {
    && t < |s.threads|
    && var c := s.threads[t].ctl;
       (c.Enter? || c.Post? || (c.Popped? && c.j < |s.jobs| && s.jobs[c.j].kind == ForJob)) && c.j == j
  }

  /** That is so before every action of the run. */
  predicate Telling(s: State, acts: seq<Action>, t: nat, j: nat)
    requires Runs(s, acts)
    decreases |acts|
  {
    acts == [] || (Tells(s, t, j) && Telling(Next(s, acts[0]), acts[1..], t, j))
  }

  /** What worker `w` has got from a thread of worker `own` at that point; the loop ends at `nw`. */
  function ToldAt(c: Ctl, own: nat, w: nat): int {
    if w == own || c.Enter? || c.Popped? || (c.Post? && c.i <= w) then 0 else 1
  }

  lemma CallersLeaveThreads(s: State, a: Action)
    requires Allowed(s, a) && !a.Step?
    ensures Next(s, a).threads == s.threads
  {
  }

  lemma OtherSteps(s: State, a: Action, t: nat)
    requires Inv(s) && Allowed(s, a) && t < |s.threads| && !(a.Step? && a.t == t)
    ensures |Next(s, a).threads| == |s.threads| && Next(s, a).threads[t] == s.threads[t]
  {
    if a.Step? {
      StepStack(s, a.t, a.c);
    } else {
      CallersLeaveThreads(s, a);
    }
  }

  /** Where the thread goes from there. */
  ghost predicate StillOrOver(s: State, t: nat, j: nat) {
    || Tells(s, t, j)
    || (t < |s.threads| && s.threads[t].ctl == if s.threads[t].susp == [] then Claim(j, 0) else Check(j))
  }

  lemma PostTells(s: State, t: nat, j: nat, backup: bool, w: nat)
    requires Inv(s) && t < |s.threads| && s.threads[t].ctl.Post? && s.threads[t].ctl.j == j && w < s.nw
    ensures var s' := PostStep(s, t, backup);
            && StillOrOver(s', t, j)
            && ToldAt(s'.threads[t].ctl, t / 2, w)
               == ToldAt(s.threads[t].ctl, t / 2, w) + WorkerTokens(s', w) - WorkerTokens(s, w)
  {
    ThreadFact(s, t);
  }

  /** Publishing leads to the start of the loop. */
  lemma PublishTells(s: State, t: nat, j: nat, w: nat)
    requires Inv(s) && Enabled(s, t, Go) && Tells(s, t, j) && !s.threads[t].ctl.Post? && w < s.nw
    ensures var s' := ThreadStep(s, t, Go);
            s'.threads == s.threads[t := s.threads[t].(ctl := Post(j, 0))] && WorkerTokens(s', w) == WorkerTokens(s, w)
  {
  }

  lemma TellStep(s: State, t: nat, c: Choice, j: nat, w: nat)
    requires Inv(s) && Enabled(s, t, c) && Tells(s, t, j) && w < s.nw
    ensures var s' := ThreadStep(s, t, c);
            && StillOrOver(s', t, j)
            && ToldAt(s'.threads[t].ctl, t / 2, w) == ToldAt(s.threads[t].ctl, t / 2, w) + Given(s, Step(t, c), w)
  {
    if s.threads[t].ctl.Post? {
      PostTells(s, t, j, c == Backup, w);
      assert ThreadStep(s, t, c) == PostStep(s, t, c == Backup);
    } else {
      PublishTells(s, t, j, w);
    }
  }

  lemma OthersLeaveKind(s: State, a: Action, j: nat)
    requires Inv(s) && Allowed(s, a) && j < |s.jobs|
    ensures j < |Next(s, a).jobs| && Next(s, a).jobs[j].kind == s.jobs[j].kind
  {
    NextLater(s, a, j);
  }

  lemma {:induction false} ThreadTellsSoFar(s: State, acts: seq<Action>, t: nat, j: nat, w: nat)
    requires Inv(s) && Runs(s, acts) && StillOrOver(s, t, j) && w < s.nw && Telling(s, acts, t, j)
    ensures StillOrOver(After(s, acts), t, j)
    ensures ToldAt(After(s, acts).threads[t].ctl, t / 2, w)
            == ToldAt(s.threads[t].ctl, t / 2, w) + FromThread(s, acts, t, w)
    decreases |acts|
  {
    if acts != [] {
      if acts[0].Step? && acts[0].t == t {
        TellStep(s, t, acts[0].c, j, w);
      } else {
        OtherSteps(s, acts[0], t);
        if s.threads[t].ctl.Popped? {
          OthersLeaveKind(s, acts[0], j);
        }
      }
      NextKeeps(s, acts[0]);
      ThreadTellsSoFar(Next(s, acts[0]), acts[1..], t, j, w);
    }
  }

  /** fly_sched_get_job and fly_sched_add_job_from_worker: from before the publication of a parallel-for job to the end of
      the posting loop after it, however interleaved, every worker but the thread's own gets exactly one token from the
      thread and its own gets none; and then the thread turns to the batches of that job. */
  lemma ThreadTellsEveryOther(s: State, acts: seq<Action>, t: nat, j: nat, w: nat)
    requires Reachable(s) && Runs(s, acts) && t < |s.threads| && w < s.nw
    requires s.threads[t].ctl == Enter(j) || (s.threads[t].ctl == Popped(j) && j < |s.jobs| && s.jobs[j].kind == ForJob)
    requires Telling(s, acts, t, j) && !Tells(After(s, acts), t, j)
    ensures var s' := After(s, acts);
            && t < |s'.threads|
            && s'.threads[t].ctl == if s'.threads[t].susp == [] then Claim(j, 0) else Check(j)
    ensures FromThread(s, acts, t, w) == if w == t / 2 then 0 else 1
  {
    ReachableOk(s);
    ThreadTellsSoFar(s, acts, t, j, w);
  }

  /** The thread a post wakes: the main or the backup thread of worker `i`, whichever fly_worker_work_available chose. */
  lemma ChosenThreadIsWoken(s: State, a: Action, i: nat, backup: bool)
    requires Reachable(s) && Allowed(s, a) && i < s.nw
    requires || (a.CallerPosts? && s.jobs[a.j].phase == Posting(i) && a.backup == backup)
             || (a.Step? && s.threads[a.t].ctl.Post? && s.threads[a.t].ctl.i == i && i != a.t / 2
                 && a.c == if backup then Backup else Go)
    ensures var t := 2 * i + if backup then 1 else 0;
            t < |s.tokens| && Next(s, a).tokens == s.tokens[t := s.tokens[t] + 1]
  {
    ReachableOk(s);
  }
}
