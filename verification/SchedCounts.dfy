/** How often things happen along a run: passes of the done test and posts, starts and complete runs of a task. */
module SchedCounts {
  import opened SchedModel
  import opened SchedInv
  import opened SchedSteps
  import opened SchedRuns

  /** A thread passes the done test of a job; it starts to run a task; a search of the running list ends with a task. */
  datatype Event = Passes(j: nat) | Starts(j: nat) | Finds(j: nat)

  predicate Happens(s: State, a: Action, e: Event)
    requires Allowed(s, a)
  {
    && a.Step? && a.c == Go
    && var was := s.threads[a.t].ctl;
       match e
       case Passes(j) => was.Test? && was.j == j && IsDone(s.jobs[j])
       case Starts(j) => Next(s, a).threads[a.t].ctl == Run(j, false)
       case Finds(j) => was.Walk? && Next(s, a).threads[a.t].ctl == Run(j, false)
  }

  function Tally(s: State, acts: seq<Action>, e: Event): nat
    requires Runs(s, acts)
    decreases |acts|
  {
    if acts == [] then 0 else (if Happens(s, acts[0], e) then 1 else 0) + Tally(Next(s, acts[0]), acts[1..], e)
  }

  /** Threads that passed the done test and have not posted yet; threads in a task's function, or suspended in it. */
  datatype Role = Poster(j: nat) | Runner(j: nat)

  predicate Plays(th: Thread, r: Role) {
    match r
    case Poster(j) => (th.ctl.SetDone? || th.ctl.Unlist? || th.ctl.Signal?) && th.ctl.j == j
    case Runner(j) => if th.susp == [] then th.ctl.Run? && th.ctl.j == j else th.susp[0] == InTask(j)
  }

  function Count(threads: seq<Thread>, r: Role): nat {
    if threads == [] then 0 else Count(threads[..|threads| - 1], r) + if Plays(threads[|threads| - 1], r) then 1 else 0
  }

  lemma {:induction false} CountUpdate(threads: seq<Thread>, t: nat, th: Thread, r: Role)
    requires t < |threads|
    ensures Count(threads[t := th], r)
            == Count(threads, r) - (if Plays(threads[t], r) then 1 else 0) + (if Plays(th, r) then 1 else 0)
    decreases |threads|
  {
    var n := |threads| - 1;
    if t < n {
      CountUpdate(threads[..n], t, th, r);
      assert threads[t := th][..n] == threads[..n][t := th];
    } else {
      assert threads[t := th][..n] == threads[..n];
    }
  }

  lemma {:induction false} NobodyPlays(threads: seq<Thread>, r: Role)
    requires forall t :: 0 <= t < |threads| ==> !Plays(threads[t], r)
    ensures Count(threads, r) == 0
    decreases |threads|
  {
    if threads != [] {
      NobodyPlays(threads[..|threads| - 1], r);
    }
  }

  function PostsOf(s: State, j: nat): nat {
    if j < |s.jobs| then s.jobs[j].posts else 0
  }

  function RunsOf(s: State, j: nat): nat {
    if j < |s.jobs| then s.jobs[j].runs else 0
  }

  function One(b: bool): nat {
    if b then 1 else 0
  }

  // ----- one step -----

  /** Callers outside change neither counters nor threads. */
  lemma CallerCounts(s: State, a: Action, j: nat)
    requires Allowed(s, a) && !a.Step?
    ensures Next(s, a).threads == s.threads
    ensures PostsOf(Next(s, a), j) == PostsOf(s, j) && RunsOf(Next(s, a), j) == RunsOf(s, j)
  {
  }

  lemma EndingPosts(s: State, t: nat, j: nat)
    requires Inv(s) && Enabled(s, t, Go) && Ending(s.threads[t].ctl)
    ensures var s' := ThreadStep(s, t, Go);
            PostsOf(s', j) + One(Plays(s'.threads[t], Poster(j)))
            == PostsOf(s, j) + One(Plays(s.threads[t], Poster(j))) + One(Happens(s, Step(t, Go), Passes(j)))
  {
  }

  lemma PostsStay(s: State, t: nat, c: Choice, j: nat)
    requires Inv(s) && Enabled(s, t, c) && !(c == Go && Ending(s.threads[t].ctl))
    ensures PostsOf(ThreadStep(s, t, c), j) == PostsOf(s, j)
  {
  }

  /** Where the steps outside the end of fly_sched_exec_job lead. */
  lemma NoPosterYet(s: State, t: nat, c: Choice)
    requires Inv(s) && Enabled(s, t, c) && !c.Push? && !(c == Go && Ending(s.threads[t].ctl))
    ensures var s' := ThreadStep(s, t, c);
            t < |s'.threads| && var ctl := s'.threads[t].ctl; !ctl.SetDone? && !ctl.Unlist? && !ctl.Signal?
  {
  }

  lemma OtherPosts(s: State, t: nat, c: Choice, j: nat)
    requires Inv(s) && Enabled(s, t, c) && !(c == Go && Ending(s.threads[t].ctl))
    ensures var s' := ThreadStep(s, t, c);
            && t < |s'.threads| && PostsOf(s', j) == PostsOf(s, j)
            && Plays(s'.threads[t], Poster(j)) == Plays(s.threads[t], Poster(j))
  {
    PostsStay(s, t, c, j);
    if !c.Push? {
      NoPosterYet(s, t, c);
    }
  }

  lemma PostsBalance(s: State, a: Action, j: nat)
    requires Inv(s) && Allowed(s, a)
    ensures var s' := Next(s, a);
            PostsOf(s', j) + Count(s'.threads, Poster(j))
            == PostsOf(s, j) + Count(s.threads, Poster(j)) + One(Happens(s, a, Passes(j)))
  {
    if a.Step? {
      StepStack(s, a.t, a.c);
      CountUpdate(s.threads, a.t, Next(s, a).threads[a.t], Poster(j));
      if a.c == Go && Ending(s.threads[a.t].ctl) {
        EndingPosts(s, a.t, j);
      } else {
        OtherPosts(s, a.t, a.c, j);
      }
    } else {
      CallerCounts(s, a, j);
    }
  }

  lemma TaskRuns(s: State, t: nat, j: nat)
    requires Inv(s) && Enabled(s, t, Go) && (s.threads[t].ctl.Run? || s.threads[t].ctl.Walk? || s.threads[t].ctl.Marked?)
    ensures var s' := ThreadStep(s, t, Go);
            RunsOf(s', j) + One(Plays(s'.threads[t], Runner(j)))
            == RunsOf(s, j) + One(Plays(s.threads[t], Runner(j))) + One(Happens(s, Step(t, Go), Starts(j)))
  {
    ThreadFact(s, t);
  }

  lemma NestedRuns(s: State, t: nat, c: Choice, j: nat)
    requires Inv(s) && Enabled(s, t, c) && (c.Fork? || c.Push? || (c == Go && s.threads[t].ctl.Await?))
    ensures var s' := ThreadStep(s, t, c);
            && t < |s'.threads| && RunsOf(s', j) == RunsOf(s, j)
            && Plays(s'.threads[t], Runner(j)) == Plays(s.threads[t], Runner(j))
            && !Happens(s, Step(t, c), Starts(j))
  {
    ThreadFact(s, t);
    if c == Go {
      AwaitStack(s, t, s.threads[t].ctl.j);
    }
  }

  lemma RunsStay(s: State, t: nat, c: Choice, j: nat)
    requires Inv(s) && Enabled(s, t, c) && (c == Go ==> !s.threads[t].ctl.Run?)
    ensures RunsOf(ThreadStep(s, t, c), j) == RunsOf(s, j)
  {
  }

  lemma NoRunStarts(s: State, t: nat)
    requires Inv(s) && Enabled(s, t, Go)
    requires var ctl := s.threads[t].ctl; !ctl.Run? && !ctl.Walk? && !ctl.Marked? && !ctl.Await?
    ensures var s' := ThreadStep(s, t, Go); t < |s'.threads| && !s'.threads[t].ctl.Run?
  {
  }

  lemma OtherRuns(s: State, t: nat, c: Choice, j: nat)
    requires Inv(s) && Enabled(s, t, c) && (c == Go || c == Backup)
    requires var ctl := s.threads[t].ctl; !ctl.Run? && !ctl.Walk? && !ctl.Marked? && !(c == Go && ctl.Await?)
    ensures var s' := ThreadStep(s, t, c);
            && t < |s'.threads| && RunsOf(s', j) == RunsOf(s, j) && !s'.threads[t].ctl.Run?
            && s'.threads[t].susp == s.threads[t].susp
  {
    RunsStay(s, t, c, j);
    if c == Go {
      NoRunStarts(s, t);
      GoStack(s, t);
    }
  }

  lemma StepRuns(s: State, t: nat, c: Choice, j: nat)
    requires Inv(s) && Enabled(s, t, c)
    ensures var s' := ThreadStep(s, t, c);
            t < |s'.threads|
            && RunsOf(s', j) + One(Plays(s'.threads[t], Runner(j)))
               == RunsOf(s, j) + One(Plays(s.threads[t], Runner(j))) + One(Happens(s, Step(t, c), Starts(j)))
  {
    var ctl := s.threads[t].ctl;
    if c.Fork? || c.Push? || (c == Go && ctl.Await?) {
      NestedRuns(s, t, c, j);
    } else if c == Go && (ctl.Run? || ctl.Walk? || ctl.Marked?) {
      TaskRuns(s, t, j);
    } else {
      OtherRuns(s, t, c, j);
    }
  }

  lemma RunsBalance(s: State, a: Action, j: nat)
    requires Inv(s) && Allowed(s, a)
    ensures var s' := Next(s, a);
            RunsOf(s', j) + Count(s'.threads, Runner(j))
            == RunsOf(s, j) + Count(s.threads, Runner(j)) + One(Happens(s, a, Starts(j)))
  {
    if a.Step? {
      StepStack(s, a.t, a.c);
      CountUpdate(s.threads, a.t, Next(s, a).threads[a.t], Runner(j));
      StepRuns(s, a.t, a.c, j);
    } else {
      CallerCounts(s, a, j);
    }
  }

  // ----- runs -----

  lemma {:induction false} AfterBalance(s: State, acts: seq<Action>, j: nat)
    requires Inv(s) && Runs(s, acts)
    ensures PostsOf(After(s, acts), j) + Count(After(s, acts).threads, Poster(j))
            == PostsOf(s, j) + Count(s.threads, Poster(j)) + Tally(s, acts, Passes(j))
    ensures RunsOf(After(s, acts), j) + Count(After(s, acts).threads, Runner(j))
            == RunsOf(s, j) + Count(s.threads, Runner(j)) + Tally(s, acts, Starts(j))
    decreases |acts|
  {
    if acts != [] {
      PostsBalance(s, acts[0], j);
      RunsBalance(s, acts[0], j);
      NextKeeps(s, acts[0]);
      AfterBalance(Next(s, acts[0]), acts[1..], j);
    }
  }

  /** On every run the posts to a job's semaphore, with the threads on their way to one, are the passes of its done test:
      every pass posts, and nothing else does. */
  lemma PostsArePasses(nw: nat, acts: seq<Action>, j: nat)
    requires nw > 0 && Runs(Init(nw), acts) && j < |After(Init(nw), acts).jobs|
    ensures var s := After(Init(nw), acts);
            s.jobs[j].posts + Count(s.threads, Poster(j)) == Tally(Init(nw), acts, Passes(j))
  {
    InitOk(nw);
    AfterBalance(Init(nw), acts, j);
    NobodyPlays(Init(nw).threads, Poster(j));
  }

  /** On every run the complete runs of a task, with the threads in it, are the starts. */
  lemma RunsAreStarts(nw: nat, acts: seq<Action>, j: nat)
    requires nw > 0 && Runs(Init(nw), acts) && j < |After(Init(nw), acts).jobs|
    ensures var s := After(Init(nw), acts);
            s.jobs[j].runs + Count(s.threads, Runner(j)) == Tally(Init(nw), acts, Starts(j))
  {
    InitOk(nw);
    AfterBalance(Init(nw), acts, j);
    NobodyPlays(Init(nw).threads, Runner(j));
  }

  // ----- how often a task is started -----

  predicate TakenUp(s: State, j: nat) {
    j < |s.jobs| && s.jobs[j].kind == TaskJob && Published(s.jobs[j])
  }

  lemma FindStarts(s: State, t: nat, j: nat)
    requires Inv(s) && Enabled(s, t, Go) && s.threads[t].ctl.Walk?
    ensures Happens(s, Step(t, Go), Starts(j)) == Happens(s, Step(t, Go), Finds(j))
    ensures TakenUp(ThreadStep(s, t, Go), j) == TakenUp(s, j)
  {
  }

  lemma TakeStarts(s: State, t: nat, j: nat)
    requires Inv(s) && Enabled(s, t, Go) && s.threads[t].ctl.Marked?
    ensures !Happens(s, Step(t, Go), Finds(j))
    ensures One(TakenUp(ThreadStep(s, t, Go), j)) == One(TakenUp(s, j)) + One(Happens(s, Step(t, Go), Starts(j)))
  {
    ThreadFact(s, t);
  }

  lemma CallsPublishNothing(s: State, a: Action, j: nat)
    requires Inv(s) && Allowed(s, a) && !(a.Step? && a.c == Go)
    ensures TakenUp(Next(s, a), j) == TakenUp(s, j)
  {
  }

  predicate Moves(c: Ctl) {
    c.Look? || c.Popped? || c.Marked? || c.Enter? || c.Unlist?
  }

  lemma PlacesStay(s: State, t: nat, j: nat)
    requires Inv(s) && Enabled(s, t, Go) && !Moves(s.threads[t].ctl) && j < |s.jobs|
    ensures var s' := ThreadStep(s, t, Go);
            |s'.jobs| == |s.jobs| && s'.jobs[j].place == s.jobs[j].place && s'.jobs[j].kind == s.jobs[j].kind
  {
  }

  lemma MovesPublishNoTask(s: State, t: nat, j: nat)
    requires Inv(s) && Enabled(s, t, Go) && Moves(s.threads[t].ctl) && !s.threads[t].ctl.Marked?
    ensures TakenUp(ThreadStep(s, t, Go), j) == TakenUp(s, j)
  {
    ThreadFact(s, t);
    if s.threads[t].ctl.Look? && s.ready != [] {
      assert s.ready[|s.ready| - 1] in s.ready;
    }
  }

  /** A task is published only by the thread that took it from ready. */
  lemma TakenUpStays(s: State, a: Action, j: nat)
    requires Inv(s) && Allowed(s, a) && (a.Step? && a.c == Go ==> !s.threads[a.t].ctl.Marked?)
    ensures TakenUp(Next(s, a), j) == TakenUp(s, j)
  {
    if !(a.Step? && a.c == Go) {
      CallsPublishNothing(s, a, j);
    } else if Moves(s.threads[a.t].ctl) {
      MovesPublishNoTask(s, a.t, j);
    } else if j < |s.jobs| {
      PlacesStay(s, a.t, j);
    } else {
      GoAddsNoJob(s, a.t);
    }
  }

  lemma NothingStarts(s: State, t: nat, j: nat)
    requires Inv(s) && Enabled(s, t, Go) && !s.threads[t].ctl.Walk? && !s.threads[t].ctl.Marked?
    ensures !Happens(s, Step(t, Go), Starts(j)) && !Happens(s, Step(t, Go), Finds(j))
  {
    if !s.threads[t].ctl.Run? && !s.threads[t].ctl.Await? {
      NoRunStarts(s, t);
    }
  }

  lemma StartsBalance(s: State, a: Action, j: nat)
    requires Inv(s) && Allowed(s, a)
    ensures One(Happens(s, a, Starts(j))) + One(TakenUp(s, j)) == One(Happens(s, a, Finds(j))) + One(TakenUp(Next(s, a), j))
  {
    if a.Step? && a.c == Go && s.threads[a.t].ctl.Walk? {
      FindStarts(s, a.t, j);
    } else if a.Step? && a.c == Go && s.threads[a.t].ctl.Marked? {
      TakeStarts(s, a.t, j);
    } else {
      TakenUpStays(s, a, j);
      if a.Step? && a.c == Go {
        NothingStarts(s, a.t, j);
      }
    }
  }

  lemma {:induction false} AfterStarts(s: State, acts: seq<Action>, j: nat)
    requires Inv(s) && Runs(s, acts)
    ensures Tally(s, acts, Starts(j)) + One(TakenUp(s, j)) == Tally(s, acts, Finds(j)) + One(TakenUp(After(s, acts), j))
    decreases |acts|
  {
    if acts != [] {
      StartsBalance(s, acts[0], j);
      NextKeeps(s, acts[0]);
      AfterStarts(Next(s, acts[0]), acts[1..], j);
    }
  }

  /** On every run a task is started once by the thread that took it from ready, and once for every search of the running
      list that ended with it; so it is started exactly once if and only if no search did. */
  lemma TaskStarts(nw: nat, acts: seq<Action>, j: nat)
    requires nw > 0 && Runs(Init(nw), acts)
    requires var s := After(Init(nw), acts); j < |s.jobs| && s.jobs[j].kind == TaskJob && Published(s.jobs[j])
    ensures Tally(Init(nw), acts, Starts(j)) == 1 + Tally(Init(nw), acts, Finds(j))
    ensures Tally(Init(nw), acts, Starts(j)) == 1 <==> Tally(Init(nw), acts, Finds(j)) == 0
  {
    InitOk(nw);
    AfterStarts(Init(nw), acts, j);
  }
}
