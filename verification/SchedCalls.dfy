/** What a call of the library does, from the call itself: the job it makes, and what is true when it has returned. */
module SchedCalls {
  import opened Split
  import opened SchedModel
  import opened SchedInv
  import opened SchedSteps
  import opened SchedRuns
  import opened SchedLife
  import opened SchedDone
  import opened SchedDrain
  import opened SchedDrainRuns
  import opened SchedFair

  /** fly_parallel_for or fly_parallel_for_arr for [first, last), from outside or from a body. */
  predicate CallsFor(x: Action, first: int, last: int) {
    x == SubmitFor(first, last) || (x.Step? && x.c == Fork(first, last))
  }

  /** fly_push_task, from outside or from a body. */
  predicate CallsTask(x: Action) {
    x.SubmitTask? || (x.Step? && x.c == Push)
  }

  predicate HasReturned(s: State, j: nat) {
    j < |s.jobs| && s.jobs[j].phase.Returned?
  }

  // ----- the call -----

  /** At the start every worker has its two threads, and each can step: it looks for work before it ever sleeps. */
  lemma WorkersStartAwake(nw: nat, t: nat)
    requires nw > 0 && t < 2 * nw
    ensures |Init(nw).threads| == 2 * nw && Reachable(Init(nw)) && Enabled(Init(nw), t, Go)
    ensures Next(Init(nw), Step(t, Go)).threads[t].ctl == SawEmpty
  {
    assert Runs(Init(nw), []) && After(Init(nw), []) == Init(nw);
  }

  /** A caller outside can always call, and so can every body that is running. */
  lemma CallsArePossible(s: State, first: int, last: int)
    requires Reachable(s)
    ensures Allowed(s, SubmitFor(first, last)) && Allowed(s, SubmitTask)
    ensures forall t: nat :: t < |s.threads| && InBody(s.threads[t].ctl) ==>
              Allowed(s, Step(t, Fork(first, last))) && Allowed(s, Step(t, Push))
  {
    ReachableOk(s);
    forall t: nat | t < |s.threads| && InBody(s.threads[t].ctl)
      ensures Allowed(s, Step(t, Fork(first, last))) && Allowed(s, Step(t, Push))
    {
      ThreadFact(s, t);
    }
  }

  /** A call of parallel_for adds exactly one job, for the range of the call and without any call of the body yet. From
      outside it is put at the end of ready; from a body it stays with the thread, whose body is suspended. */
  lemma ForCallAdds(s: State, x: Action, first: int, last: int)
    requires Reachable(s) && Allowed(s, x) && CallsFor(x, first, last)
    ensures var s', j := Next(s, x), |s.jobs|;
            && s'.nw == s.nw && |s'.jobs| == j + 1 && s'.jobs[..j] == s.jobs
            && s'.running == s.running && s'.tokens == s.tokens
            && var job := s'.jobs[j];
               && job.kind == ForJob && job.first == first && job.last == last && job.calls == [] && !IsDone(job)
               && (x.SubmitFor? ==> s'.ready == s.ready + [j] && s'.threads == s.threads && job.phase == Posting(0))
               && (x.Step? ==>
                     && s'.ready == s.ready && job.phase == Waiting && job.place == Held(x.t)
                     && |s'.threads[x.t].susp| == |s.threads[x.t].susp| + 1 && s'.threads[x.t].ctl == Enter(j))
  {
  }

  /** fly_push_task adds exactly one task, at the end of ready and not run yet, and changes nothing else. */
  lemma TaskCallAdds(s: State, x: Action)
    requires Reachable(s) && Allowed(s, x) && CallsTask(x)
    ensures var s', j := Next(s, x), |s.jobs|;
            && s'.nw == s.nw && |s'.jobs| == j + 1 && s'.jobs[..j] == s.jobs && s'.ready == s.ready + [j]
            && s'.running == s.running && s'.tokens == s.tokens && s'.threads == s.threads
            && s'.jobs[j].kind == TaskJob && s'.jobs[j].runs == 0 && !s'.jobs[j].phase.Returned?
            && s'.jobs[j].phase == if x.SubmitTask? then Posting(0) else Waiting
  {
  }

  // ----- what is true when it has returned -----

  lemma {:induction false} ReachableAfter(s: State, acts: seq<Action>)
    requires Reachable(s) && Runs(s, acts)
    ensures Reachable(After(s, acts))
    decreases |acts|
  {
    if acts != [] {
      ReachableNext(s, acts[0]);
      ReachableAfter(Next(s, acts[0]), acts[1..]);
    }
  }

  /** The job of the call is still there, for the same range and the same number of workers. */
  lemma CallKeepsRange(s: State, x: Action, first: int, last: int, acts: seq<Action>)
    requires Reachable(s) && Allowed(s, x) && CallsFor(x, first, last) && Runs(Next(s, x), acts)
    ensures var s', j := After(Next(s, x), acts), |s.jobs|;
            && Reachable(s') && s'.nw == s.nw && j < |s'.jobs|
            && s'.jobs[j].kind == ForJob && s'.jobs[j].first == first && s'.jobs[j].last == last
            && (s'.jobs[j].phase.Returned? ==> IsDone(s'.jobs[j]))
  {
    ForCallAdds(s, x, first, last);
    ReachableNext(s, x);
    ReachableOk(Next(s, x));
    JobsMoveForward(Next(s, x), acts, |s.jobs|);
    SameWorkers(Next(s, x), acts);
    ReachableAfter(Next(s, x), acts);
    ReachableOk(After(Next(s, x), acts));
    JobFact(After(Next(s, x), acts), |s.jobs|);
  }

  /** When a call of parallel_for for [first, last) has returned, the body was called exactly once for each index its
      batches cover, [first, last) or one for each worker from `first` when there are fewer, and for no other. */
  lemma ForCallRunsEachOnce(s: State, x: Action, first: int, last: int, acts: seq<Action>)
    requires Reachable(s) && Allowed(s, x) && CallsFor(x, first, last) && Runs(Next(s, x), acts)
    requires HasReturned(After(Next(s, x), acts), |s.jobs|)
    ensures forall i :: multiset(After(Next(s, x), acts).jobs[|s.jobs|].calls)[i]
                        == if first <= i < CoveredEnd(first, last, s.nw) then 1 else 0
  {
    CallKeepsRange(s, x, first, last, acts);
    ExactlyOnce(After(Next(s, x), acts), |s.jobs|);
  }

  /** The promise, once for each index of the range that was asked for, is kept if and only if that range has, forward or
      backward, at least one index per worker. */
  lemma ForCallKeepsPromiseIff(s: State, x: Action, first: int, last: int, acts: seq<Action>)
    requires Reachable(s) && Allowed(s, x) && CallsFor(x, first, last) && Runs(Next(s, x), acts)
    requires HasReturned(After(Next(s, x), acts), |s.jobs|)
    ensures (forall i :: multiset(After(Next(s, x), acts).jobs[|s.jobs|].calls)[i] == if first <= i < last then 1 else 0)
            <==> (last - first >= s.nw || first - last >= s.nw)
  {
    CallKeepsRange(s, x, first, last, acts);
    ExactlyOnceIff(After(Next(s, x), acts), |s.jobs|);
  }

  /** When the wait for a pushed task has returned, or the task has been signalled, its function has run to its end. */
  lemma TaskCallRuns(s: State, x: Action, acts: seq<Action>)
    requires Reachable(s) && Allowed(s, x) && CallsTask(x) && Runs(Next(s, x), acts)
    ensures var s', j := After(Next(s, x), acts), |s.jobs|;
            && j < |s'.jobs| && s'.jobs[j].kind == TaskJob
            && (s'.jobs[j].posts > 0 || s'.jobs[j].phase.Returned? ==> s'.jobs[j].runs > 0)
  {
    TaskCallAdds(s, x);
    ReachableNext(s, x);
    ReachableOk(Next(s, x));
    JobsMoveForward(Next(s, x), acts, |s.jobs|);
    ReachableAfter(Next(s, x), acts);
    TaskResultIsThere(After(Next(s, x), acts), |s.jobs|);
  }

  // ----- every call completes -----

  /** The first `k` ticks of an endless run as a run. */
  lemma {:induction false} Prefix(states: nat -> State, ticks: nat -> Tick, k: nat) returns (acts: seq<Action>)
    requires Endless(states, ticks)
    ensures Runs(states(0), acts) && After(states(0), acts) == states(k)
  {
    acts := [];
    if k > 0 {
      var h: nat := k - 1;
      acts := Prefix(states, ticks, h);
      assert Leads(states(h), ticks(h), states(h + 1));
      if ticks(h).Does? {
        RunsOn(states(0), acts, ticks(h).a);
        acts := acts + [ticks(h).a];
      }
    }
  }

  /** What a call of parallel_for has brought about in a state. */
  ghost predicate ForServed(s: State, j: nat, first: int, last: int) {
    && s.nw > 0 && HasReturned(s, j)
    && forall i :: multiset(s.jobs[j].calls)[i] == if first <= i < CoveredEnd(first, last, s.nw) then 1 else 0
  }

  /** Every call of parallel_for, from outside or nested, returns on every fair run, with its range run exactly once. */
  lemma ForCallCompletes(s: State, x: Action, first: int, last: int, states: nat -> State, ticks: nat -> Tick)
    requires Reachable(s) && Allowed(s, x) && CallsFor(x, first, last)
    requires states(0) == Next(s, x) && Endless(states, ticks) && Fair(states, ticks)
    ensures exists n: nat :: ForServed(states(n), |s.jobs|, first, last)
  {
    FairRunsFinish(states, ticks);
    var n: nat :| CompletedFrom(states, n);
    assert Completed(states(n));
    var acts := Prefix(states, ticks, n);
    CallKeepsRange(s, x, first, last, acts);
    ForCallRunsEachOnce(s, x, first, last, acts);
    assert ForServed(states(n), |s.jobs|, first, last);
  }

  ghost predicate TaskServed(s: State, j: nat) {
    HasReturned(s, j) && s.jobs[j].kind == TaskJob && s.jobs[j].runs > 0
  }

  /** Every pushed task runs, and the wait for it returns, on every fair run. */
  lemma TaskCallCompletes(s: State, x: Action, states: nat -> State, ticks: nat -> Tick)
    requires Reachable(s) && Allowed(s, x) && CallsTask(x)
    requires states(0) == Next(s, x) && Endless(states, ticks) && Fair(states, ticks)
    ensures exists n: nat :: TaskServed(states(n), |s.jobs|)
  {
    FairRunsFinish(states, ticks);
    var n: nat :| CompletedFrom(states, n);
    assert Completed(states(n));
    var acts := Prefix(states, ticks, n);
    TaskCallRuns(s, x, acts);
    assert TaskServed(states(n), |s.jobs|);
  }

  // ----- a nested call returns to its body -----

  /** The thread is above nesting level `lvl` before every action of the run. */
  predicate StaysAbove(s: State, acts: seq<Action>, t: nat, lvl: nat)
    requires Runs(s, acts)
    decreases |acts|
  {
    acts == [] || (t < |s.threads| && |s.threads[t].susp| > lvl && StaysAbove(Next(s, acts[0]), acts[1..], t, lvl))
  }

  /** The suspended bodies up to level `lvl` are those of `susp`. */
  predicate SameBelow(s: State, t: nat, lvl: nat, susp: seq<Frame>) {
    t < |s.threads| && |s.threads[t].susp| > lvl && |susp| == lvl + 1 && s.threads[t].susp[..lvl + 1] == susp
  }

  /** The thread is back in the body it had suspended at level `lvl`, at the point where that called. */
  predicate BackAt(s: State, t: nat, lvl: nat, susp: seq<Frame>) {
    |susp| == lvl + 1 && t < |s.threads| && s.threads[t] == Thread(susp[..lvl], BodyBack(susp[lvl]))
  }

  lemma ForkStack(s: State, t: nat, c: Choice)
    requires Inv(s) && Enabled(s, t, c) && (c.Fork? || c.Push?)
    ensures var th := ThreadStep(s, t, c).threads[t];
            |th.susp| >= |s.threads[t].susp| && th.susp[..|s.threads[t].susp|] == s.threads[t].susp
  {
  }

  lemma AwaitPops(s: State, t: nat)
    requires Inv(s) && Enabled(s, t, Go) && s.threads[t].ctl.Await?
    ensures var susp := s.threads[t].susp;
            && susp != []
            && ThreadStep(s, t, Go).threads[t] == Thread(susp[..|susp| - 1], BodyBack(susp[|susp| - 1]))
  {
  }

  lemma StackStep(s: State, t: nat, c: Choice, lvl: nat, susp: seq<Frame>)
    requires Inv(s) && Enabled(s, t, c) && SameBelow(s, t, lvl, susp)
    ensures SameBelow(ThreadStep(s, t, c), t, lvl, susp) || BackAt(ThreadStep(s, t, c), t, lvl, susp)
  {
    var was := s.threads[t].susp;
    StepStack(s, t, c);
    if c.Fork? || c.Push? {
      ForkStack(s, t, c);
      var now := ThreadStep(s, t, c).threads[t].susp;
      assert now[..lvl + 1] == now[..|was|][..lvl + 1];
    } else if c == Go && s.threads[t].ctl.Await? {
      AwaitPops(s, t);
      if |was| == lvl + 1 {
        assert was == susp;
      } else {
        assert was[..|was| - 1][..lvl + 1] == was[..lvl + 1];
      }
    } else if c == Go {
      GoStack(s, t);
    }
  }

  lemma StackNext(s: State, a: Action, t: nat, lvl: nat, susp: seq<Frame>)
    requires Inv(s) && Allowed(s, a) && SameBelow(s, t, lvl, susp)
    ensures SameBelow(Next(s, a), t, lvl, susp) || BackAt(Next(s, a), t, lvl, susp)
  {
    if a.Step? && a.t == t {
      StackStep(s, t, a.c, lvl, susp);
    } else if a.Step? {
      StepStack(s, a.t, a.c);
    }
  }

  lemma {:induction false} StackAfter(s: State, acts: seq<Action>, t: nat, lvl: nat, susp: seq<Frame>)
    requires Inv(s) && Runs(s, acts) && StaysAbove(s, acts, t, lvl)
    requires SameBelow(s, t, lvl, susp) || (acts == [] && BackAt(s, t, lvl, susp))
    ensures SameBelow(After(s, acts), t, lvl, susp) || BackAt(After(s, acts), t, lvl, susp)
    decreases |acts|
  {
    if acts != [] {
      StackNext(s, acts[0], t, lvl, susp);
      NextKeeps(s, acts[0]);
      StackAfter(Next(s, acts[0]), acts[1..], t, lvl, susp);
    }
  }

  /** A nested parallel_for: when the thread first comes back to the level of the body that called, it is in that very
      body again, inside the very call of the function that it was in, and the nested job is done and its call returned. */
  lemma ForkReturns(s: State, t: nat, first: int, last: int, acts: seq<Action>)
    requires Reachable(s) && Enabled(s, t, Fork(first, last)) && Runs(Next(s, Step(t, Fork(first, last))), acts)
    requires StaysAbove(Next(s, Step(t, Fork(first, last))), acts, t, |s.threads[t].susp|)
    requires var s' := After(Next(s, Step(t, Fork(first, last))), acts);
             t < |s'.threads| && |s'.threads[t].susp| <= |s.threads[t].susp|
    ensures var s' := After(Next(s, Step(t, Fork(first, last))), acts);
            && s'.threads[t] == s.threads[t]
            && HasReturned(s', |s.jobs|) && IsDone(s'.jobs[|s.jobs|])
  {
    var x := Step(t, Fork(first, last));
    var s1, th := Next(s, x), s.threads[t];
    var susp := th.susp + [BodyFrame(th.ctl)];
    ReachableOk(s);
    ReachableNext(s, x);
    ReachableOk(s1);
    StackAfter(s1, acts, t, |th.susp|, susp);
    assert susp[..|th.susp|] == th.susp;
    CallKeepsRange(s, x, first, last, acts);
    NestedHasReturned(s, x, first, last, acts);
  }

  /** The nested job is awaited as long as the thread is above the level of the body that called. */
  lemma NestedHasReturned(s: State, x: Action, first: int, last: int, acts: seq<Action>)
    requires Reachable(s) && Allowed(s, x) && x.Step? && x.c == Fork(first, last) && Runs(Next(s, x), acts)
    requires var s' := After(Next(s, x), acts); x.t < |s'.threads| && |s'.threads[x.t].susp| <= |s.threads[x.t].susp|
    ensures HasReturned(After(Next(s, x), acts), |s.jobs|)
  {
    var s1, s', j := Next(s, x), After(Next(s, x), acts), |s.jobs|;
    ReachableNext(s, x);
    ReachableOk(s1);
    JobsMoveForward(s1, acts, j);
    ReachableAfter(s1, acts);
    ReachableOk(s');
    JobFact(s', j);
  }
}
