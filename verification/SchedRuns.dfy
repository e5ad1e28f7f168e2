/** The invariant over whole runs: it holds in every reachable state. */
module SchedRuns {
  import opened SchedModel
  import opened SchedInv
  import opened SchedSteps

  lemma InitOk(nw: nat)
    requires nw > 0
    ensures Inv(Init(nw))
  {
  }

  lemma LookKeeps(s: State, t: nat)
    requires Inv(s) && Enabled(s, t, Go) && s.threads[t].ctl.Look?
    ensures Inv(LookStep(s, t))
  {
    if s.ready == [] {
      StepIdle(s, LookStep(s, t), t, SawEmpty);
    } else {
      StepLookPop(s, t, s.ready[|s.ready| - 1]);
    }
  }

  lemma WalkKeeps(s: State, t: nat)
    requires Inv(s) && Enabled(s, t, Go) && s.threads[t].ctl.Walk?
    ensures Inv(WalkStep(s, t))
  {
    var k := s.threads[t].ctl.k;
    if k < |s.running| {
      if IsDone(s.jobs[s.running[k]]) {
        StepIdle(s, WalkStep(s, t), t, Walk(k + 1));
      } else {
        StepWalkTakes(s, t, k);
      }
    } else if k == 0 {
      StepIdle(s, WalkStep(s, t), t, Sleep);
    } else {
      StepWalkTakes(s, t, k - 1);
    }
  }

  lemma PoppedKeeps(s: State, t: nat, j: nat)
    requires Inv(s) && Enabled(s, t, Go) && s.threads[t].ctl == Popped(j)
    ensures Inv(PoppedStep(s, t))
  {
    if s.jobs[j].kind == ForJob {
      StepEnters(s, t, j, Post(j, 0));
    } else {
      StepMarksTask(s, t, j);
    }
  }

  lemma EntersKeeps(s: State, t: nat, j: nat)
    requires Inv(s) && Enabled(s, t, Go) && (s.threads[t].ctl == Marked(j) || s.threads[t].ctl == Enter(j))
    ensures Inv(ThreadStep(s, t, Go))
  {
    Facts(s, t, j);
    StepEnters(s, t, j, if s.jobs[j].kind == ForJob then Post(j, 0) else Run(j, false));
  }

  lemma PostKeeps(s: State, t: nat, j: nat, i: nat, backup: bool)
    requires Inv(s) && t < |s.threads| && s.threads[t].ctl == Post(j, i)
    ensures Inv(PostStep(s, t, backup))
  {
    if i >= s.nw {
      StepPosted(s, t, j, i);
    } else {
      StepPost(s, PostStep(s, t, backup), t, j, i);
    }
  }

  lemma ClaimKeeps(s: State, t: nat, j: nat, pos: nat)
    requires Inv(s) && Enabled(s, t, Go) && s.threads[t].ctl == Claim(j, pos)
    ensures Inv(ClaimStep(s, t))
  {
    if pos == |s.jobs[j].batches| {
      StepClaimMoves(s, t, j, pos, Test(j, true));
    } else if s.jobs[j].batches[pos].mark.Free? {
      StepClaims(s, t, j, pos);
    } else {
      StepClaimMoves(s, t, j, pos, Claim(j, pos + 1));
    }
  }

  lemma ExecKeeps(s: State, t: nat, j: nat, b: nat, at: int, inCall: bool)
    requires Inv(s) && Enabled(s, t, Go) && s.threads[t].ctl == Exec(j, b, at, inCall)
    ensures Inv(ExecStep(s, t))
  {
    if inCall {
      StepCallEnds(s, t, j, b, at);
    } else if at < s.jobs[j].batches[b].span.hi {
      StepCallBegins(s, t, j, b, at);
    } else {
      StepBatchOver(s, t, j, b, at);
    }
  }

  lemma EndKeeps(s: State, t: nat)
    requires Inv(s) && Enabled(s, t, Go) && Ending(s.threads[t].ctl)
    ensures Inv(FinishStep(s, t))
  {
    match s.threads[t].ctl
    case Test(j, idle) => StepTest(s, t, j, idle);
    case SetDone(j, idle) => StepSetDone(s, t, j, idle);
    case Unlist(j, idle) => StepUnlist(s, t, j, idle);
    case Signal(j, idle) => StepSignal(s, t, j, idle);
  }

  lemma AwaitKeeps(s: State, t: nat, j: nat)
    requires Inv(s) && Enabled(s, t, Go) && s.threads[t].ctl == Await(j)
    ensures Inv(AwaitStep(s, t))
  {
    var s' := AwaitStep(s, t);
    StepAwait(s, s', t, j, s.jobs[j].(sem := s.jobs[j].sem - 1, phase := Returned), s'.threads[t]);
  }

  lemma GoKeeps(s: State, t: nat)
    requires Inv(s) && Enabled(s, t, Go)
    ensures Inv(ThreadStep(s, t, Go))
  {
    match s.threads[t].ctl
    case Look => LookKeeps(s, t);
    case SawEmpty => StepIdle(s, ThreadStep(s, t, Go), t, Walk(0));
    case Walk(_) => WalkKeeps(s, t);
    case Sleep => StepIdle(s, ThreadStep(s, t, Go), t, Look);
    case Popped(j) => PoppedKeeps(s, t, j);
    case Marked(j) => EntersKeeps(s, t, j);
    case Post(j, i) => PostKeeps(s, t, j, i, false);
    case Enter(j) => EntersKeeps(s, t, j);
    case Check(j) => StepCheck(s, t, j);
    case Await(j) => AwaitKeeps(s, t, j);
    case Claim(j, pos) => ClaimKeeps(s, t, j, pos);
    case Exec(j, b, at, inCall) => ExecKeeps(s, t, j, b, at, inCall);
    case Run(j, inCall) => if inCall { StepTaskEnds(s, t, j); } else { StepTaskBegins(s, t, j); }
    case _ => EndKeeps(s, t);
  }

  lemma ForkKeepsInv(s: State, t: nat, first: int, last: int)
    requires Inv(s) && Enabled(s, t, Fork(first, last))
    ensures Inv(ForkStep(s, t, first, last))
  {
    var s' := ForkStep(s, t, first, last);
    StepFork(s, s', t, first, last, s'.jobs[|s.jobs|], s'.threads[t]);
  }

  lemma ThreadStepKeeps(s: State, t: nat, c: Choice)
    requires Inv(s) && Enabled(s, t, c)
    ensures Inv(ThreadStep(s, t, c))
  {
    match c
    case Go => GoKeeps(s, t);
    case Backup => PostKeeps(s, t, s.threads[t].ctl.j, s.threads[t].ctl.i, true);
    case Fork(first, last) => ForkKeepsInv(s, t, first, last);
    case Push => StepPush(s, t);
  }

  lemma SubmitKeeps(s: State, a: Action)
    requires Inv(s) && Allowed(s, a) && !a.Step?
    ensures Inv(Next(s, a))
  {
    match a
    case SubmitFor(_, _) => StepSubmit(s, Next(s, a));
    case SubmitTask => StepSubmit(s, Next(s, a));
    case CallerPosts(j, _) =>
      JobFact(s, j);
      StepCaller(s, Next(s, a), j, Next(s, a).jobs[j]);
    case CallerWaits(j) => StepCaller(s, Next(s, a), j, Next(s, a).jobs[j]);
  }

  /** Every step keeps the invariant. */
  lemma NextKeeps(s: State, a: Action)
    requires Inv(s) && Allowed(s, a)
    ensures Inv(Next(s, a))
  {
    if a.Step? {
      ThreadStepKeeps(s, a.t, a.c);
    } else {
      SubmitKeeps(s, a);
    }
  }

  lemma {:induction false} AfterKeeps(s: State, acts: seq<Action>)
    requires Inv(s) && Runs(s, acts)
    ensures Inv(After(s, acts))
    decreases |acts|
  {
    if acts != [] {
      NextKeeps(s, acts[0]);
      AfterKeeps(Next(s, acts[0]), acts[1..]);
    }
  }

  /** Some run of the library with `s.nw` workers ends in `s`. */
  ghost predicate Reachable(s: State) {
    s.nw > 0 && exists acts :: Runs(Init(s.nw), acts) && After(Init(s.nw), acts) == s
  }

  lemma ReachableOk(s: State)
    requires Reachable(s)
    ensures Inv(s)
  {
    var acts :| Runs(Init(s.nw), acts) && After(Init(s.nw), acts) == s;
    InitOk(s.nw);
    AfterKeeps(Init(s.nw), acts);
  }

  lemma {:induction false} RunsOn(s: State, acts: seq<Action>, a: Action)
    requires Runs(s, acts) && Allowed(After(s, acts), a)
    ensures Runs(s, acts + [a]) && After(s, acts + [a]) == Next(After(s, acts), a)
    decreases |acts|
  {
    if acts == [] {
      assert acts + [a] == [a] && [a][1..] == [];
      assert Runs(Next(s, a), []);
    } else {
      RunsOn(Next(s, acts[0]), acts[1..], a);
      assert (acts + [a])[1..] == acts[1..] + [a];
    }
  }

  lemma ReachableNext(s: State, a: Action)
    requires Reachable(s) && Allowed(s, a)
    ensures Reachable(Next(s, a))
  {
    var acts :| Runs(Init(s.nw), acts) && After(Init(s.nw), acts) == s;
    RunsOn(Init(s.nw), acts, a);
  }

  // ----- what a step leaves alone -----

  /** A step that does not return from a nested call leaves the stack of its thread alone. */
  lemma GoStack(s: State, t: nat)
    requires Enabled(s, t, Go) && !s.threads[t].ctl.Await?
    ensures var s' := ThreadStep(s, t, Go);
            && |s'.threads| == |s.threads|
            && s'.threads == s.threads[t := s.threads[t].(ctl := s'.threads[t].ctl)]
  {
  }

  lemma StepStack(s: State, t: nat, c: Choice)
    requires Inv(s) && Enabled(s, t, c)
    ensures var s' := ThreadStep(s, t, c);
            |s'.threads| == |s.threads| && s'.threads == s.threads[t := s'.threads[t]]
  {
    if c == Go && !s.threads[t].ctl.Await? {
      GoStack(s, t);
    }
  }

  lemma GoAddsNoJob(s: State, t: nat)
    requires Enabled(s, t, Go)
    ensures |ThreadStep(s, t, Go).jobs| == |s.jobs|
  {
  }
}
