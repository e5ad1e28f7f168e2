/** How a job changes along a run: everything about it only moves forward. */
module SchedLife {
  import opened SchedModel
  import opened SchedInv
  import opened SchedSteps
  import opened SchedRuns

  function MarkRank(m: Mark): nat {
    match m case Free => 0 case Taken(_, _) => 1 case Finished => 2
  }

  /** Job `b` is job `a` later in a run. A batch once claimed keeps its claimer until it is finished. */
  ghost predicate Later(a: Job, b: Job) {
    (
    && b.kind == a.kind && b.first == a.first && b.last == a.last && b.caller == a.caller
    && b.nbbatches == a.nbbatches && |b.batches| == |a.batches|
    && (forall k :: 0 <= k < |a.batches| ==>
          && b.batches[k].span == a.batches[k].span
          && MarkRank(a.batches[k].mark) <= MarkRank(b.batches[k].mark)
          && (MarkRank(a.batches[k].mark) == MarkRank(b.batches[k].mark) ==> a.batches[k].mark == b.batches[k].mark))
    && a.done <= b.done && (IsDone(a) ==> IsDone(b))
    && a.runs <= b.runs && a.posts <= b.posts && a.calls <= b.calls
    && StateRank(a.state) <= StateRank(b.state)
    && PlaceRank(a.place) <= PlaceRank(b.place)
    && (a.phase.Returned? ==> b.phase.Returned?)
    ) == true
  }

  lemma LaterTransitive(a: Job, b: Job, c: Job)
    requires Later(a, b) && Later(b, c)
    ensures Later(a, c)
  {
  }

  /** The step of a thread that is about job `j` moves that job forward and no other. */
  lemma TurnLater(nw: nat, threads: seq<Thread>, t: nat, j: nat, a: Job, b: Job, c: Ctl)
    requires nw > 0 && GoodTurn(nw, threads, t, j, a, b, c)
    ensures Later(a, b)
  {
  }

  lemma SameLater(a: Job)
    ensures Later(a, a)
  {
  }

  lemma ExecLater(s: State, t: nat, j: nat, b: nat, at: int, inCall: bool)
    requires Inv(s) && Enabled(s, t, Go) && s.threads[t].ctl == Exec(j, b, at, inCall)
    ensures Later(s.jobs[j], ExecStep(s, t).jobs[j])
  {
    Facts(s, t, j);
    if inCall {
      SameLater(s.jobs[j]);
    } else if at < s.jobs[j].batches[b].span.hi {
      JobCalls(s.nw, s.threads, t, j, s.jobs[j], b, at);
      TurnLater(s.nw, s.threads, t, j, s.jobs[j], s.jobs[j].(calls := s.jobs[j].calls + [at]), Exec(j, b, at, true));
    } else {
      JobBatchOver(s.nw, s.threads, t, j, s.jobs[j], b, at);
      TurnLater(s.nw, s.threads, t, j, s.jobs[j], BatchOver(s.jobs[j], b, t), Test(j, false));
    }
  }

  lemma ClaimLater(s: State, t: nat, j: nat, pos: nat)
    requires Inv(s) && Enabled(s, t, Go) && s.threads[t].ctl == Claim(j, pos)
    ensures Later(s.jobs[j], ClaimStep(s, t).jobs[j])
  {
    if pos < |s.jobs[j].batches| && s.jobs[j].batches[pos].mark.Free? {
      Facts(s, t, j);
      JobClaimed(s.nw, s.threads, t, j, s.jobs[j], pos);
      TurnLater(s.nw, s.threads, t, j, s.jobs[j], Claimed(s.jobs[j], pos, t, |s.threads[t].susp|),
                Exec(j, pos, s.jobs[j].batches[pos].span.lo, false));
    } else {
      SameLater(s.jobs[j]);
    }
  }

  lemma EndLater(s: State, t: nat, j: nat)
    requires Inv(s) && Enabled(s, t, Go) && Ending(s.threads[t].ctl) && s.threads[t].ctl.j == j
    ensures Later(s.jobs[j], FinishStep(s, t).jobs[j])
  {
    Facts(s, t, j);
    var s' := FinishStep(s, t);
    if s.threads[t].ctl.Test? {
      SameLater(s.jobs[j]);
    } else {
      JobEnding(s.nw, s.threads, t, j, s.jobs[j], s'.jobs[j], s'.threads[t].ctl);
      TurnLater(s.nw, s.threads, t, j, s.jobs[j], s'.jobs[j], s'.threads[t].ctl);
    }
  }

  lemma EnterLater(s: State, t: nat, j: nat)
    requires Inv(s) && t < |s.threads| && Holds(s.threads[t], j) && j < |s.jobs|
    ensures Later(s.jobs[j], s.jobs[j].(state := RUNNING, place := InRunning))
  {
    Facts(s, t, j);
  }

  lemma LookLater(s: State, t: nat, j: nat)
    requires Inv(s) && t < |s.threads| && s.threads[t].ctl.Look? && s.ready != []
    requires j == s.ready[|s.ready| - 1] && j < |s.jobs|
    ensures Later(s.jobs[j], LookStep(s, t).jobs[j])
  {
    assert j in s.ready;
  }

  lemma PoppedLater(s: State, t: nat, j: nat)
    requires Inv(s) && Enabled(s, t, Go) && s.threads[t].ctl == Popped(j)
    ensures Later(s.jobs[j], PoppedStep(s, t).jobs[j])
  {
    EnterLater(s, t, j);
    JobFact(s, j);
  }

  lemma AwaitLater(s: State, t: nat, j: nat)
    requires Enabled(s, t, Go) && s.threads[t].ctl == Await(j)
    ensures Later(s.jobs[j], AwaitStep(s, t).jobs[j])
  {
  }

  lemma RunLater(s: State, t: nat, j: nat)
    requires Enabled(s, t, Go) && s.threads[t].ctl.Run? && s.threads[t].ctl.j == j
    ensures Later(s.jobs[j], RunStep(s, t).jobs[j])
  {
  }

  /** The job a step of thread `t` changes, if it changes one. */
  function Touched(s: State, t: nat): nat
    requires t < |s.threads|
  {
    var c := s.threads[t].ctl;
    if c.Look? then (if s.ready == [] then |s.jobs| else s.ready[|s.ready| - 1])
    else if Jobless(c) then |s.jobs| else c.j
  }

  lemma UntouchedSame(s: State, t: nat, j: nat)
    requires Inv(s) && Enabled(s, t, Go) && j < |s.jobs| && j != Touched(s, t)
    ensures |ThreadStep(s, t, Go).jobs| == |s.jobs| && ThreadStep(s, t, Go).jobs[j] == s.jobs[j]
  {
  }

  lemma TouchedLater(s: State, t: nat, j: nat)
    requires Inv(s) && Enabled(s, t, Go) && j < |s.jobs| && j == Touched(s, t)
    ensures |ThreadStep(s, t, Go).jobs| == |s.jobs|
    ensures Later(s.jobs[j], ThreadStep(s, t, Go).jobs[j])
  {
    match s.threads[t].ctl
    case Look => LookLater(s, t, j);
    case Popped(_) => PoppedLater(s, t, j);
    case Marked(_) => EnterLater(s, t, j);
    case Enter(_) => EnterLater(s, t, j);
    case Claim(_, pos) => ClaimLater(s, t, j, pos);
    case Exec(_, b, at, inCall) => ExecLater(s, t, j, b, at, inCall);
    case Await(_) => AwaitLater(s, t, j);
    case Run(_, _) => RunLater(s, t, j);
    case Post(_, _) => SameLater(s.jobs[j]);
    case Check(_) => SameLater(s.jobs[j]);
    case _ => EndLater(s, t, j);
  }

  /** A step of a thread moves every job forward. */
  lemma GoLater(s: State, t: nat, j: nat)
    requires Inv(s) && Enabled(s, t, Go) && j < |s.jobs|
    ensures |ThreadStep(s, t, Go).jobs| == |s.jobs|
    ensures Later(s.jobs[j], ThreadStep(s, t, Go).jobs[j])
  {
    if j == Touched(s, t) {
      TouchedLater(s, t, j);
    } else {
      UntouchedSame(s, t, j);
      SameLater(s.jobs[j]);
    }
  }

  lemma NextLater(s: State, a: Action, j: nat)
    requires Inv(s) && Allowed(s, a) && j < |s.jobs|
    ensures |s.jobs| <= |Next(s, a).jobs|
    ensures Later(s.jobs[j], Next(s, a).jobs[j])
  {
    SameLater(s.jobs[j]);
    if a.Step? && a.c == Go {
      GoLater(s, a.t, j);
    }
  }

  /** Over any continuation of a run a job only moves forward: its state, its place, its batches, its counters. */
  lemma {:induction false} JobsMoveForward(s: State, acts: seq<Action>, j: nat)
    requires Inv(s) && Runs(s, acts) && j < |s.jobs|
    ensures |s.jobs| <= |After(s, acts).jobs|
    ensures Later(s.jobs[j], After(s, acts).jobs[j])
    decreases |acts|
  {
    if acts == [] {
      SameLater(s.jobs[j]);
    } else {
      NextKeeps(s, acts[0]);
      NextLater(s, acts[0], j);
      var s1 := Next(s, acts[0]);
      JobsMoveForward(s1, acts[1..], j);
      LaterTransitive(s.jobs[j], s1.jobs[j], After(s1, acts[1..]).jobs[j]);
    }
  }
}
