/** Every step keeps the invariant. The argument is rely-guarantee: a step changes one thread and the jobs it works on,
    and what another thread or job relies on survives any such change. */
module SchedSteps {
  import opened SeqOps
  import opened Split
  import opened SchedModel
  import opened SchedInv

  // ----- stability -----

  lemma FrameStable(a: seq<Job>, b: seq<Job>, actor: nat, t: nat, lvl: nat, f: Frame)
    requires |a| <= |b| && forall j :: 0 <= j < |a| ==> Evolves(a[j], b[j], actor)
    requires t != actor && FrameOk(a, t, lvl, f)
    ensures FrameOk(b, t, lvl, f)
  {
    assert Evolves(a[f.j], b[f.j], actor);
  }

  lemma CtlStable(a: seq<Job>, b: seq<Job>, r: seq<nat>, r': seq<nat>, nw: nat, actor: nat, t: nat, lvl: nat, c: Ctl)
    requires |a| <= |b| && forall j :: 0 <= j < |a| ==> Evolves(a[j], b[j], actor)
    requires r' == r || !c.Walk?
    requires t != actor && CtlOk(a, r, nw, t, lvl, c)
    ensures CtlOk(b, r', nw, t, lvl, c)
  {
    if c.Walk? {
      forall i | 0 <= i < c.k ensures IsDone(b[r[i]]) {
        assert Evolves(a[r[i]], b[r[i]], actor);
      }
    } else if !Jobless(c) {
      assert Evolves(a[c.j], b[c.j], actor);
    }
  }

  lemma ThreadStable(a: seq<Job>, b: seq<Job>, r: seq<nat>, r': seq<nat>, nw: nat, actor: nat, t: nat, th: Thread)
    requires |a| <= |b| && forall j :: 0 <= j < |a| ==> Evolves(a[j], b[j], actor)
    requires r' == r || !th.ctl.Walk?
    requires t != actor && ThreadOk(a, r, nw, t, th)
    ensures ThreadOk(b, r', nw, t, th)
  {
    forall l | 0 <= l < |th.susp| ensures FrameOk(b, t, l, th.susp[l]) {
      FrameStable(a, b, actor, t, l, th.susp[l]);
    }
    forall l | 0 < l < |th.susp| ensures AwaitedFrom(b, t, th, l, th.susp[l].j) {
      assert AwaitedFrom(a, t, th, l, th.susp[l].j);
      assert Evolves(a[th.susp[l].j], b[th.susp[l].j], actor);
    }
    CtlStable(a, b, r, r', nw, actor, t, |th.susp|, th.ctl);
    if th.susp != [] {
      assert Evolves(a[th.ctl.j], b[th.ctl.j], actor);
    }
  }

  /** A batch loop of job `j` is still in the thread, and as far as it was. */
  predicate FrameKept(th: Thread, th': Thread, j: nat, lvl: nat, b: nat) {
    (FrameIs(th, lvl, j, b) ==> FrameIs(th', lvl, j, b) && Begun(th, lvl) == Begun(th', lvl)) == true
  }

  /** The body at level `lvl` still waits for job `j`. */
  predicate LevelKept(th: Thread, th': Thread, j: nat, lvl: nat) {
    (lvl < |th.susp| && LevelJobIs(th, lvl + 1, j) ==>
       lvl < |th'.susp| && th'.susp[lvl] == th.susp[lvl] && LevelJobIs(th', lvl + 1, j)) == true
  }

  /** All that job `j` relies on in a thread is still there. */
  ghost predicate Keeps(th: Thread, th': Thread, j: nat) {
    (
    && (forall l: nat, b: nat {:trigger FrameKept(th, th', j, l, b)} :: FrameKept(th, th', j, l, b))
    && (Finishing(th, j) ==> Finishing(th', j))
    && (OnTask(th, j) ==> OnTask(th', j))
    && (Holds(th, j) ==> Holds(th', j))
    && (forall l: nat {:trigger LevelKept(th, th', j, l)} :: LevelKept(th, th', j, l))
    ) == true
  }

  /** Changing the control state keeps everything for the jobs neither the old nor the new state is about. */
  lemma KeepsOthers(th: Thread, c: Ctl, j: nat)
    requires Jobless(th.ctl) || th.ctl.j != j
    ensures Keeps(th, th.(ctl := c), j)
  {
    var th' := th.(ctl := c);
    forall l: nat, b: nat ensures FrameKept(th, th', j, l, b) {
    }
    forall l: nat ensures LevelKept(th, th', j, l) {
    }
  }

  lemma JobKept(nw: nat, threads: seq<Thread>, t: nat, th': Thread, j: nat, job: Job)
    requires nw > 0 && t < |threads| && JobOk(nw, threads, j, job) && Keeps(threads[t], th', j)
    ensures JobOk(nw, threads[t := th'], j, job)
  {
    var threads' := threads[t := th'];
    forall b | 0 <= b < |job.batches| && job.kind == ForJob
      ensures BegunIn(threads', job.batches[b]) == BegunIn(threads, job.batches[b])
      ensures job.batches[b].mark.Taken? ==> FrameIs(threads'[job.batches[b].mark.t], job.batches[b].mark.lvl, j, b)
    {
      if job.batches[b].mark.Taken? {
        assert FrameIs(threads[job.batches[b].mark.t], job.batches[b].mark.lvl, j, b);
        assert FrameKept(threads[t], th', j, job.batches[b].mark.lvl, b);
      }
    }
    if job.caller.Nested? {
      assert LevelKept(threads[t], th', j, job.caller.lvl);
    }
    if job.kind == ForJob {
      assert CallsOk(threads', job);
    }
  }

  /** The step of thread `t` from s to s' changed thread `t`, evolved the jobs, and left the rest as it was. */
  ghost predicate Acts(s: State, s': State, t: nat) {
    (
    && t < |s.threads| == |s'.threads| && s'.nw == s.nw && |s'.tokens| == |s.tokens|
    && s'.threads == s.threads[t := s'.threads[t]]
    && |s.jobs| <= |s'.jobs|
    && (forall j :: 0 <= j < |s.jobs| ==> Evolves(s.jobs[j], s'.jobs[j], t))
    && (s'.running == s.running || NoWalker(s))
    ) == true
  }

  /** To keep the invariant it is enough to look at the acting thread, the jobs it changed, and the lists. */
  lemma Compose(s: State, s': State, t: nat, focus: set<nat>)
    requires Inv(s) && Acts(s, s', t)
    requires ThreadOk(s'.jobs, s'.running, s'.nw, t, s'.threads[t])
    requires forall j :: 0 <= j < |s.jobs| && j !in focus ==>
               s'.jobs[j] == s.jobs[j] && Keeps(s.threads[t], s'.threads[t], j)
    requires forall j :: 0 <= j < |s'.jobs| && (j in focus || j >= |s.jobs|) ==> JobOk(s.nw, s'.threads, j, s'.jobs[j])
    requires ListsOk(s')
    ensures Inv(s')
  {
    forall u | 0 <= u < |s'.threads| ensures ThreadOk(s'.jobs, s'.running, s'.nw, u, s'.threads[u]) {
      if u != t {
        assert ThreadOk(s.jobs, s.running, s.nw, u, s.threads[u]);
        ThreadStable(s.jobs, s'.jobs, s.running, s'.running, s.nw, t, u, s.threads[u]);
      }
    }
    forall j | 0 <= j < |s'.jobs| ensures JobOk(s'.nw, s'.threads, j, s'.jobs[j]) {
      if j < |s.jobs| && j !in focus {
        JobKept(s.nw, s.threads, t, s'.threads[t], j, s.jobs[j]);
      }
    }
  }

  // ----- steps that change only what the thread does next -----

  /** The thread turns to another control state without leaving job `j` in the middle of anything. */
  predicate Smooth(th: Thread, c: Ctl) {
    || Jobless(th.ctl)
    || (var j := th.ctl.j;
        var th' := th.(ctl := c);
        && !th.ctl.Exec?
        && (Finishing(th, j) ==> Finishing(th', j))
        && (OnTask(th, j) ==> OnTask(th', j))
        && (Holds(th, j) ==> Holds(th', j))
        && (th.susp != [] ==> !BaseOnly(c) && c.j == j))
  }

  lemma KeepsSmooth(th: Thread, c: Ctl, j: nat)
    requires Smooth(th, c)
    ensures Keeps(th, th.(ctl := c), j)
  {
    if Jobless(th.ctl) || th.ctl.j != j {
      KeepsOthers(th, c, j);
    } else {
      var th' := th.(ctl := c);
      forall l: nat, b: nat ensures FrameKept(th, th', j, l, b) {
      }
      forall l: nat ensures LevelKept(th, th', j, l) {
      }
    }
  }

  lemma ThreadTurns(jobs: seq<Job>, r: seq<nat>, nw: nat, t: nat, th: Thread, c: Ctl)
    requires ThreadOk(jobs, r, nw, t, th) && CtlOk(jobs, r, nw, t, |th.susp|, c)
    requires if th.susp == [] then !NestedOnly(c) else !BaseOnly(th.ctl) && !BaseOnly(c) && c.j == th.ctl.j
    ensures ThreadOk(jobs, r, nw, t, th.(ctl := c))
  {
    forall l | 0 < l < |th.susp| ensures AwaitedFrom(jobs, t, th.(ctl := c), l, th.susp[l].j) {
      assert AwaitedFrom(jobs, t, th, l, th.susp[l].j);
    }
  }

  lemma Move(s: State, s': State, t: nat, c: Ctl)
    requires Inv(s) && t < |s.threads|
    requires s' == SetCtl(s, t, c).(tokens := s'.tokens) && |s'.tokens| == |s.tokens|
    requires var th := s.threads[t];
             && CtlOk(s.jobs, s.running, s.nw, t, |th.susp|, c)
             && Smooth(th, c)
             && (if th.susp == [] then !NestedOnly(c) else !BaseOnly(th.ctl) && !BaseOnly(c) && c.j == th.ctl.j)
    ensures Inv(s')
  {
    var th := s.threads[t];
    ThreadFact(s, t);
    ThreadTurns(s.jobs, s.running, s.nw, t, th, c);
    forall j | 0 <= j < |s.jobs| ensures Keeps(th, s'.threads[t], j) {
      KeepsSmooth(th, c, j);
    }
    Compose(s, s', t, {});
  }

  lemma ThreadFact(s: State, t: nat)
    requires Inv(s) && t < |s.threads|
    ensures ThreadOk(s.jobs, s.running, s.nw, t, s.threads[t])
  {
  }

  lemma JobFact(s: State, j: nat)
    requires Inv(s) && j < |s.jobs|
    ensures JobOk(s.nw, s.threads, j, s.jobs[j])
  {
  }

  lemma StepCheck(s: State, t: nat, j: nat)
    requires Inv(s) && t < |s.threads| && s.threads[t].ctl == Check(j) && j < |s.jobs|
    ensures Inv(SetCtl(s, t, if IsDone(s.jobs[j]) then Await(j) else Claim(j, 0)))
  {
    ThreadFact(s, t);
    var c := if IsDone(s.jobs[j]) then Await(j) else Claim(j, 0);
    Move(s, SetCtl(s, t, c), t, c);
  }

  lemma StepPost(s: State, s': State, t: nat, j: nat, i: nat)
    requires Inv(s) && t < |s.threads| && s.threads[t].ctl == Post(j, i) && i < s.nw
    requires s' == SetCtl(s, t, Post(j, i + 1)).(tokens := s'.tokens) && |s'.tokens| == |s.tokens|
    ensures Inv(s')
  {
    ThreadFact(s, t);
    Move(s, s', t, Post(j, i + 1));
  }

  lemma StepPosted(s: State, t: nat, j: nat, i: nat)
    requires Inv(s) && t < |s.threads| && s.threads[t].ctl == Post(j, i)
    ensures Inv(SetCtl(s, t, if s.threads[t].susp == [] then Claim(j, 0) else Check(j)))
  {
    ThreadFact(s, t);
    var c := if s.threads[t].susp == [] then Claim(j, 0) else Check(j);
    Move(s, SetCtl(s, t, c), t, c);
  }

  /** Steps between states that are about no job. */
  lemma StepIdle(s: State, s': State, t: nat, c: Ctl)
    requires Inv(s) && t < |s.threads|
    requires s' == SetCtl(s, t, c).(tokens := s'.tokens) && |s'.tokens| == |s.tokens|
    requires var was := s.threads[t].ctl;
             || (was.Look? && c == SawEmpty) || (was.SawEmpty? && c == Walk(0)) || (was.Sleep? && c == Look)
             || (was.Walk? && c == Sleep)
             || (was.Walk? && c == Walk(was.k + 1) && was.k < |s.running| && s.running[was.k] < |s.jobs|
                 && IsDone(s.jobs[s.running[was.k]]))
    ensures Inv(s')
  {
    ThreadFact(s, t);
    Move(s, s', t, c);
  }

  /** What the running list holds can be executed. */
  lemma StepWalkTakes(s: State, t: nat, k: nat)
    requires Inv(s) && t < |s.threads| && s.threads[t].ctl.Walk?
    requires k < |s.running| && s.running[k] < |s.jobs|
    ensures var j := s.running[k]; Inv(SetCtl(s, t, StartExec(s.jobs[j], j)))
  {
    var j := s.running[k];
    assert j in s.running;
    JobFact(s, j);
    ThreadFact(s, t);
    Move(s, SetCtl(s, t, StartExec(s.jobs[j], j)), t, StartExec(s.jobs[j], j));
  }

  // ----- counting finished batches -----

  lemma {:induction false} DoneCountUpdate(bs: seq<Batch>, b: nat, x: Batch)
    requires b < |bs|
    ensures DoneCount(bs[b := x])
            == DoneCount(bs) - (if bs[b].mark.Finished? then 1 else 0) + (if x.mark.Finished? then 1 else 0)
    decreases |bs|
  {
    var n := |bs| - 1;
    if b < n {
      DoneCountUpdate(bs[..n], b, x);
      assert bs[b := x][..n] == bs[..n][b := x];
    } else {
      assert bs[b := x][..n] == bs[..n];
    }
  }

  lemma {:induction false} DoneCountFull(bs: seq<Batch>)
    ensures DoneCount(bs) == |bs| <==> forall b :: 0 <= b < |bs| ==> bs[b].mark.Finished?
    decreases |bs|
  {
    if bs != [] {
      var n := |bs| - 1;
      DoneCountFull(bs[..n]);
      if forall b :: 0 <= b < |bs| ==> bs[b].mark.Finished? {
        forall b | 0 <= b < n ensures bs[..n][b].mark.Finished? {
          assert bs[b].mark.Finished?;
        }
      }
      if DoneCount(bs) == |bs| {
        forall b | 0 <= b < |bs| ensures bs[b].mark.Finished? {
          assert b < n ==> bs[..n][b].mark.Finished?;
        }
      }
    }
  }

  lemma {:induction false} DoneCountNone(bs: seq<Batch>)
    requires forall b :: 0 <= b < |bs| ==> bs[b].mark.Free?
    ensures DoneCount(bs) == 0
    decreases |bs|
  {
    if bs != [] {
      DoneCountNone(bs[..|bs| - 1]);
    }
  }

  // ----- steps that change one job -----

  /** A step keeps the bodies its own thread has suspended: their batches stay taken, their nested jobs awaited. */
  predicate KeepsOwn(a: Job, b: Job, t: nat, lvl: nat) {
    && a.phase == b.phase
    && |a.batches| == |b.batches|
    && (forall k :: 0 <= k < |a.batches| ==>
          var m := a.batches[k].mark; m.Taken? && m.t == t && m.lvl < lvl ==> b.batches[k].mark == m)
  }

  lemma OwnStable(jobs: seq<Job>, r: seq<nat>, r': seq<nat>, nw: nat, t: nat, th: Thread, j: nat, job: Job, c: Ctl)
    requires ThreadOk(jobs, r, nw, t, th) && j < |jobs|
    requires Evolves(jobs[j], job, t) && KeepsOwn(jobs[j], job, t, |th.susp|)
    requires CtlOk(jobs[j := job], r', nw, t, |th.susp|, c)
    requires if th.susp == [] then !NestedOnly(c) else !BaseOnly(c) && !BaseOnly(th.ctl) && c.j == th.ctl.j
    ensures ThreadOk(jobs[j := job], r', nw, t, th.(ctl := c))
  {
    var jobs' := jobs[j := job];
    forall l | 0 <= l < |th.susp| ensures FrameOk(jobs', t, l, th.susp[l]) {
      assert FrameOk(jobs, t, l, th.susp[l]);
    }
    forall l | 0 < l < |th.susp| ensures AwaitedFrom(jobs', t, th.(ctl := c), l, th.susp[l].j) {
      assert AwaitedFrom(jobs, t, th, l, th.susp[l].j);
    }
  }

  /** Thread `t`, which is about job `j` or takes it up now, turns to control state `c` and leaves the job as `b`:
      everything the invariant asks of that thread and that job. */
  ghost predicate GoodTurn(nw: nat, threads: seq<Thread>, t: nat, j: nat, a: Job, b: Job, c: Ctl)
    requires nw > 0
  {
    (
    && t < |threads|
    && var th := threads[t];
    && (th.ctl.Look? || (!Jobless(th.ctl) && th.ctl.j == j))
    && (if th.susp == [] then !NestedOnly(c) else !BaseOnly(c) && !BaseOnly(th.ctl) && c.j == th.ctl.j)
    && !c.Walk? && (!Jobless(c) ==> c.j == j && AboutJob(b, nw, t, |th.susp|, c))
    && Evolves(a, b, t) && KeepsOwn(a, b, t, |th.susp|)
    && JobOk(nw, threads[t := th.(ctl := c)], j, b)
    ) == true
  }

  lemma ComposeOne(s: State, s': State, t: nat, j: nat, b: Job, c: Ctl)
    requires Inv(s) && j < |s.jobs| && GoodTurn(s.nw, s.threads, t, j, s.jobs[j], b, c)
    requires s'.nw == s.nw && s'.tokens == s.tokens && s'.jobs == s.jobs[j := b]
    requires s'.threads == s.threads[t := s.threads[t].(ctl := c)]
    requires s'.running == s.running || NoWalker(s)
    requires ListsOk(s')
    ensures Inv(s')
  {
    var th := s.threads[t];
    ThreadFact(s, t);
    OwnStable(s.jobs, s.running, s'.running, s.nw, t, th, j, b, c);
    forall i | 0 <= i < |s.jobs| && i != j ensures Keeps(th, s'.threads[t], i) {
      KeepsOthers(th, c, i);
    }
    Compose(s, s', t, {j});
  }

  /** A turn that leaves the lists alone. */
  lemma Turn(s: State, s': State, t: nat, j: nat, b: Job, c: Ctl)
    requires Inv(s) && j < |s.jobs| && GoodTurn(s.nw, s.threads, t, j, s.jobs[j], b, c)
    requires b.place == s.jobs[j].place
    requires s' == SetCtl(SetJob(s, j, b), t, c)
    ensures Inv(s')
  {
    assert ListsOk(s');
    ComposeOne(s, s', t, j, b, c);
  }

  /** Thread `t` is at a control state about job `j`, and what the invariant says of both holds. */
  ghost predicate AtJob(nw: nat, threads: seq<Thread>, t: nat, j: nat, job: Job) {
    && nw > 0 && t < |threads| && JobOk(nw, threads, j, job)
    && var th := threads[t];
    && !Jobless(th.ctl) && th.ctl.j == j && AboutJob(job, nw, t, |th.susp|, th.ctl)
    && (if th.susp == [] then !NestedOnly(th.ctl) else !BaseOnly(th.ctl) && job.kind == ForJob)
  }

  lemma Facts(s: State, t: nat, j: nat)
    requires Inv(s) && t < |s.threads| && !Jobless(s.threads[t].ctl) && s.threads[t].ctl.j == j
    ensures j < |s.jobs| && AtJob(s.nw, s.threads, t, j, s.jobs[j])
  {
    ThreadFact(s, t);
    JobFact(s, j);
  }

  // ----- taking a job from ready and listing it as running -----

  lemma PopLists(s: State, s': State, j: nat, job: Job)
    requires Inv(s) && s.ready != [] && j == s.ready[|s.ready| - 1] && j < |s.jobs| && job.place.Held?
    requires s'.jobs == s.jobs[j := job] && s'.running == s.running && s'.ready == s.ready[..|s.ready| - 1]
    ensures ListsOk(s')
  {
    assert j in s.ready;
    assert forall i :: i in s.ready <==> i in s'.ready || i == j;
  }

  lemma JobPopped(nw: nat, threads: seq<Thread>, t: nat, j: nat, a: Job, b: Job)
    requires nw > 0 && t < |threads| && JobOk(nw, threads, j, a) && a.place.InReady?
    requires threads[t] == Thread([], Look)
    requires b == a.(place := Held(t), closer := if a.kind == TaskJob then t else a.closer)
    ensures GoodTurn(nw, threads, t, j, a, b, Popped(j))
  {
  }

  lemma StepLookPop(s: State, t: nat, j: nat)
    requires Inv(s) && t < |s.threads| && s.threads[t].ctl.Look? && s.ready != []
    requires j == s.ready[|s.ready| - 1] && j < |s.jobs|
    ensures Inv(LookStep(s, t))
  {
    assert j in s.ready;
    ThreadFact(s, t);
    JobFact(s, j);
    var s' := LookStep(s, t);
    PopLists(s, s', j, s'.jobs[j]);
    JobPopped(s.nw, s.threads, t, j, s.jobs[j], s'.jobs[j]);
    ComposeOne(s, s', t, j, s'.jobs[j], Popped(j));
  }

  lemma JobEnters(nw: nat, threads: seq<Thread>, t: nat, j: nat, a: Job, c: Ctl)
    requires AtJob(nw, threads, t, j, a) && Holds(threads[t], j)
    requires threads[t].ctl.Popped? ==> a.kind == ForJob
    requires c == if a.kind == ForJob then Post(j, 0) else Run(j, false)
    ensures GoodTurn(nw, threads, t, j, a, a.(state := RUNNING, place := InRunning), c)
  {
  }

  lemma EnterLists(s: State, s': State, j: nat, b: Job)
    requires Inv(s) && j < |s.jobs| && s.jobs[j].place.Held? && b.place.InRunning?
    requires s'.jobs == s.jobs[j := b] && s'.running == s.running + [j] && s'.ready == s.ready
    ensures ListsOk(s')
  {
    assert j !in s.running;
    assert forall i :: i in s'.running <==> i in s.running || i == j;
  }

  /** A held job is appended to the running list. */
  lemma StepEnters(s: State, t: nat, j: nat, c: Ctl)
    requires Inv(s) && t < |s.threads| && j < |s.jobs| && NoWalker(s)
    requires Holds(s.threads[t], j) && (s.threads[t].ctl.Popped? ==> s.jobs[j].kind == ForJob)
    requires c == if s.jobs[j].kind == ForJob then Post(j, 0) else Run(j, false)
    ensures Inv(SetCtl(MoveToRunning(s, j), t, c))
  {
    Facts(s, t, j);
    var s' := SetCtl(MoveToRunning(s, j), t, c);
    JobEnters(s.nw, s.threads, t, j, s.jobs[j], c);
    EnterLists(s, s', j, s'.jobs[j]);
    ComposeOne(s, s', t, j, s'.jobs[j], c);
  }

  lemma JobMarked(nw: nat, threads: seq<Thread>, t: nat, j: nat, a: Job)
    requires AtJob(nw, threads, t, j, a) && threads[t].ctl == Popped(j) && a.kind == TaskJob
    ensures GoodTurn(nw, threads, t, j, a, a.(done := a.nbbatches), Marked(j))
  {
  }

  lemma StepMarksTask(s: State, t: nat, j: nat)
    requires Inv(s) && t < |s.threads| && j < |s.jobs| && s.threads[t].ctl == Popped(j) && s.jobs[j].kind == TaskJob
    ensures Inv(PoppedStep(s, t))
  {
    Facts(s, t, j);
    JobMarked(s.nw, s.threads, t, j, s.jobs[j]);
    Turn(s, PoppedStep(s, t), t, j, s.jobs[j].(done := s.jobs[j].nbbatches), Marked(j));
  }

  // ----- claiming and running batches -----

  /** The calls of a job whose batches differ only in mark stay accounted for when no batch of it gets further. */
  lemma CallsKept(threads: seq<Thread>, threads': seq<Thread>, a: Job, b: Job)
    requires CallsOk(threads, a) && b.calls == a.calls && |b.batches| == |a.batches|
    requires forall k :: 0 <= k < |a.batches| ==> b.batches[k].span == a.batches[k].span
    requires forall k :: 0 <= k < |a.batches| ==>
               forall i :: Inside(a.batches[k].span, i) ==>
                 (i < BegunIn(threads', b.batches[k]) <==> i < BegunIn(threads, a.batches[k]))
    ensures CallsOk(threads', b)
  {
    forall i | i in b.calls ensures exists k :: 0 <= k < |b.batches| && Inside(b.batches[k].span, i) {
      var k :| 0 <= k < |a.batches| && Inside(a.batches[k].span, i);
      assert b.batches[k].span == a.batches[k].span;
    }
  }

  /** Batches some loop is in, other than the one thread `t` is at, are where they were when `t` turns. */
  lemma OtherLoops(threads: seq<Thread>, t: nat, c: Ctl, j: nat, job: Job, k: nat)
    requires t < |threads| && k < |job.batches| && !Jobless(threads[t].ctl) && threads[t].ctl.j == j
    requires job.batches[k].mark.Taken? ==>
               && job.batches[k].mark.t < |threads|
               && FrameIs(threads[job.batches[k].mark.t], job.batches[k].mark.lvl, j, k)
    requires threads[t].ctl.Exec? ==> threads[t].ctl.b != k
    ensures var threads' := threads[t := threads[t].(ctl := c)];
            && BegunIn(threads', job.batches[k]) == BegunIn(threads, job.batches[k])
            && (job.batches[k].mark.Taken? ==> FrameIs(threads'[job.batches[k].mark.t], job.batches[k].mark.lvl, j, k))
  {
  }

  function Claimed(job: Job, pos: nat, t: nat, lvl: nat): Job
    requires pos < |job.batches|
  {
    job.(batches := job.batches[pos := job.batches[pos].(mark := Taken(t, lvl))])
  }

  lemma ForClaimed(nw: nat, threads: seq<Thread>, t: nat, j: nat, a: Job, pos: nat)
    requires AtJob(nw, threads, t, j, a) && threads[t].ctl == Claim(j, pos)
    requires pos < |a.batches| && a.batches[pos].mark.Free?
    ensures ForOk(nw, threads[t := threads[t].(ctl := Exec(j, pos, a.batches[pos].span.lo, false))], j,
                  Claimed(a, pos, t, |threads[t].susp|))
  {
    var c := Exec(j, pos, a.batches[pos].span.lo, false);
    var threads' := threads[t := threads[t].(ctl := c)];
    var b := Claimed(a, pos, t, |threads[t].susp|);
    DoneCountUpdate(a.batches, pos, b.batches[pos]);
    forall k | 0 <= k < |a.batches| && k != pos
      ensures BegunIn(threads', b.batches[k]) == BegunIn(threads, a.batches[k])
      ensures a.batches[k].mark.Taken? ==> FrameIs(threads'[a.batches[k].mark.t], a.batches[k].mark.lvl, j, k)
    {
      OtherLoops(threads, t, c, j, a, k);
    }
    CallsKept(threads, threads', a, b);
  }

  lemma JobClaimed(nw: nat, threads: seq<Thread>, t: nat, j: nat, a: Job, pos: nat)
    requires AtJob(nw, threads, t, j, a) && threads[t].ctl == Claim(j, pos)
    requires pos < |a.batches| && a.batches[pos].mark.Free?
    ensures GoodTurn(nw, threads, t, j, a, Claimed(a, pos, t, |threads[t].susp|),
                     Exec(j, pos, a.batches[pos].span.lo, false))
  {
    ForClaimed(nw, threads, t, j, a, pos);
    assert Evolves(a, Claimed(a, pos, t, |threads[t].susp|), t);
  }

  lemma StepClaims(s: State, t: nat, j: nat, pos: nat)
    requires Inv(s) && t < |s.threads| && s.threads[t].ctl == Claim(j, pos)
    requires j < |s.jobs| && pos < |s.jobs[j].batches| && s.jobs[j].batches[pos].mark.Free?
    ensures Inv(ClaimStep(s, t))
  {
    Facts(s, t, j);
    JobClaimed(s.nw, s.threads, t, j, s.jobs[j], pos);
    Turn(s, ClaimStep(s, t), t, j, Claimed(s.jobs[j], pos, t, |s.threads[t].susp|),
         Exec(j, pos, s.jobs[j].batches[pos].span.lo, false));
  }

  lemma StepClaimMoves(s: State, t: nat, j: nat, pos: nat, c: Ctl)
    requires Inv(s) && t < |s.threads| && s.threads[t].ctl == Claim(j, pos) && j < |s.jobs| && pos <= |s.jobs[j].batches|
    requires if pos == |s.jobs[j].batches| then c == Test(j, true)
             else !s.jobs[j].batches[pos].mark.Free? && c == Claim(j, pos + 1)
    ensures Inv(SetCtl(s, t, c))
  {
    ThreadFact(s, t);
    Move(s, SetCtl(s, t, c), t, c);
  }

  /** A call of the body begins: the only index whose count changes is the one the batch loop is at. */
  lemma CallBegins(nw: nat, threads: seq<Thread>, t: nat, j: nat, job: Job, b: nat, at: int)
    requires nw > 0 && t < |threads| && ForOk(nw, threads, j, job) && threads[t].ctl == Exec(j, b, at, false)
    requires b < |job.batches| && job.batches[b].mark == Taken(t, |threads[t].susp|)
    requires Inside(job.batches[b].span, at)
    ensures CallsOk(threads[t := threads[t].(ctl := Exec(j, b, at, true))], job.(calls := job.calls + [at]))
  {
    var threads' := threads[t := threads[t].(ctl := Exec(j, b, at, true))];
    var job' := job.(calls := job.calls + [at]);
    SpansDisjoint(job.first, job.last, nw);
    var sp := Spans(job.first, job.last, nw);
    forall c, i | 0 <= c < |job.batches| && Inside(job.batches[c].span, i)
      ensures multiset(job'.calls)[i] == if i < BegunIn(threads', job.batches[c]) then 1 else 0
    {
      assert multiset(job.calls)[i] == if i < BegunIn(threads, job.batches[c]) then 1 else 0;
      assert multiset(job'.calls) == multiset(job.calls) + multiset{at};
      if c != b {
        assert job.batches[c].span == sp[c] && job.batches[b].span == sp[b];
        assert i != at;
        OtherLoops(threads, t, Exec(j, b, at, true), j, job, c);
      }
    }
  }

  lemma JobCalls(nw: nat, threads: seq<Thread>, t: nat, j: nat, a: Job, b: nat, at: int)
    requires AtJob(nw, threads, t, j, a) && threads[t].ctl == Exec(j, b, at, false)
    requires b < |a.batches| && at < a.batches[b].span.hi
    ensures GoodTurn(nw, threads, t, j, a, a.(calls := a.calls + [at]), Exec(j, b, at, true))
  {
    CallBegins(nw, threads, t, j, a, b, at);
    assert ForOk(nw, threads[t := threads[t].(ctl := Exec(j, b, at, true))], j, a.(calls := a.calls + [at]));
  }

  lemma StepCallBegins(s: State, t: nat, j: nat, b: nat, at: int)
    requires Inv(s) && t < |s.threads| && s.threads[t].ctl == Exec(j, b, at, false)
    requires j < |s.jobs| && b < |s.jobs[j].batches| && at < s.jobs[j].batches[b].span.hi
    ensures Inv(ExecStep(s, t))
  {
    Facts(s, t, j);
    JobCalls(s.nw, s.threads, t, j, s.jobs[j], b, at);
    Turn(s, ExecStep(s, t), t, j, s.jobs[j].(calls := s.jobs[j].calls + [at]), Exec(j, b, at, true));
  }

  lemma JobCallEnds(nw: nat, threads: seq<Thread>, t: nat, j: nat, a: Job, b: nat, at: int)
    requires AtJob(nw, threads, t, j, a) && threads[t].ctl == Exec(j, b, at, true)
    ensures GoodTurn(nw, threads, t, j, a, a, Exec(j, b, at + 1, false))
  {
    var c := Exec(j, b, at + 1, false);
    var threads' := threads[t := threads[t].(ctl := c)];
    forall k | 0 <= k < |a.batches|
      ensures BegunIn(threads', a.batches[k]) == BegunIn(threads, a.batches[k])
      ensures a.batches[k].mark.Taken? ==> FrameIs(threads'[a.batches[k].mark.t], a.batches[k].mark.lvl, j, k)
    {
      if k != b { OtherLoops(threads, t, c, j, a, k); }
    }
    CallsKept(threads, threads', a, a);
    assert ForOk(nw, threads', j, a);
  }

  lemma StepCallEnds(s: State, t: nat, j: nat, b: nat, at: int)
    requires Inv(s) && t < |s.threads| && s.threads[t].ctl == Exec(j, b, at, true) && j < |s.jobs|
    ensures Inv(SetCtl(s, t, Exec(j, b, at + 1, false)))
  {
    Facts(s, t, j);
    JobCallEnds(s.nw, s.threads, t, j, s.jobs[j], b, at);
    Turn(s, SetCtl(s, t, Exec(j, b, at + 1, false)), t, j, s.jobs[j], Exec(j, b, at + 1, false));
  }

  function BatchOver(job: Job, b: nat, t: nat): Job
    requires b < |job.batches|
  {
    job.(batches := job.batches[b := job.batches[b].(mark := Finished)], done := job.done + 1,
         closer := if job.done + 1 == job.nbbatches then t else job.closer)
  }

  lemma ForBatchOver(nw: nat, threads: seq<Thread>, t: nat, j: nat, a: Job, b: nat, at: int)
    requires AtJob(nw, threads, t, j, a) && threads[t].ctl == Exec(j, b, at, false)
    requires b < |a.batches| && at >= a.batches[b].span.hi
    ensures ForOk(nw, threads[t := threads[t].(ctl := Test(j, false))], j, BatchOver(a, b, t))
    ensures a.done < nw
  {
    var threads' := threads[t := threads[t].(ctl := Test(j, false))];
    var a' := BatchOver(a, b, t);
    DoneCountUpdate(a.batches, b, a'.batches[b]);
    assert DoneCount(a'.batches) <= nw;
    forall k | 0 <= k < |a.batches| && k != b
      ensures BegunIn(threads', a'.batches[k]) == BegunIn(threads, a.batches[k])
      ensures a.batches[k].mark.Taken? ==> FrameIs(threads'[a.batches[k].mark.t], a.batches[k].mark.lvl, j, k)
    {
      OtherLoops(threads, t, Test(j, false), j, a, k);
    }
    CallsKept(threads, threads', a, a');
  }

  lemma JobBatchOver(nw: nat, threads: seq<Thread>, t: nat, j: nat, a: Job, b: nat, at: int)
    requires AtJob(nw, threads, t, j, a) && threads[t].ctl == Exec(j, b, at, false)
    requires b < |a.batches| && at >= a.batches[b].span.hi
    ensures GoodTurn(nw, threads, t, j, a, BatchOver(a, b, t), Test(j, false))
  {
    ForBatchOver(nw, threads, t, j, a, b, at);
    assert Evolves(a, BatchOver(a, b, t), t);
  }

  lemma StepBatchOver(s: State, t: nat, j: nat, b: nat, at: int)
    requires Inv(s) && t < |s.threads| && s.threads[t].ctl == Exec(j, b, at, false)
    requires j < |s.jobs| && b < |s.jobs[j].batches| && at >= s.jobs[j].batches[b].span.hi
    ensures Inv(ExecStep(s, t))
  {
    Facts(s, t, j);
    JobBatchOver(s.nw, s.threads, t, j, s.jobs[j], b, at);
    Turn(s, ExecStep(s, t), t, j, BatchOver(s.jobs[j], b, t), Test(j, false));
  }

  // ----- tasks -----

  lemma StepTaskBegins(s: State, t: nat, j: nat)
    requires Inv(s) && t < |s.threads| && s.threads[t].ctl == Run(j, false)
    ensures Inv(SetCtl(s, t, Run(j, true)))
  {
    ThreadFact(s, t);
    Move(s, SetCtl(s, t, Run(j, true)), t, Run(j, true));
  }

  lemma JobTaskEnds(nw: nat, threads: seq<Thread>, t: nat, j: nat, a: Job)
    requires AtJob(nw, threads, t, j, a) && threads[t].ctl == Run(j, true)
    ensures GoodTurn(nw, threads, t, j, a, a.(runs := a.runs + 1), Test(j, false))
  {
  }

  lemma StepTaskEnds(s: State, t: nat, j: nat)
    requires Inv(s) && t < |s.threads| && s.threads[t].ctl == Run(j, true) && j < |s.jobs|
    ensures Inv(RunStep(s, t))
  {
    Facts(s, t, j);
    JobTaskEnds(s.nw, s.threads, t, j, s.jobs[j]);
    Turn(s, RunStep(s, t), t, j, s.jobs[j].(runs := s.jobs[j].runs + 1), Test(j, false));
  }

  // ----- the end of fly_sched_exec_job -----

  /** A parallel-for job whose batches and calls do not change, when a thread in no batch of it turns. */
  lemma ForTurns(nw: nat, threads: seq<Thread>, t: nat, j: nat, a: Job, b: Job, c: Ctl)
    requires AtJob(nw, threads, t, j, a) && a.kind == ForJob && !threads[t].ctl.Exec?
    requires b == a.(state := b.state, place := b.place, sem := b.sem, posts := b.posts)
    requires Published(a) && Published(b) && (a.posts > 0 ==> b.posts > 0)
    requires IsDone(a) && b.posts == 0 ==> Finishing(threads[t].(ctl := c), j)
    ensures ForOk(nw, threads[t := threads[t].(ctl := c)], j, b)
  {
    var threads' := threads[t := threads[t].(ctl := c)];
    forall k | 0 <= k < |a.batches|
      ensures BegunIn(threads', a.batches[k]) == BegunIn(threads, a.batches[k])
      ensures a.batches[k].mark.Taken? ==> FrameIs(threads'[a.batches[k].mark.t], a.batches[k].mark.lvl, j, k)
    {
      OtherLoops(threads, t, c, j, a, k);
    }
    CallsKept(threads, threads', a, b);
  }

  /** An unfinished job lets the thread go. */
  lemma JobTestFails(nw: nat, threads: seq<Thread>, t: nat, j: nat, a: Job, idle: bool, c: Ctl)
    requires AtJob(nw, threads, t, j, a) && threads[t].ctl == Test(j, idle) && !IsDone(a)
    requires c == AfterExec(threads[t], j, idle)
    ensures GoodTurn(nw, threads, t, j, a, a, c)
  {
    ForTurns(nw, threads, t, j, a, a, c);
  }

  lemma StepTest(s: State, t: nat, j: nat, idle: bool)
    requires Inv(s) && t < |s.threads| && s.threads[t].ctl == Test(j, idle) && j < |s.jobs|
    ensures Inv(FinishStep(s, t))
  {
    if IsDone(s.jobs[j]) {
      ThreadFact(s, t);
      Move(s, SetCtl(s, t, SetDone(j, idle)), t, SetDone(j, idle));
    } else {
      Facts(s, t, j);
      var c := AfterExec(s.threads[t], j, idle);
      JobTestFails(s.nw, s.threads, t, j, s.jobs[j], idle, c);
      Turn(s, FinishStep(s, t), t, j, s.jobs[j], c);
    }
  }

  predicate EndStep(th: Thread, j: nat, a: Job, b: Job, c: Ctl) {
    match th.ctl
    case SetDone(_, idle) => b == a.(state := DONE) && c == Unlist(j, idle)
    case Unlist(_, idle) => b == a.(place := Left) && c == Signal(j, idle)
    case Signal(_, idle) => b == a.(sem := a.sem + 1, posts := a.posts + 1) && c == AfterExec(th, j, idle)
    case _ => false
  }

  lemma JobEndsOk(nw: nat, threads: seq<Thread>, t: nat, j: nat, a: Job, b: Job, c: Ctl)
    requires AtJob(nw, threads, t, j, a) && EndStep(threads[t], j, a, b, c)
    ensures JobOk(nw, threads[t := threads[t].(ctl := c)], j, b)
  {
    if a.kind == ForJob {
      ForTurns(nw, threads, t, j, a, b, c);
    } else {
      assert TaskOk(threads[t := threads[t].(ctl := c)], j, b);
    }
  }

  lemma JobEndEvolves(t: nat, th: Thread, j: nat, a: Job, b: Job, c: Ctl)
    requires EndStep(th, j, a, b, c) && Published(a)
    ensures Evolves(a, b, t) && KeepsOwn(a, b, t, |th.susp|)
  {
  }

  lemma JobEnding(nw: nat, threads: seq<Thread>, t: nat, j: nat, a: Job, b: Job, c: Ctl)
    requires AtJob(nw, threads, t, j, a) && EndStep(threads[t], j, a, b, c)
    ensures GoodTurn(nw, threads, t, j, a, b, c)
  {
    JobEndsOk(nw, threads, t, j, a, b, c);
    JobEndEvolves(t, threads[t], j, a, b, c);
  }

  lemma StepSetDone(s: State, t: nat, j: nat, idle: bool)
    requires Inv(s) && t < |s.threads| && s.threads[t].ctl == SetDone(j, idle) && j < |s.jobs|
    ensures Inv(FinishStep(s, t))
  {
    Facts(s, t, j);
    var b := s.jobs[j].(state := DONE);
    JobEnding(s.nw, s.threads, t, j, s.jobs[j], b, Unlist(j, idle));
    Turn(s, FinishStep(s, t), t, j, b, Unlist(j, idle));
  }

  lemma StepSignal(s: State, t: nat, j: nat, idle: bool)
    requires Inv(s) && t < |s.threads| && s.threads[t].ctl == Signal(j, idle) && j < |s.jobs|
    ensures Inv(FinishStep(s, t))
  {
    Facts(s, t, j);
    var b := s.jobs[j].(sem := s.jobs[j].sem + 1, posts := s.jobs[j].posts + 1);
    var c := AfterExec(s.threads[t], j, idle);
    JobEnding(s.nw, s.threads, t, j, s.jobs[j], b, c);
    Turn(s, FinishStep(s, t), t, j, b, c);
  }

  lemma UnlistLists(s: State, s': State, j: nat, b: Job)
    requires Inv(s) && j < |s.jobs| && Published(s.jobs[j]) && b.place.Left?
    requires s'.jobs == s.jobs[j := b] && s'.running == RemoveFirst(s.running, j) && s'.ready == s.ready
    ensures ListsOk(s')
  {
    RemoveFirstDistinct(s.running, j);
  }

  lemma StepUnlist(s: State, t: nat, j: nat, idle: bool)
    requires Inv(s) && t < |s.threads| && s.threads[t].ctl == Unlist(j, idle) && j < |s.jobs| && NoWalker(s)
    ensures Inv(FinishStep(s, t))
  {
    Facts(s, t, j);
    var b := s.jobs[j].(place := Left);
    var s' := FinishStep(s, t);
    JobEnding(s.nw, s.threads, t, j, s.jobs[j], b, Signal(j, idle));
    UnlistLists(s, s', j, b);
    ComposeOne(s, s', t, j, b, Signal(j, idle));
  }

  // ----- nested calls -----

  lemma ListsGrow(s: State, s': State)
    requires Inv(s) && |s'.jobs| == |s.jobs| + 1 && s'.running == s.running
    requires forall i :: 0 <= i < |s.jobs| ==> s'.jobs[i].place == s.jobs[i].place
    requires var last := s'.jobs[|s.jobs|];
             || (last.place.InReady? && s'.ready == s.ready + [|s.jobs|])
             || (last.place.Held? && s'.ready == s.ready)
    ensures ListsOk(s')
  {
    var n := |s.jobs|;
    assert s'.jobs[n].place.InReady? ==> s'.ready[|s.ready|] == n;
    forall k | 0 <= k < |s.ready| ensures s'.ready[k] == s.ready[k] < n {
      assert s.ready[k] in s.ready;
    }
    forall i | 0 <= i < |s'.jobs| && s'.jobs[i].place.InReady? ensures i in s'.ready {
      if i < n {
        assert i in s.ready;
      }
    }
  }

  lemma NewForOk(nw: nat, threads: seq<Thread>, j: nat, first: int, last: int, caller: Caller, phase: Phase, place: Place)
    requires nw > 0 && !place.InRunning? && !place.Left?
    ensures ForOk(nw, threads, j, NewFor(nw, first, last, caller, phase, place))
  {
    var job := NewFor(nw, first, last, caller, phase, place);
    DoneCountNone(job.batches);
    assert SpansOk(nw, job);
    assert CallsOk(threads, job);
    assert forall b :: 0 <= b < |job.batches| ==> job.batches[b].mark.Free?;
    assert !IsDone(job);
  }

  lemma NewTaskOk(nw: nat, threads: seq<Thread>, j: nat, phase: Phase)
    requires nw > 0 && (phase == Waiting || phase == Posting(0))
    ensures JobOk(nw, threads, j, NewTask(phase))
  {
  }

  /** fly_push_task from a body. */
  lemma StepPush(s: State, t: nat)
    requires Inv(s) && t < |s.threads|
    ensures Inv(PushStep(s))
  {
    var s' := PushStep(s);
    ThreadFact(s, t);
    AddsJob(s, s', t);
    NewTaskOk(s.nw, s'.threads, |s.jobs|, Waiting);
    ListsGrow(s, s');
    GrowThread(s.jobs, s.running, s.nw, t, s.threads[t], s'.jobs[|s.jobs|]);
    Compose(s, s', t, {});
  }

  lemma GrowThread(jobs: seq<Job>, r: seq<nat>, nw: nat, t: nat, th: Thread, job: Job)
    requires ThreadOk(jobs, r, nw, t, th)
    ensures ThreadOk(jobs + [job], r, nw, t, th)
  {
    var jobs' := jobs + [job];
    forall l | 0 <= l < |th.susp| ensures FrameOk(jobs', t, l, th.susp[l]) {
      assert FrameOk(jobs, t, l, th.susp[l]);
    }
    forall l | 0 < l < |th.susp| ensures AwaitedFrom(jobs', t, th, l, th.susp[l].j) {
      assert AwaitedFrom(jobs, t, th, l, th.susp[l].j);
    }
  }

  /** The body a thread is in, as the frame it leaves on the stack when it calls fly_parallel_for. */
  function BodyFrame(c: Ctl): Frame
    requires InBody(c)
  {
    if c.Exec? then InBatch(c.j, c.b, c.at) else InTask(c.j)
  }

  lemma ForkedThread(jobs: seq<Job>, r: seq<nat>, nw: nat, t: nat, th: Thread, child: Job)
    requires ThreadOk(jobs, r, nw, t, th) && InBody(th.ctl)
    requires child.kind == ForJob && child.place == Held(t) && child.phase == Waiting
    requires child.caller == Nested(t, |th.susp|, th.ctl.j)
    ensures ThreadOk(jobs + [child], r, nw, t, Thread(th.susp + [BodyFrame(th.ctl)], Enter(|jobs|)))
  {
    var jobs' := jobs + [child];
    var th' := Thread(th.susp + [BodyFrame(th.ctl)], Enter(|jobs|));
    forall l | 0 <= l < |th'.susp| ensures FrameOk(jobs', t, l, th'.susp[l]) {
      if l < |th.susp| { assert FrameOk(jobs, t, l, th.susp[l]); }
    }
    forall l | 0 < l < |th'.susp| ensures AwaitedFrom(jobs', t, th', l, th'.susp[l].j) {
      if l < |th.susp| { assert AwaitedFrom(jobs, t, th, l, th.susp[l].j); }
    }
  }

  lemma ForkKeeps(th: Thread, child: nat, j: nat)
    requires InBody(th.ctl) && (th.susp != [] ==> !BaseOnly(th.ctl)) && j != child
    ensures Keeps(th, Thread(th.susp + [BodyFrame(th.ctl)], Enter(child)), j)
  {
    var th' := Thread(th.susp + [BodyFrame(th.ctl)], Enter(child));
    forall l: nat, b: nat ensures FrameKept(th, th', j, l, b) {
      assert l < |th.susp| ==> th'.susp[l] == th.susp[l];
    }
    forall l: nat ensures LevelKept(th, th', j, l) {
      assert l < |th.susp| ==> th'.susp[l] == th.susp[l];
      assert l + 1 < |th.susp| ==> th'.susp[l + 1] == th.susp[l + 1];
    }
    assert th.susp != [] ==> th'.susp[0] == th.susp[0];
  }

  lemma ForkedJobOk(nw: nat, threads: seq<Thread>, t: nat, th: Thread, child: nat, first: int, last: int)
    requires nw > 0 && t < |threads| && InBody(th.ctl) && th.ctl.j < child
    requires threads[t] == Thread(th.susp + [BodyFrame(th.ctl)], Enter(child))
    ensures JobOk(nw, threads, child, NewFor(nw, first, last, Nested(t, |th.susp|, th.ctl.j), Waiting, Held(t)))
  {
    NewForOk(nw, threads, child, first, last, Nested(t, |th.susp|, th.ctl.j), Waiting, Held(t));
  }

  lemma AddsJob(s: State, s': State, t: nat)
    requires t < |s.threads| == |s'.threads| && s'.threads == s.threads[t := s'.threads[t]] && s'.nw == s.nw
    requires |s'.jobs| == |s.jobs| + 1 && s'.jobs[..|s.jobs|] == s.jobs && s'.running == s.running && s'.tokens == s.tokens
    ensures Acts(s, s', t)
    ensures forall j :: 0 <= j < |s.jobs| ==> s'.jobs[j] == s.jobs[j]
  {
    assert forall j :: 0 <= j < |s.jobs| ==> s'.jobs[j] == s'.jobs[..|s.jobs|][j];
  }

  lemma StepFork(s: State, s': State, t: nat, first: int, last: int, child: Job, th': Thread)
    requires Inv(s) && t < |s.threads| && InBody(s.threads[t].ctl)
    requires var th := s.threads[t];
             && child == NewFor(s.nw, first, last, Nested(t, |th.susp|, th.ctl.j), Waiting, Held(t))
             && th' == Thread(th.susp + [BodyFrame(th.ctl)], Enter(|s.jobs|))
    requires s' == s.(jobs := s.jobs + [child], threads := s.threads[t := th'])
    ensures Inv(s')
  {
    var th := s.threads[t];
    ThreadFact(s, t);
    ForkedThread(s.jobs, s.running, s.nw, t, th, child);
    forall j | 0 <= j < |s.jobs| ensures Keeps(th, th', j) {
      ForkKeeps(th, |s.jobs|, j);
    }
    AddsJob(s, s', t);
    ForkedJobOk(s.nw, s'.threads, t, th, |s.jobs|, first, last);
    ListsGrow(s, s');
    Compose(s, s', t, {});
  }

  // ----- the call a nested parallel_for returns to -----

  /** The job the nested call waited for. */
  lemma JobAwaited(nw: nat, threads: seq<Thread>, t: nat, j: nat, a: Job, th': Thread)
    requires AtJob(nw, threads, t, j, a) && threads[t].ctl == Await(j) && a.sem > 0 && a.phase == Waiting
    requires a.caller.Nested? && a.caller.t == t
    requires WaitingStack(threads[t], j) && th'.susp == threads[t].susp[..|threads[t].susp| - 1]
    requires th'.ctl == BodyBack(threads[t].susp[|threads[t].susp| - 1])
    ensures JobOk(nw, threads[t := th'], j, a.(sem := a.sem - 1, phase := Returned))
    ensures Evolves(a, a.(sem := a.sem - 1, phase := Returned), t)
  {
    var threads' := threads[t := th'];
    var b := a.(sem := a.sem - 1, phase := Returned);
    DoneCountFull(a.batches);
    assert forall k :: 0 <= k < |a.batches| ==> a.batches[k].mark.Finished?;
    CallsKept(threads, threads', a, b);
    assert ForOk(nw, threads', j, b);
  }

  function BodyBack(f: Frame): Ctl {
    if f.InBatch? then Exec(f.j, f.b, f.at, true) else Run(f.j, true)
  }

  lemma BackKeeps(th: Thread, i: nat)
    requires th.ctl.Await? && WaitingStack(th, th.ctl.j) && th.ctl.j != i
    ensures Keeps(th, Thread(th.susp[..|th.susp| - 1], BodyBack(th.susp[|th.susp| - 1])), i)
  {
    var n := |th.susp| - 1;
    var th' := Thread(th.susp[..n], BodyBack(th.susp[n]));
    forall l: nat, b: nat ensures FrameKept(th, th', i, l, b) {
      assert l < n ==> th'.susp[l] == th.susp[l];
    }
    forall l: nat ensures LevelKept(th, th', i, l) {
      assert l < n ==> th'.susp[l] == th.susp[l];
      assert l + 1 < n ==> th'.susp[l + 1] == th.susp[l + 1];
    }
    if OnTask(th, i) {
      assert th.susp[0] == InTask(i);
      assert if n > 0 then th'.susp[0] == th.susp[0] else th' == Thread([], Run(i, true));
      assert OnTask(th', i);
    }
    assert !Finishing(th, i) && !Holds(th, i);
  }

  lemma BackCtl(jobs: seq<Job>, r: seq<nat>, nw: nat, t: nat, lvl: nat, f: Frame)
    requires FrameOk(jobs, t, lvl, f)
    ensures CtlOk(jobs, r, nw, t, lvl, BodyBack(f))
  {
  }

  lemma FramesBack(jobs: seq<Job>, t: nat, j: nat, b: Job, lvl: nat, f: Frame)
    requires FrameOk(jobs, t, lvl, f) && f.j != j && j < |jobs|
    ensures FrameOk(jobs[j := b], t, lvl, f)
  {
  }

  /** A thread that returned into its innermost suspended body. */
  lemma BackOk(jobs: seq<Job>, r: seq<nat>, nw: nat, t: nat, th: Thread, n: nat)
    requires n < |th.susp| && forall l :: 0 <= l <= n ==> FrameOk(jobs, t, l, th.susp[l])
    requires forall l :: 0 < l <= n ==> AwaitedFrom(jobs, t, th, l, th.susp[l].j) && th.susp[l].InBatch?
    ensures ThreadOk(jobs, r, nw, t, Thread(th.susp[..n], BodyBack(th.susp[n])))
  {
    var th' := Thread(th.susp[..n], BodyBack(th.susp[n]));
    BackCtl(jobs, r, nw, t, n, th.susp[n]);
    forall l | 0 < l <= n ensures AwaitedFrom(jobs, t, th', l, th.susp[l].j) {
      assert AwaitedFrom(jobs, t, th, l, th.susp[l].j);
    }
  }

  lemma FrameFact(jobs: seq<Job>, r: seq<nat>, nw: nat, t: nat, th: Thread, l: nat)
    requires ThreadOk(jobs, r, nw, t, th) && l < |th.susp|
    ensures FrameOk(jobs, t, l, th.susp[l])
  {
  }

  lemma AwaitedBack(jobs: seq<Job>, t: nat, th: Thread, j: nat, b: Job, l: nat, i: nat)
    requires 0 < l <= |th.susp| && AwaitedFrom(jobs, t, th, l, i) && i != j && j < |jobs|
    ensures AwaitedFrom(jobs[j := b], t, th, l, i)
  {
  }

  lemma ThreadBack(jobs: seq<Job>, r: seq<nat>, nw: nat, t: nat, th: Thread, j: nat, b: Job, th': Thread)
    requires ThreadOk(jobs, r, nw, t, th) && WaitingStack(th, j) && j < |jobs|
    requires th' == Thread(th.susp[..|th.susp| - 1], BodyBack(th.susp[|th.susp| - 1]))
    ensures ThreadOk(jobs[j := b], r, nw, t, th')
  {
    forall l | 0 <= l < |th.susp| ensures FrameOk(jobs[j := b], t, l, th.susp[l]) {
      FrameFact(jobs, r, nw, t, th, l);
      FramesBack(jobs, t, j, b, l, th.susp[l]);
    }
    forall l | 0 < l < |th.susp| ensures AwaitedFrom(jobs[j := b], t, th, l, th.susp[l].j) {
      LevelAwaited(jobs, r, nw, t, th, l);
      AwaitedBack(jobs, t, th, j, b, l, th.susp[l].j);
    }
    BackOk(jobs[j := b], r, nw, t, th, |th.susp| - 1);
  }

  /** The job a thread works for at nesting level `lvl`. */
  function LevelJob(th: Thread, lvl: nat): nat
    requires lvl < |th.susp| || (lvl == |th.susp| && !Jobless(th.ctl))
  {
    if lvl < |th.susp| then th.susp[lvl].j else th.ctl.j
  }

  lemma LevelAwaited(jobs: seq<Job>, r: seq<nat>, nw: nat, t: nat, th: Thread, lvl: nat)
    requires ThreadOk(jobs, r, nw, t, th) && 0 < lvl <= |th.susp|
    ensures !Jobless(th.ctl) && AwaitedFrom(jobs, t, th, lvl, LevelJob(th, lvl))
  {
  }

  lemma ParentBefore(s: State, j: nat)
    requires Inv(s) && j < |s.jobs| && s.jobs[j].caller.Nested?
    ensures s.jobs[j].caller.parent < j
  {
    JobFact(s, j);
  }

  /** The jobs along a thread's stack are pairwise different: each was created by the one below it. */
  lemma {:induction false} StackAscends(s: State, t: nat, l: nat)
    requires Inv(s) && t < |s.threads| && l < |s.threads[t].susp|
    ensures var th := s.threads[t]; !Jobless(th.ctl) && th.susp[l].j < th.ctl.j
    decreases |s.threads[t].susp| - l
  {
    var th := s.threads[t];
    ThreadFact(s, t);
    LevelAwaited(s.jobs, s.running, s.nw, t, th, l + 1);
    ParentBefore(s, LevelJob(th, l + 1));
    if l + 1 < |th.susp| {
      StackAscends(s, t, l + 1);
    }
  }

  /** The stack under a thread that waits for a nested job. */
  predicate WaitingStack(th: Thread, j: nat) {
    && th.susp != [] && th.ctl == Await(j)
    && (forall l :: 0 <= l < |th.susp| ==> th.susp[l].j != j)
    && (forall l :: 0 < l < |th.susp| ==> th.susp[l].InBatch?)
  }

  lemma AwaitStack(s: State, t: nat, j: nat)
    requires Inv(s) && t < |s.threads| && s.threads[t].ctl == Await(j)
    ensures WaitingStack(s.threads[t], j)
  {
    ThreadFact(s, t);
    var th := s.threads[t];
    forall l | 0 <= l < |th.susp| ensures th.susp[l].j != j {
      StackAscends(s, t, l);
    }
    forall l | 0 < l < |th.susp| ensures th.susp[l].InBatch? {
      assert FrameOk(s.jobs, t, l, th.susp[l]);
    }
  }

  lemma AwaitFacts(s: State, t: nat, j: nat)
    requires Inv(s) && t < |s.threads| && s.threads[t].ctl == Await(j)
    ensures j < |s.jobs| && AtJob(s.nw, s.threads, t, j, s.jobs[j])
    ensures s.threads[t].susp != [] && s.jobs[j].phase == Waiting && s.jobs[j].caller.Nested? && s.jobs[j].caller.t == t
  {
    Facts(s, t, j);
    ThreadFact(s, t);
  }

  lemma ActsOnOne(s: State, s': State, t: nat, j: nat, b: Job, th': Thread)
    requires Inv(s) && t < |s.threads| && j < |s.jobs| && Evolves(s.jobs[j], b, t) && b.place == s.jobs[j].place
    requires s' == s.(jobs := s.jobs[j := b], threads := s.threads[t := th'])
    ensures Acts(s, s', t) && ListsOk(s')
  {
  }

  /** The thread takes the token of the nested job and returns into the body that called. */
  predicate Back(s: State, t: nat, j: nat, b: Job, th': Thread) {
    && t < |s.threads| && s.threads[t].ctl == Await(j) && j < |s.jobs| && s.jobs[j].sem > 0
    && b == s.jobs[j].(sem := s.jobs[j].sem - 1, phase := Returned)
    && var th := s.threads[t];
    && th.susp != [] && th' == Thread(th.susp[..|th.susp| - 1], BodyBack(th.susp[|th.susp| - 1]))
  }

  lemma AwaitThread(s: State, t: nat, j: nat, b: Job, th': Thread)
    requires Inv(s) && Back(s, t, j, b, th')
    ensures ThreadOk(s.jobs[j := b], s.running, s.nw, t, th')
  {
    ThreadFact(s, t);
    AwaitStack(s, t, j);
    ThreadBack(s.jobs, s.running, s.nw, t, s.threads[t], j, b, th');
  }

  lemma AwaitKeepsOthers(s: State, t: nat, j: nat, b: Job, th': Thread, i: nat)
    requires Inv(s) && Back(s, t, j, b, th') && i != j
    ensures Keeps(s.threads[t], th', i)
  {
    AwaitStack(s, t, j);
    BackKeeps(s.threads[t], i);
  }

  lemma AwaitJob(s: State, t: nat, j: nat, b: Job, th': Thread)
    requires Inv(s) && Back(s, t, j, b, th')
    ensures JobOk(s.nw, s.threads[t := th'], j, b) && Evolves(s.jobs[j], b, t)
  {
    AwaitStack(s, t, j);
    AwaitFacts(s, t, j);
    JobAwaited(s.nw, s.threads, t, j, s.jobs[j], th');
  }

  lemma StepAwait(s: State, s': State, t: nat, j: nat, b: Job, th': Thread)
    requires Inv(s) && Back(s, t, j, b, th')
    requires s' == s.(jobs := s.jobs[j := b], threads := s.threads[t := th'])
    ensures Inv(s')
  {
    AwaitThread(s, t, j, b, th');
    forall i | 0 <= i < |s.jobs| && i != j ensures Keeps(s.threads[t], th', i) {
      AwaitKeepsOthers(s, t, j, b, th', i);
    }
    AwaitJob(s, t, j, b, th');
    ActsOnOne(s, s', t, j, b, th');
    Compose(s, s', t, {j});
  }

  // ----- callers outside libfly -----

  lemma ComposeCaller(s: State, s': State)
    requires Inv(s) && s'.nw == s.nw && s'.threads == s.threads && |s'.tokens| == |s.tokens| && s'.running == s.running
    requires |s.jobs| <= |s'.jobs| && forall j :: 0 <= j < |s.jobs| ==> Evolves(s.jobs[j], s'.jobs[j], |s.threads|)
    requires forall j :: 0 <= j < |s'.jobs| ==>
               (j < |s.jobs| && s'.jobs[j] == s.jobs[j]) || JobOk(s.nw, s.threads, j, s'.jobs[j])
    requires ListsOk(s')
    ensures Inv(s')
  {
    forall u | 0 <= u < |s'.threads| ensures ThreadOk(s'.jobs, s'.running, s'.nw, u, s'.threads[u]) {
      ThreadFact(s, u);
      ThreadStable(s.jobs, s'.jobs, s.running, s'.running, s.nw, |s.threads|, u, s.threads[u]);
    }
    forall j | 0 <= j < |s'.jobs| ensures JobOk(s'.nw, s'.threads, j, s'.jobs[j]) {
      if j < |s.jobs| { JobFact(s, j); }
    }
  }

  lemma StepSubmit(s: State, s': State)
    requires Inv(s) && s'.nw == s.nw && s'.threads == s.threads && s'.tokens == s.tokens && s'.running == s.running
    requires |s'.jobs| == |s.jobs| + 1 && s'.jobs[..|s.jobs|] == s.jobs && s'.ready == s.ready + [|s.jobs|]
    requires var job := s'.jobs[|s.jobs|];
             || job == NewTask(Posting(0))
             || job == NewFor(s.nw, job.first, job.last, Outside, Posting(0), InReady)
    ensures Inv(s')
  {
    var n := |s.jobs|;
    assert forall j :: 0 <= j < n ==> s'.jobs[j] == s'.jobs[..n][j];
    if s'.jobs[n].kind == ForJob {
      NewForOk(s.nw, s.threads, n, s'.jobs[n].first, s'.jobs[n].last, Outside, Posting(0), InReady);
      assert JobOk(s.nw, s.threads, n, s'.jobs[n]);
    } else {
      NewTaskOk(s.nw, s.threads, n, Posting(0));
    }
    ListsGrow(s, s');
    ComposeCaller(s, s');
  }

  /** The submitting call goes on: it posts to the next worker, or takes the token of its job. */
  lemma StepCaller(s: State, s': State, j: nat, b: Job)
    requires Inv(s) && j < |s.jobs| && s.jobs[j].caller.Outside? && b == s.jobs[j].(sem := b.sem, phase := b.phase)
    requires s' == SetJob(s, j, b).(tokens := s'.tokens) && |s'.tokens| == |s.tokens|
    requires var a := s.jobs[j];
             || (a.phase.Posting? && b.sem == a.sem && (b.phase == Waiting || (b.phase.Posting? && b.phase.i < s.nw)))
             || (a.phase == Waiting && a.sem == b.sem + 1 && b.phase == Returned)
    ensures Inv(s')
  {
    JobFact(s, j);
    assert JobOk(s.nw, s.threads, j, b) by {
      if b.kind == ForJob {
        CallsKept(s.threads, s.threads, s.jobs[j], b);
        assert ForOk(s.nw, s.threads, j, b);
      } else {
        assert TaskOk(s.threads, j, b);
      }
    }
    assert ListsOk(s');
    ComposeCaller(s, s');
  }
}
