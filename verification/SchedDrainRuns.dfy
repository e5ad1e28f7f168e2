/** Which steps lower the rank, and that one of them is possible until every job has been signalled. */
module SchedDrainRuns {
  import opened SeqOps
  import opened SchedModel
  import opened SchedInv
  import opened SchedSteps
  import opened SchedRuns
  import opened SchedWork
  import opened SchedProgress
  import opened SchedDrain

  /** The loop of a nested call that finds nothing to claim while others execute the last batches of its job. */
  predicate Spins(s: State, t: nat) {
    && t < |s.threads|
    && var th := s.threads[t];
    && th.susp != [] && (th.ctl.Check? || th.ctl.Claim? || th.ctl.Test?) && th.ctl.j < |s.jobs|
    && !IsDone(s.jobs[th.ctl.j]) && !HasFree(s.jobs[th.ctl.j])
  }

  /** The rank goes down; a spinning thread may also leave it as it is. */
  ghost predicate Drops(s: State, s': State, t: nat) {
    forall now, was {:trigger Below(now, was)} :: now == RankOf(s') && was == RankOf(s) ==>
      Below(now, was) || (Spins(s, t) && now == was)
  }

  // ----- a thread turns and no job's work changes -----

  predicate ForgetsNoTask(s: State, th: Thread, th': Thread) {
    Own(th) == Own(th') || forall j :: j in s.running && IsTask(s.jobs, j) ==> j != Own(th)
  }

  lemma RepeatsAtMost(s: State, th: Thread, th': Thread)
    requires ForgetsNoTask(s, th, th')
    ensures Repeats(s.jobs, s.running, th') <= Repeats(s.jobs, s.running, th)
  {
    TotalAtMost(OtherTasks(s.jobs, s.running, Own(th')), OtherTasks(s.jobs, s.running, Own(th)));
  }

  function LocalOf(s: State, th: Thread): nat {
    Local(s.nw, s.jobs, |s.running|, th)
  }

  lemma TurnDrops(s: State, s': State, t: nat, c: Ctl)
    requires t < |s.threads| && |s'.jobs| == |s.jobs| && s' == SetCtl(s, t, c).(jobs := s'.jobs) && !c.Post?
    requires forall j :: 0 <= j < |s.jobs| ==> Alike(s.jobs[j], s'.jobs[j]) && s'.jobs[j].phase == s.jobs[j].phase
    requires var th := s.threads[t];
             && ForgetsNoTask(s, th, th.(ctl := c))
             && LocalOf(s, th.(ctl := c)) <= LocalOf(s, th)
             && (Spins(s, t) || LocalOf(s, th.(ctl := c)) < LocalOf(s, th))
    ensures Drops(s, s', t)
  {
    RepeatsAtMost(s, s.threads[t], s.threads[t].(ctl := c));
    LocalDrops(s, s', t);
  }

  /** The common case: nothing but the control state changes. */
  lemma CtlDrops(s: State, t: nat, c: Ctl)
    requires t < |s.threads| && !c.Post?
    requires var th := s.threads[t];
             && ForgetsNoTask(s, th, th.(ctl := c))
             && LocalOf(s, th.(ctl := c)) <= LocalOf(s, th)
             && (Spins(s, t) || LocalOf(s, th.(ctl := c)) < LocalOf(s, th))
    ensures Drops(s, SetCtl(s, t, c), t)
  {
    TurnDrops(s, SetCtl(s, t, c), t, c);
  }

  // ----- looking for a job -----

  lemma LookDrops(s: State, t: nat)
    requires Inv(s) && Enabled(s, t, Go) && s.threads[t].ctl.Look?
    ensures Drops(s, LookStep(s, t), t)
  {
    ThreadFact(s, t);
    if s.ready == [] {
      CtlDrops(s, t, SawEmpty);
    } else {
      var j := s.ready[|s.ready| - 1];
      assert j in s.ready;
      WorkDrops(s, LookStep(s, t), j);
    }
  }

  lemma RunsTask(s: State, t: nat, k: nat)
    requires Inv(s) && t < |s.threads| && s.threads[t].ctl.Walk? && k < |s.running| && s.running[k] < |s.jobs|
    requires s.jobs[s.running[k]].kind == TaskJob
    ensures Drops(s, SetCtl(s, t, Run(s.running[k], false)), t)
  {
    ThreadFact(s, t);
    var th := s.threads[t];
    var th' := th.(ctl := Run(s.running[k], false));
    TotalLess(OtherTasks(s.jobs, s.running, Own(th')), OtherTasks(s.jobs, s.running, Own(th)), k);
    RepeatsDrop(s, SetCtl(s, t, Run(s.running[k], false)), t);
  }

  /** What the walk took is claimed from, or, a task, run. */
  lemma TakesDrops(s: State, t: nat, k: nat)
    requires Inv(s) && t < |s.threads| && s.threads[t].ctl.Walk? && k < |s.running| && s.running[k] < |s.jobs|
    ensures var j := s.running[k]; Drops(s, SetCtl(s, t, StartExec(s.jobs[j], j)), t)
  {
    ThreadFact(s, t);
    if s.jobs[s.running[k]].kind == TaskJob {
      RunsTask(s, t, k);
    } else {
      CtlDrops(s, t, Claim(s.running[k], 0));
    }
  }

  /** A walk that takes nothing goes on or ends asleep. */
  lemma WalksOn(s: State, t: nat, c: Ctl)
    requires Inv(s) && t < |s.threads| && s.threads[t].ctl.Walk?
    requires c == Sleep || (c == Walk(s.threads[t].ctl.k + 1) && s.threads[t].ctl.k < |s.running|)
    ensures Drops(s, SetCtl(s, t, c), t)
  {
    ThreadFact(s, t);
    CtlDrops(s, t, c);
  }

  lemma WalkDrops(s: State, t: nat)
    requires Inv(s) && Enabled(s, t, Go) && s.threads[t].ctl.Walk?
    ensures Drops(s, WalkStep(s, t), t)
  {
    var k := s.threads[t].ctl.k;
    if k < |s.running| {
      if IsDone(s.jobs[s.running[k]]) {
        WalksOn(s, t, Walk(k + 1));
        assert WalkStep(s, t) == SetCtl(s, t, Walk(k + 1));
      } else {
        TakesDrops(s, t, k);
        assert WalkStep(s, t) == SetCtl(s, t, StartExec(s.jobs[s.running[k]], s.running[k]));
      }
    } else if k == 0 {
      WalksOn(s, t, Sleep);
      assert WalkStep(s, t) == SetCtl(s, t, Sleep);
    } else {
      ThreadFact(s, t);
      TakesDrops(s, t, k - 1);
      assert WalkStep(s, t) == SetCtl(s, t, StartExec(s.jobs[s.running[k - 1]], s.running[k - 1]));
    }
  }

  lemma SleepDrops(s: State, t: nat)
    requires Inv(s) && Enabled(s, t, Go) && s.threads[t].ctl.Sleep?
    ensures Drops(s, ThreadStep(s, t, Go), t)
  {
    ThreadFact(s, t);
    var s' := ThreadStep(s, t, Go);
    RepeatsAtMost(s, s.threads[t], s'.threads[t]);
    TokensDrop(s, s', t);
  }

  // ----- publishing -----

  lemma PublishDrops(s: State, t: nat, j: nat, c: Ctl)
    requires Inv(s) && t < |s.threads| && Holds(s.threads[t], j) && j < |s.jobs|
    ensures Drops(s, SetCtl(MoveToRunning(s, j), t, c), t)
  {
    Facts(s, t, j);
    WorkDrops(s, SetCtl(MoveToRunning(s, j), t, c), j);
  }

  lemma PoppedDrops(s: State, t: nat, j: nat)
    requires Inv(s) && Enabled(s, t, Go) && s.threads[t].ctl == Popped(j)
    ensures Drops(s, PoppedStep(s, t), t)
  {
    ThreadFact(s, t);
    if s.jobs[j].kind == ForJob {
      PublishDrops(s, t, j, Post(j, 0));
    } else if IsDone(s.jobs[j]) {
      assert s.jobs[j].(done := s.jobs[j].nbbatches) == s.jobs[j];
      assert PoppedStep(s, t) == SetCtl(s, t, Marked(j));
      CtlDrops(s, t, Marked(j));
    } else {
      WorkDrops(s, PoppedStep(s, t), j);
    }
  }

  lemma PostDrops(s: State, t: nat, backup: bool)
    requires Inv(s) && t < |s.threads| && s.threads[t].ctl.Post?
    ensures Below(RankOf(PostStep(s, t, backup)), RankOf(s))
  {
    ThreadFact(s, t);
    var s' := PostStep(s, t, backup);
    assert ThreadTells(s.nw, s'.threads[t]) < ThreadTells(s.nw, s.threads[t]);
    assert Light(s, s', t);
    TellsDrop(s, s', t);
  }

  // ----- claiming and executing -----

  lemma MarksLeftDrops(bs: seq<Batch>, b: nat, x: Batch)
    requires b < |bs| && MarkLeft(x.mark) < MarkLeft(bs[b].mark)
    ensures MarksLeft(bs[b := x]) < MarksLeft(bs)
  {
    TotalLess(Marks(bs[b := x]), Marks(bs), b);
  }

  lemma ClaimsBatch(s: State, t: nat, j: nat, pos: nat)
    requires Inv(s) && Enabled(s, t, Go) && s.threads[t].ctl == Claim(j, pos)
    requires pos < |s.jobs[j].batches| && s.jobs[j].batches[pos].mark.Free?
    ensures Drops(s, ClaimStep(s, t), t)
  {
    var bs := s.jobs[j].batches;
    MarksLeftDrops(bs, pos, bs[pos].(mark := Taken(t, |s.threads[t].susp|)));
    WorkDrops(s, ClaimStep(s, t), j);
  }

  lemma SearchGoesOn(s: State, t: nat, j: nat, pos: nat, c: Ctl)
    requires Inv(s) && t < |s.threads| && s.threads[t].ctl == Claim(j, pos) && j < |s.jobs| && pos <= |s.jobs[j].batches|
    requires if pos == |s.jobs[j].batches| then c == Test(j, true) else c == Claim(j, pos + 1)
    ensures Drops(s, SetCtl(s, t, c), t)
  {
    Facts(s, t, j);
    CtlDrops(s, t, c);
  }

  lemma ClaimDrops(s: State, t: nat, j: nat, pos: nat)
    requires Inv(s) && Enabled(s, t, Go) && s.threads[t].ctl == Claim(j, pos)
    ensures Drops(s, ClaimStep(s, t), t)
  {
    var bs := s.jobs[j].batches;
    if pos == |bs| {
      SearchGoesOn(s, t, j, pos, Test(j, true));
      assert ClaimStep(s, t) == SetCtl(s, t, Test(j, true));
    } else if bs[pos].mark.Free? {
      ClaimsBatch(s, t, j, pos);
    } else {
      SearchGoesOn(s, t, j, pos, Claim(j, pos + 1));
      assert ClaimStep(s, t) == SetCtl(s, t, Claim(j, pos + 1));
    }
  }

  lemma BatchOverDrops(s: State, t: nat, j: nat, b: nat, at: int)
    requires Inv(s) && Enabled(s, t, Go) && s.threads[t].ctl == Exec(j, b, at, false)
    requires at >= s.jobs[j].batches[b].span.hi
    ensures Drops(s, ExecStep(s, t), t)
  {
    Facts(s, t, j);
    var job := s.jobs[j];
    ForBatchOver(s.nw, s.threads, t, j, job, b, at);
    MarksLeftDrops(job.batches, b, job.batches[b].(mark := Finished));
    WorkDrops(s, ExecStep(s, t), j);
  }

  lemma CallEndDrops(s: State, t: nat, j: nat, b: nat, at: int)
    requires Inv(s) && Enabled(s, t, Go) && s.threads[t].ctl == Exec(j, b, at, true)
    ensures Drops(s, SetCtl(s, t, Exec(j, b, at + 1, false)), t)
  {
    ThreadFact(s, t);
    CtlDrops(s, t, Exec(j, b, at + 1, false));
  }

  lemma CallDrops(s: State, t: nat, j: nat, b: nat, at: int)
    requires Inv(s) && Enabled(s, t, Go) && s.threads[t].ctl == Exec(j, b, at, false)
    requires at < s.jobs[j].batches[b].span.hi
    ensures Drops(s, ExecStep(s, t), t)
  {
    ThreadFact(s, t);
    TurnDrops(s, ExecStep(s, t), t, Exec(j, b, at, true));
  }

  lemma ExecDrops(s: State, t: nat, j: nat, b: nat, at: int, inCall: bool)
    requires Inv(s) && Enabled(s, t, Go) && s.threads[t].ctl == Exec(j, b, at, inCall)
    ensures Drops(s, ExecStep(s, t), t)
  {
    if inCall {
      CallEndDrops(s, t, j, b, at);
      assert ExecStep(s, t) == SetCtl(s, t, Exec(j, b, at + 1, false));
    } else if at < s.jobs[j].batches[b].span.hi {
      CallDrops(s, t, j, b, at);
    } else {
      BatchOverDrops(s, t, j, b, at);
    }
  }

  lemma RunDrops(s: State, t: nat, j: nat, inCall: bool)
    requires Inv(s) && Enabled(s, t, Go) && s.threads[t].ctl == Run(j, inCall)
    ensures Drops(s, RunStep(s, t), t)
  {
    ThreadFact(s, t);
    TurnDrops(s, RunStep(s, t), t, if inCall then Test(j, false) else Run(j, true));
  }

  // ----- finishing -----

  lemma NotListed(s: State, j: nat)
    requires Inv(s) && j < |s.jobs| && s.jobs[j].place.Left?
    ensures j !in s.running && RemoveFirst(s.running, j) == s.running
  {
  }

  lemma TestDrops(s: State, t: nat, j: nat, idle: bool)
    requires Inv(s) && Enabled(s, t, Go) && s.threads[t].ctl == Test(j, idle)
    ensures Drops(s, FinishStep(s, t), t)
  {
    Facts(s, t, j);
    CtlDrops(s, t, if IsDone(s.jobs[j]) then SetDone(j, idle) else AfterExec(s.threads[t], j, idle));
  }

  lemma SameJob(s: State, j: nat, b: Job)
    requires j < |s.jobs| && b == s.jobs[j]
    ensures SetJob(s, j, b) == s
  {
    assert s.jobs[j := b] == s.jobs;
  }

  lemma SetDoneDrops(s: State, t: nat, j: nat, idle: bool)
    requires Inv(s) && Enabled(s, t, Go) && s.threads[t].ctl == SetDone(j, idle)
    ensures Drops(s, FinishStep(s, t), t)
  {
    Facts(s, t, j);
    if s.jobs[j].state == DONE {
      SameJob(s, j, s.jobs[j].(state := DONE));
      CtlDrops(s, t, Unlist(j, idle));
      assert FinishStep(s, t) == SetCtl(s, t, Unlist(j, idle));
    } else {
      WorkDrops(s, FinishStep(s, t), j);
    }
  }

  lemma UnlistDrops(s: State, t: nat, j: nat, idle: bool)
    requires Inv(s) && Enabled(s, t, Go) && s.threads[t].ctl == Unlist(j, idle)
    ensures Drops(s, FinishStep(s, t), t)
  {
    Facts(s, t, j);
    if s.jobs[j].place.Left? {
      NotListed(s, j);
      SameJob(s, j, s.jobs[j].(place := Left));
      CtlDrops(s, t, Signal(j, idle));
      assert FinishStep(s, t) == SetCtl(s, t, Signal(j, idle));
    } else {
      WorkDrops(s, FinishStep(s, t), j);
    }
  }

  lemma SignalDrops(s: State, t: nat, j: nat, idle: bool)
    requires Inv(s) && Enabled(s, t, Go) && s.threads[t].ctl == Signal(j, idle)
    ensures Drops(s, FinishStep(s, t), t)
  {
    Facts(s, t, j);
    NotListed(s, j);
    TurnDrops(s, FinishStep(s, t), t, AfterExec(s.threads[t], j, idle));
  }

  // ----- nested calls -----

  lemma CheckDrops(s: State, t: nat, j: nat)
    requires Inv(s) && Enabled(s, t, Go) && s.threads[t].ctl == Check(j)
    ensures Drops(s, ThreadStep(s, t, Go), t)
  {
    Facts(s, t, j);
    CtlDrops(s, t, if IsDone(s.jobs[j]) then Await(j) else Claim(j, 0));
  }

  lemma AwaitDrops(s: State, t: nat, j: nat)
    requires Inv(s) && Enabled(s, t, Go) && s.threads[t].ctl == Await(j)
    ensures Drops(s, AwaitStep(s, t), t)
  {
    AwaitFacts(s, t, j);
    WorkDrops(s, AwaitStep(s, t), j);
  }

  // ----- all steps -----

  lemma GoDrops(s: State, t: nat)
    requires Inv(s) && Enabled(s, t, Go)
    ensures Drops(s, ThreadStep(s, t, Go), t)
  {
    match s.threads[t].ctl
    case Look => LookDrops(s, t);
    case SawEmpty => ThreadFact(s, t); CtlDrops(s, t, Walk(0));
    case Walk(_) => WalkDrops(s, t);
    case Sleep => SleepDrops(s, t);
    case Popped(j) => PoppedDrops(s, t, j);
    case Marked(j) => PublishDrops(s, t, j, Run(j, false));
    case Post(_, _) => PostDrops(s, t, false);
    case Enter(j) => PublishDrops(s, t, j, Post(j, 0));
    case Check(j) => CheckDrops(s, t, j);
    case Await(j) => AwaitDrops(s, t, j);
    case Claim(j, pos) => ClaimDrops(s, t, j, pos);
    case Exec(j, b, at, inCall) => ExecDrops(s, t, j, b, at, inCall);
    case Run(j, inCall) => RunDrops(s, t, j, inCall);
    case Test(j, idle) => TestDrops(s, t, j, idle);
    case SetDone(j, idle) => SetDoneDrops(s, t, j, idle);
    case Unlist(j, idle) => UnlistDrops(s, t, j, idle);
    case Signal(j, idle) => SignalDrops(s, t, j, idle);
  }

  /** Steps by which nobody calls the library anew: threads go on, callers post and wait. */
  predicate NoNewCall(a: Action) {
    a.CallerPosts? || a.CallerWaits? || (a.Step? && (a.c == Go || a.c == Backup))
  }

  predicate Spinning(s: State, a: Action) {
    a.Step? && a.c == Go && Spins(s, a.t)
  }

  /** Every step but new calls lowers the rank, or is the spinning of a nested call and leaves it as it is. */
  lemma NextDrops(s: State, a: Action)
    requires Inv(s) && Allowed(s, a) && NoNewCall(a)
    ensures Below(RankOf(Next(s, a)), RankOf(s)) || (Spinning(s, a) && RankOf(Next(s, a)) == RankOf(s))
  {
    match a
    case CallerPosts(j, _) =>
      assert s.threads == s.threads[0 := s.threads[0]];
      TellsDrop(s, Next(s, a), 0);
    case CallerWaits(j) => WorkDrops(s, Next(s, a), j);
    case Step(t, c) => if c == Go { GoDrops(s, t); } else { PostDrops(s, t, true); }
  }

  // ----- a step that lowers the rank is possible -----

  predicate Productive(s: State, a: Action) {
    Allowed(s, a) && NoNewCall(a) && !Spinning(s, a)
  }

  lemma GoesOn(s: State, t: nat)
    requires Inv(s) && t < |s.threads| && !Spins(s, t)
    requires s.threads[t].ctl.Sleep? ==> s.tokens[t] > 0
    requires !s.threads[t].ctl.Await? && (s.threads[t].ctl.Walk? || NoWalker(s))
    ensures Useful(s, Step(t, Go))
  {
    EnabledUnless(s, t);
  }

  /** A step that lowers the rank and is not the wait of a caller. */
  predicate Useful(s: State, a: Action) {
    Productive(s, a) && !a.CallerWaits?
  }

  lemma AwaitGoesOn(s: State, t: nat)
    requires Inv(s) && t < |s.threads| && s.threads[t].ctl.Await? && NoWalker(s)
    ensures exists a :: Useful(s, a)
  {
    var j := s.threads[t].ctl.j;
    AwaitFacts(s, t, j);
    AwaitHasPoster(s, t);
    if s.jobs[j].sem > 0 {
      EnabledUnless(s, t);
      assert Useful(s, Step(t, Go));
    } else {
      var u: nat :| u < |s.threads| && Finishing(s.threads[u], j) && Enabled(s, u, Go);
      assert Useful(s, Step(u, Go));
    }
  }

  /** Where one thread spins another one has something to do. */
  lemma SpinnerHasWorker(s: State, t: nat)
    requires Inv(s) && Spins(s, t)
    ensures exists u: nat :: u < |s.threads| && !Spins(s, u) && !s.threads[u].ctl.Sleep?
  {
    var j := s.threads[t].ctl.j;
    Facts(s, t, j);
    DoneCountFull(s.jobs[j].batches);
    var b :| 0 <= b < |s.jobs[j].batches| && !s.jobs[j].batches[b].mark.Finished?;
    assert s.jobs[j].batches[b].mark.Taken?;
    NoCircle(s, j);
    var u: nat :| Moving(s, u);
    ThreadFact(s, u);
  }

  /** No state is stuck, or only spins, while somebody is awake, has a token, or posts. */
  lemma AwakeIsUseful(s: State)
    requires Inv(s) && !AllAsleep(s)
    ensures exists a :: Useful(s, a)
  {
    if t :| 0 <= t < |s.threads| && s.threads[t].ctl.Walk? {
      GoesOn(s, t);
    } else if t :| 0 <= t < |s.threads| && s.threads[t].ctl.Await? {
      AwaitGoesOn(s, t);
    } else if t :| 0 <= t < |s.threads| && Spins(s, t) {
      SpinnerHasWorker(s, t);
      var u: nat :| u < |s.threads| && !Spins(s, u) && !s.threads[u].ctl.Sleep?;
      GoesOn(s, u);
    } else if t :| 0 <= t < |s.threads| && (s.threads[t].ctl.Sleep? ==> s.tokens[t] > 0) {
      GoesOn(s, t);
    } else {
      var i :| 0 <= i < |s.jobs| && s.jobs[i].phase.Posting?;
      JobFact(s, i);
      assert Useful(s, CallerPosts(i, false));
    }
  }

  /** While a job has not been signalled, a step of a thread or one more post lowers the rank. */
  lemma CanBeProductive(s: State, j: nat)
    requires Reachable(s) && j < |s.jobs| && s.jobs[j].posts == 0
    ensures exists a :: Useful(s, a)
  {
    ReachableOk(s);
    if AllAsleep(s) {
      AsleepMeansFinished(s, j);
    } else {
      AwakeIsUseful(s);
    }
  }

  /** In particular no reachable state is stuck while a job has not been signalled. */
  lemma NoDeadlock(s: State, j: nat)
    requires Reachable(s) && j < |s.jobs| && s.jobs[j].posts == 0
    ensures CanGoOn(s)
  {
    CanBeProductive(s, j);
    var a :| Useful(s, a);
    assert a.CallerPosts? ==> Allowed(s, CallerPosts(a.j, false));
    assert a.Step? ==> Enabled(s, a.t, Go);
  }

  // ----- when nothing is left to do -----

  /** Every job is done and signalled, every call and every wait for a task has returned, and all workers sleep. */
  predicate Completed(s: State) {
    AllAsleep(s) && s.ready == []
    && forall j :: 0 <= j < |s.jobs| ==> IsDone(s.jobs[j]) && s.jobs[j].posts > 0 && s.jobs[j].phase.Returned?
  }

  lemma AsleepReturned(s: State, j: nat)
    requires Reachable(s) && AllAsleep(s) && j < |s.jobs| && !Allowed(s, CallerWaits(j))
    ensures s.jobs[j].phase.Returned?
  {
    ReachableOk(s);
    AsleepMeansFinished(s, j);
    AsleepIsIdle(s);
    JobFact(s, j);
  }

  /** A reachable state in which no step can lower the rank is one in which all is completed. */
  lemma QuietMeansCompleted(s: State)
    requires Reachable(s) && forall a :: !Productive(s, a)
    ensures Completed(s)
  {
    ReachableOk(s);
    if !AllAsleep(s) {
      AwakeIsUseful(s);
    }
    forall j | 0 <= j < |s.jobs| ensures IsDone(s.jobs[j]) && s.jobs[j].posts > 0 && s.jobs[j].phase.Returned? {
      AsleepMeansFinished(s, j);
      assert !Productive(s, CallerWaits(j));
      AsleepReturned(s, j);
    }
    AsleepMeansFinished(s, 0);
  }

  /** From every reachable state, whatever nested calls are under way, the library alone can complete everything. */
  lemma {:induction false} CanDrain(s: State) returns (acts: seq<Action>)
    requires Reachable(s)
    ensures Runs(s, acts) && (forall a :: a in acts ==> NoNewCall(a))
    ensures Completed(After(s, acts)) && forall a :: !Productive(After(s, acts), a)
    decreases RankOf(s).work, RankOf(s).tells, RankOf(s).repeats, RankOf(s).tokens, RankOf(s).local
  {
    if a :| Productive(s, a) {
      ReachableOk(s);
      NextDrops(s, a);
      ReachableNext(s, a);
      var rest := CanDrain(Next(s, a));
      acts := [a] + rest;
      assert acts[1..] == rest;
    } else {
      QuietMeansCompleted(s);
      acts := [];
    }
  }
}
