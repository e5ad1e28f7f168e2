/** Two runs of one worker that show what the scheduler does not rule out. */
module SchedWitness {
  import opened Split
  import opened SchedModel
  import opened SchedRuns

  lemma Goes(s: State, a: Action, s': State)
    requires Reachable(s) && Allowed(s, a) && Next(s, a) == s'
    ensures Reachable(s')
  {
    ReachableNext(s, a);
  }

  /** One worker, one task: `main` and `backup` are its two threads. */
  function Stage(job: Job, ready: seq<nat>, running: seq<nat>, main: Ctl, backup: Ctl): State {
    State(1, [job], ready, running, [0, 0], [Thread([], main), Thread([], backup)])
  }

  /** What the backup thread does when the only job is a done task in the running list. */
  function BackupNext(c: Ctl): Ctl {
    match c
    case Look => SawEmpty
    case SawEmpty => Walk(0)
    case Walk(k) => if k == 0 then Walk(1) else Run(0, false)
    case _ => Run(0, true)
  }

  lemma BackupGoes(job: Job, main: Ctl, c: Ctl)
    requires Reachable(Stage(job, [], [0], main, c)) && job.kind == TaskJob && IsDone(job)
    requires c.Look? || c.SawEmpty? || c == Walk(0) || c == Walk(1) || c == Run(0, false)
    ensures Reachable(Stage(job, [], [0], main, BackupNext(c)))
  {
    var s := Stage(job, [], [0], main, c);
    assert ThreadStep(s, 1, Go) == SetCtl(s, 1, BackupNext(c));
    assert SetCtl(s, 1, BackupNext(c)) == Stage(job, [], [0], main, BackupNext(c));
    Goes(s, Step(1, Go), Stage(job, [], [0], main, BackupNext(c)));
  }

  /** The main thread takes the task from ready and begins to run it. */
  lemma MainRunsTask(j0: Job, j1: Job, j2: Job, j3: Job)
    requires j0 == NewTask(Posting(0)) && j1 == j0.(place := Held(0), closer := 0) && j2 == j1.(done := 1)
    requires j3 == j2.(state := RUNNING, place := InRunning)
    requires Reachable(Stage(j0, [0], [], Look, Look))
    ensures Reachable(Stage(j3, [], [0], Run(0, true), Look))
  {
    Goes(Stage(j0, [0], [], Look, Look), Step(0, Go), Stage(j1, [], [], Popped(0), Look));
    Goes(Stage(j1, [], [], Popped(0), Look), Step(0, Go), Stage(j2, [], [], Marked(0), Look));
    Goes(Stage(j2, [], [], Marked(0), Look), Step(0, Go), Stage(j3, [], [0], Run(0, false), Look));
    Goes(Stage(j3, [], [0], Run(0, false), Look), Step(0, Go), Stage(j3, [], [0], Run(0, true), Look));
  }

  lemma TaskSubmitted()
    ensures Reachable(Stage(NewTask(Posting(0)), [0], [], Look, Look))
  {
    var s := Init(1);
    assert s == State(1, [], [], [], [0, 0], [Thread([], Look), Thread([], Look)]);
    assert Runs(s, []) && After(s, []) == s;
    Goes(s, SubmitTask, Stage(NewTask(Posting(0)), [0], [], Look, Look));
  }

  /** Setting batches_done early does not keep the other threads off a task: a thread that reads the running list to its
      end takes the last job it saw, done or not. So a task can be run twice at the same time. */
  lemma TaskMayRunTwice()
    ensures exists s :: Reachable(s) && |s.threads| == 2 && s.threads[0].ctl == s.threads[1].ctl == Run(0, true)
  {
    var j0 := NewTask(Posting(0));
    var j1 := j0.(place := Held(0), closer := 0);
    var j2 := j1.(done := 1);
    var j3 := j2.(state := RUNNING, place := InRunning);
    TaskSubmitted();
    MainRunsTask(j0, j1, j2, j3);
    var main := Run(0, true);
    BackupGoes(j3, main, Look);
    BackupGoes(j3, main, SawEmpty);
    BackupGoes(j3, main, Walk(0));
    BackupGoes(j3, main, Walk(1));
    BackupGoes(j3, main, Run(0, false));
  }

  // ----- a job posted twice -----

  /** The job of one index: its only batch as marked. */
  function OneIndex(mark: Mark, phase: Phase): Job {
    NewFor(1, 0, 1, Outside, phase, InReady).(batches := [Batch(Span(0, 1), mark)])
  }

  lemma ForSubmitted()
    ensures Reachable(Stage(OneIndex(Free, Posting(0)), [0], [], Look, Look))
  {
    var s := Init(1);
    assert s == State(1, [], [], [], [0, 0], [Thread([], Look), Thread([], Look)]);
    assert Runs(s, []) && After(s, []) == s;
    assert NewBatches(0, 1, 1) == [Batch(Span(0, 1), Free)];
    Goes(s, SubmitFor(0, 1), Stage(OneIndex(Free, Posting(0)), [0], [], Look, Look));
  }

  function RunningJob(mark: Mark): Job {
    OneIndex(mark, Posting(0)).(state := RUNNING, place := InRunning)
  }

  lemma MainTakesFor()
    requires Reachable(Stage(OneIndex(Free, Posting(0)), [0], [], Look, Look))
    ensures Reachable(Stage(RunningJob(Free), [], [0], Post(0, 1), Look))
  {
    var j1 := OneIndex(Free, Posting(0)).(place := Held(0));
    Goes(Stage(OneIndex(Free, Posting(0)), [0], [], Look, Look), Step(0, Go), Stage(j1, [], [], Popped(0), Look));
    Goes(Stage(j1, [], [], Popped(0), Look), Step(0, Go), Stage(RunningJob(Free), [], [0], Post(0, 0), Look));
    Goes(Stage(RunningJob(Free), [], [0], Post(0, 0), Look), Step(0, Go), Stage(RunningJob(Free), [], [0], Post(0, 1), Look));
  }

  lemma UpdateOnly<T>(x: T, y: T)
    ensures [x][0 := y] == [y]
  {
  }

  lemma MainClaims()
    requires Reachable(Stage(RunningJob(Free), [], [0], Post(0, 1), Look))
    ensures Reachable(Stage(RunningJob(Taken(0, 0)), [], [0], Exec(0, 0, 0, false), Look))
  {
    var s := Stage(RunningJob(Free), [], [0], Claim(0, 0), Look);
    Goes(Stage(RunningJob(Free), [], [0], Post(0, 1), Look), Step(0, Go), s);
    UpdateOnly(Batch(Span(0, 1), Free), Batch(Span(0, 1), Taken(0, 0)));
    UpdateOnly(RunningJob(Free), RunningJob(Taken(0, 0)));
    Goes(s, Step(0, Go), Stage(RunningJob(Taken(0, 0)), [], [0], Exec(0, 0, 0, false), Look));
  }

  /** The backup thread finds the job, and no batch of it. */
  function SearchNext(c: Ctl): Ctl {
    match c
    case Look => SawEmpty
    case SawEmpty => Walk(0)
    case Walk(_) => Claim(0, 0)
    case Claim(_, pos) => if pos == 0 then Claim(0, 1) else Test(0, true)
    case _ => c
  }

  lemma BackupSearches(main: Ctl, c: Ctl)
    requires Reachable(Stage(RunningJob(Taken(0, 0)), [], [0], main, c))
    requires c.Look? || c.SawEmpty? || c == Walk(0) || c == Claim(0, 0) || c == Claim(0, 1)
    ensures Reachable(Stage(RunningJob(Taken(0, 0)), [], [0], main, SearchNext(c)))
  {
    var s := Stage(RunningJob(Taken(0, 0)), [], [0], main, c);
    assert ThreadStep(s, 1, Go) == SetCtl(s, 1, SearchNext(c));
    assert SetCtl(s, 1, SearchNext(c)) == Stage(RunningJob(Taken(0, 0)), [], [0], main, SearchNext(c));
    Goes(s, Step(1, Go), Stage(RunningJob(Taken(0, 0)), [], [0], main, SearchNext(c)));
  }

  lemma BackupFindsNothing(main: Ctl)
    requires Reachable(Stage(RunningJob(Taken(0, 0)), [], [0], main, Look))
    ensures Reachable(Stage(RunningJob(Taken(0, 0)), [], [0], main, Test(0, true)))
  {
    BackupSearches(main, Look);
    BackupSearches(main, SawEmpty);
    BackupSearches(main, Walk(0));
    BackupSearches(main, Claim(0, 0));
    BackupSearches(main, Claim(0, 1));
  }

  function DoneJob(state: JobState, place: Place, posts: nat): Job {
    OneIndex(Finished, Posting(0)).(done := 1, state := state, place := place, calls := [0], sem := posts, posts := posts)
  }

  lemma MainCalls(backup: Ctl)
    requires Reachable(Stage(RunningJob(Taken(0, 0)), [], [0], Exec(0, 0, 0, false), backup))
    ensures Reachable(Stage(RunningJob(Taken(0, 0)).(calls := [0]), [], [0], Exec(0, 0, 1, false), backup))
  {
    var j := RunningJob(Taken(0, 0));
    var j1 := j.(calls := [0]);
    assert j.calls + [0] == [0];
    UpdateOnly(j, j1);
    Goes(Stage(j, [], [0], Exec(0, 0, 0, false), backup), Step(0, Go), Stage(j1, [], [0], Exec(0, 0, 0, true), backup));
    Goes(Stage(j1, [], [0], Exec(0, 0, 0, true), backup), Step(0, Go), Stage(j1, [], [0], Exec(0, 0, 1, false), backup));
  }

  lemma MainFinishes(backup: Ctl)
    requires Reachable(Stage(RunningJob(Taken(0, 0)).(calls := [0]), [], [0], Exec(0, 0, 1, false), backup))
    ensures Reachable(Stage(DoneJob(RUNNING, InRunning, 0), [], [0], Test(0, false), backup))
  {
    var j := RunningJob(Taken(0, 0)).(calls := [0]);
    UpdateOnly(Batch(Span(0, 1), Taken(0, 0)), Batch(Span(0, 1), Finished));
    UpdateOnly(j, DoneJob(RUNNING, InRunning, 0));
    assert j.batches[0 := j.batches[0].(mark := Finished)] == DoneJob(RUNNING, InRunning, 0).batches;
    var s := Stage(j, [], [0], Exec(0, 0, 1, false), backup);
    assert ExecStep(s, 0) == SetCtl(SetJob(s, 0, DoneJob(RUNNING, InRunning, 0)), 0, Test(0, false));
    Goes(Stage(j, [], [0], Exec(0, 0, 1, false), backup), Step(0, Go),
         Stage(DoneJob(RUNNING, InRunning, 0), [], [0], Test(0, false), backup));
  }

  lemma BothPass()
    requires Reachable(Stage(DoneJob(RUNNING, InRunning, 0), [], [0], Test(0, false), Test(0, true)))
    ensures Reachable(Stage(DoneJob(RUNNING, InRunning, 0), [], [0], SetDone(0, false), SetDone(0, true)))
  {
    var j := DoneJob(RUNNING, InRunning, 0);
    Goes(Stage(j, [], [0], Test(0, false), Test(0, true)), Step(0, Go), Stage(j, [], [0], SetDone(0, false), Test(0, true)));
    Goes(Stage(j, [], [0], SetDone(0, false), Test(0, true)), Step(1, Go),
         Stage(j, [], [0], SetDone(0, false), SetDone(0, true)));
  }

  lemma MainUnlists()
    requires Reachable(Stage(DoneJob(RUNNING, InRunning, 0), [], [0], SetDone(0, false), SetDone(0, true)))
    ensures Reachable(Stage(DoneJob(DONE, Left, 0), [], [], Signal(0, false), SetDone(0, true)))
  {
    var backup := SetDone(0, true);
    Goes(Stage(DoneJob(RUNNING, InRunning, 0), [], [0], SetDone(0, false), backup), Step(0, Go),
         Stage(DoneJob(DONE, InRunning, 0), [], [0], Unlist(0, false), backup));
    Goes(Stage(DoneJob(DONE, InRunning, 0), [], [0], Unlist(0, false), backup), Step(0, Go),
         Stage(DoneJob(DONE, Left, 0), [], [], Signal(0, false), backup));
  }

  lemma BackupUnlists()
    requires Reachable(Stage(DoneJob(DONE, Left, 0), [], [], Signal(0, false), SetDone(0, true)))
    ensures Reachable(Stage(DoneJob(DONE, Left, 0), [], [], Signal(0, false), Signal(0, true)))
  {
    var j, main := DoneJob(DONE, Left, 0), Signal(0, false);
    Goes(Stage(j, [], [], main, SetDone(0, true)), Step(1, Go), Stage(j, [], [], main, Unlist(0, true)));
    Goes(Stage(j, [], [], main, Unlist(0, true)), Step(1, Go), Stage(j, [], [], main, Signal(0, true)));
  }

  lemma BothPost()
    requires Reachable(Stage(DoneJob(DONE, Left, 0), [], [], Signal(0, false), Signal(0, true)))
    ensures Reachable(Stage(DoneJob(DONE, Left, 2), [], [], Look, Sleep))
  {
    Goes(Stage(DoneJob(DONE, Left, 0), [], [], Signal(0, false), Signal(0, true)), Step(0, Go),
         Stage(DoneJob(DONE, Left, 1), [], [], Look, Signal(0, true)));
    Goes(Stage(DoneJob(DONE, Left, 1), [], [], Look, Signal(0, true)), Step(1, Go),
         Stage(DoneJob(DONE, Left, 2), [], [], Look, Sleep));
  }

  /** A semaphore can be posted more than once: here by the thread that ran the only batch and by one that came too late
      for it but was still before its done test. */
  lemma JobMayBePostedTwice()
    ensures exists s :: Reachable(s) && |s.jobs| == 1 && s.jobs[0].kind == ForJob && s.jobs[0].posts == 2
  {
    ForSubmitted();
    MainTakesFor();
    MainClaims();
    BackupFindsNothing(Exec(0, 0, 0, false));
    MainCalls(Test(0, true));
    MainFinishes(Test(0, true));
    BothPass();
    MainUnlists();
    BackupUnlists();
    BothPost();
  }
}
