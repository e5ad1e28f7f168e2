/** The main loop of a worker thread and the request to leave it (src/fly_worker.c). */
module WorkerExit {

  datatype WorkerState = IDLE | RUNNING | EXITING | FINISHED

  /** Where the thread is in fly_worker_thread_func, past its start gate: about to read `tstate`, about to call
      fly_schedule, inside it, in the wait at its end, past the loop, returned. */
  datatype Place = Test | Call | InSchedule | Waiting | Leaving | Returned

  /** How far fly_worker_thread_request_exit got: nothing yet, `tstate` written, semaphore posted. */
  datatype Request = NotYet | Written | Posted

  /** `late` counts the calls of fly_schedule begun after the request was written. */
  datatype System = System(tstate: WorkerState, sem: nat, place: Place, request: Request, late: nat)

  /** The thread reads `tstate`, calls fly_schedule, works inside it (`Work`: any step that does not end it), ends it
      with or without the wait, passes the wait, leaves; somebody posts work; the request is written, then posted. */
  datatype Act = Read | Begin | Work | EndsBusy | EndsIdle | Wake | Leave | WorkAvailable | WriteRequest | PostRequest

  function Start(tokens: nat): System {
    System(RUNNING, tokens, Test, NotYet, 0)
  }

  predicate Allowed(s: System, a: Act) {
    match a
    case Read => s.place.Test?
    case Begin => s.place.Call?
    case Work | EndsBusy | EndsIdle => s.place.InSchedule?
    case Wake => s.place.Waiting? && s.sem > 0
    case Leave => s.place.Leaving?
    case WorkAvailable => true
    case WriteRequest => s.request.NotYet?
    case PostRequest => s.request.Written?
  }

  function Next(s: System, a: Act): System
    requires Allowed(s, a)
  {
    match a
    case Read => s.(place := if s.tstate == RUNNING then Call else Leaving)
    case Begin => s.(place := InSchedule, late := if s.request.NotYet? then 0 else s.late + 1)
    case Work => s
    case EndsBusy => s.(place := Test)
    case EndsIdle => s.(place := Waiting)
    case Wake => s.(sem := s.sem - 1, place := Test)
    case Leave => s.(tstate := FINISHED, place := Returned)
    case WorkAvailable => s.(sem := s.sem + 1)
    case WriteRequest => s.(tstate := EXITING, request := Written)
    case PostRequest => s.(sem := s.sem + 1, request := Posted)
  }

  predicate Runs(s: System, acts: seq<Act>)
    decreases |acts|
  {
    acts == [] || (Allowed(s, acts[0]) && Runs(Next(s, acts[0]), acts[1..]))
  }

  function After(s: System, acts: seq<Act>): System
    requires Runs(s, acts)
    decreases |acts|
  {
    if acts == [] then s else After(Next(s, acts[0]), acts[1..])
  }

  /** `tstate` tells the request; one late call at most, of a thread that had read RUNNING before; and the token of the
      request is there for every wait after it. */
  predicate ExitOk(s: System) {
    && (s.request.NotYet? ==> s.tstate == RUNNING && s.late == 0 && !s.place.Leaving? && !s.place.Returned?)
    && (!s.request.NotYet? ==> s.tstate == if s.place.Returned? then FINISHED else EXITING)
    && s.late <= 1 && (s.place.Call? ==> s.late == 0)
    && (s.request.Posted? && (s.place.Call? || s.place.InSchedule? || s.place.Waiting?) ==> s.sem > 0)
  }

  lemma {:induction false} AfterOk(s: System, acts: seq<Act>)
    requires ExitOk(s) && Runs(s, acts)
    ensures ExitOk(After(s, acts))
    decreases |acts|
  {
    if acts != [] {
      AfterOk(Next(s, acts[0]), acts[1..]);
    }
  }

  /** Some run of a thread that started with any number of tokens ends in `s`. */
  ghost predicate Reachable(s: System) {
    exists tokens: nat, acts :: Runs(Start(tokens), acts) && After(Start(tokens), acts) == s
  }

  lemma ReachableOk(s: System)
    requires Reachable(s)
    ensures ExitOk(s)
  {
    var tokens: nat, acts :| Runs(Start(tokens), acts) && After(Start(tokens), acts) == s;
    AfterOk(Start(tokens), acts);
  }

  /** After the request at most one more fly_schedule begins, whoever posts what in between. */
  lemma AtMostOneMore(s: System)
    requires Reachable(s)
    ensures s.late <= 1
  {
    ReachableOk(s);
  }

  /** Once the request is posted the thread is never left asleep: its next step is possible. */
  lemma NeverLeftAsleep(s: System)
    requires Reachable(s) && s.request.Posted? && !s.place.Returned?
    ensures s.place.Waiting? ==> s.sem > 0
    ensures exists a :: Allowed(s, a) && Moves(a)
  {
    ReachableOk(s);
    assert Moves(Read) && Moves(Begin) && Moves(EndsBusy) && Moves(Wake) && Moves(Leave);
    assert match s.place
           case Test => Allowed(s, Read)
           case Call => Allowed(s, Begin)
           case InSchedule => Allowed(s, EndsBusy)
           case Waiting => Allowed(s, Wake)
           case Leaving => Allowed(s, Leave)
           case Returned => true;
  }

  /** The steps of the thread that bring it forward in its loop. */
  predicate Moves(a: Act) {
    a.Read? || a.Begin? || a.EndsBusy? || a.EndsIdle? || a.Wake? || a.Leave?
  }

  function MoveCount(acts: seq<Act>): nat {
    if acts == [] then 0 else (if Moves(acts[0]) then 1 else 0) + MoveCount(acts[1..])
  }

  /** How many moves are left after the request: at most the rest of one round, a last test and the end. */
  function MovesLeft(p: Place): nat {
    match p
    case Call => 5 case InSchedule => 4 case Waiting => 3 case Test => 2 case Leaving => 1 case Returned => 0
  }

  lemma {:induction false} EveryMoveCounts(s: System, acts: seq<Act>)
    requires ExitOk(s) && !s.request.NotYet? && Runs(s, acts)
    ensures MoveCount(acts) + MovesLeft(After(s, acts).place) <= MovesLeft(s.place)
    decreases |acts|
  {
    if acts != [] {
      EveryMoveCounts(Next(s, acts[0]), acts[1..]);
    }
  }

  /** If bodies return, so that the thread goes on moving, it is FINISHED after at most five moves. */
  lemma ReachesFinished(s: System, acts: seq<Act>)
    requires Reachable(s) && !s.request.NotYet? && Runs(s, acts)
    ensures MoveCount(acts) <= 5
    ensures MoveCount(acts) == MovesLeft(s.place) ==>
              After(s, acts).place == Returned && After(s, acts).tstate == FINISHED
  {
    ReachableOk(s);
    EveryMoveCounts(s, acts);
    AfterOk(s, acts);
    StillRequested(s, acts);
  }

  lemma {:induction false} StillRequested(s: System, acts: seq<Act>)
    requires !s.request.NotYet? && Runs(s, acts)
    ensures !After(s, acts).request.NotYet?
    decreases |acts|
  {
    if acts != [] {
      StillRequested(Next(s, acts[0]), acts[1..]);
    }
  }

  /** Before the request the thread stays in its loop: each test lets it begin another fly_schedule. */
  lemma ServesUntilRequested(s: System)
    requires Reachable(s) && s.request.NotYet?
    ensures !s.place.Leaving? && !s.place.Returned?
    ensures s.place.Test? ==> Runs(s, [Read, Begin]) && After(s, [Read, Begin]).place == InSchedule
  {
    ReachableOk(s);
    if s.place.Test? {
      var s1 := Next(s, Read);
      assert [Read, Begin][1..] == [Begin] && [Begin][1..] == [];
      assert Runs(Next(s1, Begin), []) && Runs(s1, [Begin]);
    }
  }

  function Given(acts: seq<Act>): int {
    if acts == [] then 0 else (if acts[0].WorkAvailable? || acts[0].PostRequest? then 1 else 0) + Given(acts[1..])
  }

  function IdleEnds(acts: seq<Act>): int {
    if acts == [] then 0 else (if acts[0].EndsIdle? then 1 else 0) + IdleEnds(acts[1..])
  }

  function AtWait(s: System): int {
    if s.place.Waiting? then 1 else 0
  }

  lemma {:induction false} TokensChange(s: System, acts: seq<Act>)
    requires Runs(s, acts)
    ensures After(s, acts).sem - AtWait(After(s, acts)) == s.sem - AtWait(s) + Given(acts) - IdleEnds(acts)
    decreases |acts|
  {
    if acts != [] {
      TokensChange(Next(s, acts[0]), acts[1..]);
    }
  }

  /** Every fly_schedule that found nothing to do costs one token before the thread goes on, and nothing else does. */
  lemma IdleRoundsTakeTokens(tokens: nat, acts: seq<Act>)
    requires Runs(Start(tokens), acts)
    ensures var s := After(Start(tokens), acts);
            s.sem == tokens + Given(acts) - (IdleEnds(acts) - if s.place.Waiting? then 1 else 0)
  {
    TokensChange(Start(tokens), acts);
  }

  // ----- the worker and its two threads -----

  class WorkerThread {
    var tstate: WorkerState
    var sem: nat

    /** fly_worker_thread_request_exit: the two steps WriteRequest and PostRequest. */
    method RequestExit()
      modifies this
      ensures tstate == EXITING && sem == old(sem) + 1
    {
      tstate := EXITING;
      sem := sem + 1;
    }
  }

  class Worker {
    const mthread: WorkerThread
    const bthread: WorkerThread
    var mblocked: bool
    var bblocked: bool

    constructor (mthread: WorkerThread, bthread: WorkerThread)
      ensures this.mthread == mthread && this.bthread == bthread && !mblocked && !bblocked
    {
      this.mthread, this.bthread := mthread, bthread;
      mblocked, bblocked := false, false;
    }

    /** fly_worker_work_available: one token, for the backup thread exactly when the main thread alone is blocked. */
    method WorkAvailable()
      requires mthread != bthread
      modifies mthread`sem, bthread`sem
      ensures mthread.sem + bthread.sem == old(mthread.sem + bthread.sem) + 1
      ensures bthread.sem == old(bthread.sem) + (if mblocked && !bblocked then 1 else 0)
    {
      if mblocked && !bblocked {
        bthread.sem := bthread.sem + 1;
      } else {
        mthread.sem := mthread.sem + 1;
      }
    }

    /** fly_worker_request_exit: nobody of the two is forgotten. */
    method RequestExit()
      requires mthread != bthread
      modifies mthread, bthread
      ensures mthread.tstate == EXITING && bthread.tstate == EXITING
      ensures mthread.sem == old(mthread.sem) + 1 && bthread.sem == old(bthread.sem) + 1
    {
      mthread.RequestExit();
      bthread.RequestExit();
    }
  }
}
