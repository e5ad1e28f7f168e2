/** fly_parallel_for_arr means the sequential loop: for a body that changes only the cell of its own index, every
    interleaving of every number of workers leaves the array as the loop does. */
module ArrayLoop {
  import opened Split
  import opened SchedModel
  import opened SchedInv
  import opened SchedSteps
  import opened SchedRuns
  import opened SchedDone
  import opened SchedCalls

  // ----- the loop -----

  /** for (i = lo; i < hi; i++) a[i] = f(i, a[i]); */
  function Loop<T>(f: (int, T) -> T, a: seq<T>, lo: int, hi: int): (r: seq<T>)
    requires 0 <= lo && hi <= |a|
    ensures |r| == |a|
    decreases hi - lo
  {
    if lo >= hi then a else Loop(f, a[lo := f(lo, a[lo])], lo + 1, hi)
  }

  lemma {:induction false} LoopAt<T>(f: (int, T) -> T, a: seq<T>, lo: int, hi: int, i: int)
    requires 0 <= lo && hi <= |a| && 0 <= i < |a|
    ensures Loop(f, a, lo, hi)[i] == if lo <= i < hi then f(i, a[i]) else a[i]
    decreases hi - lo
  {
    if lo < hi {
      LoopAt(f, a[lo := f(lo, a[lo])], lo + 1, hi, i);
    }
  }

  // ----- the array during a run -----

  /** The array, and what the calls under way read from their cells when they began. */
  datatype Memory<T> = Memory(cells: seq<T>, read: map<int, T>)

  /** What an action does to the array of job `j`: a call reads its cell when it begins and writes it when it ends. */
  function Effect<T>(s: State, a: Action, j: nat, f: (int, T) -> T, m: Memory<T>): (r: Memory<T>)
    requires Allowed(s, a)
    ensures |r.cells| == |m.cells|
  {
    if a.Step? && a.c == Go && s.threads[a.t].ctl.Exec? && s.threads[a.t].ctl.j == j then
      var Exec(_, b, at, inCall) := s.threads[a.t].ctl;
      if !(0 <= at < |m.cells|) then m
      else if inCall then (if at in m.read then m.(cells := m.cells[at := f(at, m.read[at])]) else m)
      else if at < s.jobs[j].batches[b].span.hi then m.(read := m.read[at := m.cells[at]])
      else m
    else m
  }

  function MemoryAfter<T>(s: State, acts: seq<Action>, j: nat, f: (int, T) -> T, m: Memory<T>): Memory<T>
    requires Runs(s, acts)
    decreases |acts|
  {
    if acts == [] then m else MemoryAfter(Next(s, acts[0]), acts[1..], j, f, Effect(s, acts[0], j, f, m))
  }

  // ----- what is known of each cell -----

  /** The first index whose call the level-`lvl` batch loop has not ended. */
  function Ended(th: Thread, lvl: nat): int {
    if lvl < |th.susp| && th.susp[lvl].InBatch? then th.susp[lvl].at
    else if lvl == |th.susp| && th.ctl.Exec? then th.ctl.at
    else 0
  }

  function EndedIn(threads: seq<Thread>, batch: Batch): int {
    match batch.mark
    case Free => batch.span.lo
    case Finished => batch.span.hi
    case Taken(t, lvl) => if t < |threads| then Ended(threads[t], lvl) else batch.span.lo
  }

  /** A cell of batch `batch`: written once its call has ended, remembered while the call is under way. */
  predicate CellOk<T(==)>(threads: seq<Thread>, batch: Batch, f: (int, T) -> T, a: seq<T>, m: Memory<T>, i: int)
    requires 0 <= i < |a| == |m.cells|
  {
    var ended, begun := EndedIn(threads, batch), BegunIn(threads, batch);
    && m.cells[i] == (if i < ended then f(i, a[i]) else a[i])
    && (ended <= i < begun ==> i in m.read && m.read[i] == a[i])
  }

  ghost predicate CellsOk<T(!new)>(threads: seq<Thread>, bs: seq<Batch>, f: (int, T) -> T, a: seq<T>, m: Memory<T>)
    requires |m.cells| == |a|
  {
    (
    && (forall b, i :: 0 <= b < |bs| && Inside(bs[b].span, i) && 0 <= i < |a| ==> CellOk(threads, bs[b], f, a, m, i))
    && (forall i :: 0 <= i < |a| && (forall b :: 0 <= b < |bs| ==> !Inside(bs[b].span, i)) ==> m.cells[i] == a[i])
    ) == true
  }

  ghost predicate MemoryOk<T(!new)>(s: State, j: nat, f: (int, T) -> T, a: seq<T>, m: Memory<T>)
    requires |m.cells| == |a|
  {
    if j < |s.jobs| then CellsOk(s.threads, s.jobs[j].batches, f, a, m) else m.cells == a
  }

  // ----- steps that leave the loops of the job where they are -----

  /** No cell of the batch notices. */
  predicate SameProgress(threads: seq<Thread>, threads': seq<Thread>, a: Batch, b: Batch) {
    && b.span == a.span
    && (a.span.lo < a.span.hi ==>
          EndedIn(threads', b) == EndedIn(threads, a) && BegunIn(threads', b) == BegunIn(threads, a))
  }

  lemma CellsSame<T(!new)>(threads: seq<Thread>, threads': seq<Thread>, was: seq<Batch>, bs: seq<Batch>,
                           f: (int, T) -> T, a: seq<T>, m: Memory<T>)
    requires |m.cells| == |a| && CellsOk(threads, was, f, a, m) && |bs| == |was|
    requires forall b :: 0 <= b < |bs| ==> SameProgress(threads, threads', was[b], bs[b])
    ensures CellsOk(threads', bs, f, a, m)
  {
    forall b, i | 0 <= b < |bs| && Inside(bs[b].span, i) && 0 <= i < |a| ensures CellOk(threads', bs[b], f, a, m, i) {
      assert SameProgress(threads, threads', was[b], bs[b]);
      assert CellOk(threads, was[b], f, a, m, i);
    }
    forall i | 0 <= i < |a| && (forall b :: 0 <= b < |bs| ==> !Inside(bs[b].span, i)) ensures m.cells[i] == a[i] {
      forall b | 0 <= b < |was| ensures !Inside(was[b].span, i) {
        assert SameProgress(threads, threads', was[b], bs[b]);
      }
    }
  }

  /** A taken batch whose loop is in a thread that did not move it. */
  lemma LoopStays(threads: seq<Thread>, threads': seq<Thread>, t: nat, j: nat, b: nat, batch: Batch)
    requires t < |threads| == |threads'| && threads' == threads[t := threads'[t]]
    requires batch.mark.Taken? ==> batch.mark.t < |threads| && FrameIs(threads[batch.mark.t], batch.mark.lvl, j, b)
    requires forall l: nat :: FrameIs(threads[t], l, j, b) ==>
               Ended(threads'[t], l) == Ended(threads[t], l) && Begun(threads'[t], l) == Begun(threads[t], l)
    ensures SameProgress(threads, threads', batch, batch)
  {
  }

  /** A batch loop stays where it is when its thread calls libfly, returns from a nested call, or works elsewhere. */
  lemma FrameStays(s: State, t: nat, c: Choice, j: nat, b: nat, l: nat)
    requires Inv(s) && Enabled(s, t, c) && FrameIs(s.threads[t], l, j, b)
    requires c == Go ==> !(s.threads[t].ctl.Exec? && s.threads[t].ctl.j == j)
    ensures var th' := ThreadStep(s, t, c).threads[t];
            Ended(th', l) == Ended(s.threads[t], l) && Begun(th', l) == Begun(s.threads[t], l)
  {
    var th := s.threads[t];
    if c == Go && !th.ctl.Await? {
      GoStack(s, t);
    } else if c == Go {
      var n := |th.susp| - 1;
      assert l <= n;
      assert l < n ==> th.susp[..n][l] == th.susp[l];
    }
  }

  /** Which jobs' batches a step can change. */
  lemma BatchesStay(s: State, t: nat, c: Choice, j: nat)
    requires Inv(s) && Enabled(s, t, c) && j < |s.jobs|
    requires c == Go ==> !((s.threads[t].ctl.Exec? || s.threads[t].ctl.Claim?) && s.threads[t].ctl.j == j)
    ensures j < |ThreadStep(s, t, c).jobs| && ThreadStep(s, t, c).jobs[j].batches == s.jobs[j].batches
  {
  }

  lemma QuietThread<T(!new)>(s: State, t: nat, c: Choice, j: nat, f: (int, T) -> T, a: seq<T>, m: Memory<T>)
    requires Inv(s) && Enabled(s, t, c) && j < |s.jobs| && |m.cells| == |a|
    requires c == Go ==> !((s.threads[t].ctl.Exec? || s.threads[t].ctl.Claim?) && s.threads[t].ctl.j == j)
    requires MemoryOk(s, j, f, a, m)
    ensures MemoryOk(ThreadStep(s, t, c), j, f, a, m)
  {
    var s' := ThreadStep(s, t, c);
    StepStack(s, t, c);
    BatchesStay(s, t, c, j);
    JobFact(s, j);
    forall b | 0 <= b < |s.jobs[j].batches|
      ensures SameProgress(s.threads, s'.threads, s.jobs[j].batches[b], s'.jobs[j].batches[b])
    {
      forall l: nat | FrameIs(s.threads[t], l, j, b)
        ensures Ended(s'.threads[t], l) == Ended(s.threads[t], l) && Begun(s'.threads[t], l) == Begun(s.threads[t], l)
      {
        FrameStays(s, t, c, j, b, l);
      }
      TakenHasLoop(s, j, b);
      LoopStays(s.threads, s'.threads, t, j, b, s.jobs[j].batches[b]);
    }
    CellsSame(s.threads, s'.threads, s.jobs[j].batches, s'.jobs[j].batches, f, a, m);
  }

  lemma TakenHasLoop(s: State, j: nat, b: nat)
    requires Inv(s) && j < |s.jobs| && b < |s.jobs[j].batches|
    ensures var mark := s.jobs[j].batches[b].mark;
            mark.Taken? ==> mark.t < |s.threads| && FrameIs(s.threads[mark.t], mark.lvl, j, b)
  {
    JobFact(s, j);
  }

  // ----- steps of the loops -----

  /** Claiming a batch: its loop is at its first index. */
  lemma ClaimCells<T(!new)>(s: State, t: nat, j: nat, pos: nat, f: (int, T) -> T, a: seq<T>, m: Memory<T>)
    requires Inv(s) && Enabled(s, t, Go) && s.threads[t].ctl == Claim(j, pos) && |m.cells| == |a|
    requires MemoryOk(s, j, f, a, m)
    ensures MemoryOk(ThreadStep(s, t, Go), j, f, a, m)
  {
    var s' := ClaimStep(s, t);
    var bs := s.jobs[j].batches;
    forall b | 0 <= b < |bs| ensures SameProgress(s.threads, s'.threads, bs[b], s'.jobs[j].batches[b]) {
      TakenHasLoop(s, j, b);
      if s'.jobs[j].batches[b] == bs[b] {
        LoopStays(s.threads, s'.threads, t, j, b, bs[b]);
      }
    }
    CellsSame(s.threads, s'.threads, bs, s'.jobs[j].batches, f, a, m);
  }

  /** The other batches of the job while the loop of batch `own` moves. */
  lemma OthersStay(s: State, s': State, t: nat, j: nat, own: nat, b: nat)
    requires Inv(s) && t < |s.threads| == |s'.threads| && s.threads[t].ctl.Exec? && j < |s.jobs| && j < |s'.jobs|
    requires s.threads[t].ctl.j == j && s.threads[t].ctl.b == own && b != own && b < |s.jobs[j].batches|
    requires |s'.jobs[j].batches| == |s.jobs[j].batches| && s'.jobs[j].batches[b] == s.jobs[j].batches[b]
    requires s'.threads == s.threads[t := s.threads[t].(ctl := s'.threads[t].ctl)]
    ensures SameProgress(s.threads, s'.threads, s.jobs[j].batches[b], s'.jobs[j].batches[b])
  {
    TakenHasLoop(s, j, b);
    LoopStays(s.threads, s'.threads, t, j, b, s.jobs[j].batches[b]);
  }

  /** Two batches of a job share no index. */
  lemma OtherIndex(s: State, j: nat, b: nat, c: nat, i: int, k: int)
    requires Inv(s) && j < |s.jobs| && b < |s.jobs[j].batches| && c < |s.jobs[j].batches| && b != c
    requires Inside(s.jobs[j].batches[b].span, i) && Inside(s.jobs[j].batches[c].span, k)
    ensures i != k
  {
    JobFact(s, j);
    var job := s.jobs[j];
    SpansDisjoint(job.first, job.last, s.nw);
    assert job.batches[b].span == Spans(job.first, job.last, s.nw)[b];
    assert job.batches[c].span == Spans(job.first, job.last, s.nw)[c];
  }

  /** The memory changed at most at index `at`. */
  predicate ChangedAt<T(==)>(m: Memory<T>, m': Memory<T>, at: int) {
    && |m'.cells| == |m.cells|
    && (forall i :: 0 <= i < |m.cells| && i != at ==> m'.cells[i] == m.cells[i])
    && (forall i :: i in m.read && i != at ==> i in m'.read && m'.read[i] == m.read[i])
  }

  /** The step changes at most batch `b`, and of it not the span. */
  lemma ExecShape(s: State, t: nat, j: nat, b: nat)
    requires Inv(s) && Enabled(s, t, Go) && s.threads[t].ctl.Exec? && s.threads[t].ctl.j == j && s.threads[t].ctl.b == b
    ensures var bs, bs' := s.jobs[j].batches, ExecStep(s, t).jobs[j].batches;
            && |bs'| == |bs| && forall c :: 0 <= c < |bs| ==> bs'[c].span == bs[c].span && (c != b ==> bs'[c] == bs[c])
  {
  }

  /** A cell of the batch whose loop moves. */
  lemma OwnCell<T(!new)>(s: State, t: nat, j: nat, b: nat, f: (int, T) -> T, a: seq<T>,
                         m: Memory<T>, m': Memory<T>, i: int)
    requires Inv(s) && Enabled(s, t, Go) && s.threads[t].ctl.Exec? && |m.cells| == |a|
    requires s.threads[t].ctl.j == j && s.threads[t].ctl.b == b
    requires 0 <= i < |a| && Inside(s.jobs[j].batches[b].span, i) && CellOk(s.threads, s.jobs[j].batches[b], f, a, m, i)
    requires m' == Effect(s, Step(t, Go), j, f, m)
    ensures CellOk(ExecStep(s, t).threads, ExecStep(s, t).jobs[j].batches[b], f, a, m', i)
  {
    Facts(s, t, j);
  }

  /** A cell of another batch. */
  lemma OtherCell<T(!new)>(s: State, t: nat, j: nat, b: nat, f: (int, T) -> T, a: seq<T>,
                           m: Memory<T>, m': Memory<T>, c: nat, i: int)
    requires Inv(s) && Enabled(s, t, Go) && s.threads[t].ctl.Exec? && |m.cells| == |a|
    requires s.threads[t].ctl.j == j && s.threads[t].ctl.b == b && c < |s.jobs[j].batches| && c != b
    requires 0 <= i < |a| && Inside(s.jobs[j].batches[c].span, i) && CellOk(s.threads, s.jobs[j].batches[c], f, a, m, i)
    requires m' == m || (ChangedAt(m, m', s.threads[t].ctl.at) && Inside(s.jobs[j].batches[b].span, s.threads[t].ctl.at))
    ensures CellOk(ExecStep(s, t).threads, s.jobs[j].batches[c], f, a, m', i)
  {
    GoStack(s, t);
    ExecShape(s, t, j, b);
    OthersStay(s, ExecStep(s, t), t, j, b, c);
    if m' != m {
      OtherIndex(s, j, b, c, s.threads[t].ctl.at, i);
    }
  }

  /** A step of a batch loop reads or writes one cell of its own batch. */
  lemma EffectInside<T>(s: State, t: nat, j: nat, b: nat, f: (int, T) -> T, m: Memory<T>)
    requires Inv(s) && Enabled(s, t, Go) && s.threads[t].ctl.Exec? && s.threads[t].ctl.j == j && s.threads[t].ctl.b == b
    ensures var m' := Effect(s, Step(t, Go), j, f, m);
            || m' == m
            || (ChangedAt(m, m', s.threads[t].ctl.at) && Inside(s.jobs[j].batches[b].span, s.threads[t].ctl.at))
  {
    Facts(s, t, j);
  }

  lemma ExecCells<T(!new)>(s: State, t: nat, j: nat, b: nat, f: (int, T) -> T, a: seq<T>, m: Memory<T>, m': Memory<T>)
    requires Inv(s) && Enabled(s, t, Go) && s.threads[t].ctl.Exec? && |m.cells| == |a|
    requires s.threads[t].ctl.j == j && s.threads[t].ctl.b == b
    requires CellsOk(s.threads, s.jobs[j].batches, f, a, m) && m' == Effect(s, Step(t, Go), j, f, m)
    ensures CellsOk(ExecStep(s, t).threads, ExecStep(s, t).jobs[j].batches, f, a, m')
  {
    var s' := ExecStep(s, t);
    var bs, bs' := s.jobs[j].batches, s'.jobs[j].batches;
    ExecShape(s, t, j, b);
    EffectInside(s, t, j, b, f, m);
    forall c, i | 0 <= c < |bs'| && Inside(bs'[c].span, i) && 0 <= i < |a|
      ensures CellOk(s'.threads, bs'[c], f, a, m', i)
    {
      assert CellOk(s.threads, bs[c], f, a, m, i);
      if c == b {
        OwnCell(s, t, j, b, f, a, m, m', i);
      } else {
        OtherCell(s, t, j, b, f, a, m, m', c, i);
      }
    }
    forall i | 0 <= i < |a| && (forall c :: 0 <= c < |bs'| ==> !Inside(bs'[c].span, i)) ensures m'.cells[i] == a[i] {
      forall c | 0 <= c < |bs| ensures !Inside(bs[c].span, i) {
        assert bs'[c].span == bs[c].span;
      }
    }
  }

  // ----- all steps -----

  lemma ThreadCells<T(!new)>(s: State, t: nat, c: Choice, j: nat, f: (int, T) -> T, a: seq<T>, m: Memory<T>)
    requires Inv(s) && Enabled(s, t, c) && j < |s.jobs| && |m.cells| == |a| && MemoryOk(s, j, f, a, m)
    ensures MemoryOk(ThreadStep(s, t, c), j, f, a, Effect(s, Step(t, c), j, f, m))
  {
    var ctl := s.threads[t].ctl;
    if c == Go && ctl.Exec? && ctl.j == j {
      ExecCells(s, t, j, ctl.b, f, a, m, Effect(s, Step(t, c), j, f, m));
    } else if c == Go && ctl.Claim? && ctl.j == j {
      ClaimCells(s, t, j, ctl.pos, f, a, m);
    } else {
      QuietThread(s, t, c, j, f, a, m);
    }
  }

  /** A job not created yet, or created by this step. */
  lemma NewCells<T(!new)>(s: State, x: Action, j: nat, f: (int, T) -> T, a: seq<T>, m: Memory<T>)
    requires Inv(s) && Allowed(s, x) && j >= |s.jobs| && m.cells == a
    ensures Effect(s, x, j, f, m) == m && MemoryOk(Next(s, x), j, f, a, m)
  {
    if x.Step? && x.c == Go {
      ThreadFact(s, x.t);
      GoAddsNoJob(s, x.t);
    }
  }

  lemma NextCells<T(!new)>(s: State, x: Action, j: nat, f: (int, T) -> T, a: seq<T>, m: Memory<T>)
    requires Inv(s) && Allowed(s, x) && |m.cells| == |a| && MemoryOk(s, j, f, a, m)
    ensures MemoryOk(Next(s, x), j, f, a, Effect(s, x, j, f, m))
  {
    if j >= |s.jobs| {
      NewCells(s, x, j, f, a, m);
    } else if x.Step? {
      ThreadCells(s, x.t, x.c, j, f, a, m);
    } else {
      assert Next(s, x).jobs[j].batches == s.jobs[j].batches && Next(s, x).threads == s.threads;
    }
  }

  lemma {:induction false} AfterCells<T(!new)>(s: State, acts: seq<Action>, j: nat, f: (int, T) -> T, a: seq<T>, m: Memory<T>)
    requires Inv(s) && Runs(s, acts) && |m.cells| == |a| && MemoryOk(s, j, f, a, m)
    ensures |MemoryAfter(s, acts, j, f, m).cells| == |a| && MemoryOk(After(s, acts), j, f, a, MemoryAfter(s, acts, j, f, m))
    decreases |acts|
  {
    if acts != [] {
      NextCells(s, acts[0], j, f, a, m);
      NextKeeps(s, acts[0]);
      AfterCells(Next(s, acts[0]), acts[1..], j, f, a, Effect(s, acts[0], j, f, m));
    }
  }

  // ----- the theorem -----

  /** Every cell of a finished job has been written once, by the call of its index. */
  lemma DoneCell<T(!new)>(s: State, j: nat, f: (int, T) -> T, a: seq<T>, m: Memory<T>, i: int)
    requires Inv(s) && j < |s.jobs| && s.jobs[j].kind == ForJob && IsDone(s.jobs[j])
    requires |m.cells| == |a| && MemoryOk(s, j, f, a, m) && 0 <= i < |a|
    ensures m.cells[i] == if s.jobs[j].first <= i < CoveredEnd(s.jobs[j].first, s.jobs[j].last, s.nw) then f(i, a[i]) else a[i]
  {
    var job := s.jobs[j];
    var sp := Spans(job.first, job.last, s.nw);
    JobFact(s, j);
    AllFinished(s, j);
    CoveredRange(job.first, job.last, s.nw, i);
    assert forall b :: 0 <= b < |sp| ==> job.batches[b].span == sp[b];
    if Covered(sp, i) {
      var b :| 0 <= b < |sp| && Inside(sp[b], i);
      assert CellOk(s.threads, job.batches[b], f, a, m, i);
    }
  }

  lemma SameWorkersNext(s: State, x: Action)
    requires Allowed(s, x)
    ensures Next(s, x).nw == s.nw
  {
  }

  /** The array when the job is done, from any moment at which the job did not exist. */
  lemma JobIsLoop<T(!new)>(s: State, x: Action, acts: seq<Action>, j: nat, f: (int, T) -> T, a: seq<T>)
    requires Inv(s) && Allowed(s, x) && j >= |s.jobs| && Runs(Next(s, x), acts)
    requires var s' := After(Next(s, x), acts); j < |s'.jobs| && s'.jobs[j].kind == ForJob && IsDone(s'.jobs[j])
    requires var s' := After(Next(s, x), acts);
             0 <= s'.jobs[j].first && CoveredEnd(s'.jobs[j].first, s'.jobs[j].last, s.nw) <= |a|
    ensures var s' := After(Next(s, x), acts);
            MemoryAfter(Next(s, x), acts, j, f, Memory(a, map[])).cells
            == Loop(f, a, s'.jobs[j].first, CoveredEnd(s'.jobs[j].first, s'.jobs[j].last, s.nw))
  {
    var s1, s' := Next(s, x), After(Next(s, x), acts);
    var m := MemoryAfter(s1, acts, j, f, Memory(a, map[]));
    NewCells(s, x, j, f, a, Memory(a, map[]));
    SameWorkers(s1, acts);
    SameWorkersNext(s, x);
    NextKeeps(s, x);
    AfterKeeps(s1, acts);
    AfterCells(s1, acts, j, f, a, Memory(a, map[]));
    var lo, hi := s'.jobs[j].first, CoveredEnd(s'.jobs[j].first, s'.jobs[j].last, s.nw);
    forall i | 0 <= i < |a| ensures m.cells[i] == Loop(f, a, lo, hi)[i] {
      DoneCell(s', j, f, a, m, i);
      LoopAt(f, a, lo, hi, i);
    }
  }

  /** A call of fly_parallel_for_arr from outside, or from the body of a thread, for [first, last). When it has returned,
      in whatever order the workers ran the batches and however their calls overlapped, the array is what the loop over
      the same indices leaves. The loop runs over the indices the batches cover: [first, last), or one index for each
      worker when there are fewer. */
  lemma ParallelIsLoop<T(!new)>(s: State, x: Action, first: int, last: int, acts: seq<Action>, f: (int, T) -> T, a: seq<T>)
    requires Reachable(s) && Allowed(s, x) && CallsFor(x, first, last) && Runs(Next(s, x), acts)
    requires HasReturned(After(Next(s, x), acts), |s.jobs|)
    requires 0 <= first && CoveredEnd(first, last, s.nw) <= |a|
    ensures MemoryAfter(Next(s, x), acts, |s.jobs|, f, Memory(a, map[])).cells
            == Loop(f, a, first, CoveredEnd(first, last, s.nw))
  {
    ReachableOk(s);
    CallKeepsRange(s, x, first, last, acts);
    JobIsLoop(s, x, acts, |s.jobs|, f, a);
  }

  /** The promise of fly_parallel_for_arr: with at least one index per worker it is the loop from start to end. */
  lemma ParallelForArr<T(!new)>(s: State, x: Action, start: int, end: int, acts: seq<Action>, f: (int, T) -> T, a: seq<T>)
    requires Reachable(s) && Allowed(s, x) && CallsFor(x, start, end) && Runs(Next(s, x), acts)
    requires HasReturned(After(Next(s, x), acts), |s.jobs|)
    requires 0 <= start && end <= |a| && end - start >= s.nw
    ensures MemoryAfter(Next(s, x), acts, |s.jobs|, f, Memory(a, map[])).cells == Loop(f, a, start, end)
  {
    ParallelIsLoop(s, x, start, end, acts, f, a);
  }
}
