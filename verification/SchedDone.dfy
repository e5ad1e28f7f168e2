/** What a caller may rely on when its job is done, on every run. */
module SchedDone {
  import opened SeqOps
  import opened Split
  import opened SchedModel
  import opened SchedInv
  import opened SchedSteps
  import opened SchedRuns
  import opened SchedLife

  // ----- completion accounting -----

  function ClaimCount(bs: seq<Batch>): (n: nat)
    ensures n <= |bs|
  {
    if bs == [] then 0 else ClaimCount(bs[..|bs| - 1]) + if bs[|bs| - 1].mark.Free? then 0 else 1
  }

  lemma {:induction false} DoneWithinClaimed(bs: seq<Batch>)
    ensures DoneCount(bs) <= ClaimCount(bs)
    decreases |bs|
  {
    if bs != [] {
      DoneWithinClaimed(bs[..|bs| - 1]);
    }
  }

  /** batches_done counts the finished batches, never exceeds the claimed ones, and reaches nbbatches when and only
      when every batch is finished. A post happens only then; and from then on a post has happened or the thread that
      finished the last batch is on its way to it. */
  lemma CompletionAccounting(s: State, j: nat)
    requires Reachable(s) && j < |s.jobs| && s.jobs[j].kind == ForJob
    ensures var job := s.jobs[j];
            && job.done == DoneCount(job.batches) <= ClaimCount(job.batches) <= job.nbbatches == s.nw
            && (IsDone(job) <==> forall b :: 0 <= b < |job.batches| ==> job.batches[b].mark.Finished?)
            && (job.posts > 0 ==> IsDone(job))
            && (IsDone(job) && job.posts == 0 ==> job.closer < |s.threads| && Finishing(s.threads[job.closer], j))
            && job.sem == job.posts - (if job.phase.Returned? then 1 else 0)
  {
    ReachableOk(s);
    JobFact(s, j);
    DoneWithinClaimed(s.jobs[j].batches);
    DoneCountFull(s.jobs[j].batches);
  }

  lemma AllFinished(s: State, j: nat)
    requires Inv(s) && j < |s.jobs| && s.jobs[j].kind == ForJob && IsDone(s.jobs[j])
    ensures forall b :: 0 <= b < |s.jobs[j].batches| ==> s.jobs[j].batches[b].mark.Finished?
  {
    JobFact(s, j);
    DoneCountFull(s.jobs[j].batches);
  }

  // ----- exactly once -----

  lemma CallsWhenDone(s: State, j: nat, i: int)
    requires Inv(s) && j < |s.jobs| && s.jobs[j].kind == ForJob && IsDone(s.jobs[j])
    ensures var job := s.jobs[j];
            multiset(job.calls)[i] == if Covered(Spans(job.first, job.last, s.nw), i) then 1 else 0
  {
    AllFinished(s, j);
    JobFact(s, j);
    var job := s.jobs[j];
    var sp := Spans(job.first, job.last, s.nw);
    if Covered(sp, i) {
      var b :| 0 <= b < |sp| && Inside(sp[b], i);
      assert job.batches[b].span == sp[b];
    } else {
      forall b | 0 <= b < |job.batches| ensures !Inside(job.batches[b].span, i) {
        assert job.batches[b].span == sp[b];
      }
      assert i !in job.calls;
    }
  }

  /** When the call of parallel_for has returned, the body was called exactly once for each index the batches cover
      and for no other: [first, last), or `nw` indices from `first` when there are fewer than `nw`. */
  lemma ExactlyOnce(s: State, j: nat)
    requires Reachable(s) && j < |s.jobs| && s.jobs[j].kind == ForJob && s.jobs[j].phase.Returned?
    ensures var job := s.jobs[j];
            forall i :: multiset(job.calls)[i]
                        == if job.first <= i < CoveredEnd(job.first, job.last, s.nw) then 1 else 0
  {
    ReachableOk(s);
    JobFact(s, j);
    var job := s.jobs[j];
    forall i
      ensures multiset(job.calls)[i] == if job.first <= i < CoveredEnd(job.first, job.last, s.nw) then 1 else 0
    {
      CallsWhenDone(s, j, i);
      CoveredRange(job.first, job.last, s.nw, i);
    }
  }

  /** The promise "once for each index of [first, last)" is kept if and only if the range, forward or backward, has at
      least one index per worker. */
  lemma ExactlyOnceIff(s: State, j: nat)
    requires Reachable(s) && j < |s.jobs| && s.jobs[j].kind == ForJob && s.jobs[j].phase.Returned?
    ensures var job := s.jobs[j];
            (forall i :: multiset(job.calls)[i] == if job.first <= i < job.last then 1 else 0)
            <==> (job.last - job.first >= s.nw || job.first - job.last >= s.nw)
  {
    ExactlyOnce(s, j);
    var job := s.jobs[j];
    if job.last - job.first < s.nw && job.first - job.last < s.nw {
      var extra := if job.last >= job.first then job.last else job.first;
      assert multiset(job.calls)[extra] == 1;
    }
  }

  lemma SameCounts(a: seq<int>, b: seq<int>)
    requires a <= b && multiset(a) == multiset(b)
    ensures a == b
  {
    assert |multiset(a)| == |a|;
    assert |multiset(b)| == |b|;
  }

  /** Once a job is done no thread runs its body again, however late it picked the job up. */
  lemma NoLateCalls(s: State, acts: seq<Action>, j: nat)
    requires Reachable(s) && Runs(s, acts) && j < |s.jobs| && s.jobs[j].kind == ForJob && IsDone(s.jobs[j])
    ensures j < |After(s, acts).jobs| && After(s, acts).jobs[j].calls == s.jobs[j].calls
  {
    ReachableOk(s);
    AfterKeeps(s, acts);
    JobsMoveForward(s, acts, j);
    var s' := After(s, acts);
    SameWorkers(s, acts);
    forall i ensures multiset(s.jobs[j].calls)[i] == multiset(s'.jobs[j].calls)[i] {
      CallsWhenDone(s, j, i);
      CallsWhenDone(s', j, i);
    }
    SameCounts(s.jobs[j].calls, s'.jobs[j].calls);
  }

  lemma {:induction false} SameWorkers(s: State, acts: seq<Action>)
    requires Runs(s, acts)
    ensures After(s, acts).nw == s.nw
    decreases |acts|
  {
    if acts != [] {
      SameWorkers(Next(s, acts[0]), acts[1..]);
    }
  }

  // ----- the claim search -----

  /** The search of fly_get_exec_batch ends without a batch only when every batch of the job is claimed, whatever the
      other threads did while it went through the list. */
  lemma SearchMissesNothing(s: State, t: nat, j: nat)
    requires Reachable(s) && t < |s.threads| && s.threads[t].ctl.Claim? && s.threads[t].ctl.j == j
    requires Enabled(s, t, Go) && Next(s, Step(t, Go)).threads[t].ctl == Test(j, true)
    ensures !HasFree(s.jobs[j])
  {
    ReachableOk(s);
    Facts(s, t, j);
  }

  /** A search takes the first unclaimed batch: every batch before the one it got is claimed. */
  lemma SearchTakesFirst(s: State, t: nat, j: nat, b: nat, at: int)
    requires Reachable(s) && t < |s.threads| && s.threads[t].ctl.Claim? && s.threads[t].ctl.j == j
    requires Enabled(s, t, Go) && Next(s, Step(t, Go)).threads[t].ctl == Exec(j, b, at, false)
    ensures b < |s.jobs[j].batches| && s.jobs[j].batches[b].mark.Free? && at == s.jobs[j].batches[b].span.lo
    ensures forall c :: 0 <= c < b ==> !s.jobs[j].batches[c].mark.Free?
  {
    ReachableOk(s);
    Facts(s, t, j);
  }

  /** A batch is run in order: of its indices exactly those below the one the loop is at have been called, each once, and
      that one too while its call is under way. */
  lemma BatchRunsInOrder(s: State, t: nat, j: nat, b: nat, at: int, inCall: bool, i: int)
    requires Reachable(s) && t < |s.threads| && s.threads[t].ctl == Exec(j, b, at, inCall)
    requires j < |s.jobs| && b < |s.jobs[j].batches| && Inside(s.jobs[j].batches[b].span, i)
    ensures multiset(s.jobs[j].calls)[i] == if i < at || (i == at && inCall) then 1 else 0
  {
    ReachableOk(s);
    Facts(s, t, j);
  }

  /** A batch one thread got is got by no other, then or later. */
  lemma ClaimedByOne(s: State, t: nat, j: nat, pos: nat, acts: seq<Action>)
    requires Reachable(s) && Enabled(s, t, Go) && s.threads[t].ctl == Claim(j, pos)
    requires pos < |s.jobs[j].batches| && s.jobs[j].batches[pos].mark.Free?
    requires Runs(Next(s, Step(t, Go)), acts)
    ensures var s' := After(Next(s, Step(t, Go)), acts);
            && j < |s'.jobs| && pos < |s'.jobs[j].batches| && !s'.jobs[j].batches[pos].mark.Free?
            && forall u, l: nat :: 0 <= u < |s'.threads| && FrameIs(s'.threads[u], l, j, pos) ==>
                 u == t && l == |s.threads[t].susp|
  {
    ReachableOk(s);
    var s1 := Next(s, Step(t, Go));
    ClaimKeeps(s, t, j, pos);
    assert s1.jobs[j].batches[pos].mark == Taken(t, |s.threads[t].susp|);
    JobsMoveForward(s1, acts, j);
    AfterKeeps(s1, acts);
    var s' := After(s1, acts);
    assert Later(s1.jobs[j], s'.jobs[j]);
    forall u, l: nat | 0 <= u < |s'.threads| && FrameIs(s'.threads[u], l, j, pos)
      ensures u == t && l == |s.threads[t].susp|
    {
      FrameOwns(s', u, l, j, pos);
    }
  }

  /** A batch loop runs only a batch marked as taken by it. */
  lemma FrameOwns(s: State, u: nat, l: nat, j: nat, b: nat)
    requires Inv(s) && u < |s.threads| && FrameIs(s.threads[u], l, j, b)
    ensures j < |s.jobs| && b < |s.jobs[j].batches| && s.jobs[j].batches[b].mark == Taken(u, l)
  {
    ThreadFact(s, u);
    if l < |s.threads[u].susp| {
      assert FrameOk(s.jobs, u, l, s.threads[u].susp[l]);
    }
  }

  // ----- tasks -----

  /** Every post to a task's semaphore follows a complete run of its function, although batches_done reaches
      nbbatches before the function starts; so a waiter that returned finds the result stored. */
  lemma TaskResultIsThere(s: State, j: nat)
    requires Reachable(s) && j < |s.jobs| && s.jobs[j].kind == TaskJob
    ensures s.jobs[j].posts > 0 ==> s.jobs[j].runs > 0
    ensures s.jobs[j].phase.Returned? ==> s.jobs[j].runs > 0
    ensures !s.jobs[j].place.InReady? && s.jobs[j].posts == 0 ==>
              s.jobs[j].closer < |s.threads| && OnTask(s.threads[s.jobs[j].closer], j)
  {
    ReachableOk(s);
    JobFact(s, j);
  }

  /** When a search of the running list ends with a task: never at an entry it stops at, only by reading the list to its
      end with the task as its last entry. */
  lemma SearchTakesTaskIff(s: State, t: nat, k: nat)
    requires Reachable(s) && t < |s.threads| && s.threads[t].ctl == Walk(k) && Enabled(s, t, Go)
    ensures Next(s, Step(t, Go)).threads[t].ctl.Run?
            <==> k == |s.running| > 0 && s.jobs[s.running[k - 1]].kind == TaskJob
  {
    ReachableOk(s);
    if k < |s.running| {
      assert s.running[k] in s.running;
      JobFact(s, s.running[k]);
    }
  }

  // ----- the lists -----

  lemma {:induction false} DistinctCounts(q: seq<nat>, j: nat)
    requires Distinct(q)
    ensures multiset(q)[j] == if j in q then 1 else 0
    decreases |q|
  {
    if q != [] {
      assert q == [q[0]] + q[1..];
      DistinctCounts(q[1..], j);
    }
  }

  /** A job is at most once in one of the two lists. */
  lemma ListedOnce(s: State, j: nat)
    requires Reachable(s)
    ensures multiset(s.ready)[j] + multiset(s.running)[j] <= 1
    ensures j in s.ready ==> j < |s.jobs| && s.jobs[j].state == READY && s.jobs[j].calls == []
    ensures j in s.running ==> j < |s.jobs| && s.jobs[j].state != READY
  {
    ReachableOk(s);
    DistinctCounts(s.ready, j);
    DistinctCounts(s.running, j);
    if j < |s.jobs| { JobFact(s, j); }
  }

  /** A job that left the running list is done and stays out of both lists; its state never goes back. */
  lemma LeavesForGood(s: State, acts: seq<Action>, more: seq<Action>, j: nat)
    requires Reachable(s) && j in s.running
    requires Runs(s, acts) && j !in After(s, acts).running
    requires Runs(After(s, acts), more)
    ensures var s1 := After(s, acts);
            j < |s1.jobs| && IsDone(s1.jobs[j]) && s1.jobs[j].state == DONE
    ensures var s2 := After(After(s, acts), more);
            j < |s2.jobs| && j !in s2.running && j !in s2.ready && s2.jobs[j].state == DONE && IsDone(s2.jobs[j])
  {
    ReachableOk(s);
    var s1 := After(s, acts);
    AfterKeeps(s, acts);
    JobsMoveForward(s, acts, j);
    JobFact(s1, j);
    var s2 := After(s1, more);
    AfterKeeps(s1, more);
    JobsMoveForward(s1, more, j);
    JobFact(s2, j);
  }
}
