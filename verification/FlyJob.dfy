/** Jobs of src/fly_job.c in the heap: cutting into batches with rollback, claiming, running, destroying. */
module FlyJob {
  import opened SeqOps
  import opened Split
  import opened FlyList

  datatype JobState = FLY_JOB_IDLE | FLY_JOB_PREPARING | FLY_JOB_READY | FLY_JOB_RUNNING | FLY_JOB_DONE

  class Batch {
    var start: int
    var end: int
    var execed: int

    constructor (start: int, end: int)
      ensures this.start == start && this.end == end && execed == 0
    {
      this.start, this.end, execed := start, end, 0;
    }
  }

  /** The batches are different objects cut as `Spans` says. */
  ghost predicate CutAs(bs: seq<Batch>, sp: seq<Span>)
    reads bs
  {
    (
    && |bs| == |sp| && Distinct(bs)
    && forall i :: 0 <= i < |bs| ==> Span(bs[i].start, bs[i].end) == sp[i] && bs[i].execed == 0
    ) == true
  }

  /** Batches cut as `sp` says, of which the first `d` are claimed. */
  ghost predicate ClaimedUpTo(bs: seq<Batch>, sp: seq<Span>, d: nat)
    reads bs
  {
    (
    && |bs| == |sp| && Distinct(bs)
    && forall i :: 0 <= i < |bs| ==> Span(bs[i].start, bs[i].end) == sp[i] && (bs[i].execed == 0 <==> d <= i)
    ) == true
  }

  /** Since the old state exactly the batches at the indices `now` were claimed; nothing else about them changed. */
  twostate predicate NewlyClaimed(bs: seq<Batch>, now: set<nat>)
    reads bs
  {
    (
    (forall i :: i in now ==> i < |bs|)
    && forall i: nat {:trigger bs[i]} :: i < |bs| ==>
      && bs[i].start == old(bs[i].start) && bs[i].end == old(bs[i].end)
      && (if i in now then old(bs[i].execed) == 0 && bs[i].execed != 0 else bs[i].execed == old(bs[i].execed))
    ) == true
  }

  /** The first `i` batches before the last one gets its surplus. */
  function PlainSpans(start: int, size: int, i: nat): seq<Span> {
    seq(i, b => Span(start + b * size, start + b * size + size))
  }

  class Job {
    var start: int
    var end: int
    var state: JobState
    var nbbatches: int
    var batchesDone: int
    const data: int
    const elsize: nat
    const batches: List<Batch>

    /** The fields a job starts with; one without an array has no use for `elsize`. */
    constructor (start: int, end: int, data: int, elsize: nat)
      ensures this.start == start && this.end == end && this.data == data && this.elsize == elsize
      ensures state == FLY_JOB_IDLE && nbbatches == batchesDone == 0
      ensures fresh(batches) && batches.Valid() && batches.Contents() == []
    {
      this.start, this.end, this.data, this.elsize := start, end, data, elsize;
      state, nbbatches, batchesDone := FLY_JOB_IDLE, 0, 0;
      batches := new List<Batch>();
    }

    /** One round of the loops that empty the batch list: the tail's batch, its node, and the batch are freed. */
    method DropTail(a: Allocator)
      requires batches.Valid() && Distinct(batches.Contents()) && batches.Contents() != []
      modifies batches, batches.nodes, a`live
      ensures batches.Valid() && Distinct(batches.Contents())
      ensures batches.nodes <= old(batches.nodes) && |batches.Contents()| == |old(batches.Contents())| - 1
      ensures a.live - Owned(batches.nodes, batches.Contents())
              == old(a.live) - Owned(old(batches.nodes), old(batches.Contents()))
    {
      ghost var n := |batches.nodes| - 1;
      var batch := batches.TailElement();
      FirstIndex(batches.Contents(), batch, n);
      OwnedLast(batches.nodes, batches.Contents());
      batches.Remove(batch, a);
      a.Free(batch);
    }

    /** The loop itself. */
    method Drain(a: Allocator)
      requires batches.Valid() && Distinct(batches.Contents())
      modifies batches, batches.nodes, a`live
      ensures batches.Valid() && batches.Contents() == [] && batches.nodes == []
      ensures a.live == old(a.live) - Owned(old(batches.nodes), old(batches.Contents()))
    {
      var empty := batches.IsEmpty();
      while !empty
        invariant batches.Valid() && Distinct(batches.Contents()) && batches.nodes <= old(batches.nodes)
        invariant empty <==> batches.Contents() == []
        invariant a.live - Owned(batches.nodes, batches.Contents())
                  == old(a.live) - Owned(old(batches.nodes), old(batches.Contents()))
        decreases |batches.Contents()|
      {
        DropTail(a);
        empty := batches.IsEmpty();
      }
      assert batches.nodes == [];
    }

    /** fly_destroy_job: every remaining node and batch is freed, and the job itself. */
    method Destroy(a: Allocator)
      requires batches.Valid() && Distinct(batches.Contents())
      modifies batches, batches.nodes, a`live
      ensures a.live == old(a.live) - Owned(old(batches.nodes), old(batches.Contents())) - {this}
    {
      Drain(a);
      a.Free(this);
    }

    /** job_make_batch and job_add_batch: a batch and its node are allocated, or neither is kept. */
    method AddBatch(start: int, end: int, a: Allocator) returns (ok: bool)
      requires batches.Valid()
      modifies batches, batches.nodes, a
      ensures batches.Valid() && (ok <==> a.refused == old(a.refused)) && a.refused >= old(a.refused)
      ensures !ok ==> batches.nodes == old(batches.nodes) && batches.Contents() == old(batches.Contents())
      ensures !ok ==> a.live == old(a.live)
      ensures ok ==>
                var n := |old(batches.nodes)|;
                && |batches.nodes| == n + 1 && batches.nodes[..n] == old(batches.nodes) && fresh(batches.nodes[n])
                && batches.Contents()[..n] == old(batches.Contents())
                && var b := batches.Contents()[n];
                   && fresh(b) && b.start == start && b.end == end && b.execed == 0
                   && a.live == old(a.live) + {batches.nodes[n], b}
    {
      ok := a.Grant();
      if ok {
        var batch := new Batch(start, end);
        a.Track(batch);
        var err := batches.Append(batch, a);
        if err != FLYESUCCESS {
          a.Free(batch);
          ok := false;
        }
      }
    }

    /** One round of the loop of fly_make_batches. */
    method AddPlain(size: int, i: nat, a: Allocator) returns (ok: bool)
      requires batches.Valid() && |batches.Contents()| == i
      requires CutAs(batches.Contents(), PlainSpans(start, size, i))
      modifies batches, batches.nodes, a
      ensures batches.Valid() && (ok <==> a.refused == old(a.refused)) && a.refused >= old(a.refused)
      ensures |batches.Contents()| == if ok then i + 1 else i
      ensures CutAs(batches.Contents(), PlainSpans(start, size, |batches.Contents()|))
      ensures Grown(old(batches.nodes), batches.nodes) && fresh(batches.nodes[|old(batches.nodes)|..])
      ensures Grown(old(batches.Contents()), batches.Contents()) && fresh(batches.Contents()[|old(batches.Contents())|..])
      ensures a.live == old(a.live) + Owned(batches.nodes[|old(batches.nodes)|..], batches.Contents()[i..])
    {
      ok := AddBatch(start + i * size, start + i * size + size, a);
      OwnedTail(old(batches.nodes), batches.nodes, old(batches.Contents()), batches.Contents());
      if ok {
        CutGrows(old(batches.Contents()), batches.Contents(), start, size);
      }
    }

    /** The loop: how many batches it appended before an allocation was refused. */
    method FillBatches(size: int, nb: int, a: Allocator) returns (i: nat)
      requires nb > 0 && batches.Valid() && batches.Contents() == []
      modifies batches, batches.nodes, a
      ensures batches.Valid() && |batches.Contents()| == i <= nb
      ensures i == nb <==> a.refused == old(a.refused)
      ensures fresh(batches.nodes) && fresh(batches.Contents())
      ensures CutAs(batches.Contents(), PlainSpans(start, size, i))
      ensures a.live == old(a.live) + Owned(batches.nodes, batches.Contents())
    {
      i := 0;
      var ok := true;
      assert batches.nodes == [];
      while i < nb && ok
        invariant i <= nb && batches.Valid() && |batches.Contents()| == i
        invariant ok <==> a.refused == old(a.refused)
        invariant ok || i < nb
        invariant fresh(batches.nodes) && fresh(batches.Contents())
        invariant CutAs(batches.Contents(), PlainSpans(start, size, i))
        invariant a.live == old(a.live) + Owned(batches.nodes, batches.Contents())
        decreases nb - i, ok
      {
        ghost var nodes, bs := batches.nodes, batches.Contents();
        ok := AddPlain(size, i, a);
        OwnedGrows(nodes, batches.nodes, bs, batches.Contents());
        if ok {
          i := i + 1;
        }
      }
    }

    /** The loop and, if it was cut short, the rollback after it. */
    method FillOrRollBack(size: int, nb: int, a: Allocator) returns (full: bool)
      requires nb > 0 && batches.Valid() && batches.Contents() == []
      modifies batches, batches.nodes, a
      ensures batches.Valid() && (full <==> a.refused == old(a.refused))
      ensures fresh(batches.nodes) && fresh(batches.Contents())
      ensures full ==>
                && CutAs(batches.Contents(), PlainSpans(start, size, nb))
                && a.live == old(a.live) + Owned(batches.nodes, batches.Contents())
      ensures !full ==> batches.Contents() == [] && batches.nodes == [] && a.live == old(a.live)
    {
      var i := FillBatches(size, nb, a);
      full := i == nb;
      if !full {
        assert Owned(batches.nodes, batches.Contents()) !! old(a.live);
        Drain(a);
      }
    }

    /** The indices a plain cut leaves over go to the last batch. */
    method AddSurplus(funcscount: int, nb: int)
      requires nb > 0 && batches.Valid() && funcscount == end - start
      requires CutAs(batches.Contents(), PlainSpans(start, BatchSize(funcscount, nb), nb))
      modifies batches.Contents()
      ensures batches.Valid() && CutAs(batches.Contents(), Spans(start, end, nb))
      ensures batches.nodes == old(batches.nodes) && batches.Contents() == old(batches.Contents())
    {
      PlainThenSurplus(start, end, nb);
      if funcscount > nb && funcscount % nb != 0 {
        var batch := batches.TailElement();
        batch.end := batch.end + funcscount % nb;
      }
    }

    /** Cuts the job into `nb` batches, or leaves nothing behind. */
    method MakeBatches(nb: int, a: Allocator) returns (err: Error)
      requires nb > 0 && batches.Valid() && batches.Contents() == []
      modifies this, batches, batches.nodes, a
      ensures batches.Valid() && start == old(start) && end == old(end) && batchesDone == old(batchesDone)
      ensures fresh(batches.nodes) && fresh(batches.Contents())
      ensures err == FLYESUCCESS <==> a.refused == old(a.refused)
      ensures err == FLYESUCCESS ==>
                && state == FLY_JOB_READY && nbbatches == nb
                && CutAs(batches.Contents(), Spans(start, end, nb))
                && a.live == old(a.live) + Owned(batches.nodes, batches.Contents())
      ensures err != FLYESUCCESS ==>
                && err == FLYENORES && state == FLY_JOB_IDLE && nbbatches == old(nbbatches)
                && batches.Contents() == [] && batches.nodes == [] && a.live == old(a.live)
    {
      var funcscount := end - start;
      var batchsize := TruncDiv(funcscount, nb);
      state := FLY_JOB_PREPARING;
      if batchsize == 0 {
        batchsize := batchsize + 1;
      }
      var full := FillOrRollBack(batchsize, nb, a);
      if !full {
        state := FLY_JOB_IDLE;
        return FLYENORES;
      }
      AddSurplus(funcscount, nb);
      nbbatches := nb;
      state := FLY_JOB_READY;
      err := FLYESUCCESS;
    }

    // ----- running a batch -----

    /** What other threads may do to the batches at any moment: claim some that are unclaimed. */
    method OthersClaim() returns (ghost theirs: set<nat>)
      requires batches.Valid() && Distinct(batches.Contents())
      modifies batches.Contents()
      ensures batches.Valid() && batches.nodes == old(batches.nodes) && batches.Contents() == old(batches.Contents())
      ensures NewlyClaimed(batches.Contents(), theirs)
    {
      theirs := {};
      ghost var bs := batches.Contents();
      var curr := batches.next;
      ghost var k: nat := 0;
      while curr != null
        invariant batches.Valid() && batches.Contents() == bs && batches.nodes == old(batches.nodes) && k <= |bs|
        invariant curr == if k < |bs| then batches.nodes[k] else null
        invariant NewlyClaimed(bs, theirs) && forall i :: i in theirs ==> i < k
        decreases |bs| - k
      {
        var b := curr.el;
        assert b == bs[k];
        var claims := *;
        if claims && b.execed == 0 {
          b.execed := 1;
          theirs := theirs + {k};
        }
        assert curr.next == batches.nodes[k].next;
        curr := curr.next;
        k := k + 1;
      }
    }

    /** One attempt to claim the `k`-th batch; with `shared`, other threads claim before it. */
    method Attempt(b: Batch, ghost k: nat, shared: bool) returns (won: bool, ghost theirs: set<nat>)
      requires batches.Valid() && Distinct(batches.Contents()) && k < |batches.Contents()| && b == batches.Contents()[k]
      modifies batches.Contents()
      ensures batches.Valid() && batches.nodes == old(batches.nodes) && batches.Contents() == old(batches.Contents())
      ensures NewlyClaimed(batches.Contents(), if won then theirs + {k} else theirs)
      ensures b.execed != 0 && (won ==> k !in theirs) && (!shared ==> theirs == {})
    {
      theirs := {};
      if shared {
        theirs := OthersClaim();
      }
      won := b.execed == 0;
      if won {
        b.execed := 1;
      }
    }

    /** fly_get_exec_batch. With `shared`, other threads claim batches before every attempt: `theirs` are the batches they
        got meanwhile. The search returns a batch nobody else got, the `k`-th, or null when every batch is claimed. */
    method GetExecBatch(shared: bool) returns (batch: Batch?, ghost k: nat, ghost theirs: set<nat>)
      requires batches.Valid() && Distinct(batches.Contents())
      modifies batches.Contents()
      ensures batches.Valid() && batches.nodes == old(batches.nodes) && batches.Contents() == old(batches.Contents())
      ensures NewlyClaimed(batches.Contents(), if batch == null then theirs else theirs + {k})
      ensures batch != null ==> k < |batches.Contents()| && batch == batches.Contents()[k] && k !in theirs
      ensures k <= |batches.Contents()| && forall i :: 0 <= i < k ==> batches.Contents()[i].execed != 0
      ensures batch == null ==> k == |batches.Contents()|
      ensures !shared ==> theirs == {}
    {
      theirs, k := {}, 0;
      ghost var bs := batches.Contents();
      var curr := batches.next;
      while curr != null
        invariant batches.Valid() && batches.Contents() == bs && batches.nodes == old(batches.nodes) && k <= |bs|
        invariant curr == if k < |bs| then batches.nodes[k] else null
        invariant forall i :: 0 <= i < k ==> bs[i].execed != 0
        invariant NewlyClaimed(bs, theirs) && (!shared ==> theirs == {})
        decreases |bs| - k
      {
        assert curr.el == bs[k];
        var won, more := Attempt(curr.el, k, shared);
        theirs := theirs + more;
        if won {
          return curr.el, k, theirs;
        }
        assert curr.next == batches.nodes[k].next;
        curr := curr.next;
        k := k + 1;
      }
      batch := null;
    }

    /** fly_pfarrj_exec after the claim: the body calls of one batch, each with its index and the running pointer. */
    method RunArrayBatch(batch: Batch) returns (calls: seq<(int, int)>)
      modifies this`batchesDone
      ensures |calls| == (if batch.start < batch.end then batch.end - batch.start else 0)
      ensures forall k :: 0 <= k < |calls| ==> calls[k] == (batch.start + k, data + (batch.start + k) * elsize)
      ensures calls == ArrayCalls(Span(batch.start, batch.end), data, elsize)
      ensures batchesDone == old(batchesDone) + 1
    {
      calls := [];
      var count := batch.end - batch.start;
      var param := data + batch.start * elsize;
      var i := 0;
      while i < count
        invariant 0 <= i && (i <= count || i == 0)
        invariant param == data + (batch.start + i) * elsize
        invariant calls == ArrayCalls(Span(batch.start, batch.start + i), data, elsize)
      {
        calls := calls + [(batch.start + i, param)];
        param := param + elsize;
        i := i + 1;
      }
      batchesDone := batchesDone + 1;
    }

    /** One round of fly_pfarrj_exec without other threads: the first unclaimed batch is claimed and run. */
    method RunNext(ghost d: nat, ghost sp: seq<Span>) returns (calls: seq<(int, int)>)
      requires batches.Valid() && d < |sp| && ClaimedUpTo(batches.Contents(), sp, d)
      modifies this`batchesDone, batches.Contents()
      ensures batches.Valid() && batches.nodes == old(batches.nodes) && batches.Contents() == old(batches.Contents())
      ensures ClaimedUpTo(batches.Contents(), sp, d + 1)
      ensures calls == ArrayCalls(sp[d], data, elsize) && batchesDone == old(batchesDone) + 1
    {
      assert batches.Contents()[d].execed == 0;
      var batch, k, theirs := GetExecBatch(false);
      assert batch != null && k == d;
      calls := RunArrayBatch(batch);
    }

    /** The loop of a worker that calls fly_parallel_for_arr and is left alone with the job. */
    method RunAll(ghost sp: seq<Span>) returns (calls: seq<(int, int)>)
      requires batches.Valid() && ClaimedUpTo(batches.Contents(), sp, 0) && batchesDone == 0 && nbbatches == |sp|
      modifies this`batchesDone, batches.Contents()
      ensures batches.Valid() && batches.nodes == old(batches.nodes) && batches.Contents() == old(batches.Contents())
      ensures batchesDone == nbbatches && calls == AllCalls(sp, data, elsize)
      ensures forall i, address ::
                multiset(calls)[(i, address)] == if address == data + i * elsize then Times(sp, i) else 0
    {
      calls := [];
      ghost var d := 0;
      while batchesDone != nbbatches
        invariant 0 <= d == batchesDone <= |sp|
        invariant batches.Valid() && batches.nodes == old(batches.nodes) && batches.Contents() == old(batches.Contents())
        invariant ClaimedUpTo(batches.Contents(), sp, d)
        invariant calls == AllCalls(sp[..d], data, elsize)
        decreases |sp| - d
      {
        var more := RunNext(d, sp);
        assert sp[..d + 1][..d] == sp[..d];
        calls := calls + more;
        d := d + 1;
      }
      assert sp[..d] == sp;
      forall i, address
        ensures multiset(calls)[(i, address)] == if address == data + i * elsize then Times(sp, i) else 0
      {
        AllCallsCount(sp, data, elsize, i, address);
      }
    }

    /** fly_add_job_and_wait on a worker that no other thread helps. */
    method CutAndRun(nb: int, a: Allocator) returns (err: Error, calls: seq<(int, int)>)
      requires nb > 0 && batches.Valid() && batches.Contents() == [] && batchesDone == 0
      modifies this, batches, batches.nodes, a
      ensures batches.Valid() && Distinct(batches.Contents()) && fresh(batches.nodes) && fresh(batches.Contents())
      ensures a.live == old(a.live) + Owned(batches.nodes, batches.Contents())
      ensures err == FLYESUCCESS <==> a.refused == old(a.refused)
      ensures err == FLYESUCCESS ==> calls == AllCalls(Spans(old(start), old(end), nb), data, elsize)
      ensures err != FLYESUCCESS ==> err == FLYENORES && calls == []
    {
      calls := [];
      err := MakeBatches(nb, a);
      assert Distinct(batches.Contents());
      if err == FLYESUCCESS {
        calls := RunAll(Spans(start, end, nb));
      }
    }

    /** fly_pfptrj_exec after the claim: every call gets the job's own pointer. */
    method RunPointerBatch(batch: Batch) returns (calls: seq<(int, int)>)
      modifies this`batchesDone
      ensures |calls| == (if batch.start < batch.end then batch.end - batch.start else 0)
      ensures forall i :: 0 <= i < |calls| ==> calls[i] == (batch.start + i, data)
      ensures batchesDone == old(batchesDone) + 1
    {
      calls := [];
      var count := batch.end - batch.start;
      var i := 0;
      while i < count
        invariant 0 <= i && (i <= count || i == 0) && |calls| == i
        invariant forall k :: 0 <= k < i ==> calls[k] == (batch.start + k, data)
      {
        calls := calls + [(batch.start + i, data)];
        i := i + 1;
      }
      batchesDone := batchesDone + 1;
    }
  }

  /** fly_create_job_pfarr: no job for an empty or backward range, nor without memory or a semaphore, and then nothing
      stays allocated. */
  method CreateArrayJob(start: int, end: int, data: int, elsize: nat, semInit: bool, a: Allocator) returns (job: Job?)
    modifies a
    ensures job != null <==> end - start > 0 && semInit && a.refused == old(a.refused)
    ensures job == null ==> a.live == old(a.live)
    ensures job != null ==>
              && fresh(job) && fresh(job.batches) && job.batches.Valid() && job.batches.Contents() == []
              && job.start == start && job.end == end && job.data == data && job.elsize == elsize
              && job.state == FLY_JOB_IDLE && job.batchesDone == 0 && a.live == old(a.live) + {job}
  {
    job := null;
    if end - start > 0 {
      var ok := a.Grant();
      if ok {
        job := new Job(start, end, data, elsize);
        a.Track(job);
        if !semInit {
          a.Free(job);
          job := null;
        }
      }
    }
  }

  /** fly_parallel_for_arr on a worker that no other thread helps: the job is created, cut, run and destroyed. Whatever is
      refused, nothing stays allocated; and without a refusal the body is called for the covered indices in order, each
      with the address of its own element. */
  method ParallelForArr(start: int, end: int, data: int, elsize: nat, semInit: bool, nb: int, a: Allocator)
    returns (err: Error, calls: seq<(int, int)>)
    requires nb > 0
    modifies a
    ensures a.live == old(a.live)
    ensures err == FLYESUCCESS <==> end - start > 0 && semInit && a.refused == old(a.refused)
    ensures err == FLYESUCCESS ==> |calls| == CoveredEnd(start, end, nb) - start
    ensures err == FLYESUCCESS ==> forall k :: 0 <= k < |calls| ==> calls[k] == (start + k, data + (start + k) * elsize)
    ensures err != FLYESUCCESS ==> err == FLYENORES && calls == []
  {
    err, calls := FLYENORES, [];
    var job := CreateArrayJob(start, end, data, elsize, semInit, a);
    if job != null {
      assert job !in old(a.live);
      err, calls := job.CutAndRun(nb, a);
      if err == FLYESUCCESS {
        AllInOrder(start, end, nb, data, elsize);
      }
      job.Destroy(a);
    }
  }

  /** The calls of all batches, batch after batch. */
  function AllCalls(sp: seq<Span>, data: int, elsize: nat): seq<(int, int)> {
    if sp == [] then [] else AllCalls(sp[..|sp| - 1], data, elsize) + ArrayCalls(sp[|sp| - 1], data, elsize)
  }

  lemma CallsJoin(lo: int, mid: int, hi: int, data: int, elsize: nat)
    requires lo <= mid <= hi
    ensures ArrayCalls(Span(lo, mid), data, elsize) + ArrayCalls(Span(mid, hi), data, elsize)
            == ArrayCalls(Span(lo, hi), data, elsize)
  {
  }

  lemma AllInOrder(start: int, end: int, nb: int, data: int, elsize: nat)
    requires nb > 0 && end - start > 0
    ensures var calls := AllCalls(Spans(start, end, nb), data, elsize);
            && |calls| == CoveredEnd(start, end, nb) - start
            && forall k :: 0 <= k < |calls| ==> calls[k] == (start + k, data + (start + k) * elsize)
  {
    CallsInOrder(start, end, nb, data, elsize, nb);
    assert Spans(start, end, nb)[..nb] == Spans(start, end, nb);
  }

  lemma {:induction false} ArrayCallsCount(lo: int, hi: int, data: int, elsize: nat, i: int, address: int)
    ensures multiset(ArrayCalls(Span(lo, hi), data, elsize))[(i, address)]
            == if lo <= i < hi && address == data + i * elsize then 1 else 0
    decreases hi - lo
  {
    if lo < hi {
      var calls := ArrayCalls(Span(lo, hi), data, elsize);
      var fewer := ArrayCalls(Span(lo, hi - 1), data, elsize);
      var last := (hi - 1, data + (hi - 1) * elsize);
      ArrayCallsCount(lo, hi - 1, data, elsize, i, address);
      assert calls == fewer + [last];
    }
  }

  /** How many of the spans contain the index. */
  function Times(sp: seq<Span>, i: int): nat {
    if sp == [] then 0 else Times(sp[..|sp| - 1], i) + if Inside(sp[|sp| - 1], i) then 1 else 0
  }

  /** Each index is called once for each batch that contains it, always with its own element's address. */
  lemma {:induction false} AllCallsCount(sp: seq<Span>, data: int, elsize: nat, i: int, address: int)
    ensures multiset(AllCalls(sp, data, elsize))[(i, address)]
            == if address == data + i * elsize then Times(sp, i) else 0
    decreases |sp|
  {
    if sp != [] {
      var n := |sp| - 1;
      AllCallsCount(sp[..n], data, elsize, i, address);
      ArrayCallsCount(sp[n].lo, sp[n].hi, data, elsize, i, address);
    }
  }

  /** Batches follow each other without a gap from `start` to where the cut ends. */
  lemma SpansFollow(start: int, end: int, nb: int, i: nat)
    requires nb > 0 && end - start > 0 && i < nb
    ensures var s := Spans(start, end, nb);
            && s[0].lo == start && s[i].lo <= s[i].hi && (i > 0 ==> s[i].lo == s[i - 1].hi)
            && s[nb - 1].hi == CoveredEnd(start, end, nb)
  {
    if end - start >= nb {
      ExactPartition(start, end, nb);
      if i > 0 {
        assert Spans(start, end, nb)[i - 1].hi == Spans(start, end, nb)[i - 1 + 1].lo;
      }
    } else {
      ShortRangeIsSingletons(start, end, nb);
    }
  }

  /** The calls of the first batches are those of one range, in order. */
  lemma {:induction false} CallsInOrder(start: int, end: int, nb: int, data: int, elsize: nat, i: nat)
    requires nb > 0 && end - start > 0 && i <= nb
    ensures var s := Spans(start, end, nb);
            var upTo := if i == 0 then start else s[i - 1].hi;
            start <= upTo && AllCalls(s[..i], data, elsize) == ArrayCalls(Span(start, upTo), data, elsize)
    ensures i == nb ==> Spans(start, end, nb)[nb - 1].hi == CoveredEnd(start, end, nb)
  {
    if i > 0 {
      var s := Spans(start, end, nb);
      CallsInOrder(start, end, nb, data, elsize, i - 1);
      SpansFollow(start, end, nb, i - 1);
      assert s[..i][..i - 1] == s[..i - 1];
      CallsJoin(start, s[i - 1].lo, s[i - 1].hi, data, elsize);
    }
  }

  /** The calls of an array batch: index and the address of the element with that index. */
  function ArrayCalls(sp: Span, data: int, elsize: nat): seq<(int, int)> {
    seq(if sp.lo < sp.hi then sp.hi - sp.lo else 0, k => (sp.lo + k, data + (sp.lo + k) * elsize))
  }

  /** Across all batches of a range with an index for every batch, each call gets the address of its own element, and
      that element lies inside [data + start * elsize, data + end * elsize). */
  lemma AddressesStayInside(start: int, end: int, nb: int, data: int, elsize: nat, b: nat, k: nat)
    requires 0 < nb <= end - start && 0 <= start && b < nb
    requires k < |ArrayCalls(SpanAt(start, end, nb, b), data, elsize)|
    ensures var (i, address) := ArrayCalls(SpanAt(start, end, nb, b), data, elsize)[k];
            && start <= i < end && address == data + i * elsize
            && data + start * elsize <= address && address + elsize <= data + end * elsize
  {
    var i := SpanAt(start, end, nb, b).lo + k;
    assert Inside(Spans(start, end, nb)[b], i);
    CoveredRange(start, end, nb, i);
    TimesKeepsOrder(start, i, elsize);
    TimesKeepsOrder(i + 1, end, elsize);
    assert (i + 1) * elsize == i * elsize + elsize;
  }

  lemma CutGrows(bs: seq<Batch>, bs': seq<Batch>, start: int, size: int)
    requires CutAs(bs, PlainSpans(start, size, |bs|)) && Grown(bs, bs') && |bs'| == |bs| + 1 && bs'[|bs|] !in bs
    requires var b := bs'[|bs|]; b.start == start + |bs| * size && b.end == b.start + size && b.execed == 0
    ensures CutAs(bs', PlainSpans(start, size, |bs| + 1))
  {
    assert bs' == bs + [bs'[|bs|]];
  }

  /** Only the last batch differs from a plain cut, by the surplus. */
  lemma PlainThenSurplus(start: int, end: int, nb: nat)
    requires nb > 0
    ensures var plain := PlainSpans(start, BatchSize(end - start, nb), nb);
            var last := plain[nb - 1];
            Spans(start, end, nb) == plain[nb - 1 := Span(last.lo, last.hi + Surplus(end - start, nb))]
  {
  }

  ghost predicate Grown<T>(q: seq<T>, r: seq<T>) {
    q <= r
  }

  lemma OwnedGrows(nodes: seq<Node<Batch>>, nodes': seq<Node<Batch>>, bs: seq<Batch>, bs': seq<Batch>)
    requires Grown(nodes, nodes') && Grown(bs, bs')
    ensures Owned(nodes', bs') == Owned(nodes, bs) + Owned(nodes'[|nodes|..], bs'[|bs|..])
  {
    assert nodes' == nodes + nodes'[|nodes|..];
    assert bs' == bs + bs'[|bs|..];
  }

  /** What a batch list holds on the heap besides its sentinel. */
  ghost function Owned(nodes: seq<Node<Batch>>, bs: seq<Batch>): set<object> {
    (set n | n in nodes) + (set b | b in bs)
  }

  /** After one more batch, or none. */
  lemma OwnedTail(nodes: seq<Node<Batch>>, nodes': seq<Node<Batch>>, bs: seq<Batch>, bs': seq<Batch>)
    requires |nodes| == |bs| && |nodes'| == |bs'| && |bs| <= |bs'| <= |bs| + 1
    requires nodes'[..|nodes|] == nodes && bs'[..|bs|] == bs
    ensures Grown(nodes, nodes') && Grown(bs, bs')
    ensures Owned(nodes'[|nodes|..], bs'[|bs|..]) == if |bs'| == |bs| then {} else {nodes'[|nodes|], bs'[|bs|]}
  {
    if |bs'| > |bs| {
      assert nodes'[|nodes|..] == [nodes'[|nodes|]] && bs'[|bs|..] == [bs'[|bs|]];
    }
  }

  lemma OwnedLast(nodes: seq<Node<Batch>>, bs: seq<Batch>)
    requires 0 < |nodes| == |bs|
    ensures var n := |nodes| - 1;
            && Owned(nodes, bs) == Owned(DropAt(nodes, n), DropAt(bs, n)) + {nodes[n], bs[n]}
            && DropAt(nodes, n) <= nodes && (Distinct(bs) ==> Distinct(DropAt(bs, n)))
  {
    var n := |nodes| - 1;
    assert nodes == DropAt(nodes, n) + [nodes[n]];
    assert bs == DropAt(bs, n) + [bs[n]];
  }
}
