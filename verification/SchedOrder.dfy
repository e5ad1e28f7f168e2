/** Which job is taken first: from ready the newest, from the running list the oldest that is not done. */
module SchedOrder {
  import opened SeqOps
  import opened SchedModel
  import opened SchedInv
  import opened SchedSteps
  import opened SchedRuns
  import opened SchedLife

  // ----- the newest job first -----

  predicate Ascends(q: seq<nat>, n: nat) {
    && (forall i :: 0 <= i < |q| ==> q[i] < n)
    && (forall i, k :: 0 <= i < k < |q| ==> q[i] < q[k])
  }

  /** How a step changes the ready list: a new job at its end, or its last job taken. */
  lemma ReadyChanges(s: State, a: Action)
    requires Allowed(s, a)
    ensures var s' := Next(s, a);
            && |s.jobs| <= |s'.jobs|
            && (|| s'.ready == s.ready
                || (s'.ready == s.ready + [|s.jobs|] && |s'.jobs| == |s.jobs| + 1)
                || (s.ready != [] && s'.ready == s.ready[..|s.ready| - 1]))
  {
  }

  lemma {:induction false} AfterAscends(s: State, acts: seq<Action>)
    requires Ascends(s.ready, |s.jobs|) && Runs(s, acts)
    ensures Ascends(After(s, acts).ready, |After(s, acts).jobs|)
    decreases |acts|
  {
    if acts != [] {
      ReadyChanges(s, acts[0]);
      AfterAscends(Next(s, acts[0]), acts[1..]);
    }
  }

  /** The ready list is a stack: the job a worker takes from it is the one submitted last of those in it. */
  lemma NewestFirst(s: State, t: nat)
    requires Reachable(s) && Enabled(s, t, Go) && s.threads[t].ctl.Look? && s.ready != []
    ensures var c := Next(s, Step(t, Go)).threads[t].ctl;
            c.Popped? && c.j in s.ready && forall i :: i in s.ready ==> i <= c.j
  {
    var acts :| Runs(Init(s.nw), acts) && After(Init(s.nw), acts) == s;
    AfterAscends(Init(s.nw), acts);
  }

  // ----- the oldest running job first -----

  /** Wherever both are in the list, `i` is before `j`. */
  predicate Follows(q: seq<nat>, i: nat, j: nat) {
    forall a, b :: 0 <= a < |q| && 0 <= b < |q| && q[a] == i && q[b] == j ==> a < b
  }

  predicate IsPublished(s: State, j: nat) {
    j < |s.jobs| && Published(s.jobs[j])
  }

  lemma RemovalKeepsOrder(q: seq<nat>, x: nat, i: nat, j: nat)
    requires Follows(q, i, j)
    ensures Follows(RemoveFirst(q, x), i, j)
  {
    var k := IndexOf(q, x);
    var r := RemoveFirst(q, x);
    if k < |q| {
      assert forall a :: 0 <= a < |r| ==> r[a] == q[if a < k then a else a + 1];
    }
  }

  /** How a step changes the running list: a job that was not published at its end, or a job taken out. */
  lemma RunningChanges(s: State, a: Action)
    requires Inv(s) && Allowed(s, a)
    ensures var q, q' := s.running, Next(s, a).running;
            || q' == q
            || (|q'| > 0 && q' == q + [q'[|q'| - 1]] && !IsPublished(s, q'[|q'| - 1]))
            || exists x :: q' == RemoveFirst(q, x)
  {
    if a.Step? {
      ThreadFact(s, a.t);
    }
  }

  lemma OrderKept(s: State, a: Action, i: nat, j: nat)
    requires Inv(s) && Allowed(s, a) && IsPublished(s, i) && Follows(s.running, i, j)
    ensures IsPublished(Next(s, a), i) && Follows(Next(s, a).running, i, j)
  {
    RunningChanges(s, a);
    NextLater(s, a, i);
    var q, q' := s.running, Next(s, a).running;
    if q' != q && !(|q'| > 0 && q' == q + [q'[|q'| - 1]] && !IsPublished(s, q'[|q'| - 1])) {
      var x :| q' == RemoveFirst(q, x);
      RemovalKeepsOrder(q, x, i, j);
    }
  }

  lemma {:induction false} AfterOrder(s: State, acts: seq<Action>, i: nat, j: nat)
    requires Inv(s) && Runs(s, acts) && IsPublished(s, i) && Follows(s.running, i, j)
    ensures IsPublished(After(s, acts), i) && Follows(After(s, acts).running, i, j)
    decreases |acts|
  {
    if acts != [] {
      OrderKept(s, acts[0], i, j);
      NextKeeps(s, acts[0]);
      AfterOrder(Next(s, acts[0]), acts[1..], i, j);
    }
  }

  lemma NotListedYet(s: State, j: nat)
    requires Inv(s) && !IsPublished(s, j)
    ensures j !in s.running
  {
  }

  /** A search that stops at a job, before the end of the list, stops at the one published first among those not done:
      every job that was published before it, at any earlier state of the run, is done. */
  lemma OldestFirst(s: State, acts: seq<Action>, t: nat, k: nat, i: nat, j: nat)
    requires Reachable(s) && IsPublished(s, i) && !IsPublished(s, j)
    requires Runs(s, acts) && t < |After(s, acts).threads| && Enabled(After(s, acts), t, Go)
    requires var s' := After(s, acts);
             && s'.threads[t].ctl == Walk(k) && k < |s'.running|
             && var c := Next(s', Step(t, Go)).threads[t].ctl; !Jobless(c) && c.j == j
    ensures i < |After(s, acts).jobs| && IsDone(After(s, acts).jobs[i])
  {
    ReachableOk(s);
    NotListedYet(s, j);
    AfterOrder(s, acts, i, j);
    AfterKeeps(s, acts);
    var s' := After(s, acts);
    ThreadFact(s', t);
    JobFact(s', i);
    assert s'.running[k] == j;
    if i in s'.running {
      var a :| 0 <= a < |s'.running| && s'.running[a] == i;
      assert a < k;
    }
  }

  /** A search comes back without a job exactly when it read an empty list. */
  lemma SearchFindsNothingIff(s: State, t: nat, k: nat)
    requires Reachable(s) && t < |s.threads| && s.threads[t].ctl == Walk(k) && Enabled(s, t, Go)
    ensures Next(s, Step(t, Go)).threads[t].ctl.Sleep? <==> k == 0 && s.running == []
  {
    ReachableOk(s);
    ThreadFact(s, t);
  }
}
