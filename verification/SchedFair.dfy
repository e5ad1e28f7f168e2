/** Fair runs of the scheduler: everything submitted is completed. */
module SchedFair {
  import opened SchedModel
  import opened SchedInv
  import opened SchedSteps
  import opened SchedRuns
  import opened SchedDrain
  import opened SchedDrainRuns

  /** What happens at one moment of an endless run: nothing, or a step. */
  datatype Tick = Idle | Does(a: Action)

  /** The state after a tick by which nobody calls the library anew. */
  ghost predicate Leads(s: State, x: Tick, s': State) {
    match x
    case Idle => s' == s
    case Does(a) => Allowed(s, a) && NoNewCall(a) && s' == Next(s, a)
  }

  /** An endless run without new calls, from any reachable state. */
  ghost predicate Endless(states: nat -> State, ticks: nat -> Tick) {
    Reachable(states(0))
    && forall i: nat {:trigger Leads(states(i), ticks(i), states(i + 1))} :: Leads(states(i), ticks(i), states(i + 1))
  }

  /** The tick lowers the rank. */
  predicate Busy(s: State, x: Tick) {
    x.Does? && !Spinning(s, x.a)
  }

  lemma {:induction false} EndlessReachable(states: nat -> State, ticks: nat -> Tick, i: nat)
    requires Endless(states, ticks)
    ensures Reachable(states(i))
  {
    if i > 0 {
      var h: nat := i - 1;
      EndlessReachable(states, ticks, h);
      assert Leads(states(h), ticks(h), states(h + 1));
      if ticks(h).Does? {
        ReachableNext(states(h), ticks(h).a);
      }
    }
  }

  // ----- runs settle -----

  predicate NotAbove(a: Rank, b: Rank) {
    a == b || Below(a, b)
  }

  lemma EndlessStep(states: nat -> State, ticks: nat -> Tick, k: nat, now: Rank, was: Rank)
    requires Endless(states, ticks) && now == RankOf(states(k + 1)) && was == RankOf(states(k))
    ensures NotAbove(now, was) && (Busy(states(k), ticks(k)) ==> Below(now, was))
  {
    EndlessReachable(states, ticks, k);
    ReachableOk(states(k));
    assert Leads(states(k), ticks(k), states(k + 1));
    if ticks(k).Does? {
      NextDrops(states(k), ticks(k).a);
    }
  }

  /** Ranks that never rise, and fall at every busy moment. */
  ghost predicate Sinks(ranks: nat -> Rank, busy: nat -> bool) {
    forall k: nat {:trigger busy(k)} ::
      NotAbove(ranks(k + 1), ranks(k)) && (busy(k) ==> Below(ranks(k + 1), ranks(k)))
  }

  lemma {:induction false} NeverRises(ranks: nat -> Rank, busy: nat -> bool, i: nat, k: nat)
    requires Sinks(ranks, busy) && i <= k
    ensures NotAbove(ranks(k), ranks(i))
    decreases k - i
  {
    if i < k {
      NeverRises(ranks, busy, i, k - 1);
      assert busy(k - 1) || !busy(k - 1);
    }
  }

  lemma {:induction false} BusyNoMore(ranks: nat -> Rank, busy: nat -> bool, i: nat) returns (n: nat)
    requires Sinks(ranks, busy)
    ensures forall k: nat {:trigger busy(k)} :: k >= n ==> !busy(k)
    decreases ranks(i).work, ranks(i).tells, ranks(i).repeats, ranks(i).tokens, ranks(i).local
  {
    if k: nat :| k >= i && busy(k) {
      NeverRises(ranks, busy, i, k);
      n := BusyNoMore(ranks, busy, k + 1);
    } else {
      n := i;
    }
  }

  lemma EndlessSinks(states: nat -> State, ticks: nat -> Tick, ranks: nat -> Rank, busy: nat -> bool)
    requires Endless(states, ticks)
    requires forall k: nat {:trigger ranks(k)} :: ranks(k) == RankOf(states(k))
    requires forall k: nat {:trigger busy(k)} :: busy(k) == Busy(states(k), ticks(k))
    ensures Sinks(ranks, busy)
  {
    forall k: nat ensures NotAbove(ranks(k + 1), ranks(k)) && (busy(k) ==> Below(ranks(k + 1), ranks(k))) {
      EndlessStep(states, ticks, k, ranks(k + 1), ranks(k));
    }
  }

  /** The library cannot go on for ever on what was submitted: every endless run without new calls, fair or not, consists
      from some point on of nothing but idling and of nested calls that spin. */
  lemma EndlessRunsSettle(states: nat -> State, ticks: nat -> Tick) returns (n: nat)
    requires Endless(states, ticks)
    ensures forall k: nat {:trigger ticks(k)} :: k >= n ==> !Busy(states(k), ticks(k))
  {
    var ranks := (k: nat) => RankOf(states(k));
    var busy := (k: nat) => Busy(states(k), ticks(k));
    EndlessSinks(states, ticks, ranks, busy);
    n := BusyNoMore(ranks, busy, 0);
    forall k: nat | k >= n ensures !Busy(states(k), ticks(k)) {
      assert !busy(k);
    }
  }

  // ----- fairness -----

  lemma SpinTurns(s: State, t: nat)
    requires Inv(s) && Enabled(s, t, Go) && Spins(s, t)
    ensures var s' := ThreadStep(s, t, Go); s' == SetCtl(s, t, s'.threads[t].ctl) && !s'.threads[t].ctl.Walk?
  {
    Facts(s, t, s.threads[t].ctl.j);
  }

  lemma NoWalkerStill(s: State, t: nat, c: Ctl)
    requires t < |s.threads| && !c.Walk? && NoWalker(s)
    ensures NoWalker(SetCtl(s, t, c))
  {
  }

  /** What a thread other than the spinning one could do, it still can. */
  lemma OthersCanStill(s: State, t: nat, c: Ctl, a: Action)
    requires Productive(s, a) && Spins(s, t) && !c.Walk?
    ensures Productive(SetCtl(s, t, c), a)
  {
    if NoWalker(s) {
      NoWalkerStill(s, t, c);
    }
    if a.Step? {
      assert a.t != t && SetCtl(s, t, c).threads[a.t] == s.threads[a.t];
    }
  }

  lemma SpinDisturbsNobody(s: State, x: Action, a: Action)
    requires Inv(s) && Allowed(s, x) && Spinning(s, x) && Productive(s, a)
    ensures Productive(Next(s, x), a)
  {
    SpinTurns(s, x.t);
    OthersCanStill(s, x.t, Next(s, x).threads[x.t].ctl, a);
  }

  /** From `n` on the step is always possible, and never taken. */
  ghost predicate Neglected(states: nat -> State, ticks: nat -> Tick, a: Action, n: nat) {
    forall k: nat {:trigger ticks(k)} :: k >= n ==> Productive(states(k), a) && ticks(k) != Does(a)
  }

  /** Weak fairness: what stays possible for ever is done some time. */
  ghost predicate Fair(states: nat -> State, ticks: nat -> Tick) {
    forall a: Action, n: nat {:trigger Neglected(states, ticks, a, n)} :: !Neglected(states, ticks, a, n)
  }

  lemma {:induction false} StaysProductive(states: nat -> State, ticks: nat -> Tick, a: Action, n: nat, k: nat)
    requires Endless(states, ticks) && Productive(states(n), a) && n <= k
    requires forall i: nat {:trigger ticks(i)} :: i >= n ==> !Busy(states(i), ticks(i))
    ensures Productive(states(k), a) && ticks(k) != Does(a)
    decreases k - n
  {
    if k > n {
      var h: nat := k - 1;
      StaysProductive(states, ticks, a, n, h);
      EndlessReachable(states, ticks, h);
      ReachableOk(states(h));
      assert Leads(states(h), ticks(h), states(h + 1)) && !Busy(states(h), ticks(h));
      if ticks(h).Does? {
        SpinDisturbsNobody(states(h), ticks(h).a, a);
      }
    }
    assert !Busy(states(k), ticks(k));
  }

  ghost predicate CompletedFrom(states: nat -> State, n: nat) {
    forall k: nat :: k >= n ==> Completed(states(k))
  }

  /** Everything submitted is completed: on every fair run without new calls there is a point from which on every job is
      done and signalled, every call and every wait has returned, and all workers sleep. */
  lemma FairRunsFinish(states: nat -> State, ticks: nat -> Tick)
    requires Endless(states, ticks) && Fair(states, ticks)
    ensures exists n: nat :: CompletedFrom(states, n)
  {
    var n := EndlessRunsSettle(states, ticks);
    forall m: nat | m >= n ensures Completed(states(m)) {
      EndlessReachable(states, ticks, m);
      if a :| Productive(states(m), a) {
        forall k: nat | k >= m ensures Productive(states(k), a) && ticks(k) != Does(a) {
          StaysProductive(states, ticks, a, m, k);
        }
        assert Neglected(states, ticks, a, m);
      } else {
        QuietMeansCompleted(states(m));
      }
    }
    assert CompletedFrom(states, n);
  }

  // ----- there are such runs -----

  /** The state after the first `k` of `acts`; it stays once they are over. */
  function StateAt(s: State, acts: seq<Action>, k: nat): State
    requires Runs(s, acts)
    decreases |acts|
  {
    if k == 0 || acts == [] then s else StateAt(Next(s, acts[0]), acts[1..], k - 1)
  }

  function TickAt(acts: seq<Action>, k: nat): Tick {
    if k < |acts| then Does(acts[k]) else Idle
  }

  lemma {:induction false} StateAtLeads(s: State, acts: seq<Action>, k: nat)
    requires Runs(s, acts) && forall a :: a in acts ==> NoNewCall(a)
    ensures Leads(StateAt(s, acts, k), TickAt(acts, k), StateAt(s, acts, k + 1))
    ensures k >= |acts| ==> StateAt(s, acts, k) == After(s, acts)
    decreases |acts|
  {
    if acts != [] && k > 0 {
      StateAtLeads(Next(s, acts[0]), acts[1..], k - 1);
      assert k < |acts| ==> acts[1..][k - 1] == acts[k];
    } else if acts != [] {
      assert StateAt(Next(s, acts[0]), acts[1..], 0) == Next(s, acts[0]);
      assert acts[0] in acts;
    }
  }

  /** From every reachable state a fair run starts. */
  lemma FairRunExists(s: State) returns (states: nat -> State, ticks: nat -> Tick)
    requires Reachable(s)
    ensures states(0) == s && Endless(states, ticks) && Fair(states, ticks)
  {
    var acts := CanDrain(s);
    states := (k: nat) => StateAt(s, acts, k);
    ticks := (k: nat) => TickAt(acts, k);
    forall i: nat ensures Leads(states(i), ticks(i), states(i + 1)) {
      StateAtLeads(s, acts, i);
    }
    forall a: Action, n: nat ensures !Neglected(states, ticks, a, n) {
      var k := if n > |acts| then n else |acts|;
      StateAtLeads(s, acts, k);
      assert ticks(k) == Idle && states(k) == After(s, acts);
      assert !Productive(states(k), a);
    }
  }
}
