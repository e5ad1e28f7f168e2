/** Fair runs of the lock of src/fly_mrswlock.h: once nobody asks anew, everybody who asked gets in and out again. The
    loop in which a reader posts for the writers can go round for ever, and each round adds a token, so no count of steps
    bounds such a run; what ends it is that at every moment some thread is one whose own steps bring an entry or an exit
    nearer and whom nobody can push back. */
module MrswLockFair {
  import opened MrswLock

  // ----- how much is left -----

  function Weight(pc: Pc): nat {
    if pc.Idle? then 0 else if pc.Leave? then 1 else if pc.RIn? || pc.WIn? then 2 else 3
  }

  /** Entries, exits and last posts still to come. */
  function Left(pcs: seq<Pc>): nat {
    if pcs == [] then 0 else Left(pcs[..|pcs| - 1]) + Weight(pcs[|pcs| - 1])
  }

  lemma {:induction false} LeftUpdate(pcs: seq<Pc>, t: nat, pc: Pc)
    requires t < |pcs|
    ensures Left(pcs[t := pc]) == Left(pcs) - Weight(pcs[t]) + Weight(pc)
    decreases |pcs|
  {
    var n := |pcs| - 1;
    if t < n {
      LeftUpdate(pcs[..n], t, pc);
      assert pcs[t := pc][..n] == pcs[..n][t := pc];
    } else {
      assert pcs[t := pc][..n] == pcs[..n];
    }
  }

  lemma {:induction false} LeftZero(pcs: seq<Pc>)
    ensures Left(pcs) == 0 <==> forall t :: 0 <= t < |pcs| ==> pcs[t].Idle?
    decreases |pcs|
  {
    if pcs != [] {
      var n := |pcs| - 1;
      LeftZero(pcs[..n]);
      assert forall t :: 0 <= t < n ==> pcs[..n][t] == pcs[t];
    }
  }

  // ----- the thread that helps -----

  predicate Past(pc: Pc) {
    pc.RIn? || pc.WIn? || pc.Leave?
  }

  ghost predicate NobodyPast(s: System) {
    forall t :: 0 <= t < |s.pcs| ==> !Past(s.pcs[t])
  }

  ghost predicate NoWriters(s: System) {
    forall t :: 0 <= t < |s.pcs| ==> !s.pcs[t].WTry? && !s.pcs[t].WSleep?
  }

  /** Thread `t` is `far` of its own steps, or fewer, from one that lowers what is left. */
  ghost predicate Helps(s: System, t: nat, far: nat) {
    && t < |s.pcs|
    && match s.pcs[t]
       case RIn | WIn | Leave(_) => far == 0
       case WTry(_) => NobodyPast(s) && far == 0
       case WSleep => NobodyPast(s) && s.lock.wsem > 0 && far == 1
       case RPostW => NobodyPast(s) && far == 2
       case RTry(_, wakewriters) => NobodyPast(s) && NoWriters(s) && far == if wakewriters then 3 else 0
       case RSleep => NobodyPast(s) && NoWriters(s) && s.lock.rsem > 0 && far == 4
       case Idle => false
  }

  lemma FreeWhenNobodyPast(s: System)
    requires Exclusion(s) && NobodyPast(s)
    ensures s.lock.nbin == 0
  {
    CountPositive(s.pcs, ReaderIn);
    CountPositive(s.pcs, WriterIn);
  }

  lemma WaitersCounted(s: System)
    requires Exclusion(s)
    ensures s.lock.nbwwaiting > 0 <==> exists t :: 0 <= t < |s.pcs| && Plays(s.pcs[t], WriterWaits)
    ensures s.lock.nbrwaiting > 0 <==> exists t :: 0 <= t < |s.pcs| && Plays(s.pcs[t], ReaderWaits)
    ensures NoWriters(s) ==> s.lock.nbwwaiting == 0
  {
    CountPositive(s.pcs, WriterWaits);
    CountPositive(s.pcs, ReaderWaits);
  }

  /** While anything is left somebody helps. */
  lemma SomebodyHelps(s: System) returns (t: nat, far: nat)
    requires Exclusion(s) && NoLostWakeup(s) && Left(s.pcs) > 0
    ensures Helps(s, t, far)
  {
    LeftZero(s.pcs);
    WaitersCounted(s);
    var u :| 0 <= u < |s.pcs| && !s.pcs[u].Idle?;
    if v :| 0 <= v < |s.pcs| && Past(s.pcs[v]) {
      t, far := v, 0;
    } else {
      FreeWhenNobodyPast(s);
      if v :| 0 <= v < |s.pcs| && s.pcs[v].WTry? {
        t, far := v, 0;
      } else if v :| 0 <= v < |s.pcs| && s.pcs[v].RPostW? {
        t, far := v, 2;
      } else if v :| 0 <= v < |s.pcs| && s.pcs[v].WSleep? {
        assert Plays(s.pcs[v], WriterWaits);
        t, far := v, 1;
      } else if v :| 0 <= v < |s.pcs| && s.pcs[v].RTry? {
        t, far := v, if s.pcs[v].wakewriters then 3 else 0;
      } else {
        assert Plays(s.pcs[u], ReaderWaits);
        t, far := u, 4;
      }
    }
  }

  /** Less is left, or as much and thread `t` is nearer than `far`. */
  ghost predicate Nearer(s: System, s': System, far: nat, t: nat, near: nat) {
    Left(s'.pcs) < Left(s.pcs) || (Left(s'.pcs) == Left(s.pcs) && near < far && Helps(s', t, near))
  }

  lemma StepLeft(s: System, u: nat)
    requires Allowed(s, Go(u))
    ensures var s' := Next(s, Go(u));
            && |s'.pcs| == |s.pcs| && (forall v :: 0 <= v < |s.pcs| && v != u ==> s'.pcs[v] == s.pcs[v])
            && Left(s'.pcs) == Left(s.pcs) - Weight(s.pcs[u]) + Weight(s'.pcs[u]) <= Left(s.pcs)
            && (Past(s'.pcs[u]) ==> Left(s'.pcs) < Left(s.pcs))
  {
    LeftUpdate(s.pcs, u, Next(s, Go(u)).pcs[u]);
  }

  /** A step of the helping thread brings it, or the writer it woke, nearer. */
  lemma HelperSteps(s: System, t: nat, far: nat) returns (v: nat, near: nat)
    requires Exclusion(s) && Helps(s, t, far)
    ensures Allowed(s, Go(t)) && Nearer(s, Next(s, Go(t)), far, v, near)
  {
    var s' := Next(s, Go(t));
    StepLeft(s, t);
    WaitersCounted(s);
    v, near := t, 0;
    if !Past(s.pcs[t]) {
      FreeWhenNobodyPast(s);
      match s.pcs[t]
      case RPostW =>
        if w :| 0 <= w < |s.pcs| && s.pcs[w].WTry? {
          v := w;
        } else if w :| 0 <= w < |s.pcs| && s.pcs[w].WSleep? {
          v, near := w, 1;
        }
      case RTry(_, wakewriters) => near := if wakewriters then 2 else 0;
      case _ =>
    }
  }

  /** A step of another thread lowers what is left, wakes a nearer helper, or leaves the helper where it is. */
  lemma OtherSteps(s: System, t: nat, far: nat, u: nat) returns (near: nat)
    requires Exclusion(s) && Helps(s, t, far) && u != t && Allowed(s, Go(u))
    ensures var s' := Next(s, Go(u));
            Nearer(s, s', far, u, near) || (Left(s'.pcs) == Left(s.pcs) && Helps(s', t, far))
  {
    var s' := Next(s, Go(u));
    StepLeft(s, u);
    WaitersCounted(s);
    near := 0;
    if !Past(s.pcs[t]) {
      FreeWhenNobodyPast(s);
    }
  }

  // ----- runs -----

  /** One moment of an endless run: nothing happens, or a thread takes its next step. Nobody asks for the lock anew. */
  datatype Tick = Rest | Does(t: nat)

  ghost predicate Leads(s: System, x: Tick, s': System) {
    match x
    case Rest => s' == s
    case Does(t) => Allowed(s, Go(t)) && s' == Next(s, Go(t))
  }

  ghost predicate Endless(states: nat -> System, ticks: nat -> Tick) {
    Reachable(states(0))
    && forall i: nat {:trigger Leads(states(i), ticks(i), states(i + 1))} :: Leads(states(i), ticks(i), states(i + 1))
  }

  /** From `n` on the thread can always step, and never does. */
  ghost predicate Neglected(states: nat -> System, ticks: nat -> Tick, t: nat, n: nat) {
    forall k: nat {:trigger ticks(k)} :: k >= n ==> Allowed(states(k), Go(t)) && ticks(k) != Does(t)
  }

  /** Weak fairness. It makes holders leave: a thread inside can always step. */
  ghost predicate Fair(states: nat -> System, ticks: nat -> Tick) {
    forall t: nat, n: nat {:trigger Neglected(states, ticks, t, n)} :: !Neglected(states, ticks, t, n)
  }

  lemma {:induction false} EndlessOk(states: nat -> System, ticks: nat -> Tick, i: nat)
    requires Endless(states, ticks)
    ensures Exclusion(states(i)) && NoLostWakeup(states(i))
  {
    if i == 0 {
      ReachableOk(states(0));
    } else {
      var h: nat := i - 1;
      EndlessOk(states, ticks, h);
      assert Leads(states(h), ticks(h), states(h + 1));
      if ticks(h).Does? {
        ExclusionKept(states(h), Go(ticks(h).t));
        WakeupKept(states(h), Go(ticks(h).t));
      }
    }
  }

  ghost predicate Still(s: System, left: nat, t: nat, far: nat) {
    Left(s.pcs) == left && Helps(s, t, far)
  }

  /** Between a moment at which thread `t` helps and one at which it does not any more, something came nearer. */
  lemma {:induction false} HelpPasses(states: nat -> System, ticks: nat -> Tick, i: nat, k: nat, t: nat, far: nat)
    returns (m: nat, v: nat, near: nat)
    requires Endless(states, ticks) && i <= k && Still(states(i), Left(states(i).pcs), t, far)
    requires !Still(states(k), Left(states(i).pcs), t, far)
    ensures Nearer(states(i), states(m), far, v, near)
    decreases k - i
  {
    var h: nat := k - 1;
    if Still(states(h), Left(states(i).pcs), t, far) {
      EndlessOk(states, ticks, h);
      assert Leads(states(h), ticks(h), states(h + 1));
      m := h + 1;
      if ticks(h) == Does(t) {
        v, near := HelperSteps(states(h), t, far);
      } else {
        v := ticks(h).t;
        near := OtherSteps(states(h), t, far, v);
      }
    } else {
      m, v, near := HelpPasses(states, ticks, i, h, t, far);
    }
  }

  /** On a fair run what a helping thread is about to bring comes. */
  lemma HelpComes(states: nat -> System, ticks: nat -> Tick, i: nat, t: nat, far: nat)
    returns (m: nat, v: nat, near: nat)
    requires Endless(states, ticks) && Fair(states, ticks) && Helps(states(i), t, far)
    ensures Nearer(states(i), states(m), far, v, near)
  {
    var left := Left(states(i).pcs);
    if k: nat :| k >= i && !Still(states(k), left, t, far) {
      m, v, near := HelpPasses(states, ticks, i, k, t, far);
    } else if k: nat :| k >= i && ticks(k) == Does(t) {
      EndlessOk(states, ticks, k);
      assert Leads(states(k), ticks(k), states(k + 1)) && Still(states(k), left, t, far);
      m := k + 1;
      v, near := HelperSteps(states(k), t, far);
    } else {
      forall k: nat | k >= i ensures Allowed(states(k), Go(t)) && ticks(k) != Does(t) {
        EndlessOk(states, ticks, k);
        assert Still(states(k), left, t, far);
        var w, n := HelperSteps(states(k), t, far);
      }
      assert Neglected(states, ticks, t, i);
    }
  }

  lemma {:induction false} HelpersFinish(states: nat -> System, ticks: nat -> Tick, i: nat, left: nat, t: nat, far: nat)
    returns (n: nat)
    requires Endless(states, ticks) && Fair(states, ticks) && Left(states(i).pcs) == left && Helps(states(i), t, far)
    ensures Left(states(n).pcs) == 0
    decreases left, far
  {
    var m, v, near := HelpComes(states, ticks, i, t, far);
    if Left(states(m).pcs) == 0 {
      n := m;
    } else if Left(states(m).pcs) < left {
      EndlessOk(states, ticks, m);
      var w, k := SomebodyHelps(states(m));
      n := HelpersFinish(states, ticks, m, Left(states(m).pcs), w, k);
    } else {
      n := HelpersFinish(states, ticks, m, left, v, near);
    }
  }

  ghost predicate AllBack(s: System) {
    forall t :: 0 <= t < |s.pcs| ==> s.pcs[t].Idle?
  }

  lemma {:induction false} StayBack(states: nat -> System, ticks: nat -> Tick, n: nat, k: nat)
    requires Endless(states, ticks) && AllBack(states(n)) && n <= k
    ensures AllBack(states(k))
    decreases k - n
  {
    if n < k {
      var h: nat := k - 1;
      StayBack(states, ticks, n, h);
      assert Leads(states(h), ticks(h), states(h + 1));
    }
  }

  ghost predicate AllBackFrom(states: nat -> System, n: nat) {
    forall k: nat :: k >= n ==> AllBack(states(k))
  }

  /** The thread has asked and is not inside yet. */
  predicate Asking(pc: Pc) {
    pc.RTry? || pc.RPostW? || pc.RSleep? || pc.WTry? || pc.WSleep?
  }

  predicate AsWriter(pc: Pc) {
    pc.WTry? || pc.WSleep?
  }

  /** The thread is inside, as a writer or as a reader. */
  ghost predicate IsIn(s: System, t: nat, writer: bool) {
    t < |s.pcs| && if writer then s.pcs[t].WIn? else s.pcs[t].RIn?
  }

  /** The only way back from asking leads through the inside of the lock, in the role asked for. */
  lemma {:induction false} WasInside(states: nat -> System, ticks: nat -> Tick, t: nat, k: nat) returns (m: nat)
    requires Endless(states, ticks) && t < |states(0).pcs| && Asking(states(0).pcs[t])
    ensures |states(k).pcs| == |states(0).pcs|
    ensures || (Asking(states(k).pcs[t]) && AsWriter(states(k).pcs[t]) == AsWriter(states(0).pcs[t]))
            || IsIn(states(m), t, AsWriter(states(0).pcs[t]))
  {
    m := k;
    if k > 0 {
      var h: nat := k - 1;
      m := WasInside(states, ticks, t, h);
      assert Leads(states(h), ticks(h), states(h + 1));
      if Asking(states(h).pcs[t]) && AsWriter(states(h).pcs[t]) == AsWriter(states(0).pcs[t]) {
        m := k;
      }
    }
  }

  /** Nobody waits for ever: on every fair run on which nobody asks anew every thread that had asked for the lock, as a
      reader or as a writer, gets inside as what it asked for, and there is a point from which on all are out again. */
  lemma EverybodyGetsThrough(states: nat -> System, ticks: nat -> Tick)
    requires Endless(states, ticks) && Fair(states, ticks)
    ensures exists n: nat :: AllBackFrom(states, n)
    ensures forall t :: 0 <= t < |states(0).pcs| && Asking(states(0).pcs[t]) ==>
              exists m: nat :: IsIn(states(m), t, AsWriter(states(0).pcs[t]))
  {
    var n: nat := 0;
    if Left(states(0).pcs) > 0 {
      EndlessOk(states, ticks, 0);
      var t, far := SomebodyHelps(states(0));
      n := HelpersFinish(states, ticks, 0, Left(states(0).pcs), t, far);
    }
    LeftZero(states(n).pcs);
    forall k: nat | k >= n ensures AllBack(states(k)) {
      StayBack(states, ticks, n, k);
    }
    assert AllBackFrom(states, n);
    forall t | 0 <= t < |states(0).pcs| && Asking(states(0).pcs[t])
      ensures exists m: nat :: IsIn(states(m), t, AsWriter(states(0).pcs[t]))
    {
      var m := WasInside(states, ticks, t, n);
      assert AllBack(states(n));
    }
  }

  /** Who asks for the lock gets it on every fair run from there, to read or to write as it asked. */
  lemma AskedIsServed(s: System, a: Act, states: nat -> System, ticks: nat -> Tick)
    requires Allowed(s, a) && !a.Go? && states(0) == Next(s, a) && Endless(states, ticks) && Fair(states, ticks)
    ensures exists m: nat :: IsIn(states(m), a.t, a.AskWrite?)
  {
    EverybodyGetsThrough(states, ticks);
    assert Asking(states(0).pcs[a.t]) && AsWriter(states(0).pcs[a.t]) == a.AskWrite?;
  }

  // ----- there are such runs -----

  /** Steps that bring everybody through. */
  lemma {:induction false} CanFinish(s: System, t: nat, far: nat) returns (order: seq<nat>)
    requires Exclusion(s) && NoLostWakeup(s) && Helps(s, t, far)
    ensures InOrder(s, order) && AllBack(StateAt(s, order, |order|))
    decreases Left(s.pcs), far
  {
    var v, near := HelperSteps(s, t, far);
    var s' := Next(s, Go(t));
    ExclusionKept(s, Go(t));
    WakeupKept(s, Go(t));
    var rest: seq<nat> := [];
    LeftZero(s'.pcs);
    if Left(s'.pcs) == Left(s.pcs) {
      rest := CanFinish(s', v, near);
    } else if Left(s'.pcs) > 0 {
      var w, k := SomebodyHelps(s');
      rest := CanFinish(s', w, k);
    }
    order := [t] + rest;
    assert order[1..] == rest;
  }

  predicate InOrder(s: System, order: seq<nat>)
    decreases |order|
  {
    order == [] || (Allowed(s, Go(order[0])) && InOrder(Next(s, Go(order[0])), order[1..]))
  }

  function StateAt(s: System, order: seq<nat>, k: nat): System
    requires InOrder(s, order)
    decreases |order|
  {
    if k == 0 || order == [] then s else StateAt(Next(s, Go(order[0])), order[1..], k - 1)
  }

  function TickAt(order: seq<nat>, k: nat): Tick {
    if k < |order| then Does(order[k]) else Rest
  }

  lemma {:induction false} StateAtLeads(s: System, order: seq<nat>, k: nat)
    requires InOrder(s, order)
    ensures Leads(StateAt(s, order, k), TickAt(order, k), StateAt(s, order, k + 1))
    ensures k >= |order| ==> StateAt(s, order, k) == StateAt(s, order, |order|)
    decreases |order|
  {
    if order != [] && k > 0 {
      StateAtLeads(Next(s, Go(order[0])), order[1..], k - 1);
      assert k < |order| ==> order[1..][k - 1] == order[k];
    } else if order != [] {
      assert StateAt(Next(s, Go(order[0])), order[1..], 0) == Next(s, Go(order[0]));
    }
  }

  /** From every reachable state a fair run starts. */
  lemma FairRunExists(s: System) returns (states: nat -> System, ticks: nat -> Tick)
    requires Reachable(s)
    ensures states(0) == s && Endless(states, ticks) && Fair(states, ticks)
  {
    ReachableOk(s);
    LeftZero(s.pcs);
    var order: seq<nat> := [];
    if Left(s.pcs) > 0 {
      var t, far := SomebodyHelps(s);
      order := CanFinish(s, t, far);
    }
    states := (k: nat) => StateAt(s, order, k);
    ticks := (k: nat) => TickAt(order, k);
    forall i: nat ensures Leads(states(i), ticks(i), states(i + 1)) {
      StateAtLeads(s, order, i);
    }
    forall t: nat, n: nat ensures !Neglected(states, ticks, t, n) {
      var k := if n > |order| then n else |order|;
      StateAtLeads(s, order, k);
      assert ticks(k) == Rest && AllBack(states(k));
      assert !Allowed(states(k), Go(t));
    }
  }
}
