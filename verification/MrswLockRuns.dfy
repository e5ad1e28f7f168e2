/** What the lock of src/fly_mrswlock.h promises over runs: it is never stuck, from a free lock a few steps of the threads
    there let a waiting thread in, and waiting writers go before readers. */
module MrswLockRuns {
  import opened MrswLock

  predicate Inside(pc: Pc) {
    pc.RIn? || pc.WIn?
  }

  predicate Waits(pc: Pc) {
    Plays(pc, ReaderWaits) || Plays(pc, WriterWaits)
  }

  /** If any thread is neither outside nor inside, some thread that is not outside can step. */
  lemma NoDeadlock(s: System, t: nat)
    requires Reachable(s) && t < |s.pcs| && !s.pcs[t].Idle?
    ensures exists u :: 0 <= u < |s.pcs| && !s.pcs[u].Idle? && CanGo(s.lock, s.pcs[u])
  {
    ReachableOk(s);
    CountPositive(s.pcs, ReaderIn);
    CountPositive(s.pcs, WriterIn);
    CountPositive(s.pcs, ReaderWaits);
    CountPositive(s.pcs, WriterWaits);
    if !CanGo(s.lock, s.pcs[t]) {
      assert Plays(s.pcs[t], ReaderWaits) || Plays(s.pcs[t], WriterWaits);
    }
  }

  // ----- a free lock lets a waiting thread in -----

  /** Thread `t`, which waits, gets inside when `acts` are performed. */
  ghost predicate LetsIn(s: System, acts: seq<Act>, t: nat) {
    && t < |s.pcs| && Waits(s.pcs[t])
    && Runs(s, acts) && t < |After(s, acts).pcs| && Inside(After(s, acts).pcs[t])
  }

  lemma OneStep(s: System, t: nat)
    requires Allowed(s, Go(t))
    ensures Runs(s, [Go(t)]) && After(s, [Go(t)]) == Next(s, Go(t))
  {
    var s1 := Next(s, Go(t));
    assert Runs(s1, []) && After(s1, []) == s1;
    assert [Go(t)][1..] == [];
  }

  lemma FirstStep(s: System, u: nat, rest: seq<Act>, t: nat)
    requires Allowed(s, Go(u)) && LetsIn(Next(s, Go(u)), rest, t)
    requires t < |s.pcs| && Waits(s.pcs[t])
    ensures LetsIn(s, [Go(u)] + rest, t)
  {
    assert ([Go(u)] + rest)[1..] == rest;
  }

  /** A waiting writer that is awake enters a free lock at once; an asleep one with a token needs one step more. */
  lemma WriterEntersFree(s: System, t: nat) returns (acts: seq<Act>)
    requires s.lock.nbin == 0 && t < |s.pcs| && Plays(s.pcs[t], WriterWaits)
    requires s.pcs[t].WSleep? ==> s.lock.wsem > 0
    ensures |acts| <= 2 && LetsIn(s, acts, t)
  {
    if s.pcs[t].WSleep? {
      var s1 := Next(s, Go(t));
      OneStep(s1, t);
      FirstStep(s, t, [Go(t)], t);
      acts := [Go(t)] + [Go(t)];
    } else {
      OneStep(s, t);
      acts := [Go(t)];
    }
  }

  /** With a free lock and waiting writers, at most three steps of the threads there are let a waiting writer in. */
  lemma WaitingWriterGetsIn(s: System) returns (acts: seq<Act>, t: nat)
    requires Reachable(s) && s.lock.nbin == 0 && s.lock.nbwwaiting > 0
    ensures |acts| <= 3 && LetsIn(s, acts, t) && Plays(s.pcs[t], WriterWaits)
  {
    ReachableOk(s);
    CountPositive(s.pcs, WriterWaits);
    t :| 0 <= t < |s.pcs| && Plays(s.pcs[t], WriterWaits);
    if s.lock.wsem > 0 || s.pcs[t].WTry? {
      acts := WriterEntersFree(s, t);
    } else {
      var u :| 0 <= u < |s.pcs| && HelpsWriter(s.pcs[u]);
      if s.pcs[u].WTry? {
        t := u;
        acts := WriterEntersFree(s, u);
      } else {
        var s1 := Next(s, Go(u));
        var rest := WriterEntersFree(s1, t);
        FirstStep(s, u, rest, t);
        acts := [Go(u)] + rest;
      }
    }
  }

  /** A waiting reader and a free lock without waiting writers: from wherever it is it enters by its own steps. */
  lemma ReaderEntersFree(s: System, t: nat) returns (acts: seq<Act>)
    requires s.lock.nbin == 0 && s.lock.maxin > 0 && s.lock.nbwwaiting == 0
    requires t < |s.pcs| && Plays(s.pcs[t], ReaderWaits)
    requires s.pcs[t].RSleep? ==> s.lock.rsem > 0
    ensures LetsIn(s, acts, t)
    ensures |acts| <= if s.pcs[t] == RTry(true, false) then 1 else if s.pcs[t].RTry? then 3 else 2
    decreases if s.pcs[t] == RTry(true, false) then 0 else if s.pcs[t].RTry? then 2 else 1
  {
    if s.pcs[t] == RTry(true, false) {
      OneStep(s, t);
      acts := [Go(t)];
    } else {
      var s1 := Next(s, Go(t));
      var rest := ReaderEntersFree(s1, t);
      FirstStep(s, t, rest, t);
      acts := [Go(t)] + rest;
    }
  }

  /** With a free lock, waiting readers and no waiting writer, at most three steps let a waiting reader in. */
  lemma WaitingReaderGetsIn(s: System) returns (acts: seq<Act>, t: nat)
    requires Reachable(s) && s.lock.nbin == 0 && s.lock.nbwwaiting == 0 && s.lock.nbrwaiting > 0
    ensures |acts| <= 3 && LetsIn(s, acts, t) && Plays(s.pcs[t], ReaderWaits)
  {
    ReachableOk(s);
    CountPositive(s.pcs, ReaderWaits);
    t :| 0 <= t < |s.pcs| && Plays(s.pcs[t], ReaderWaits);
    if s.lock.rsem > 0 || !s.pcs[t].RSleep? {
      acts := ReaderEntersFree(s, t);
    } else {
      var u :| 0 <= u < |s.pcs| && HelpsReader(s.pcs[u]);
      if Plays(s.pcs[u], ReaderWaits) {
        t := u;
        acts := ReaderEntersFree(s, u);
      } else {
        var s1 := Next(s, Go(u));
        var rest := ReaderEntersFree(s1, t);
        FirstStep(s, u, rest, t);
        acts := [Go(u)] + rest;
      }
    }
  }

  // ----- writers first -----

  predicate Enters(s: System, a: Act)
    requires Allowed(s, a)
  {
    !Inside(s.pcs[a.t]) && Inside(Next(s, a).pcs[a.t])
  }

  predicate Exits(s: System, a: Act)
    requires Allowed(s, a)
  {
    Inside(s.pcs[a.t]) && !Inside(Next(s, a).pcs[a.t])
  }

  function ExitCount(s: System, acts: seq<Act>): nat
    requires Runs(s, acts)
    decreases |acts|
  {
    if acts == [] then 0
    else (if Exits(s, acts[0]) then 1 else 0) + ExitCount(Next(s, acts[0]), acts[1..])
  }

  /** No thread enters during the run. */
  predicate NobodyEnters(s: System, acts: seq<Act>)
    requires Runs(s, acts)
    decreases |acts|
  {
    acts == [] || (!Enters(s, acts[0]) && NobodyEnters(Next(s, acts[0]), acts[1..]))
  }

  function Holders(s: System): nat {
    Count(s.pcs, ReaderIn) + Count(s.pcs, WriterIn)
  }

  /** One step without an entry: a counted writer stays counted, and every exit leaves one holder less. */
  lemma StepBeforeEntry(s: System, a: Act)
    requires Exclusion(s) && s.lock.nbwwaiting > 0 && Allowed(s, a) && !Enters(s, a)
    ensures Next(s, a).lock.nbwwaiting > 0
    ensures Holders(Next(s, a)) + (if Exits(s, a) then 1 else 0) == Holders(s)
  {
    CountsChange(s.pcs, a.t, Next(s, a).pcs[a.t]);
  }

  lemma {:induction false} HoldersLeave(s: System, acts: seq<Act>)
    requires Exclusion(s) && s.lock.nbwwaiting > 0 && Runs(s, acts) && NobodyEnters(s, acts)
    ensures Exclusion(After(s, acts)) && After(s, acts).lock.nbwwaiting > 0
    ensures ExitCount(s, acts) + Holders(After(s, acts)) == Holders(s)
    decreases |acts|
  {
    if acts != [] {
      StepBeforeEntry(s, acts[0]);
      ExclusionKept(s, acts[0]);
      HoldersLeave(Next(s, acts[0]), acts[1..]);
    }
  }

  /** Writer preference: from a state with a counted writer the next thread to enter is a writer, and at most maxin
      threads leave before it does. */
  lemma WriterPreference(s: System, acts: seq<Act>, a: Act)
    requires Reachable(s) && s.lock.nbwwaiting > 0
    requires Runs(s, acts) && NobodyEnters(s, acts)
    requires Allowed(After(s, acts), a) && Enters(After(s, acts), a)
    ensures Next(After(s, acts), a).pcs[a.t].WIn?
    ensures ExitCount(s, acts) == Holders(s) <= s.lock.maxin
  {
    ReachableOk(s);
    HoldersLeave(s, acts);
    var s' := After(s, acts);
    CountsChange(s'.pcs, a.t, Next(s', a).pcs[a.t]);
  }

  // ----- who gets in, and who is woken -----

  /** A reader gets in exactly when it is not on its way to wake the writers, no writer is inside or waits, and fewer than
      maxin readers are inside: other readers do not keep it out. */
  lemma ReaderEntersIff(s: System, t: nat)
    requires Reachable(s) && t < |s.pcs| && s.pcs[t].RTry?
    ensures Next(s, Go(t)).pcs[t].RIn?
            <==> !s.pcs[t].wakewriters && Count(s.pcs, WriterIn) == 0 && Count(s.pcs, WriterWaits) == 0
                 && Count(s.pcs, ReaderIn) < s.lock.maxin
  {
    ReachableOk(s);
  }

  /** It goes to sleep exactly when there is no room: a writer is inside, or maxin readers are. */
  lemma ReaderSleepsIff(s: System, t: nat)
    requires Reachable(s) && t < |s.pcs| && s.pcs[t].RTry?
    ensures Next(s, Go(t)).pcs[t].RSleep?
            <==> !s.pcs[t].wakewriters && (Count(s.pcs, WriterIn) > 0 || Count(s.pcs, ReaderIn) == s.lock.maxin)
  {
    ReachableOk(s);
  }

  /** A reader that only waiting writers keep out posts once for the writers, is counted as waiting, and tries again. */
  lemma ReaderWakesWriters(s: System, t: nat)
    requires Reachable(s) && t < |s.pcs| && s.pcs[t] == RTry(false, false)
    requires Count(s.pcs, WriterWaits) > 0 && Count(s.pcs, WriterIn) == 0 && Count(s.pcs, ReaderIn) < s.lock.maxin
    ensures var acts := [Go(t), Go(t), Go(t)];
            && Runs(s, acts)
            && var s' := After(s, acts);
               && s'.pcs == s.pcs[t := RTry(true, false)] && s'.lock.wsem == s.lock.wsem + 1
               && s'.lock.nbrwaiting == s.lock.nbrwaiting + 1 && s'.lock.nbin == s.lock.nbin
  {
    ReachableOk(s);
    var s1 := Next(s, Go(t));
    var s2 := Next(s1, Go(t));
    assert [Go(t), Go(t), Go(t)][1..] == [Go(t), Go(t)] && [Go(t), Go(t)][1..] == [Go(t)];
    OneStep(s2, t);
    assert Runs(s1, [Go(t), Go(t)]) && After(s1, [Go(t), Go(t)]) == Next(s2, Go(t));
  }

  /** A writer gets in exactly when nobody is inside, and otherwise goes to sleep. */
  lemma WriterEntersIff(s: System, t: nat)
    requires Reachable(s) && t < |s.pcs| && s.pcs[t].WTry?
    ensures Next(s, Go(t)).pcs[t].WIn? <==> Count(s.pcs, WriterIn) == 0 && Count(s.pcs, ReaderIn) == 0
    ensures Next(s, Go(t)).pcs[t].WIn? || Next(s, Go(t)).pcs[t].WSleep?
  {
    ReachableOk(s);
  }

  /** Whoever leaves, and whoever is still inside, a waiting writer makes the thread post for the writers, and without one
      a waiting reader makes it post for the readers. */
  lemma ExitWakes(s: System, t: nat)
    requires Reachable(s) && t < |s.pcs| && Inside(s.pcs[t])
    ensures var s' := Next(s, Go(t));
            && s'.pcs[t].Leave?
            && (s'.pcs[t].post == PostW <==> Count(s.pcs, WriterWaits) > 0)
            && (s'.pcs[t].post == PostR <==> Count(s.pcs, WriterWaits) == 0 && Count(s.pcs, ReaderWaits) > 0)
  {
    ReachableOk(s);
  }

  // ----- tokens -----

  /** Steps that post a semaphore, and that take a token from it. */
  predicate Posts(s: System, a: Act, writers: bool)
    requires Allowed(s, a)
  {
    a.Go? && if writers then s.pcs[a.t].RPostW? || s.pcs[a.t] == Leave(PostW) else s.pcs[a.t] == Leave(PostR)
  }

  predicate Takes(s: System, a: Act, writers: bool)
    requires Allowed(s, a)
  {
    a.Go? && if writers then s.pcs[a.t].WSleep? else s.pcs[a.t].RSleep?
  }

  function Balance(s: System, acts: seq<Act>, writers: bool): int
    requires Runs(s, acts)
    decreases |acts|
  {
    if acts == [] then 0
    else (if Posts(s, acts[0], writers) then 1 else 0) - (if Takes(s, acts[0], writers) then 1 else 0)
         + Balance(Next(s, acts[0]), acts[1..], writers)
  }

  function Tokens(s: System, writers: bool): int {
    if writers then s.lock.wsem else s.lock.rsem
  }

  lemma {:induction false} TokensBalance(s: System, acts: seq<Act>, writers: bool)
    requires Runs(s, acts)
    ensures Tokens(After(s, acts), writers) == Tokens(s, writers) + Balance(s, acts, writers)
    decreases |acts|
  {
    if acts != [] {
      TokensBalance(Next(s, acts[0]), acts[1..], writers);
    }
  }

  /** Each semaphore holds exactly the posts made to it less the waits that passed, on every run. */
  lemma TokensArePosts(maxin: int, n: nat, acts: seq<Act>, writers: bool)
    requires Runs(Start(maxin, n), acts)
    ensures Tokens(After(Start(maxin, n), acts), writers) == Balance(Start(maxin, n), acts, writers)
  {
    TokensBalance(Start(maxin, n), acts, writers);
  }

  // ----- sharing -----

  lemma {:induction false} RunsOn(s: System, acts: seq<Act>, a: Act)
    requires Runs(s, acts) && Allowed(After(s, acts), a)
    ensures Runs(s, acts + [a]) && After(s, acts + [a]) == Next(After(s, acts), a)
    decreases |acts|
  {
    if acts == [] {
      assert acts + [a] == [a] && [a][1..] == [];
      assert Runs(Next(s, a), []);
    } else {
      RunsOn(Next(s, acts[0]), acts[1..], a);
      assert (acts + [a])[1..] == acts[1..] + [a];
    }
  }

  /** A step changes neither how many readers may be inside nor how many threads there are. */
  lemma SameSize(s: System, a: Act)
    requires Allowed(s, a)
    ensures Next(s, a).lock.maxin == s.lock.maxin && |Next(s, a).pcs| == |s.pcs|
  {
  }

  lemma ReachableNext(s: System, a: Act)
    requires Reachable(s) && Allowed(s, a)
    ensures Reachable(Next(s, a))
  {
    var m, n := s.lock.maxin, |s.pcs|;
    var acts :| Runs(Start(m, n), acts) && After(Start(m, n), acts) == s;
    RunsOn(Start(m, n), acts, a);
    SameSize(s, a);
  }

  /** `k` readers inside, nobody else about. */
  function Sharing(maxin: nat, k: nat): System
    requires k <= maxin
  {
    System(Lock(maxin, k, 0, 0, 0, 0), seq(maxin, t => if t < k then RIn else Idle))
  }

  /** Up to maxin readers are inside at the same time: for every maxin and every smaller number there is such a state. */
  lemma {:induction false} ReadersShare(maxin: nat, k: nat)
    requires 0 < maxin && k <= maxin
    ensures Reachable(Sharing(maxin, k))
  {
    if k == 0 {
      assert Start(maxin, maxin) == Sharing(maxin, 0);
      assert Runs(Start(maxin, maxin), []) && After(Start(maxin, maxin), []) == Start(maxin, maxin);
    } else {
      ReadersShare(maxin, k - 1);
      var s := Sharing(maxin, k - 1);
      var s1 := Next(s, AskRead(k - 1));
      ReachableNext(s, AskRead(k - 1));
      ReachableNext(s1, Go(k - 1));
      assert Next(s1, Go(k - 1)).pcs == Sharing(maxin, k).pcs;
      assert Next(s1, Go(k - 1)) == Sharing(maxin, k);
    }
  }

  lemma {:induction false} SharingCount(maxin: nat, k: nat, n: nat)
    requires k <= maxin && n <= maxin
    ensures Count(Sharing(maxin, k).pcs[..n], ReaderIn) == if n < k then n else k
    decreases n
  {
    if n > 0 {
      SharingCount(maxin, k, n - 1);
      assert Sharing(maxin, k).pcs[..n][..n - 1] == Sharing(maxin, k).pcs[..n - 1];
    }
  }

  /** For every maxin a state with maxin readers inside is reachable. */
  lemma MaxinReadersInside(maxin: nat)
    requires 0 < maxin
    ensures exists s :: Reachable(s) && s.lock.maxin == maxin && Count(s.pcs, ReaderIn) == maxin
  {
    var s := Sharing(maxin, maxin);
    ReadersShare(maxin, maxin);
    SharingCount(maxin, maxin, maxin);
    assert s.pcs[..maxin] == s.pcs;
  }
}
