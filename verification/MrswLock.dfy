/** The multiple-reader single-writer lock of src/fly_mrswlock.h: its critical sections as methods on the lock object,
    and the lock under any number of threads as a transition system built from the same sections. */
module MrswLock {

  /** The semaphore post a thread still has to make after its unlock section. */
  datatype Post = NoPost | PostR | PostW

  /** Where a thread is: outside, before a section of rlock or wlock (with its local flags), before the post a reader
      makes for the writers, asleep on a semaphore, inside, or before the post that ends an unlock. */
  datatype Pc =
    | Idle
    | RTry(waiting: bool, wakewriters: bool)
    | RPostW
    | RSleep
    | RIn
    | WTry(waiting: bool)
    | WSleep
    | WIn
    | Leave(post: Post)

  datatype Lock = Lock(maxin: int, nbin: int, nbrwaiting: int, nbwwaiting: int, rsem: nat, wsem: nat)

  function NewLock(maxin: int): Lock {
    Lock(maxin, 0, 0, 0, 0, 0)
  }

  /** One pass of the loop in rlock, up to the release of plock. */
  function ReadSection(l: Lock, waiting: bool, wakewriters: bool): (Lock, Pc) {
    if l.nbin < l.maxin && !wakewriters then
      if l.nbwwaiting == 0 then
        (l.(nbin := l.nbin + 1, nbrwaiting := if waiting then l.nbrwaiting - 1 else l.nbrwaiting), RIn)
      else (l, RTry(waiting, true))
    else
      (l.(nbrwaiting := if waiting then l.nbrwaiting else l.nbrwaiting + 1), if wakewriters then RPostW else RSleep)
  }

  /** One pass of the loop in wlock, up to the release of plock. */
  function WriteSection(l: Lock, waiting: bool): (Lock, Pc) {
    if l.nbin == 0 then
      (l.(nbin := l.maxin, nbwwaiting := if waiting then l.nbwwaiting - 1 else l.nbwwaiting), WIn)
    else
      (l.(nbwwaiting := if waiting then l.nbwwaiting else l.nbwwaiting + 1), WSleep)
  }

  /** Whom an unlock wakes, from the counters it read inside the section. */
  function WhomToWake(l: Lock): Post {
    if l.nbwwaiting > 0 then PostW else if l.nbrwaiting > 0 then PostR else NoPost
  }

  function AfterPost(l: Lock, p: Post): Lock {
    match p case NoPost => l case PostR => l.(rsem := l.rsem + 1) case PostW => l.(wsem := l.wsem + 1)
  }

  /** struct fly_mrswlock; each method is one section under plock, as the source has it. Nothing else uses the class: its
      contracts are the link between those sections and the steps of the transition system below, about which the
      theorems are. */
  class FlyMrswLock {
    var nbin: int
    var nbrwaiting: int
    var nbwwaiting: int
    var maxin: int
    var rsem: nat
    var wsem: nat

    function Value(): Lock
      reads this
    {
      Lock(maxin, nbin, nbrwaiting, nbwwaiting, rsem, wsem)
    }

    constructor (maxin: int)
      ensures Value() == NewLock(maxin)
    {
      this.maxin := maxin;
      nbin, nbrwaiting, nbwwaiting, rsem, wsem := 0, 0, 0, 0, 0;
    }

    method RlockSection(waiting: bool, wakewriters: bool) returns (next: Pc)
      modifies this
      ensures (Value(), next) == ReadSection(old(Value()), waiting, wakewriters)
    {
      if nbin < maxin && !wakewriters {
        if nbwwaiting == 0 {
          nbin := nbin + 1;
          if waiting {
            nbrwaiting := nbrwaiting - 1;
          }
          next := RIn;
        } else {
          next := RTry(waiting, true);
        }
      } else {
        if !waiting {
          nbrwaiting := nbrwaiting + 1;
        }
        next := if wakewriters then RPostW else RSleep;
      }
    }

    method WlockSection(waiting: bool) returns (next: Pc)
      modifies this
      ensures (Value(), next) == WriteSection(old(Value()), waiting)
    {
      if nbin == 0 {
        nbin := maxin;
        if waiting {
          nbwwaiting := nbwwaiting - 1;
        }
        next := WIn;
      } else {
        if !waiting {
          nbwwaiting := nbwwaiting + 1;
        }
        next := WSleep;
      }
    }

    method RunlockSection() returns (next: Pc)
      modifies this
      ensures var l := old(Value()).(nbin := old(nbin) - 1); Value() == l && next == Leave(WhomToWake(l))
    {
      nbin := nbin - 1;
      var r, w := nbrwaiting, nbwwaiting;
      next := Leave(if w > 0 then PostW else if r > 0 then PostR else NoPost);
    }

    method WunlockSection() returns (next: Pc)
      modifies this
      ensures var l := old(Value()).(nbin := 0); Value() == l && next == Leave(WhomToWake(l))
    {
      nbin := 0;
      var r, w := nbrwaiting, nbwwaiting;
      next := Leave(if w > 0 then PostW else if r > 0 then PostR else NoPost);
    }
  }

  // ----- any number of threads -----

  datatype System = System(lock: Lock, pcs: seq<Pc>)

  /** An idle thread asks for the lock, or a thread takes its next step; a thread inside steps by unlocking. */
  datatype Act = AskRead(t: nat) | AskWrite(t: nat) | Go(t: nat)

  function Start(maxin: int, n: nat): System {
    System(NewLock(maxin), seq(n, _ => Idle))
  }

  predicate Allowed(s: System, a: Act) {
    && a.t < |s.pcs|
    && match a
       case AskRead(t) => s.pcs[t].Idle?
       case AskWrite(t) => s.pcs[t].Idle?
       case Go(t) => CanGo(s.lock, s.pcs[t])
  }

  predicate CanGo(l: Lock, pc: Pc) {
    match pc
    case Idle => false
    case RSleep => l.rsem > 0
    case WSleep => l.wsem > 0
    case _ => true
  }

  function Advance(l: Lock, pc: Pc): (Lock, Pc)
    requires CanGo(l, pc)
  {
    match pc
    case RTry(waiting, wakewriters) => ReadSection(l, waiting, wakewriters)
    case RPostW => (l.(wsem := l.wsem + 1), RTry(true, false))
    case RSleep => (l.(rsem := l.rsem - 1), RTry(true, false))
    case RIn => var m := l.(nbin := l.nbin - 1); (m, Leave(WhomToWake(m)))
    case WTry(waiting) => WriteSection(l, waiting)
    case WSleep => (l.(wsem := l.wsem - 1), WTry(true))
    case WIn => var m := l.(nbin := 0); (m, Leave(WhomToWake(m)))
    case Leave(p) => (AfterPost(l, p), Idle)
  }

  function Next(s: System, a: Act): System
    requires Allowed(s, a)
  {
    match a
    case AskRead(t) => s.(pcs := s.pcs[t := RTry(false, false)])
    case AskWrite(t) => s.(pcs := s.pcs[t := WTry(false)])
    case Go(t) => var (l, pc) := Advance(s.lock, s.pcs[t]); System(l, s.pcs[t := pc])
  }

  predicate Runs(s: System, acts: seq<Act>)
    decreases |acts|
  {
    acts == [] || (Allowed(s, acts[0]) && Runs(Next(s, acts[0]), acts[1..]))
  }

  function After(s: System, acts: seq<Act>): System
    requires Runs(s, acts)
    decreases |acts|
  {
    if acts == [] then s else After(Next(s, acts[0]), acts[1..])
  }

  // ----- the invariant -----

  datatype Role = ReaderIn | WriterIn | ReaderWaits | WriterWaits

  predicate Plays(pc: Pc, r: Role) {
    match r
    case ReaderIn => pc.RIn?
    case WriterIn => pc.WIn?
    case ReaderWaits => pc.RSleep? || pc.RPostW? || (pc.RTry? && pc.waiting)
    case WriterWaits => pc.WSleep? || (pc.WTry? && pc.waiting)
  }

  function Count(pcs: seq<Pc>, r: Role): nat {
    if pcs == [] then 0 else Count(pcs[..|pcs| - 1], r) + if Plays(pcs[|pcs| - 1], r) then 1 else 0
  }

  lemma {:induction false} CountUpdate(pcs: seq<Pc>, t: nat, pc: Pc, r: Role)
    requires t < |pcs|
    ensures Count(pcs[t := pc], r)
            == Count(pcs, r) - (if Plays(pcs[t], r) then 1 else 0) + (if Plays(pc, r) then 1 else 0)
    decreases |pcs|
  {
    var n := |pcs| - 1;
    if t < n {
      CountUpdate(pcs[..n], t, pc, r);
      assert pcs[t := pc][..n] == pcs[..n][t := pc];
    } else {
      assert pcs[t := pc][..n] == pcs[..n];
    }
  }

  lemma {:induction false} CountPositive(pcs: seq<Pc>, r: Role)
    ensures Count(pcs, r) > 0 <==> exists t :: 0 <= t < |pcs| && Plays(pcs[t], r)
    decreases |pcs|
  {
    if pcs != [] {
      var n := |pcs| - 1;
      CountPositive(pcs[..n], r);
      if t :| 0 <= t < |pcs| && Plays(pcs[t], r) {
        assert t < n ==> Plays(pcs[..n][t], r);
      }
      if t :| 0 <= t < |pcs[..n]| && Plays(pcs[..n][t], r) {
        assert Plays(pcs[t], r);
      }
    }
  }

  /** Mutual exclusion and honest counters: one writer and nobody else, or at most maxin readers, all counted. */
  predicate Exclusion(s: System) {
    && s.lock.maxin > 0
    && s.lock.nbrwaiting == Count(s.pcs, ReaderWaits)
    && s.lock.nbwwaiting == Count(s.pcs, WriterWaits)
    && (|| (Count(s.pcs, WriterIn) == 1 && Count(s.pcs, ReaderIn) == 0 && s.lock.nbin == s.lock.maxin)
        || (Count(s.pcs, WriterIn) == 0 && s.lock.nbin == Count(s.pcs, ReaderIn) <= s.lock.maxin))
  }

  /** The thread wakes a writer, or is a writer that was woken. */
  predicate HelpsWriter(pc: Pc) {
    pc == Leave(PostW) || pc.RPostW? || (pc.WTry? && pc.waiting)
  }

  predicate HelpsReader(pc: Pc) {
    pc == Leave(PostR) || pc.RPostW? || (pc.RTry? && pc.waiting)
  }

  /** While nobody is inside, a waiting writer, or else a waiting reader, has a token, a pending post, or is awake. */
  ghost predicate NoLostWakeup(s: System) {
    && (s.lock.nbin == 0 && s.lock.nbwwaiting > 0 ==>
          s.lock.wsem > 0 || exists t :: 0 <= t < |s.pcs| && HelpsWriter(s.pcs[t]))
    && (s.lock.nbin == 0 && s.lock.nbwwaiting == 0 && s.lock.nbrwaiting > 0 ==>
          s.lock.rsem > 0 || exists t :: 0 <= t < |s.pcs| && HelpsReader(s.pcs[t]))
  }

  lemma {:induction false} StartCounts(n: nat, r: Role)
    ensures Count(seq(n, _ => Idle), r) == 0
    decreases n
  {
    if n > 0 {
      StartCounts(n - 1, r);
      assert seq(n, _ => Idle)[..n - 1] == seq(n - 1, _ => Idle);
    }
  }

  lemma StartOk(maxin: int, n: nat)
    requires maxin > 0
    ensures Exclusion(Start(maxin, n)) && NoLostWakeup(Start(maxin, n))
  {
    StartCounts(n, ReaderIn);
    StartCounts(n, WriterIn);
    StartCounts(n, ReaderWaits);
    StartCounts(n, WriterWaits);
  }

  lemma CountsChange(pcs: seq<Pc>, t: nat, pc: Pc)
    requires t < |pcs|
    ensures forall r :: Count(pcs[t := pc], r)
                        == Count(pcs, r) - (if Plays(pcs[t], r) then 1 else 0) + (if Plays(pc, r) then 1 else 0)
    ensures forall r :: Plays(pcs[t], r) ==> Count(pcs, r) > 0
  {
    forall r
      ensures Count(pcs[t := pc], r)
              == Count(pcs, r) - (if Plays(pcs[t], r) then 1 else 0) + (if Plays(pc, r) then 1 else 0)
      ensures Plays(pcs[t], r) ==> Count(pcs, r) > 0
    {
      CountUpdate(pcs, t, pc, r);
      CountPositive(pcs, r);
    }
  }

  lemma ExclusionKept(s: System, a: Act)
    requires Exclusion(s) && Allowed(s, a)
    ensures Exclusion(Next(s, a))
  {
    var s' := Next(s, a);
    CountsChange(s.pcs, a.t, s'.pcs[a.t]);
  }

  lemma WakeupKept(s: System, a: Act)
    requires Exclusion(s) && NoLostWakeup(s) && Allowed(s, a)
    ensures NoLostWakeup(Next(s, a))
  {
    var s' := Next(s, a);
    CountsChange(s.pcs, a.t, s'.pcs[a.t]);
    assert forall u :: 0 <= u < |s.pcs| && u != a.t ==> s'.pcs[u] == s.pcs[u];
    assert s'.pcs[a.t] == s'.pcs[a.t];
  }

  /** Some run of any number of threads with a lock for `maxin >= 1` readers ends in `s`. */
  ghost predicate Reachable(s: System) {
    s.lock.maxin > 0
    && exists acts :: Runs(Start(s.lock.maxin, |s.pcs|), acts) && After(Start(s.lock.maxin, |s.pcs|), acts) == s
  }

  lemma {:induction false} AfterOk(s: System, acts: seq<Act>)
    requires Exclusion(s) && NoLostWakeup(s) && Runs(s, acts)
    ensures Exclusion(After(s, acts)) && NoLostWakeup(After(s, acts))
    decreases |acts|
  {
    if acts != [] {
      ExclusionKept(s, acts[0]);
      WakeupKept(s, acts[0]);
      AfterOk(Next(s, acts[0]), acts[1..]);
    }
  }

  /** Mutual exclusion, honest counters and no lost wakeup in every reachable state. */
  lemma ReachableOk(s: System)
    requires Reachable(s)
    ensures Exclusion(s) && NoLostWakeup(s)
  {
    var n, m := |s.pcs|, s.lock.maxin;
    var acts :| Runs(Start(m, n), acts) && After(Start(m, n), acts) == s;
    StartOk(m, n);
    AfterOk(Start(m, n), acts);
  }

  /** Two threads inside at once are both readers. */
  lemma OnlyReadersShare(s: System, t: nat, u: nat)
    requires Reachable(s) && t < u < |s.pcs|
    requires (s.pcs[t].RIn? || s.pcs[t].WIn?) && (s.pcs[u].RIn? || s.pcs[u].WIn?)
    ensures s.pcs[t].RIn? && s.pcs[u].RIn?
  {
    ReachableOk(s);
    CountPositive(s.pcs, ReaderIn);
    CountPositive(s.pcs, WriterIn);
    var rest := s.pcs[t := Idle];
    assert rest[u] == s.pcs[u];
    CountUpdate(s.pcs, t, Idle, WriterIn);
    CountPositive(rest, WriterIn);
  }
}
