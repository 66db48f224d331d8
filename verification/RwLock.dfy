/**
 * The shared/exclusive lock built from one raw mutex, one condition variable and
 * a counter.  Any number of threads run the four lock and unlock operations; a
 * step is one raw-mutex acquisition, one access to the counter, one wait, one
 * broadcast or one raw-mutex release.
 */
module SharedLock {

  const UINT_RANGE: nat := 0x1_0000_0000

  datatype Phase =
    | Outside
    | WantExclusive     // blocked on the raw mutex, in lock
    | Checking          // holds the raw mutex, about to test the counter
    | Dozing            // waits on the condition; the raw mutex is free again
    | Roused            // the wait is over; blocked on the raw mutex
    | Exclusive         // lock returned; the raw mutex stays held
    | WantShared        // blocked on the raw mutex, in shared lock
    | Entering          // holds the raw mutex, about to count itself
    | Entered           // counted, about to release the raw mutex
    | Shared            // shared lock returned
    | WantLeave         // blocked on the raw mutex, in shared unlock
    | Leaving           // holds the raw mutex, about to uncount itself
    | Broadcasting      // the counter reached zero, about to broadcast
    | Left              // about to release the raw mutex

  datatype Lock = Lock(threads: seq<Phase>, owner: int, readers: nat)   // owner -1: raw mutex free

  const FREE: int := -1

  predicate OwnsRaw(p: Phase) {
    p in {Checking, Exclusive, Entering, Entered, Leaving, Broadcasting, Left}
  }

  /** Counted in the counter: it holds the lock shared, or is about to be told so, or is giving it up. */
  predicate Counted(p: Phase) { p in {Entered, Shared, WantLeave, Leaving} }

  function Initial(n: nat): Lock { Lock(seq(n, _ => Outside), FREE, 0) }

  datatype Step =
    | CallLock(t: nat) | CallShared(t: nat) | CallUnlock(t: nat) | CallUnlockShared(t: nat)
    | TakeRaw(t: nat)
    | Proceed(t: nat)      // the next access while holding the raw mutex
    | WakeSpuriously(t: nat)

  function Put(l: Lock, t: nat, p: Phase): Lock
    requires t < |l.threads|
  {
    l.(threads := l.threads[t := p])
  }

  predicate Enabled(l: Lock, s: Step) {
    s.t < |l.threads| &&
    var p := l.threads[s.t];
    match s
    case CallLock(_) => p == Outside
    case CallShared(_) => p == Outside
    case CallUnlock(_) => p == Exclusive
    case CallUnlockShared(_) => p == Shared
    case TakeRaw(_) => l.owner == FREE && p in {WantExclusive, Roused, WantShared, WantLeave}
    case Proceed(_) => p in {Checking, Entering, Entered, Leaving, Broadcasting, Left}
    case WakeSpuriously(_) => p == Dozing
  }

  function Rouse(threads: seq<Phase>): (r: seq<Phase>)
    ensures |r| == |threads|
    ensures forall i | 0 <= i < |r| :: r[i] == if threads[i] == Dozing then Roused else threads[i]
  {
    seq(|threads|, i requires 0 <= i < |threads| => if threads[i] == Dozing then Roused else threads[i])
  }

  /** One access by the owner of the raw mutex; the counter is an unsigned 32-bit integer. */
  function Access(l: Lock, t: nat): Lock
    requires t < |l.threads|
  {
    match l.threads[t]
    case Checking => if l.readers > 0 then Put(l, t, Dozing).(owner := FREE) else Put(l, t, Exclusive)
    case Entering => Put(l, t, Entered).(readers := (l.readers + 1) % UINT_RANGE)
    case Entered => Put(l, t, Shared).(owner := FREE)
    case Leaving =>
      var left := (l.readers + UINT_RANGE - 1) % UINT_RANGE;
      Put(l, t, if left <= 0 then Broadcasting else Left).(readers := left)
    case Broadcasting => Put(l.(threads := Rouse(l.threads)), t, Left)
    case Left => Put(l, t, Outside).(owner := FREE)
    case _ => l
  }

  function Take(p: Phase): Phase {
    match p
    case WantExclusive => Checking
    case Roused => Checking
    case WantShared => Entering
    case WantLeave => Leaving
    case _ => p
  }

  function Apply(l: Lock, s: Step): Lock
    requires Enabled(l, s)
  {
    match s
    case CallLock(t) => Put(l, t, WantExclusive)
    case CallShared(t) => Put(l, t, WantShared)
    case CallUnlock(t) => Put(l, t, Outside).(owner := FREE)
    case CallUnlockShared(t) => Put(l, t, WantLeave)
    case TakeRaw(t) => Put(l, t, Take(l.threads[t])).(owner := t)
    case Proceed(t) => Access(l, t)
    case WakeSpuriously(t) => Put(l, t, Roused)
  }

  ghost predicate IsRun(l: Lock, steps: seq<Step>)
    decreases |steps|
  {
    steps == [] || (Enabled(l, steps[0]) && IsRun(Apply(l, steps[0]), steps[1..]))
  }

  ghost function After(l: Lock, steps: seq<Step>): Lock
    requires IsRun(l, steps)
    decreases |steps|
  {
    if steps == [] then l else After(Apply(l, steps[0]), steps[1..])
  }

  function Holders(threads: seq<Phase>): nat {
    if threads == [] then 0
    else Holders(threads[1..]) + if Counted(threads[0]) then 1 else 0
  }

  // ---- the invariant ----

  /** The raw mutex is owned by exactly the threads whose phase says so: at most one. */
  predicate RawOwned(l: Lock) {
    forall i | 0 <= i < |l.threads| :: OwnsRaw(l.threads[i]) <==> i == l.owner
  }

  /** Nobody sleeps once the counter is zero, unless the broadcast is the owner's next access. */
  predicate NobodyForgotten(l: Lock) {
    forall i | 0 <= i < |l.threads| && l.threads[i] == Dozing ::
      l.readers > 0 || (0 <= l.owner < |l.threads| && l.threads[l.owner] == Broadcasting)
  }

  predicate ExclusiveMeansNone(l: Lock) {
    forall i | 0 <= i < |l.threads| && l.threads[i] in {Exclusive, Broadcasting} :: l.readers == 0
  }

  predicate Inv(l: Lock) {
    && |l.threads| < UINT_RANGE
    && RawOwned(l)
    && l.readers == Holders(l.threads)
    && ExclusiveMeansNone(l)
    && NobodyForgotten(l)
  }

  // ---- counting ----

  lemma {:induction false} CountPut(threads: seq<Phase>, t: nat, p: Phase)
    requires t < |threads|
    ensures Holders(threads[t := p]) ==
            Holders(threads) + (if Counted(p) then 1 else 0) - (if Counted(threads[t]) then 1 else 0)
  {
    if t == 0 {
      assert threads[t := p][1..] == threads[1..];
    } else {
      assert threads[t := p][1..] == threads[1..][t - 1 := p];
      CountPut(threads[1..], t - 1, p);
    }
  }

  lemma {:induction false} CountRouse(threads: seq<Phase>)
    ensures Holders(Rouse(threads)) == Holders(threads)
  {
    if threads != [] {
      assert Rouse(threads)[1..] == Rouse(threads[1..]);
      CountRouse(threads[1..]);
    }
  }

  lemma {:induction false} CountBounds(threads: seq<Phase>)
    ensures Holders(threads) <= |threads|
    ensures Holders(threads) > 0 <==> exists i :: 0 <= i < |threads| && Counted(threads[i])
  {
    if threads != [] {
      CountBounds(threads[1..]);
      assert forall i | 1 <= i < |threads| :: threads[i] == threads[1..][i - 1];
      if i :| 0 <= i < |threads[1..]| && Counted(threads[1..][i]) { assert Counted(threads[i + 1]); }
    }
  }

  // ---- every step keeps the invariant ----

  lemma BroadcastKeeps(l: Lock, t: nat)
    requires Inv(l) && t < |l.threads| && l.threads[t] == Broadcasting
    ensures Inv(Access(l, t))
  {
    CountRouse(l.threads);
    CountPut(Rouse(l.threads), t, Left);
  }

  lemma CountingKeeps(l: Lock, t: nat)
    requires Inv(l) && t < |l.threads| && l.threads[t] in {Entering, Leaving}
    ensures Inv(Access(l, t))
  {
    var p := Access(l, t).threads[t];
    CountPut(l.threads, t, p);
    CountBounds(l.threads);
    CountBounds(l.threads[t := p]);
    hide Holders;
    assert Access(l, t).readers == if l.threads[t] == Entering then l.readers + 1 else l.readers - 1;
  }

  lemma AccessKeeps(l: Lock, t: nat)
    requires Inv(l) && Enabled(l, Proceed(t))
    ensures Inv(Access(l, t))
  {
    if l.threads[t] == Broadcasting {
      BroadcastKeeps(l, t);
    } else if l.threads[t] in {Entering, Leaving} {
      CountingKeeps(l, t);
    } else {
      CountPut(l.threads, t, Access(l, t).threads[t]);
    }
  }

  lemma StepKeeps(l: Lock, s: Step)
    requires Inv(l) && Enabled(l, s)
    ensures Inv(Apply(l, s))
  {
    if s.Proceed? {
      AccessKeeps(l, s.t);
    } else {
      CountPut(l.threads, s.t, Apply(l, s).threads[s.t]);
    }
  }

  lemma InitialKeeps(n: nat)
    requires n < UINT_RANGE
    ensures Inv(Initial(n))
  {
    CountBounds(Initial(n).threads);
  }

  lemma {:induction false} RunKeeps(l: Lock, steps: seq<Step>)
    requires Inv(l) && IsRun(l, steps)
    ensures Inv(After(l, steps))
    decreases |steps|
  {
    if steps != [] {
      StepKeeps(l, steps[0]);
      RunKeeps(Apply(l, steps[0]), steps[1..]);
    }
  }

  // ---- the theorems ----

  /** A thread that holds the lock exclusively holds it alone: no other exclusive holder, no shared one. */
  lemma Exclusion(n: nat, steps: seq<Step>, t: nat, u: nat)
    requires n < UINT_RANGE && IsRun(Initial(n), steps)
    ensures var l := After(Initial(n), steps);
      t < |l.threads| && u < |l.threads| && t != u && l.threads[t] == Exclusive ==>
        l.threads[u] != Exclusive && !Counted(l.threads[u]) && l.readers == 0
  {
    InitialKeeps(n);
    RunKeeps(Initial(n), steps);
    CountBounds(After(Initial(n), steps).threads);
  }

  /** The counter is the number of shared holders, and its 32-bit arithmetic never wraps. */
  lemma CounterIsExact(n: nat, steps: seq<Step>)
    requires n < UINT_RANGE && IsRun(Initial(n), steps)
    ensures After(Initial(n), steps).readers == Holders(After(Initial(n), steps).threads) <= n
  {
    InitialKeeps(n);
    RunKeeps(Initial(n), steps);
    CountBounds(After(Initial(n), steps).threads);
    SameThreads(Initial(n), steps);
  }

  lemma {:induction false} SameThreads(l: Lock, steps: seq<Step>)
    requires IsRun(l, steps)
    ensures |After(l, steps).threads| == |l.threads|
    decreases |steps|
  {
    if steps != [] { SameThreads(Apply(l, steps[0]), steps[1..]); }
  }

  /** With the raw mutex free and no shared holder, no writer is asleep. */
  lemma NoForgottenWriter(n: nat, steps: seq<Step>, t: nat)
    requires n < UINT_RANGE && IsRun(Initial(n), steps)
    ensures var l := After(Initial(n), steps);
      t < |l.threads| && l.threads[t] == Dozing ==>
        l.readers > 0 || (0 <= l.owner < |l.threads| && l.threads[l.owner] == Broadcasting)
  {
    InitialKeeps(n);
    RunKeeps(Initial(n), steps);
  }

  // ---- the operations, between the points where they block ----

  ghost predicate Reaches(l: Lock, steps: seq<Step>, m: Lock) { IsRun(l, steps) && After(l, steps) == m }

  lemma {:induction false} Extend(l: Lock, steps: seq<Step>, m: Lock, s: Step)
    requires Reaches(l, steps, m) && Enabled(m, s)
    ensures Reaches(l, steps + [s], Apply(m, s))
    decreases |steps|
  {
    hide Enabled, Apply;
    if steps != [] {
      assert (steps + [s])[1..] == steps[1..] + [s];
      Extend(Apply(l, steps[0]), steps[1..], m, s);
    } else {
      assert steps + [s] == [s] && [s][1..] == [];
      assert m == l && IsRun(Apply(m, s), []) && After(Apply(m, s), []) == Apply(m, s);
    }
  }

  /** The lock after thread t has left; the last one out has roused the waiters. */
  function LeftBy(l: Lock, t: nat): Lock
    requires t < |l.threads|
  {
    var left := (l.readers + UINT_RANGE - 1) % UINT_RANGE;
    Lock((if left <= 0 then Rouse(l.threads) else l.threads)[t := Outside], FREE, left)
  }

  lemma LeaveRuns(l: Lock, t: nat) returns (steps: seq<Step>)
    requires t < |l.threads| && l.owner == FREE && l.threads[t] == WantLeave
    ensures Reaches(l, steps, LeftBy(l, t))
  {
    var l1 := Apply(l, TakeRaw(t));
    var l2 := Apply(l1, Proceed(t));
    steps := [];
    Extend(l, steps, l, TakeRaw(t));
    hide Reaches;
    steps := steps + [TakeRaw(t)];
    Extend(l, steps, l1, Proceed(t));
    steps := steps + [Proceed(t)];
    Extend(l, steps, l2, Proceed(t));
    steps := steps + [Proceed(t)];
    if l2.readers <= 0 {
      Extend(l, steps, Apply(l2, Proceed(t)), Proceed(t));
      steps := steps + [Proceed(t)];
      assert Apply(Apply(l2, Proceed(t)), Proceed(t)) == LeftBy(l, t);
    } else {
      assert Apply(l2, Proceed(t)) == LeftBy(l, t);
    }
  }

  // ---- what becomes of a call ----

  /** On the way to the exclusive lock, or with it; the same of the shared one; and on the way out of that. */
  predicate Locking(p: Phase) { p in {WantExclusive, Checking, Dozing, Roused, Exclusive} }

  predicate Sharing(p: Phase) { p in {WantShared, Entering, Entered, Shared} }

  predicate Parting(p: Phase) { p in {WantLeave, Leaving, Broadcasting, Left, Outside} }

  lemma CallStep(l: Lock, t: nat, s: Step)
    requires t < |l.threads| && Enabled(l, s) && !(s.t == t && IsCall(s))
    ensures var m, p := Apply(l, s), l.threads[t];
      && |m.threads| == |l.threads|
      && (Locking(p) ==> Locking(m.threads[t])) && (Sharing(p) ==> Sharing(m.threads[t]))
      && (Parting(p) ==> Parting(m.threads[t]))
  {
  }

  predicate IsCall(s: Step) { s.CallLock? || s.CallShared? || s.CallUnlock? || s.CallUnlockShared? }

  /**
   * In every run, from a call to the next call of the same thread: a lock is being waited
   * for or held exclusively, a shared lock the same shared, and a shared unlock gives it up.
   */
  lemma {:induction false} CallStands(l: Lock, t: nat, steps: seq<Step>)
    requires t < |l.threads| && IsRun(l, steps)
    requires forall k | 0 <= k < |steps| :: !(steps[k].t == t && IsCall(steps[k]))
    ensures var m, p := After(l, steps), l.threads[t];
      && |m.threads| == |l.threads|
      && (Locking(p) ==> Locking(m.threads[t])) && (Sharing(p) ==> Sharing(m.threads[t]))
      && (Parting(p) ==> Parting(m.threads[t]))
    decreases |steps|
  {
    hide Locking, Sharing, Parting, Apply, Enabled;
    if steps != [] {
      CallStep(l, t, steps[0]);
      CallStands(Apply(l, steps[0]), t, steps[1..]);
    }
  }

  /** And what each call begins. */
  lemma CallBegins(l: Lock, s: Step)
    requires Enabled(l, s) && IsCall(s)
    ensures var p := Apply(l, s).threads[s.t];
      && (s.CallLock? ==> Locking(p) && p != Exclusive) && (s.CallShared? ==> Sharing(p) && p != Shared)
      && (s.CallUnlockShared? ==> Parting(p)) && (s.CallUnlock? ==> p == Outside && Apply(l, s).owner == -1)
  {
  }

  class RwMutex {
    const threads: array<Phase>
    var owner: int
    var readers: nat

    ghost function Model(): Lock
      reads this, threads
    {
      Lock(threads[..], owner, readers)
    }

    constructor (n: nat)
      ensures fresh(threads) && Model() == Initial(n)
    {
      threads := new Phase[n](_ => Outside);
      owner, readers := FREE, 0;
    }

    /** Lock, each time the raw mutex comes: return with it if nobody is counted, else wait. */
    method TryExclusive(t: nat) returns (held: bool, ghost steps: seq<Step>)
      requires t < threads.Length && owner == FREE && threads[t] in {WantExclusive, Roused}
      modifies this, threads
      ensures Reaches(old(Model()), steps, Model()) && threads[t] == (if held then Exclusive else Dozing)
      ensures held <==> old(readers) == 0
    {
      ghost var l := Model();
      ghost var l1 := Apply(l, TakeRaw(t));
      steps := [];
      Extend(l, steps, l, TakeRaw(t));
      Extend(l, steps + [TakeRaw(t)], l1, Proceed(t));
      steps := steps + [TakeRaw(t)] + [Proceed(t)];
      hide Reaches;
      owner := t;
      held := readers == 0;
      if held {
        threads[t] := Exclusive;
      } else {
        threads[t], owner := Dozing, FREE;
      }
      assert Model() == Apply(l1, Proceed(t));
    }

    method Unlock(t: nat)
      requires t < threads.Length && threads[t] == Exclusive
      modifies this, threads
      ensures Reaches(old(Model()), [CallUnlock(t)], Model())
    {
      ghost var l := Model();
      Extend(l, [], l, CallUnlock(t));
      threads[t], owner := Outside, FREE;
      assert [] + [CallUnlock(t)] == [CallUnlock(t)];
      assert Model() == Apply(l, CallUnlock(t));
    }

    /** Shared lock, once the raw mutex comes. */
    method EnterShared(t: nat) returns (ghost steps: seq<Step>)
      requires t < threads.Length && owner == FREE && threads[t] == WantShared
      modifies this, threads
      ensures Reaches(old(Model()), steps, Model()) && threads[t] == Shared
      ensures readers == (old(readers) + 1) % UINT_RANGE
    {
      ghost var l := Model();
      ghost var l1 := Apply(l, TakeRaw(t));
      ghost var l2 := Apply(l1, Proceed(t));
      steps := [];
      Extend(l, steps, l, TakeRaw(t));
      Extend(l, steps + [TakeRaw(t)], l1, Proceed(t));
      steps := steps + [TakeRaw(t)] + [Proceed(t)];
      Extend(l, steps, l2, Proceed(t));
      steps := steps + [Proceed(t)];
      hide Reaches;
      readers := (readers + 1) % UINT_RANGE;
      threads[t] := Shared;
      assert Model() == Apply(l2, Proceed(t));
    }

    /** Shared unlock, once the raw mutex comes: the last one out wakes every waiter. */
    method LeaveShared(t: nat) returns (ghost steps: seq<Step>)
      requires t < threads.Length && owner == FREE && threads[t] == WantLeave
      modifies this, threads
      ensures Reaches(old(Model()), steps, Model()) && threads[t] == Outside
      ensures readers == (old(readers) + UINT_RANGE - 1) % UINT_RANGE
    {
      ghost var l := Model();
      steps := LeaveRuns(l, t);
      hide Reaches;
      readers := (readers + UINT_RANGE - 1) % UINT_RANGE;
      if readers <= 0 { Broadcast(); }
      threads[t] := Outside;
      assert Model() == LeftBy(l, t);
    }

    method Broadcast()
      modifies threads
      ensures threads[..] == Rouse(old(threads[..]))
    {
      for i := 0 to threads.Length
        invariant forall k | 0 <= k < threads.Length ::
          threads[k] == if k < i && old(threads[k]) == Dozing then Roused else old(threads[k])
      {
        if threads[i] == Dozing { threads[i] := Roused; }
      }
    }
  }
}
