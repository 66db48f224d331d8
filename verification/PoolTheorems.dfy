/** What every run of the pool guarantees. */
module PoolTheorems {
  import opened PoolMemory
  import opened PoolSystem
  import W = WorkerMachine

  lemma {:induction false} SizesStay(hash: Hash, s: Sys, steps: seq<Step>)
    requires IsRun(hash, s, steps)
    ensures |After(hash, s, steps).clients| == |s.clients|
    decreases |steps|
  {
    if steps != [] {
      hide Acquire, Safe, AppendIdle;
      SizesStay(hash, Apply(hash, s, steps[0]), steps[1..]);
    }
  }

  lemma RunInv(hash: Hash, n: nat, steps: seq<Step>)
    requires n >= 1 && IsRun(hash, Initial(n), steps)
    ensures Inv(hash, After(hash, Initial(n), steps)) && |After(hash, Initial(n), steps).clients| == n
  {
    hide Inv, IsRun, After;
    InitialKeeps(hash, n);
    RunKeeps(hash, Initial(n), steps);
    SizesStay(hash, Initial(n), steps);
  }

  /** The list and the buckets are well-formed; a slot is on the list or held by exactly one worker. */
  ghost predicate OnePlace(s: Sys, n: nat) {
    && |s.clients| == n
    && IdleShape(s.mem, s.idle) && IndexShape(s.mem, s.chains, s.home)
    && (forall i | 0 <= i < n && i !in s.idle :: exists w :: 0 <= w < n && SlotOf(s.clients[w].at) == Some(i))
    && (forall w | 0 <= w < n && SlotOf(s.clients[w].at).Some? :: SlotOf(s.clients[w].at).value !in s.idle)
    && (forall v, w | 0 <= v < w < n && SlotOf(s.clients[v].at).Some? ::
          SlotOf(s.clients[v].at) != SlotOf(s.clients[w].at))
  }

  lemma InvOnePlace(hash: Hash, s: Sys)
    requires Inv(hash, s)
    ensures OnePlace(s, |s.clients|) && 0 <= |s.clients| - |s.stack| <= |s.clients|
  {
    hide Claimed, Keyed, Aged, IdleShape, IndexShape;
    DistinctBounded(s.stack, |s.clients|);
    forall i | 0 <= i < |s.clients| && i !in s.idle
      ensures exists w :: 0 <= w < |s.clients| && SlotOf(s.clients[w].at) == Some(i)
    {
      assert s.holder[i].Some?;
    }
  }

  /**
   * In every run of n workers over n slots each slot has one place, and the
   * number of slots reported in use is between 0 and n.
   */
  lemma EverySlotHasOnePlace(hash: Hash, n: nat, steps: seq<Step>)
    requires n >= 1 && IsRun(hash, Initial(n), steps)
    ensures var s := After(hash, Initial(n), steps); OnePlace(s, n) && 0 <= n - |s.stack| <= n
  {
    hide Inv, IsRun, After, Initial, OnePlace;
    RunInv(hash, n, steps);
    InvOnePlace(hash, After(hash, Initial(n), steps));
  }

  /**
   * What a step meets: an accept finds its worker without a connection and ready
   * for work, a run finds its connection, a worker is pushed only when it is not
   * on the stack, and a search finds the list non-empty, its head free, and gets a
   * slot if that slot opens.
   */
  ghost predicate MeetsNoDeadBranch(hash: Hash, s: Sys, step: Step)
    requires Enabled(s, step)
  {
    match step
    case Accept(w) => !s.clients[w].conn && W.CanWake(s.clients[w].state)
    case Check(w) => s.clients[w].conn
    case Push(w) => w !in s.stack && !s.clients[w].conn
    case Search(w, opens) =>
      s.mem.head.Ref? && s.mem.head.i < |s.mem.slots| && s.mem.slots[s.mem.head.i].client == None &&
      (opens && Safe(hash, s, step) ==> SearchSlot(hash, s, w, opens).clients[w].at.Holding?)
    case _ => true
  }

  lemma SearchMeets(hash: Hash, s: Sys, w: nat, opens: bool)
    requires Inv(hash, s) && Enabled(s, Search(w, opens))
    ensures MeetsNoDeadBranch(hash, s, Search(w, opens))
  {
    ChoiceIsFree(hash, s, w);
    hide SearchSlot, Choose, Owned, Claimed, Aged, Staffed, IdleShape;
    if opens && Safe(hash, s, Search(w, opens)) { SearchTakes(hash, s, w, Chosen(hash, s, w).i); }
  }

  lemma InvMeets(hash: Hash, s: Sys, step: Step)
    requires Inv(hash, s) && Enabled(s, step)
    ensures MeetsNoDeadBranch(hash, s, step)
  {
    if step.Search? {
      SearchMeets(hash, s, step.w, step.opens);
    } else if step.Accept? || step.Check? || step.Push? {
      StaffMeets(hash, s, step);
    }
  }

  lemma StaffMeets(hash: Hash, s: Sys, step: Step)
    requires Staffed(s.clients, s.stack, s.inHand) && Enabled(s, step) && (step.Accept? || step.Check? || step.Push?)
    ensures MeetsNoDeadBranch(hash, s, step)
  {
    assert Consistent(s.clients[step.w]);
    assert step.Accept? ==> Available(s.clients[step.w]);
  }

  /** From a shutdown on, no worker is taken off the stack any more. */
  lemma {:induction false} ShutdownEndsAccepting(hash: Hash, s: Sys, steps: seq<Step>)
    requires !s.usable && IsRun(hash, s, steps)
    ensures Pop !in steps && !After(hash, s, steps).usable
    ensures forall t: Sys :: !Apply(hash, t, Shutdown).usable
    decreases |steps|
  {
    if steps != [] {
      hide SearchSlot, FinishSlot, SeverSlot, PutSlotBack, Safe;
      UsableStays(hash, s, steps[0]);
      hide Apply;
      ShutdownEndsAccepting(hash, Apply(hash, s, steps[0]), steps[1..]);
    }
  }

  lemma UsableStays(hash: Hash, s: Sys, step: Step)
    requires Enabled(s, step)
    ensures Apply(hash, s, step).usable == (s.usable && !step.Shutdown?)
  {
    hide Acquire, AppendIdle;
  }

  // ---- who is taken next, and who gets nothing ----

  lemma StackStays(hash: Hash, s: Sys, step: Step)
    requires Enabled(s, step) && !step.Push? && !step.Pop?
    ensures Apply(hash, s, step).stack == s.stack
  {
    hide Acquire, AppendIdle;
  }

  lemma {:induction false} StackRun(hash: Hash, s: Sys, steps: seq<Step>)
    requires IsRun(hash, s, steps) && forall k | 0 <= k < |steps| :: !steps[k].Push? && !steps[k].Pop?
    ensures After(hash, s, steps).stack == s.stack
    decreases |steps|
  {
    if steps != [] {
      hide Apply, Safe;
      StackStays(hash, s, steps[0]);
      StackRun(hash, Apply(hash, s, steps[0]), steps[1..]);
    }
  }

  /** The worker that went back to the stack last is the next one taken. */
  lemma LastBackIsNextTaken(hash: Hash, s: Sys, w: nat, steps: seq<Step>)
    requires Enabled(s, Push(w)) && IsRun(hash, Apply(hash, s, Push(w)), steps)
    requires forall k | 0 <= k < |steps| :: !steps[k].Push? && !steps[k].Pop?
    requires After(hash, Apply(hash, s, Push(w)), steps).usable
    ensures var t := After(hash, Apply(hash, s, Push(w)), steps);
      && Enabled(t, Pop)
      && Apply(hash, t, Pop).stack == s.stack && Apply(hash, t, Pop).inHand == t.inHand + {w}
  {
    hide IsRun, After;
    StackRun(hash, Apply(hash, s, Push(w)), steps);
  }

  /** On the way from a run's end back to where the next one begins. */
  predicate Leaving(p: Place) { p in {Freeing, Pushing, Tail, Parked} }

  lemma LeavingStays(hash: Hash, s: Sys, step: Step, w: nat)
    requires w < |s.clients| && Leaving(s.clients[w].at) && Enabled(s, step) && step != BeginRun(w)
    ensures |Apply(hash, s, step).clients| == |s.clients| && Leaving(Apply(hash, s, step).clients[w].at)
  {
    hide Acquire, AppendIdle;
  }

  /** A worker whose client is not let in does not search, and has no slot, before its next run. */
  lemma {:induction false} NotLetInGetsNothing(hash: Hash, s: Sys, w: nat, steps: seq<Step>)
    requires Enabled(s, Authorize(w, None)) && IsRun(hash, Apply(hash, s, Authorize(w, None)), steps)
    requires BeginRun(w) !in steps
    ensures var t := After(hash, Apply(hash, s, Authorize(w, None)), steps);
      w < |t.clients| && !t.clients[w].at.Searching? && SlotOf(t.clients[w].at) == None
  {
    hide IsRun, After;
    LeavingRun(hash, Apply(hash, s, Authorize(w, None)), w, steps);
  }

  /** Likewise a worker that finds it was given no connection; with one, it goes on to authorise it. */
  lemma NoConnectionGetsNothing(hash: Hash, s: Sys, w: nat, steps: seq<Step>)
    requires Enabled(s, Check(w)) && IsRun(hash, Apply(hash, s, Check(w)), steps) && BeginRun(w) !in steps
    ensures s.clients[w].conn <==> Enabled(Apply(hash, s, Check(w)), Authorize(w, None))
    ensures !s.clients[w].conn ==>
      var t := After(hash, Apply(hash, s, Check(w)), steps);
      w < |t.clients| && !t.clients[w].at.Searching? && SlotOf(t.clients[w].at) == None
  {
    hide IsRun, After;
    if !s.clients[w].conn { LeavingRun(hash, Apply(hash, s, Check(w)), w, steps); }
  }

  lemma {:induction false} LeavingRun(hash: Hash, s: Sys, w: nat, steps: seq<Step>)
    requires w < |s.clients| && Leaving(s.clients[w].at) && IsRun(hash, s, steps) && BeginRun(w) !in steps
    ensures var t := After(hash, s, steps); w < |t.clients| && Leaving(t.clients[w].at)
    decreases |steps|
  {
    if steps != [] {
      hide Apply, Safe, Leaving;
      LeavingStays(hash, s, steps[0], w);
      LeavingRun(hash, Apply(hash, s, steps[0]), w, steps[1..]);
    }
  }

  /** Branches that no run reaches. */
  lemma NoDeadBranch(hash: Hash, n: nat, steps: seq<Step>, step: Step)
    requires n >= 1 && IsRun(hash, Initial(n), steps) && Enabled(After(hash, Initial(n), steps), step)
    ensures MeetsNoDeadBranch(hash, After(hash, Initial(n), steps), step)
  {
    hide Inv, IsRun, After, Initial, MeetsNoDeadBranch;
    RunInv(hash, n, steps);
    InvMeets(hash, After(hash, Initial(n), steps), step);
  }

  /**
   * The bucket search finds a slot exactly when some free slot of that bucket
   * stores the callsign, and then the slot it finds is such a one.
   */
  lemma SearchFinds(hash: Hash, s: Sys, c: string)
    requires Inv(hash, s)
    ensures |s.mem.byCall| == BUCKETS && |s.last| == |s.mem.slots|
    ensures var f := Walk(s.mem, s.mem.byCall[BucketOf(hash, c)], c, |s.mem.slots|);
      && (f.Ref? <==> exists i :: 0 <= i < |s.last| && s.last[i].Some? &&
                                  BucketOf(hash, s.last[i].value) == BucketOf(hash, c) && Matches(s.mem.slots[i], c))
      && (f.Ref? ==> f.i < |s.mem.slots| && Matches(s.mem.slots[f.i], c))
  {
    var h := BucketOf(hash, c);
    SearchIsFirstMatch(s.mem, s.chains, s.home, h, c);
    FirstMatchFinds(s.mem.slots, s.chains[h], c);
    hide Owned, Claimed, Aged, Staffed, IdleShape, Walk, FirstMatch;
    var f := Walk(s.mem, s.mem.byCall[h], c, |s.mem.slots|);
    if i :| 0 <= i < |s.last| && s.last[i].Some? && BucketOf(hash, s.last[i].value) == h && Matches(s.mem.slots[i], c) {
      assert HomeNode(s.mem, s.chains, i, s.home[i]);
    }
    if f.Ref? {
      var k :| 0 <= k < |s.chains[h]| && s.chains[h][k] == f.i;
      assert s.home[s.chains[h][k]] == Some(h);
    }
  }

  /** Each slot stores the callsign that last acquired it. */
  predicate Truthful(s: Sys) {
    |s.last| == |s.mem.slots| &&
    forall i | 0 <= i < |s.last| && s.last[i].Some? :: s.mem.slots[i].callsign == s.last[i].value
  }

  /** Then, for any hash, the search succeeds exactly when a scan of all slots would. */
  lemma SearchIsScan(hash: Hash, s: Sys, c: string)
    requires Inv(hash, s) && Truthful(s)
    ensures |s.mem.byCall| == BUCKETS
    ensures Walk(s.mem, s.mem.byCall[BucketOf(hash, c)], c, |s.mem.slots|).Ref? <==>
            exists i :: 0 <= i < |s.last| && s.last[i] == Some(c) && s.mem.slots[i].client == None
  {
    SearchFinds(hash, s, c);
    hide Inv, Walk;
    if i :| 0 <= i < |s.last| && s.last[i] == Some(c) && s.mem.slots[i].client == None {
      assert Matches(s.mem.slots[i], c);
    }
  }

  /** The fallback takes the slot that has been idle longest. */
  lemma FallbackIsOldest(hash: Hash, s: Sys, w: nat)
    requires Inv(hash, s) && w < |s.clients| && s.clients[w].at.Searching?
    requires |s.mem.byCall| == BUCKETS
    requires Walk(s.mem, s.mem.byCall[BucketOf(hash, s.clients[w].at.c)], s.clients[w].at.c, |s.mem.slots|) == Null
    ensures var pc := Chosen(hash, s, w);
      && pc.Ref? && pc.i in s.idle
      && forall i | i in s.idle && i != pc.i :: i < |s.stamp| && pc.i < |s.stamp| && s.stamp[pc.i] < s.stamp[i]
  {
    ChoiceIsFree(hash, s, w);
    hide Walk, Shape, Owned, Claimed, Staffed;
    forall i | i in s.idle && i != s.idle[0] ensures i < |s.stamp| && s.stamp[s.idle[0]] < s.stamp[i] {
      var k :| 0 <= k < |s.idle| && s.idle[k] == i;
    }
  }

  /** A fallback whose slot cannot open its ports has already overwritten the slot's callsign. */
  predicate Overwrites(hash: Hash, s: Sys, step: Step)
    requires Enabled(s, step) && |s.mem.byCall| == BUCKETS
  {
    step.Search? && !step.opens &&
    var pc := Chosen(hash, s, step.w);
    pc.Ref? && pc.i < |s.last| && s.last[pc.i].Some? && s.last[pc.i].value != s.clients[step.w].at.c
  }

  lemma RefusedOverwrites(hash: Hash, s: Sys, w: nat)
    requires Inv(hash, s) && Truthful(s) && Enabled(s, Search(w, false)) && |s.mem.byCall| == BUCKETS
    ensures Truthful(SearchSlot(hash, s, w, false)) <==> !Overwrites(hash, s, Search(w, false))
  {
    ChoiceIsFree(hash, s, w);
    var i := Chosen(hash, s, w).i;
    RefusedClaims(hash, s, w, i);
    hide Inv, SearchSlot, Choose;
    ClaimIsStale(s, SearchSlot(hash, s, w, false), i, s.clients[w].at.c);
  }

  /** A refused search leaves its callsign in the slot it settled on, and nothing else. */
  lemma RefusedClaims(hash: Hash, s: Sys, w: nat, i: nat)
    requires Inv(hash, s) && Enabled(s, Search(w, false)) && |s.mem.byCall| == BUCKETS
    requires Chosen(hash, s, w) == Ref(i) && i < |s.mem.slots|
    ensures var t := SearchSlot(hash, s, w, false);
      t.mem == Claim(s.mem, i, s.clients[w].at.c, None) && t.last == s.last
  {
    ChoiceIsFree(hash, s, w);
    hide Inv, Choose;
  }

  lemma ClaimIsStale(s: Sys, t: Sys, i: nat, c: string)
    requires Truthful(s) && i < |s.mem.slots| && t.last == s.last && t.mem == Claim(s.mem, i, c, None)
    ensures Truthful(t) <==> !(s.last[i].Some? && s.last[i].value != c)
  {
    assert t.mem.slots[i].callsign == c;
  }

  lemma OthersKeepCallsigns(hash: Hash, s: Sys, step: Step)
    requires Sizes(s) && Enabled(s, step) && !step.Search?
    ensures var t := Apply(hash, s, step);
      && t.last == s.last && |t.mem.slots| == |s.mem.slots|
      && forall i | 0 <= i < |s.mem.slots| :: t.mem.slots[i].callsign == s.mem.slots[i].callsign
  {
    hide SearchSlot;
  }

  /** A step makes some slot's stored callsign stale exactly when it is such a fallback. */
  lemma TruthfulUnlessOverwritten(hash: Hash, s: Sys, step: Step)
    requires Inv(hash, s) && Truthful(s) && Enabled(s, step) && Safe(hash, s, step)
    ensures |s.mem.byCall| == BUCKETS
    ensures Truthful(Apply(hash, s, step)) <==> !Overwrites(hash, s, step)
  {
    hide Owned, Claimed, Aged, Staffed, IdleShape;
    if !step.Search? {
      OthersKeepCallsigns(hash, s, step);
      hide Apply, Safe;
    } else if !step.opens {
      RefusedOverwrites(hash, s, step.w);
    } else {
      ChoiceIsFree(hash, s, step.w);
      SearchTakes(hash, s, step.w, Chosen(hash, s, step.w).i);
      hide SearchSlot, Safe;
    }
  }
}
