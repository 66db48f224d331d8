/**
 * The one way the pool can be broken, played out from the start: two workers, two
 * slots, and the same callsign twice.
 */
module PoolRace {
  import opened PoolMemory
  import opened PoolSystem
  import W = WorkerMachine

  ghost predicate Reaches(hash: Hash, s: Sys, steps: seq<Step>, t: Sys) {
    IsRun(hash, s, steps) && After(hash, s, steps) == t
  }

  lemma {:induction false} Extend(hash: Hash, s: Sys, steps: seq<Step>, t: Sys, step: Step)
    requires Reaches(hash, s, steps, t) && Enabled(t, step) && Safe(hash, t, step)
    ensures Reaches(hash, s, steps + [step], Apply(hash, t, step))
    decreases |steps|
  {
    hide Enabled, Safe, Apply;
    if steps != [] {
      assert (steps + [step])[1..] == steps[1..] + [step];
      Extend(hash, Apply(hash, s, steps[0]), steps[1..], t, step);
    } else {
      assert steps + [step] == [step] && [step][1..] == [];
      var u := Apply(hash, t, step);
      assert t == s && IsRun(hash, u, []) && After(hash, u, []) == u;
    }
  }

  const Flat: Hash := (c: string) => 0

  /** Worker w, on top of the stack, is given a connection and reaches the search with callsign A. */
  function Arrival(w: nat): seq<Step> {
    [Pop] + [Accept(w)] + [BeginRun(w)] + [Check(w)] + [Authorize(w, Some("A"))]
  }

  function Arrived(s: Sys, w: nat): Sys
    requires w < |s.clients| && s.stack != []
  {
    s.(stack := s.stack[1..], clients := s.clients[w := Client(W.Busy, Searching("A"), true)])
  }

  lemma Arrives(s0: Sys, steps: seq<Step>, s: Sys, w: nat)
    requires Reaches(Flat, s0, steps, s)
    requires s.stack != [] && s.stack[0] == w < |s.clients| && s.usable && s.inHand == {}
    requires s.clients[w] == Client(W.Starting, Parked, false)
    ensures Reaches(Flat, s0, steps + Arrival(w), Arrived(s, w))
  {
    hide Reaches, Safe, SearchSlot, FinishSlot, SeverSlot, PutSlotBack;
    var t := s.(stack := s.stack[1..], clients := s.clients[w := Client(W.Busy, Checking, true)]);
    BeginsRun(s0, steps, s, w);
    var done := steps + [Pop] + [Accept(w)] + [BeginRun(w)];
    var u := Apply(Flat, t, Check(w));
    ExtendQuietly(Flat, s0, done, t, Check(w));
    done := done + [Check(w)];
    ExtendQuietly(Flat, s0, done, u, Authorize(w, Some("A")));
    assert Apply(Flat, u, Authorize(w, Some("A"))) == Arrived(s, w);
    assert steps + Arrival(w) == done + [Authorize(w, Some("A"))];
  }

  lemma BeginsRun(s0: Sys, steps: seq<Step>, s: Sys, w: nat)
    requires Reaches(Flat, s0, steps, s)
    requires s.stack != [] && s.stack[0] == w < |s.clients| && s.usable && s.inHand == {}
    requires s.clients[w] == Client(W.Starting, Parked, false)
    ensures Reaches(Flat, s0, steps + [Pop] + [Accept(w)] + [BeginRun(w)],
                    s.(stack := s.stack[1..], clients := s.clients[w := Client(W.Busy, Checking, true)]))
  {
    hide Reaches, Safe, SearchSlot, FinishSlot, SeverSlot, PutSlotBack;
    var s1, done := Apply(Flat, s, Pop), steps + [Pop];
    ExtendQuietly(Flat, s0, steps, s, Pop);
    var s2 := Apply(Flat, s1, Accept(w));
    ExtendQuietly(Flat, s0, done, s1, Accept(w));
    done := done + [Accept(w)];
    ExtendQuietly(Flat, s0, done, s2, BeginRun(w));
    assert Apply(Flat, s2, BeginRun(w)) ==
      s.(stack := s.stack[1..], clients := s.clients[w := Client(W.Busy, Checking, true)]);
  }

  lemma ExtendQuietly(hash: Hash, s: Sys, steps: seq<Step>, t: Sys, step: Step)
    requires Reaches(hash, s, steps, t) && Enabled(t, step) && !step.Search?
    ensures Reaches(hash, s, steps + [step], Apply(hash, t, step))
  {
    hide Reaches, Apply;
    Extend(hash, s, steps, t, step);
  }

  /** Worker 1 takes slot 0 as A; worker 0 arrives as A too; worker 1 is about to put slot 0 back. */
  function Prelude(): seq<Step> {
    Arrival(1) + [Search(1, true)] + Arrival(0) + [Finish(1)] + [Sever(1)]
  }

  lemma FirstSearch(s: Sys)
    requires s == Arrived(Initial(2), 1)
    ensures Enabled(s, Search(1, true)) && Safe(Flat, s, Search(1, true))
    ensures var t := SearchSlot(Flat, s, 1, true);
      && t.mem.slots == [Slot(Ref(1), Head, Null, Some(Bucket(0)), "A", Some(1)),
                         Slot(Null, Head, Null, None, "", None)]
      && t.mem.head == Ref(1) && t.mem.tailPtr == NextOf(1)
      && t.mem.byCall == s.mem.byCall[0 := Ref(0)]
      && t.clients == s.clients[1 := Client(W.Busy, Holding(0), true)]
      && t.stack == s.stack && t.usable && t.inHand == {} && t.holder == [Some(1), None]
      && |t.home| == |t.last| == |t.stamp| == 2
      && t.idle == Minus(s.idle, 0)
  {
    var m := s.mem;
    assert m.slots == [Slot(Ref(1), Head, Null, None, "", None), Slot(Null, NextOf(0), Null, None, "", None)];
    assert m.byCall[0] == Null;
    assert Choose(m, "A", 0) == Ref(0);
    var m1 := Claim(m, 0, "A", Some(1));
    var m2 := UnlinkIdle(m1, 0);
    assert m2.slots == [Slot(Ref(1), Head, Null, None, "A", Some(1)), Slot(Null, Head, Null, None, "", None)];
    assert UnlinkCall(m2, 0) == m2;
  }

  /** The first worker has slot 0, the second is about to search. */
  predicate Racing(s: Sys, first: Place, slot0: Slot) {
    && |s.mem.byCall| == BUCKETS && s.mem.byCall[0] == Ref(0) && s.mem.head == Ref(1)
    && s.mem.slots == [slot0, Slot(Null, Head, Null, None, "", None)]
    && |s.home| == |s.holder| == |s.last| == 2
    && s.clients == [Client(W.Busy, Searching("A"), true), Client(W.Busy, first, true)]
  }

  const Taken: Slot := Slot(Ref(1), Head, Null, Some(Bucket(0)), "A", Some(1))

  lemma Releases(s: Sys)
    requires Racing(s, Holding(0), Taken)
    ensures Racing(FinishSlot(s, 1), Cleared(0), Taken.(client := None))
    ensures Racing(SeverSlot(FinishSlot(s, 1), 1), Severed(0), Taken.(client := None, next := Null))
  {
  }

  lemma Steals(s: Sys)
    requires Racing(s, Severed(0), Taken.(client := None, next := Null))
    ensures SearchSlot(Flat, s, 0, true).mem.head == Null
    ensures SearchSlot(Flat, s, 0, true).clients == s.clients[0 := Client(W.Busy, Holding(0), true)]
  {
    assert Choose(s.mem, "A", 0) == Ref(0) by { assert Walk(s.mem, Ref(0), "A", 2) == Ref(0); }
    var m1 := Claim(s.mem, 0, "A", Some(0));
    var m2 := UnlinkIdle(m1, 0);
    assert m2.head == Null && m2.slots == m1.slots && m2.byCall == s.mem.byCall;
    var m3 := UnlinkCall(m2, 0);
    assert m3.head == Null;
  }

  /** What the first search leaves for the second worker to arrive at. */
  lemma SecondArrival(s: Sys)
    requires s == Arrived(Initial(2), 1) && Enabled(s, Search(1, true))
    ensures var t := SearchSlot(Flat, s, 1, true);
      && t.stack == [0] && t.usable && t.inHand == {} && |t.clients| == 2
      && t.clients[0] == Client(W.Starting, Parked, false)
      && Racing(Arrived(t, 0), Holding(0), Taken)
  {
    FirstSearch(s);
    hide SearchSlot, Safe;
  }

  lemma RacesFrom(s0: Sys) returns (s: Sys)
    requires s0 == Initial(2)
    ensures Reaches(Flat, s0, Arrival(1) + [Search(1, true)] + Arrival(0), s)
    ensures Racing(s, Holding(0), Taken)
  {
    assert Reaches(Flat, s0, [], s0);
    hide Reaches, SearchSlot, Safe, Racing;
    Arrives(s0, [], s0, 1);
    var s1 := Arrived(s0, 1);
    FirstSearch(s1);
    SecondArrival(s1);
    hide Initial, Opened;
    var s2 := SearchSlot(Flat, s1, 1, true);
    assert [] + Arrival(1) == Arrival(1);
    hide Arrival;
    Extend(Flat, s0, Arrival(1), s1, Search(1, true));
    Arrives(s0, Arrival(1) + [Search(1, true)], s2, 0);
    s := Arrived(s2, 0);
  }

  /**
   * Two workers, two slots, one callsign: the second worker takes slot 0 over in
   * the window between its clearing and its return.  Afterwards both workers have
   * slot 0, and the list is empty although nobody holds slot 1.
   */
  lemma StolenSlotLosesTheList() returns (s: Sys)
    ensures Reaches(Flat, Initial(2), Prelude(), s)
    ensures Enabled(s, Search(0, true))
    ensures var t := SearchSlot(Flat, s, 0, true);
      |t.clients| == 2 && SlotOf(t.clients[0].at) == SlotOf(t.clients[1].at) == Some(0) && t.mem.head == Null
  {
    hide Reaches, SearchSlot, Arrival, Initial;
    var s3 := RacesFrom(Initial(2));
    Extend(Flat, Initial(2), Arrival(1) + [Search(1, true)] + Arrival(0), s3, Finish(1));
    Releases(s3);
    var s4 := FinishSlot(s3, 1);
    Extend(Flat, Initial(2), Arrival(1) + [Search(1, true)] + Arrival(0) + [Finish(1)], s4, Sever(1));
    s := SeverSlot(s4, 1);
    Steals(s);
  }
}
