/**
 * How a slot comes to store a callsign that never acquired it: one worker, one slot,
 * a visit as A, and a visit as B for which the slot cannot open its ports.
 */
module PoolStale {
  import opened PoolMemory
  import opened PoolSystem
  import opened PoolTheorems
  import opened PoolRace
  import W = WorkerMachine

  /** Reached by these steps, with all that holds of a run in which nothing is stale yet. */
  ghost predicate Sound(s: Sys, steps: seq<Step>) {
    && Reaches(Flat, Initial(1), steps, s) && Inv(Flat, s) && Truthful(s)
    && |s.mem.byCall| == BUCKETS && |s.clients| == |s.last| == |s.holder| == |s.mem.slots| == |s.stamp| == 1
  }

  predicate Front(s: Sys, q: Client, stack: seq<nat>, inHand: set<nat>) {
    s.clients == [q] && s.stack == stack && s.inHand == inHand && s.usable
  }

  lemma Go(s: Sys, steps: seq<Step>, step: Step) returns (t: Sys)
    requires Sound(s, steps) && Enabled(s, step) && Safe(Flat, s, step) && !Overwrites(Flat, s, step)
    ensures t == Apply(Flat, s, step) && Sound(t, steps + [step])
  {
    t := Apply(Flat, s, step);
    hide Safe, Overwrites, Reaches, Shape, Owned, Claimed, Keyed, Aged, Staffed, Truthful, Initial;
    Extend(Flat, Initial(1), steps, s, step);
    StepKeeps(Flat, s, step);
    TruthfulUnlessOverwritten(Flat, s, step);
    LengthsStay(s, step);
    hide Apply;
    TruthfulUnlessOverwritten(Flat, s, step);
    Lengths(t);
  }

  lemma LengthsStay(s: Sys, step: Step)
    requires Enabled(s, step)
    ensures |Apply(Flat, s, step).clients| == |s.clients|
  {
    hide Acquire, AppendIdle;
  }

  lemma Lengths(s: Sys)
    requires Inv(Flat, s)
    ensures |s.last| == |s.holder| == |s.mem.slots| == |s.stamp| == |s.clients| && |s.mem.byCall| == BUCKETS
  {
    hide Owned, Claimed, Keyed, Aged, Staffed, IdleShape;
  }

  lemma Plain(s: Sys, steps: seq<Step>, step: Step) returns (t: Sys)
    requires Sound(s, steps) && Enabled(s, step) && !step.Search?
    ensures t == Apply(Flat, s, step) && Sound(t, steps + [step])
  {
    hide Reaches, Inv, Truthful;
    t := Go(s, steps, step);
  }

  /** The only worker is given a connection and reaches the search. */
  lemma Arrive(s: Sys, steps: seq<Step>, c: string, state: W.WorkerState) returns (t: Sys, more: seq<Step>)
    requires Sound(s, steps) && state in {W.Starting, W.Idle}
    requires Front(s, Client(state, Parked, false), [0], {})
    ensures Sound(t, more) && Front(t, Client(W.Busy, Searching(c), true), [], {}) && t.last == s.last
  {
    hide Sound;
    t, more := s, steps;
    t := Plain(t, more, Pop);
    more := more + [Pop];
    t := Plain(t, more, Accept(0));
    more := more + [Accept(0)];
    t := Plain(t, more, BeginRun(0));
    more := more + [BeginRun(0)];
    t := Plain(t, more, Check(0));
    more := more + [Check(0)];
    t := Plain(t, more, Authorize(0, Some(c)));
    more := more + [Authorize(0, Some(c))];
  }

  /** It finishes and puts the slot back. */
  lemma Release(s: Sys, steps: seq<Step>) returns (t: Sys, more: seq<Step>)
    requires Sound(s, steps) && Front(s, Client(W.Busy, Holding(0), true), [], {})
    ensures Sound(t, more) && Front(t, Client(W.Busy, Freeing, true), [], {}) && t.last == s.last
  {
    hide Sound, Apply, Front;
    SlotStep(s, steps, Finish(0));
    t := Plain(s, steps, Finish(0));
    more := steps + [Finish(0)];
    SlotStep(t, more, Sever(0));
    t := Plain(t, more, Sever(0));
    more := more + [Sever(0)];
    SlotStep(t, more, PutBack(0));
    t := Plain(t, more, PutBack(0));
    more := more + [PutBack(0)];
  }

  function PlaceBefore(step: Step): Place {
    match step
    case Finish(_) => Holding(0)
    case Sever(_) => Cleared(0)
    case _ => Severed(0)
  }

  function PlaceAfter(step: Step): Place {
    match step
    case Finish(_) => Cleared(0)
    case Sever(_) => Severed(0)
    case _ => Freeing
  }

  lemma SlotStep(s: Sys, steps: seq<Step>, step: Step)
    requires Sound(s, steps) && step in {Finish(0), Sever(0), PutBack(0)}
    requires Front(s, Client(W.Busy, PlaceBefore(step), true), [], {})
    ensures Enabled(s, step) && Front(Apply(Flat, s, step), Client(W.Busy, PlaceAfter(step), true), [], {})
    ensures Apply(Flat, s, step).last == s.last
  {
    hide Inv, Truthful, Reaches, AppendIdle;
  }

  /** It is ready for the next connection. */
  lemma Return(s: Sys, steps: seq<Step>) returns (t: Sys, more: seq<Step>)
    requires Sound(s, steps) && Front(s, Client(W.Busy, Freeing, true), [], {})
    ensures Sound(t, more) && Front(t, Client(W.Idle, Parked, false), [0], {}) && t.last == s.last
  {
    hide Sound;
    t, more := s, steps;
    t := Plain(t, more, Free(0));
    more := more + [Free(0)];
    t := Plain(t, more, Push(0));
    more := more + [Push(0)];
    t := Plain(t, more, EndRun(0));
    more := more + [EndRun(0)];
  }

  lemma OnlySlotTaken(s: Sys, c: string)
    requires Inv(Flat, s) && |s.clients| == |s.last| == |s.holder| == |s.mem.slots| == 1 && |s.mem.byCall| == BUCKETS
    requires Front(s, Client(W.Busy, Searching(c), true), [], {})
    ensures Front(Apply(Flat, s, Search(0, true)), Client(W.Busy, Holding(0), true), [], {})
    ensures Apply(Flat, s, Search(0, true)).last == [Some(c)]
  {
    OnlySlot(s, c);
    SearchTakes(Flat, s, 0, 0);
    hide SearchSlot, Inv;
  }

  /** The only worker gets the only slot. */
  lemma Take(s: Sys, steps: seq<Step>, c: string) returns (t: Sys, more: seq<Step>)
    requires Sound(s, steps) && Front(s, Client(W.Busy, Searching(c), true), [], {})
    ensures Sound(t, more) && Front(t, Client(W.Busy, Holding(0), true), [], {}) && t.last == [Some(c)]
  {
    OnlySlot(s, c);
    hide Sound;
    t := Go(s, steps, Search(0, true));
    more := steps + [Search(0, true)];
    hide Apply;
    OnlySlotTaken(s, c);
  }

  lemma OnlySlot(s: Sys, c: string)
    requires Inv(Flat, s) && |s.clients| == |s.holder| == |s.mem.slots| == 1 && |s.mem.byCall| == BUCKETS
    requires Front(s, Client(W.Busy, Searching(c), true), [], {})
    ensures Chosen(Flat, s, 0) == Ref(0) && s.holder[0] == None && Safe(Flat, s, Search(0, true))
  {
    ChoiceIsFree(Flat, s, 0);
    hide Shape, Claimed, Keyed, Aged, Staffed, Choose;
  }

  /**
   * A run of one worker over one slot to a search as B whose slot, last acquired by A,
   * cannot open: the search leaves B stored in a slot that B never acquired.
   */
  lemma RefusedVisitLeavesItsCallsign() returns (s: Sys, steps: seq<Step>)
    ensures Reaches(Flat, Initial(1), steps, s) && Truthful(s) && Enabled(s, Search(0, false))
    ensures |s.clients| == 1 && s.clients[0].at == Searching("B") && s.last == [Some("A")]
    ensures var t := SearchSlot(Flat, s, 0, false);
      |t.mem.slots| == 1 && t.mem.slots[0].callsign == "B" && t.last == [Some("A")] && !Truthful(t)
  {
    s, steps := Initial(1), [];
    assert Sound(s, steps) by { InitialKeeps(Flat, 1); hide Inv; }
    assert Front(s, Client(W.Starting, Parked, false), [0], {});
    hide Sound, Initial;
    s, steps := Arrive(s, steps, "A", W.Starting);
    s, steps := Take(s, steps, "A");
    s, steps := Release(s, steps);
    s, steps := Return(s, steps);
    s, steps := Arrive(s, steps, "B", W.Idle);
    Refuses(s, steps);
  }

  lemma Refuses(s: Sys, steps: seq<Step>)
    requires Sound(s, steps) && Front(s, Client(W.Busy, Searching("B"), true), [], {}) && s.last == [Some("A")]
    ensures Reaches(Flat, Initial(1), steps, s) && Truthful(s) && Enabled(s, Search(0, false))
    ensures var t := SearchSlot(Flat, s, 0, false);
      |t.mem.slots| == 1 && t.mem.slots[0].callsign == "B" && t.last == [Some("A")] && !Truthful(t)
  {
    hide Inv, Initial, Reaches;
    OnlySlot(s, "B");
    RefusedClaims(Flat, s, 0, 0);
    hide SearchSlot, Choose;
  }
}
