/**
 * The search of a bucket, slot by slot.  It holds the pool's mutex, but a worker that
 * is finished clears its slot's client and link without that mutex, so other workers
 * may take such steps between two visits.
 */
module PoolVisits {
  import opened PoolMemory
  import opened PoolSystem

  /** Steps that do not need the pool's mutex. */
  predicate Outside(step: Step) { !step.Search? && !step.PutBack? }

  predicate AllOutside(steps: seq<Step>) { forall k | 0 <= k < |steps| :: Outside(steps[k]) }

  /** What such steps may have done to the memory: clear the client of a slot that is held. */
  predicate Drifted(m: Mem, r: Mem, holder: seq<Option<nat>>) {
    && |r.slots| == |m.slots| && r.byCall == m.byCall && r.head == m.head
    && forall i | 0 <= i < |m.slots| ::
         && r.slots[i].callsign == m.slots[i].callsign && r.slots[i].nextByCall == m.slots[i].nextByCall
         && (r.slots[i].client == m.slots[i].client ||
             (r.slots[i].client == None && i < |holder| && holder[i].Some?))
  }

  lemma StepDrifts(hash: Hash, s: Sys, step: Step)
    requires Inv(hash, s) && Enabled(s, step) && Outside(step)
    ensures Drifted(s.mem, Apply(hash, s, step).mem, s.holder) && Apply(hash, s, step).holder == s.holder
  {
    hide Shape, Claimed, Keyed, Aged, Staffed, SearchSlot, PutSlotBack, Drifted;
    DriftsNowhere(s.mem, s.holder);
    if step.Finish? {
      var i := s.clients[step.w].at.i;
      assert SlotOf(s.clients[step.w].at) == Some(i) && s.holder[i] == Some(step.w);
      DriftsCleared(s.mem, s.holder, i);
    } else if step.Sever? {
      DriftsSevered(s.mem, s.holder, s.clients[step.w].at.i);
    }
  }

  lemma DriftsCleared(m: Mem, holder: seq<Option<nat>>, i: nat)
    requires i < |m.slots| && i < |holder| && holder[i].Some?
    ensures Drifted(m, Set(m, i, m.slots[i].(client := None)), holder)
  {
  }

  lemma DriftsSevered(m: Mem, holder: seq<Option<nat>>, i: nat)
    requires i < |m.slots|
    ensures Drifted(m, Set(m, i, m.slots[i].(next := Null)), holder)
  {
  }

  lemma DriftsOn(m: Mem, r: Mem, q: Mem, holder: seq<Option<nat>>)
    requires Drifted(m, r, holder) && Drifted(r, q, holder)
    ensures Drifted(m, q, holder)
  {
  }

  lemma {:induction false} RunDrifts(hash: Hash, s: Sys, steps: seq<Step>)
    requires Inv(hash, s) && IsRun(hash, s, steps) && AllOutside(steps)
    ensures var t := After(hash, s, steps); Inv(hash, t) && Drifted(s.mem, t.mem, s.holder) && t.holder == s.holder
    decreases |steps|
  {
    hide Inv, Safe, Apply, Enabled, Drifted;
    if steps == [] {
      assert Drifted(s.mem, s.mem, s.holder) by { DriftsNowhere(s.mem, s.holder); }
    } else {
      var t := Apply(hash, s, steps[0]);
      StepDrifts(hash, s, steps[0]);
      StepKeeps(hash, s, steps[0]);
      RunDrifts(hash, t, steps[1..]);
      DriftsOn(s.mem, t.mem, After(hash, s, steps).mem, s.holder);
    }
  }

  lemma DriftsNowhere(m: Mem, holder: seq<Option<nat>>)
    ensures Drifted(m, m, holder)
  {
  }

  // ---- the walk, with other workers' steps between its visits ----

  predicate Gaps(hash: Hash, s: Sys, gaps: seq<seq<Step>>)
    decreases |gaps|
  {
    gaps == [] ||
    (IsRun(hash, s, gaps[0]) && AllOutside(gaps[0]) && Gaps(hash, After(hash, s, gaps[0]), gaps[1..]))
  }

  /** Visit the slot at l; if it does not match, let others step and go on along the bucket. */
  function Visits(hash: Hash, s: Sys, l: Link, c: string, gaps: seq<seq<Step>>): (Link, Sys)
    requires Gaps(hash, s, gaps)
    decreases |gaps|
  {
    if l == Null || l.i >= |s.mem.slots| then (Null, s)
    else if Matches(s.mem.slots[l.i], c) then (l, s)
    else if gaps == [] then (Null, s)
    else Visits(hash, After(hash, s, gaps[0]), s.mem.slots[l.i].nextByCall, c, gaps[1..])
  }

  predicate Held(l: Link, holder: seq<Option<nat>>) { l.Ref? && l.i < |holder| && holder[l.i].Some? }

  /** From the k-th slot of the bucket on, the visits find what the first memory had, or a slot that is held. */
  lemma {:induction false} VisitsFollow(hash: Hash, s: Sys, m: Mem, h: nat, chain: seq<nat>, k: nat, c: string,
                                        gaps: seq<seq<Step>>)
    requires Inv(hash, s) && Drifted(m, s.mem, s.holder) && ChainShape(m, h, chain)
    requires Gaps(hash, s, gaps) && k <= |chain| <= k + |gaps|
    ensures var (f, t) := Visits(hash, s, Nth(chain, k), c, gaps);
      && (f == FirstMatch(m.slots, chain[k..], c) || Held(f, s.holder))
      && t.mem.head == m.head
    decreases |gaps|
  {
    hide Inv;
    if k < |chain| {
      assert CallNode(m, h, chain, k);
      assert chain[k..][1..] == chain[k + 1..];
      if !Matches(s.mem.slots[chain[k]], c) {
        var t := After(hash, s, gaps[0]);
        RunDrifts(hash, s, gaps[0]);
        DriftsOn(m, s.mem, t.mem, s.holder);
        hide Drifted, ChainShape, IsRun, After;
        VisitsFollow(hash, t, m, h, chain, k + 1, c, gaps[1..]);
      }
    }
  }

  /**
   * Whatever other workers do between its visits, the search settles on the slot it
   * would have settled on in one go, or on one that is held.  A safe search takes none
   * that is held, so it chooses as one step would.
   */
  lemma SearchVisitByVisit(hash: Hash, s: Sys, c: string, gaps: seq<seq<Step>>)
    requires Inv(hash, s) && Gaps(hash, s, gaps) && |gaps| >= |s.mem.slots|
    ensures |s.mem.byCall| == BUCKETS
    ensures var h := BucketOf(hash, c);
      var (f, t) := Visits(hash, s, s.mem.byCall[h], c, gaps);
      var choice := if f.Ref? then f else t.mem.head;
      choice == Choose(s.mem, c, h) || Held(choice, s.holder)
  {
    var h := BucketOf(hash, c);
    SearchIsFirstMatch(s.mem, s.chains, s.home, h, c);
    DriftsNowhere(s.mem, s.holder);
    var chain := s.chains[h];
    assert ChainShape(s.mem, h, chain) && s.mem.byCall[h] == Nth(chain, 0);
    DistinctBounded(chain, |s.mem.slots|);
    assert chain[0..] == chain;
    hide Inv, Gaps, Walk;
    VisitsFollow(hash, s, s.mem, h, chain, 0, c, gaps);
  }
}
