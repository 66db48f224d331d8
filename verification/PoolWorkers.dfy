/**
 * The workers of the pool are workers: what a run of the pool does to one of them is
 * a run of the worker machine, so all that is proved of that machine holds of it.
 */
module PoolWorkers {
  import opened PoolMemory
  import opened PoolSystem
  import W = WorkerMachine

  /** A worker as the pool sees it, and as the worker machine does. */
  predicate Mirrors(q: Client, w: W.Worker) {
    && w.state == q.state && !w.periodic
    && if q.at == Parked then
         match q.state
         case Starting => w.thread == W.Entering
         case Idle => w.thread in {W.Asleep, W.Woken}
         case Signaled => w.thread in {W.Entering, W.Woken, W.InWork}
         case _ => false
       else w.thread == W.InWork && q.state in {W.Busy, W.Signaled}
  }

  /** The steps of the machine that one step of the pool stands for, for one worker. */
  function Share(s: Sys, step: Step, v: nat): seq<W.Step>
    requires v < |s.clients| && Enabled(s, step)
  {
    var q := s.clients[v];
    match step
    case Accept(w) => if w == v && !q.conn && W.CanWake(q.state) then [W.DoWake] else []
    case BeginRun(w) => if w == v then [W.DoAdvance] else []
    case EndRun(w) => if w == v && q.state == W.Busy then [W.DoAdvance] else []
    case GoIdle(w) => if w == v then [W.DoAdvance] else []
    case _ => []
  }

  function Shares(hash: Hash, s: Sys, steps: seq<Step>, v: nat): seq<W.Step>
    requires IsRun(hash, s, steps)
    decreases |steps|
  {
    if steps == [] || v >= |s.clients| then []
    else Share(s, steps[0], v) + Shares(hash, Apply(hash, s, steps[0]), steps[1..], v)
  }

  /** A step that is not of this worker's machine leaves it parked or at work as it was. */
  lemma OthersStay(hash: Hash, s: Sys, step: Step, v: nat)
    requires v < |s.clients| && Enabled(s, step)
    ensures |Apply(hash, s, step).clients| == |s.clients|
    ensures Share(s, step, v) == [] && !(step.EndRun? && step.w == v) ==>
      var q, r := s.clients[v], Apply(hash, s, step).clients[v];
      r.state == q.state && (r.at == Parked <==> q.at == Parked)
  {
    if step.Search? {
      SearchStays(hash, s, step, v);
    } else {
      hide SearchSlot, AppendIdle, Set;
    }
  }

  lemma SearchStays(hash: Hash, s: Sys, step: Step, v: nat)
    requires v < |s.clients| && Enabled(s, step) && step.Search?
    ensures |Apply(hash, s, step).clients| == |s.clients|
    ensures var q, r := s.clients[v], Apply(hash, s, step).clients[v];
      r.state == q.state && (r.at == Parked <==> q.at == Parked)
  {
    hide Acquire, Minus, MoveToFront;
  }

  lemma OwnStep(hash: Hash, s: Sys, step: Step, v: nat, w: W.Worker)
    requires v < |s.clients| && Enabled(s, step) && Mirrors(s.clients[v], w)
    requires step in {Accept(v), BeginRun(v), EndRun(v), GoIdle(v)}
    ensures var share := Share(s, step, v);
      W.IsRun(w, share) && Mirrors(Apply(hash, s, step).clients[v], W.After(w, share))
  {
    hide Acquire, AppendIdle, SearchSlot, FinishSlot, SeverSlot, PutSlotBack;
    var share := Share(s, step, v);
    if share != [] { assert share[1..] == []; }
  }

  /** One step of the pool takes a worker where its share takes the machine. */
  lemma StepFollows(hash: Hash, s: Sys, step: Step, v: nat, w: W.Worker)
    requires v < |s.clients| && Enabled(s, step) && Mirrors(s.clients[v], w)
    ensures v < |Apply(hash, s, step).clients|
    ensures var share := Share(s, step, v);
      W.IsRun(w, share) && Mirrors(Apply(hash, s, step).clients[v], W.After(w, share))
  {
    OthersStay(hash, s, step, v);
    if step in {Accept(v), BeginRun(v), EndRun(v), GoIdle(v)} {
      OwnStep(hash, s, step, v, w);
    } else {
      assert Share(s, step, v) == [];
      hide Apply;
    }
  }

  lemma {:induction false} RunsJoin(w: W.Worker, a: seq<W.Step>, b: seq<W.Step>)
    requires W.IsRun(w, a) && W.IsRun(W.After(w, a), b)
    ensures W.IsRun(w, a + b) && W.After(w, a + b) == W.After(W.After(w, a), b)
    decreases |a|
  {
    hide W.Apply, W.Enabled;
    if a == [] {
      assert a + b == b;
    } else {
      assert (a + b)[1..] == a[1..] + b;
      RunsJoin(W.Apply(w, a[0]), a[1..], b);
    }
  }

  /** Every run of the pool is, for each of its workers, a run of the worker machine. */
  lemma {:induction false} RunFollows(hash: Hash, s: Sys, steps: seq<Step>, v: nat, w: W.Worker)
    requires IsRun(hash, s, steps) && v < |s.clients| && Mirrors(s.clients[v], w)
    ensures v < |After(hash, s, steps).clients| && W.IsRun(w, Shares(hash, s, steps, v))
    ensures Mirrors(After(hash, s, steps).clients[v], W.After(w, Shares(hash, s, steps, v)))
    decreases |steps|
  {
    hide Apply, Enabled, Safe, Mirrors, Share;
    if steps != [] {
      StepFollows(hash, s, steps[0], v, w);
      var t, first := Apply(hash, s, steps[0]), Share(s, steps[0], v);
      RunFollows(hash, t, steps[1..], v, W.After(w, first));
      RunsJoin(w, first, Shares(hash, t, steps[1..], v));
    }
  }

  /** So a worker of the pool is idle only when each of its accepted connections has had its run. */
  lemma IdleWorkersOweNothing(hash: Hash, n: nat, steps: seq<Step>, v: nat)
    requires n >= 1 && v < n && IsRun(hash, Initial(n), steps)
    ensures var s := After(hash, Initial(n), steps);
      var w := W.After(W.Fresh, [W.DoStart] + Shares(hash, Initial(n), steps, v));
      v < |s.clients| && Mirrors(s.clients[v], w) && W.Inv(w) &&
      (s.clients[v].state == W.Idle ==> W.AllBegan(w.log) && W.AllEnded(w.log))
  {
    var started := [W.DoStart];
    assert started[1..] == [];
    assert W.IsRun(W.Fresh, started) && Mirrors(Initial(n).clients[v], W.After(W.Fresh, started));
    hide IsRun, After, Initial, Mirrors, Shares;
    var share := Shares(hash, Initial(n), steps, v);
    RunFollows(hash, Initial(n), steps, v, W.After(W.Fresh, started));
    RunsJoin(W.Fresh, started, share);
    FreshKeeps();
    W.RunKeeps(W.Fresh, started + share);
    IdleIsServed(After(hash, Initial(n), steps).clients[v], W.After(W.Fresh, started + share));
  }

  lemma FreshKeeps()
    ensures W.Inv(W.Fresh)
  {
  }

  lemma IdleIsServed(q: Client, w: W.Worker)
    requires Mirrors(q, w) && W.Inv(w)
    ensures q.state == W.Idle ==> W.AllBegan(w.log) && W.AllEnded(w.log)
  {
  }
}
