/** What the worker's operations achieve: when wakes are accepted, what a join ends, what a time-out begins. */
module WorkerLaws {
  import opened WorkerMachine

  function Count(e: Event, log: seq<Event>): nat {
    if log == [] then 0 else Count(e, log[..|log| - 1]) + if log[|log| - 1] == e then 1 else 0
  }

  lemma CountMore(log: seq<Event>, f: Event)
    ensures forall e :: Count(e, log + [f]) == Count(e, log) + if e == f then 1 else 0
  {
    assert (log + [f])[..|log|] == log;
  }

  // ---- a join ----

  /** A joined worker takes no more wakes, and its thread has at most one run to do before it stops. */
  lemma JoinStops(w: Worker)
    requires Agrees(w) && w.thread != NoThread
    ensures var u := Join(w);
      && !CanWake(u.state) && Enabled(u, DoAdvance)
      && (Advance(u).state == Stopped ||
          (Advance(u).thread == InWork && Advance(Advance(u)).state == Stopped))
  {
  }

  /** Asked to stop, or stopped. */
  predicate Closing(s: WorkerState) { s in {Stopped, Stopping, StoppingAfterWork} }

  /** Runs that a worker asked to stop has still to begin. */
  function Owed(s: WorkerState): nat { if Due(s) then 1 else 0 }

  lemma ClosingStep(w: Worker, s: Step)
    requires Agrees(w) && Closing(w.state) && Enabled(w, s) && s != DoStart
    ensures var u := Apply(w, s);
      && Agrees(u) && Closing(u.state)
      && Count(WakeAccepted, u.log) == Count(WakeAccepted, w.log)
      && Count(PeriodicDue, u.log) == Count(PeriodicDue, w.log)
      && Count(RunBegan, u.log) + Owed(u.state) == Count(RunBegan, w.log) + Owed(w.state)
  {
    hide Count;
    if s == DoAdvance {
      var v := if w.thread == InWork then w.(log := w.log + [RunEnded]) else w;
      CountMore(w.log, RunEnded);
      CountMore(v.log, RunBegan);
      CountMore(v.log, Halted);
    }
  }

  /**
   * From a join on, until the next start: no wake is accepted and no period falls due; a
   * wake accepted before gets the one run it is owed; and the thread can always go on
   * until it has stopped, when exactly those runs have begun.
   */
  lemma {:induction false} JoinedRun(w: Worker, steps: seq<Step>)
    requires Agrees(w) && IsRun(Join(w), steps) && DoStart !in steps
    ensures var u := After(Join(w), steps);
      && !CanWake(u.state) && (u.state != Stopped ==> Enabled(u, DoAdvance))
      && Count(WakeAccepted, u.log) == Count(WakeAccepted, w.log)
      && Count(PeriodicDue, u.log) == Count(PeriodicDue, w.log)
      && Count(RunBegan, u.log) + Owed(u.state) == Count(RunBegan, w.log) + Owed(w.state)
  {
    ClosingRun(Join(w), steps);
  }

  lemma {:induction false} ClosingRun(w: Worker, steps: seq<Step>)
    requires Agrees(w) && Closing(w.state) && IsRun(w, steps) && DoStart !in steps
    ensures var u := After(w, steps);
      && Agrees(u) && Closing(u.state)
      && Count(WakeAccepted, u.log) == Count(WakeAccepted, w.log)
      && Count(PeriodicDue, u.log) == Count(PeriodicDue, w.log)
      && Count(RunBegan, u.log) + Owed(u.state) == Count(RunBegan, w.log) + Owed(w.state)
    decreases |steps|
  {
    hide Count, Agrees, Apply, Enabled, Closing, Owed;
    if steps != [] {
      ClosingStep(w, steps[0]);
      ClosingRun(Apply(w, steps[0]), steps[1..]);
    }
  }

  // ---- a start ----

  /** From a start on, until the next join, every wake is accepted. */
  lemma {:induction false} StartedRun(w: Worker, steps: seq<Step>)
    requires Agrees(w) && (w.state == Stopped || CanWake(w.state)) && IsRun(Start(w), steps) && DoJoin !in steps
    ensures CanWake(After(Start(w), steps).state)
  {
    WakeableRun(Start(w), steps);
  }

  lemma {:induction false} WakeableRun(w: Worker, steps: seq<Step>)
    requires Agrees(w) && CanWake(w.state) && IsRun(w, steps) && DoJoin !in steps
    ensures CanWake(After(w, steps).state)
    decreases |steps|
  {
    if steps != [] { WakeableRun(Apply(w, steps[0]), steps[1..]); }
  }

  /** Threads launched and not yet halted. */
  function Running(log: seq<Event>): int { Count(Launched, log) - Count(Halted, log) }

  lemma OneThreadStep(w: Worker, s: Step)
    requires Agrees(w) && Enabled(w, s) && Running(w.log) == (if w.thread == NoThread then 0 else 1)
    ensures var u := Apply(w, s); Agrees(u) && Running(u.log) == if u.thread == NoThread then 0 else 1
  {
    hide Count;
    if s == DoAdvance {
      var v := match w.thread case InWork => w.(log := w.log + [RunEnded]) case Woken => AfterWait(w) case _ => w;
      CountMore(w.log, RunEnded);
      CountMore(w.log, PeriodicDue);
      CountMore(v.log, RunBegan);
      CountMore(v.log, Halted);
    } else {
      CountMore(w.log, Launched);
      CountMore(w.log, WakeAccepted);
      CountMore(w.log, WaitedIdle);
    }
  }

  /** However often a worker is started, it has at most one thread. */
  lemma {:induction false} OneThread(w: Worker, steps: seq<Step>)
    requires Agrees(w) && IsRun(w, steps) && Running(w.log) == (if w.thread == NoThread then 0 else 1)
    ensures var u := After(w, steps); Running(u.log) == if u.thread == NoThread then 0 else 1
    decreases |steps|
  {
    hide Running, Agrees, Apply, Enabled;
    if steps != [] {
      OneThreadStep(w, steps[0]);
      OneThread(Apply(w, steps[0]), steps[1..]);
    }
  }

  // ---- a wait that ends ----

  /**
   * When the sleeping thread's wait ends without a wake, a periodic worker begins a run
   * and any other goes back to sleep as if nothing had been.
   */
  lemma TimeOutBegins(w: Worker)
    requires Agrees(w) && w.thread == Asleep
    ensures var u := Advance(Apply(w, ThreadReturns));
      if w.periodic then u.thread == InWork && u.state == Busy && u.log == w.log + [PeriodicDue] + [RunBegan]
      else u.thread == Asleep && u.state == Idle && u.log == w.log
  {
  }

  /**
   * A caller that waits for idle is told so exactly when the worker is idle or starting, and
   * sleeps while it is at work.
   */
  lemma WaitOutcome(w: Worker, id: nat)
    requires Agrees(w)
    ensures var u := WaitIdle(w, id);
      && u.state == w.state && u.thread == w.thread
      && (u.log == w.log + [WaitedIdle] <==> w.state in {Idle, Starting})
      && (id in u.waiters <==> w.state in {Busy, Signaled})
      && (w.state in {Stopped, Stopping, StoppingAfterWork} ==> u.log == w.log && id !in u.waiters)
  {
    assert w.log + [WaitedIdle] != w.log;
  }
}
