/**
 * The threaded worker: seven states, one mutex, a "work" condition and an
 * "idle" condition.  A step is one critical section of the worker's mutex, or
 * the return of a condition wait (signalled, timed out or spurious).  The log is
 * a history of what happened, in order; nothing in the code reads it.
 */
module WorkerMachine {

  /** In the order of the enumeration; the code compares states by rank. */
  datatype WorkerState =
    | Stopped | Stopping | StoppingAfterWork | Busy | Signaled | Idle | Starting

  function Rank(s: WorkerState): nat {
    match s
    case Stopped => 0
    case Stopping => 1
    case StoppingAfterWork => 2
    case Busy => 3
    case Signaled => 4
    case Idle => 5
    case Starting => 6
  }

  /** Where the worker's thread is while it does not hold the mutex. */
  datatype ThreadAt = NoThread | Entering | InWork | Asleep | Woken

  /** Where a caller of the idle wait is while it does not hold the mutex. */
  datatype WaiterAt = WaiterAsleep | WaiterReady

  datatype Event = Launched | WakeAccepted | PeriodicDue | RunBegan | RunEnded | WaitedIdle | Halted

  datatype Worker = Worker(
    periodic: bool,
    state: WorkerState,
    thread: ThreadAt,
    waiters: map<nat, WaiterAt>,
    log: seq<Event>)

  const Fresh: Worker := Worker(false, Stopped, NoThread, map[], [])

  /** Work has been asked for and its run has not begun. */
  predicate Due(s: WorkerState) { s == Signaled || s == StoppingAfterWork }

  // ---- the critical sections, as functions of the state ----

  function WakeWaiters(m: map<nat, WaiterAt>): map<nat, WaiterAt> {
    map i | i in m :: WaiterReady
  }

  function CanWake(s: WorkerState): bool { Rank(s) > Rank(StoppingAfterWork) }

  function Wake(w: Worker): Worker {
    if CanWake(w.state) then
      w.(thread := if w.state == Idle && w.thread == Asleep then Woken else w.thread,
         state := Signaled,
         log := w.log + [WakeAccepted])
    else w
  }

  function Join(w: Worker): Worker {
    var v := if Rank(w.state) > Rank(StoppingAfterWork) then
               w.(thread := if w.state == Idle && w.thread == Asleep then Woken else w.thread,
                  state := if w.state == Signaled then StoppingAfterWork else Stopping)
             else w;
    v.(waiters := WakeWaiters(v.waiters))
  }

  function Start(w: Worker): Worker {
    if w.state == Stopped then
      w.(state := Starting, thread := Entering, log := w.log + [Launched])
    else w
  }

  /** What an idle waiter does each time it holds the mutex. */
  function WaitIdle(w: Worker, id: nat): Worker {
    if Rank(w.state) >= Rank(Idle) then w.(waiters := w.waiters - {id}, log := w.log + [WaitedIdle])
    else if Rank(w.state) < Rank(Busy) then w.(waiters := w.waiters - {id})
    else w.(waiters := w.waiters[id := WaiterAsleep])
  }

  /** The thread's loop, from holding the mutex to giving it up again. */
  function Loop(w: Worker): Worker {
    if Rank(w.state) <= Rank(Stopping) then
      w.(state := Stopped, thread := NoThread, log := w.log + [Halted])
    else if Due(w.state) then
      w.(state := if w.state == StoppingAfterWork then Stopping else Busy,
         thread := InWork,
         log := w.log + [RunBegan])
    else
      w.(state := Idle, thread := Asleep, waiters := WakeWaiters(w.waiters))
  }

  function AfterWait(w: Worker): Worker {
    if w.periodic && w.state == Idle then w.(state := Signaled, log := w.log + [PeriodicDue]) else w
  }

  function Advance(w: Worker): Worker {
    match w.thread
    case Entering => Loop(w)
    case InWork => Loop(w.(log := w.log + [RunEnded]))
    case Woken => Loop(AfterWait(w))
    case _ => w
  }

  // ---- steps and runs ----

  datatype Step =
    | DoWake | DoJoin | DoStart
    | DoWaitIdle(id: nat)      // first entry, or re-entry after a wait
    | DoAdvance                // the worker's own thread
    | ThreadReturns            // its wait ends: time-out or spurious
    | WaiterReturns(id: nat)   // a waiter's wait ends spuriously

  predicate Enabled(w: Worker, s: Step) {
    match s
    case DoWaitIdle(id) => id in w.waiters ==> w.waiters[id] == WaiterReady
    case DoAdvance => w.thread in {Entering, InWork, Woken}
    case ThreadReturns => w.thread == Asleep
    case WaiterReturns(id) => id in w.waiters && w.waiters[id] == WaiterAsleep
    case _ => true
  }

  function Apply(w: Worker, s: Step): Worker {
    match s
    case DoWake => Wake(w)
    case DoJoin => Join(w)
    case DoStart => Start(w)
    case DoWaitIdle(id) => WaitIdle(w, id)
    case DoAdvance => Advance(w)
    case ThreadReturns => w.(thread := Woken)
    case WaiterReturns(id) => w.(waiters := w.waiters[id := WaiterReady])
  }

  predicate IsRun(w: Worker, steps: seq<Step>)
    decreases |steps|
  {
    steps == [] || (Enabled(w, steps[0]) && IsRun(Apply(w, steps[0]), steps[1..]))
  }

  function After(w: Worker, steps: seq<Step>): Worker
    decreases |steps|
  {
    if steps == [] then w else After(Apply(w, steps[0]), steps[1..])
  }

  // ---- what the log promises ----

  /** Every accepted wake is followed by the start of a run: a scan from the end. */
  predicate AllBegan(log: seq<Event>) {
    log == [] ||
    match log[|log| - 1]
    case RunBegan => true
    case WakeAccepted => false
    case _ => AllBegan(log[..|log| - 1])
  }

  /** Every run that started has ended: a scan from the end. */
  predicate AllEnded(log: seq<Event>) {
    log == [] ||
    match log[|log| - 1]
    case RunEnded => true
    case RunBegan => false
    case _ => AllEnded(log[..|log| - 1])
  }

  /** Whenever the worker stopped, or a waiter was told it is idle, nothing was outstanding. */
  predicate Settled(log: seq<Event>) {
    log == [] ||
    var before := log[..|log| - 1];
    && Settled(before)
    && (log[|log| - 1] in {Halted, WaitedIdle} ==> AllBegan(before) && AllEnded(before))
  }

  function Depth(log: seq<Event>): int {
    if log == [] then 0
    else Depth(log[..|log| - 1]) + match log[|log| - 1] case RunBegan => 1 case RunEnded => -1 case _ => 0
  }

  /** At every moment at most one run is in progress, and only a started run ends. */
  predicate NoOverlap(log: seq<Event>) {
    0 <= Depth(log) <= 1 && (log == [] || NoOverlap(log[..|log| - 1]))
  }

  /** No run without an accepted wake or a periodic return of its own. */
  predicate Economical(log: seq<Event>, due: nat) {
    multiset(log)[RunBegan] + due <= multiset(log)[WakeAccepted] + multiset(log)[PeriodicDue]
  }

  /** The wake at i was followed, before position j, by a run that began after it and ended. */
  ghost predicate ServedBefore(log: seq<Event>, i: nat, j: nat)
    requires j <= |log|
  {
    exists k, l :: i < k < l < j && log[k] == RunBegan && log[l] == RunEnded
  }

  // ---- the invariant ----

  predicate Agrees(w: Worker) {
    match w.thread
    case NoThread => w.state == Stopped
    case Entering => w.state in {Starting, Signaled, Stopping, StoppingAfterWork}
    case InWork => w.state in {Busy, Signaled, Stopping, StoppingAfterWork}
    case Asleep => w.state == Idle
    case Woken => w.state in {Idle, Signaled, Stopping, StoppingAfterWork}
  }

  predicate WaitersAgree(w: Worker) {
    forall i | i in w.waiters && w.waiters[i] == WaiterAsleep :: w.state in {Busy, Signaled}
  }

  ghost predicate Promises(due: bool, working: bool, log: seq<Event>) {
    && (due || AllBegan(log))
    && (working || AllEnded(log))
    && Settled(log)
    && NoOverlap(log)
    && Depth(log) == (if working then 1 else 0)
    && Economical(log, if due then 1 else 0)
  }

  ghost predicate Inv(w: Worker) {
    && Agrees(w)
    && WaitersAgree(w)
    && Promises(Due(w.state), w.thread == InWork, w.log)
  }

  // ---- the log ----

  lemma Record(log: seq<Event>, e: Event)
    ensures (log + [e])[..|log + [e]| - 1] == log
    ensures multiset(log + [e]) == multiset(log) + multiset{e}
  {
  }

  lemma {:induction false} FindBegan(log: seq<Event>, i: nat) returns (k: nat)
    requires AllBegan(log) && i < |log| && log[i] == WakeAccepted
    ensures i < k < |log| && log[k] == RunBegan
  {
    k := |log| - 1;
    if log[k] != RunBegan { k := FindBegan(log[..k], i); }
  }

  lemma {:induction false} FindEnded(log: seq<Event>, i: nat) returns (k: nat)
    requires AllEnded(log) && i < |log| && log[i] == RunBegan
    ensures i < k < |log| && log[k] == RunEnded
  {
    k := |log| - 1;
    if log[k] != RunEnded { k := FindEnded(log[..k], i); }
  }

  lemma {:induction false} SettledServes(log: seq<Event>, i: nat, j: nat)
    requires Settled(log)
    requires i < j < |log| && log[i] == WakeAccepted && log[j] in {Halted, WaitedIdle}
    ensures ServedBefore(log, i, j)
  {
    var before := log[..|log| - 1];
    if j < |log| - 1 {
      SettledServes(before, i, j);
      var k, l :| i < k < l < j && before[k] == RunBegan && before[l] == RunEnded;
      assert log[k] == RunBegan && log[l] == RunEnded;
    } else {
      var k := FindBegan(before, i);
      var l := FindEnded(before, k);
      assert log[k] == RunBegan && log[l] == RunEnded;
    }
  }

  // ---- every step keeps the invariant ----

  lemma WakeKeeps(w: Worker)
    requires Inv(w)
    ensures Inv(Wake(w))
  {
    Record(w.log, WakeAccepted);
  }

  lemma StartKeeps(w: Worker)
    requires Inv(w)
    ensures Inv(Start(w))
  {
    Record(w.log, Launched);
  }

  lemma JoinKeeps(w: Worker)
    requires Inv(w)
    ensures Inv(Join(w))
  {
  }

  lemma WaitedKeeps(w: Worker, id: nat)
    requires Inv(w) && Rank(w.state) >= Rank(Idle)
    ensures Inv(WaitIdle(w, id))
  {
    Record(w.log, WaitedIdle);
  }

  lemma WaitIdleKeeps(w: Worker, id: nat)
    requires Inv(w)
    ensures Inv(WaitIdle(w, id))
  {
    if Rank(w.state) >= Rank(Idle) {
      WaitedKeeps(w, id);
    }
  }

  /** The thread holds the mutex and no run is in progress. */
  ghost predicate AtLoop(w: Worker) {
    WaitersAgree(w) && Promises(Due(w.state), false, w.log)
  }

  lemma HaltKeeps(w: Worker)
    requires AtLoop(w) && Rank(w.state) <= Rank(Stopping)
    ensures Inv(Loop(w))
  {
    Record(w.log, Halted);
  }

  lemma BeginKeeps(w: Worker)
    requires AtLoop(w) && Due(w.state)
    ensures Inv(Loop(w))
  {
    Record(w.log, RunBegan);
  }

  lemma LoopKeeps(w: Worker)
    requires AtLoop(w)
    ensures Inv(Loop(w))
  {
    if Rank(w.state) <= Rank(Stopping) {
      HaltKeeps(w);
    } else if Due(w.state) {
      BeginKeeps(w);
    }
  }

  lemma AdvanceKeeps(w: Worker)
    requires Inv(w) && Enabled(w, DoAdvance)
    ensures Inv(Advance(w))
  {
    if w.thread == InWork {
      EndsAtLoop(w);
      hide Promises, Loop;
      LoopKeeps(w.(log := w.log + [RunEnded]));
    } else {
      WakesAtLoop(w);
      hide Promises, Loop;
      LoopKeeps(if w.thread == Woken then AfterWait(w) else w);
    }
  }

  lemma EndsAtLoop(w: Worker)
    requires Inv(w) && w.thread == InWork
    ensures AtLoop(w.(log := w.log + [RunEnded]))
  {
    Record(w.log, RunEnded);
  }

  lemma WakesAtLoop(w: Worker)
    requires Inv(w) && w.thread in {Entering, Woken}
    ensures AtLoop(if w.thread == Woken then AfterWait(w) else w)
  {
    Record(w.log, PeriodicDue);
  }

  /** The thread's critical section begins the run that is due, or finds that none is. */
  lemma AdvanceOutcome(w: Worker)
    requires Agrees(w) && Enabled(w, DoAdvance)
    ensures Advance(w).thread == InWork || (!Due(w.state) && !Due(Advance(w).state))
    ensures CanWake(w.state) ==> CanWake(Advance(w).state)
  {
  }

  lemma StepKeeps(w: Worker, s: Step)
    requires Inv(w) && Enabled(w, s)
    ensures Inv(Apply(w, s))
  {
    match s
    case DoWake => WakeKeeps(w);
    case DoJoin => JoinKeeps(w);
    case DoStart => StartKeeps(w);
    case DoWaitIdle(id) => WaitIdleKeeps(w, id);
    case DoAdvance => AdvanceKeeps(w);
    case ThreadReturns =>
    case WaiterReturns(id) =>
  }

  lemma {:induction false} RunKeeps(w: Worker, steps: seq<Step>)
    requires Inv(w) && IsRun(w, steps)
    ensures Inv(After(w, steps))
    decreases |steps|
  {
    if steps != [] {
      StepKeeps(w, steps[0]);
      RunKeeps(Apply(w, steps[0]), steps[1..]);
    }
  }

  // ---- the theorems ----

  /**
   * For every interleaving: when the worker stopped, or told a waiter that it is
   * idle, each wake accepted earlier had been followed by a run that began after
   * it and ended; runs never overlap; and there are no more runs than accepted
   * wakes and periodic returns.
   */
  lemma EveryWakeIsServed(periodic: bool, steps: seq<Step>)
    requires IsRun(Fresh.(periodic := periodic), steps)
    ensures var log := After(Fresh.(periodic := periodic), steps).log;
      && (forall i, j | 0 <= i < j < |log| && log[i] == WakeAccepted && log[j] in {Halted, WaitedIdle} ::
            ServedBefore(log, i, j))
      && NoOverlap(log)
      && Economical(log, 0)
  {
    var w := Fresh.(periodic := periodic);
    RunKeeps(w, steps);
    var log := After(w, steps).log;
    forall i, j | 0 <= i < j < |log| && log[i] == WakeAccepted && log[j] in {Halted, WaitedIdle}
      ensures ServedBefore(log, i, j)
    {
      SettledServes(log, i, j);
    }
  }

  /**
   * No wake-up is lost: the thread sleeps only while nothing is outstanding, an
   * idle waiter sleeps only while work is in progress or due, and an accepted wake
   * that is not yet running is picked up by the thread's very next critical section.
   */
  lemma NoLostWakeUp(periodic: bool, steps: seq<Step>)
    requires IsRun(Fresh.(periodic := periodic), steps)
    ensures var w := After(Fresh.(periodic := periodic), steps);
      && (w.thread == Asleep ==> w.state == Idle && AllBegan(w.log) && AllEnded(w.log))
      && (forall i | i in w.waiters && w.waiters[i] == WaiterAsleep :: w.state in {Busy, Signaled})
      && (!AllBegan(w.log) ==> Enabled(w, DoAdvance) && Advance(w).thread == InWork && AllBegan(Advance(w).log))
  {
    RunKeeps(Fresh.(periodic := periodic), steps);
  }

  // ---- the code: one method per critical section ----

  class WorkerHandle {
    const periodic: bool
    var state: WorkerState
    var thread: ThreadAt
    var waiters: map<nat, WaiterAt>
    ghost var log: seq<Event>

    ghost function Model(): Worker
      reads this
    {
      Worker(periodic, state, thread, waiters, log)
    }

    constructor (periodic: bool)
      ensures Model() == Fresh.(periodic := periodic) && Inv(Model())
    {
      this.periodic := periodic;
      state, thread, waiters, log := Stopped, NoThread, map[], [];
    }

    method BroadcastWork()
      modifies `thread
      ensures thread == if old(thread) == Asleep then Woken else old(thread)
    {
      if thread == Asleep { thread := Woken; }
    }

    method BroadcastIdle()
      modifies `waiters
      ensures waiters == WakeWaiters(old(waiters))
    {
      waiters := map i | i in waiters :: WaiterReady;
    }

    method WakeUp() returns (accepted: bool)
      requires Inv(Model())
      modifies this
      ensures Model() == Wake(old(Model())) && Inv(Model())
      ensures accepted == CanWake(old(state))
      ensures accepted ==> log == old(log) + [WakeAccepted]
    {
      WakeKeeps(Model());
      accepted := false;
      if Rank(state) > Rank(StoppingAfterWork) {
        if state == Idle { BroadcastWork(); }
        state := Signaled;
        accepted, log := true, log + [WakeAccepted];
      }
    }

    method RequestJoin()
      requires Inv(Model())
      modifies this
      ensures Model() == Join(old(Model())) && Inv(Model())
    {
      JoinKeeps(Model());
      if Rank(state) > Rank(StoppingAfterWork) {
        if state == Idle { BroadcastWork(); }
        if state == Signaled { state := StoppingAfterWork; } else { state := Stopping; }
      }
      BroadcastIdle();
    }

    method Launch()
      requires Inv(Model())
      modifies this
      ensures Model() == Start(old(Model())) && Inv(Model())
    {
      StartKeeps(Model());
      if Rank(state) <= Rank(Stopped) {
        state, thread, log := Starting, Entering, log + [Launched];
      }
    }

    /** Either the caller sleeps on, or it returns: 0 when ok, -EINVAL otherwise. */
    method AwaitIdle(id: nat) returns (returned: bool, ok: bool)
      requires Inv(Model()) && Enabled(Model(), DoWaitIdle(id))
      modifies this
      ensures Model() == WaitIdle(old(Model()), id) && Inv(Model())
      ensures returned <==> id !in waiters
      ensures returned && ok ==> AllBegan(old(log)) && AllEnded(old(log))
      ensures returned && ok <==> old(state) in {Idle, Starting}
      ensures returned && !ok <==> old(state) in {Stopped, Stopping, StoppingAfterWork}
    {
      WaitIdleKeeps(Model(), id);
      returned, ok := true, true;
      if Rank(state) < Rank(Idle) {
        if Rank(state) < Rank(Busy) {
          ok, waiters := false, waiters - {id};
        } else {
          returned, waiters := false, waiters[id := WaiterAsleep];
        }
      } else {
        waiters, log := waiters - {id}, log + [WaitedIdle];
      }
    }

    /** The thread, from taking the mutex back to giving it up. */
    method ThreadSection()
      requires Inv(Model()) && Enabled(Model(), DoAdvance)
      modifies this
      ensures Model() == Advance(old(Model())) && Inv(Model())
    {
      hide Inv;
      AdvanceKeeps(Model());
      if thread == InWork {
        log := log + [RunEnded];
      } else if thread == Woken && periodic && state == Idle {
        state, log := Signaled, log + [PeriodicDue];
      }
      if Rank(state) > Rank(Stopping) {
        if state == Signaled || state == StoppingAfterWork {
          if state == StoppingAfterWork { state := Stopping; } else { state := Busy; }
          thread, log := InWork, log + [RunBegan];
        } else {
          state, thread := Idle, Asleep;
          BroadcastIdle();
        }
      } else {
        state, thread, log := Stopped, NoThread, log + [Halted];
      }
    }
  }
}
