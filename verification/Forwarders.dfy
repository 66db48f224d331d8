/**
 * The life of one slot's client connection, and the three forwarders that use
 * it: accept claims the slot and wakes two of them, an open request wakes the
 * third, and finish waits for each to become idle before it clears the client.
 */
module SlotForwarders {
  import opened WorkerMachine
  import WorkerLaws

  /** The forwarders, in the order finish waits for them. */
  const TCP: nat := 0
  const DATA: nat := 1
  const CONTROL: nat := 2

  datatype Phase =
    | Free                 // no client
    | Opening(step: nat)   // claimed; 0: ports, 1: control forwarder, 2: data forwarder
    | Serving
    | Waiting(k: nat)      // in finish, waiting for forwarder k; 3: about to clear

  datatype Slot = Slot(
    phase: Phase,
    client: int,           // the connection in use, -1 for none
    forwarders: seq<Worker>,
    done: set<int>,        // connections whose owner's finish has returned
    live: set<int>)        // connections not yet freed

  const NOBODY: int := -1

  const Initial: Slot := Slot(Free, NOBODY, [Fresh, Fresh, Fresh], {}, {})

  datatype Step =
    | StartForwarder(k: nat) | JoinForwarder(k: nat)   // proxy start and stop
    | Claim(conn: int)                                 // accept, up to releasing the slot's mutex
    | OpenPorts(ok: bool)
    | WakeForwarder                                    // the next wake in accept
    | OpenTcp                                          // an open request wakes the TCP forwarder
    | Finish
    | Await                                            // the current idle wait takes the worker's mutex
    | AwaitReturns                                     // its wait ends spuriously
    | Clear
    | FreeConnection(conn: int)
    | ForwarderRuns(k: nat) | ForwarderReturns(k: nat)
    | UseClient(k: nat)                                // forwarder k sends on the client connection

  predicate Enabled(s: Slot, step: Step) {
    && |s.forwarders| == 3
    && match step
       case StartForwarder(k) => k < 3 && s.phase == Free
       case JoinForwarder(k) => k < 3 && s.phase == Free
       case Claim(conn) => s.phase == Free && conn >= 0 && conn !in s.done
       case OpenPorts(_) => s.phase == Opening(0)
       case WakeForwarder => s.phase == Opening(1) || s.phase == Opening(2)
       case OpenTcp => s.phase == Serving
       case Finish => s.phase == Serving
       case Await => s.phase.Waiting? && s.phase.k < 3 && WorkerMachine.Enabled(s.forwarders[s.phase.k], DoWaitIdle(0))
       case AwaitReturns =>
         s.phase.Waiting? && s.phase.k < 3 && WorkerMachine.Enabled(s.forwarders[s.phase.k], WaiterReturns(0))
       case Clear => s.phase == Waiting(3)
       case FreeConnection(conn) => conn in s.done
       case ForwarderRuns(k) => k < 3 && WorkerMachine.Enabled(s.forwarders[k], DoAdvance)
       case ForwarderReturns(k) => k < 3 && WorkerMachine.Enabled(s.forwarders[k], ThreadReturns)
       case UseClient(k) => k < 3 && s.forwarders[k].thread == InWork
  }

  function With(s: Slot, k: nat, w: Worker): Slot
    requires k < |s.forwarders|
  {
    s.(forwarders := s.forwarders[k := w])
  }

  /** Wake forwarder k: on success go on, on refusal fall into finish. */
  function WakeOr(s: Slot, k: nat, next: Phase): Slot
    requires k < |s.forwarders|
  {
    if CanWake(s.forwarders[k].state) then With(s, k, Wake(s.forwarders[k])).(phase := next)
    else s.(phase := Waiting(0))
  }

  function Apply(s: Slot, step: Step): Slot
    requires Enabled(s, step)
  {
    match step
    case StartForwarder(k) => With(s, k, Start(s.forwarders[k]))
    case JoinForwarder(k) => With(s, k, Join(s.forwarders[k]))
    case Claim(conn) => s.(phase := Opening(0), client := conn, live := s.live + {conn})
    case OpenPorts(ok) => s.(phase := if ok then Opening(1) else Waiting(0))
    case WakeForwarder =>
      if s.phase == Opening(1) then WakeOr(s, CONTROL, Opening(2)) else WakeOr(s, DATA, Serving)
    case OpenTcp => With(s, TCP, Wake(s.forwarders[TCP]))
    case Finish => s.(phase := Waiting(0))
    case Await =>
      var k := s.phase.k;
      var w := WaitIdle(s.forwarders[k], 0);
      With(s, k, w).(phase := if 0 in w.waiters then s.phase else Waiting(k + 1))
    case AwaitReturns => With(s, s.phase.k, WorkerMachine.Apply(s.forwarders[s.phase.k], WaiterReturns(0)))
    case Clear => s.(phase := Free, client := NOBODY, done := s.done + {s.client})
    case FreeConnection(conn) => s.(live := s.live - {conn})
    case ForwarderRuns(k) => With(s, k, Advance(s.forwarders[k]))
    case ForwarderReturns(k) => With(s, k, WorkerMachine.Apply(s.forwarders[k], ThreadReturns))
    case UseClient(_) => s
  }

  predicate IsRun(s: Slot, steps: seq<Step>)
    decreases |steps|
  {
    steps == [] || (Enabled(s, steps[0]) && IsRun(Apply(s, steps[0]), steps[1..]))
  }

  function After(s: Slot, steps: seq<Step>): Slot
    requires IsRun(s, steps)
    decreases |steps|
  {
    if steps == [] then s else After(Apply(s, steps[0]), steps[1..])
  }

  // ---- the invariant ----

  /** Not running, and nothing to run for. */
  predicate AtRest(w: Worker) { w.thread != InWork && !Due(w.state) }

  /** A forwarder that is stopping is at rest, so an idle wait that gives up early misses nothing. */
  predicate Tame(w: Worker) { w.state in {Stopping, StoppingAfterWork} ==> AtRest(w) }

  ghost predicate Good(w: Worker) { WorkerMachine.Inv(w) && Tame(w) && !w.periodic }

  /** Forwarders that must be at rest in a phase. */
  predicate MustRest(p: Phase, k: nat) { p == Free || (p.Waiting? && k < p.k) }

  ghost predicate Inv(s: Slot) {
    && |s.forwarders| == 3
    && (forall k | 0 <= k < 3 :: Good(s.forwarders[k]) && (MustRest(s.phase, k) ==> AtRest(s.forwarders[k])))
    && (s.phase.Waiting? ==> s.phase.k <= 3)
    && (s.phase == Free <==> s.client == NOBODY)
    && (s.client != NOBODY ==> s.client in s.live && s.client !in s.done)
  }

  lemma GoodWake(w: Worker)
    requires Good(w)
    ensures Good(Wake(w))
  {
    WakeKeeps(w);
  }

  lemma GoodStart(w: Worker)
    requires Good(w) && AtRest(w)
    ensures Good(Start(w)) && AtRest(Start(w))
  {
    StartKeeps(w);
  }

  lemma GoodJoin(w: Worker)
    requires Good(w) && AtRest(w)
    ensures Good(Join(w)) && AtRest(Join(w))
  {
    JoinKeeps(w);
  }

  lemma GoodAdvance(w: Worker)
    requires Good(w) && WorkerMachine.Enabled(w, DoAdvance)
    ensures Good(Advance(w)) && (AtRest(w) ==> AtRest(Advance(w)))
  {
    AdvanceKeeps(w);
  }

  /** An idle wait that returns, with or without an error, leaves the forwarder at rest. */
  lemma GoodWait(w: Worker, id: nat)
    requires Good(w)
    ensures Good(WaitIdle(w, id)) && (id !in WaitIdle(w, id).waiters ==> AtRest(WaitIdle(w, id)))
    ensures AtRest(w) ==> AtRest(WaitIdle(w, id))
  {
    WaitIdleKeeps(w, id);
  }

  lemma GoodReturn(w: Worker, step: WorkerMachine.Step)
    requires Good(w) && WorkerMachine.Enabled(w, step) && (step.ThreadReturns? || step.WaiterReturns?)
    ensures Good(WorkerMachine.Apply(w, step)) && (AtRest(w) ==> AtRest(WorkerMachine.Apply(w, step)))
  {
    WorkerMachine.StepKeeps(w, step);
  }

  lemma StepKeeps(s: Slot, step: Step)
    requires Inv(s) && Enabled(s, step)
    ensures Inv(Apply(s, step))
  {
    hide Good, AtRest;
    match step
    case StartForwarder(k) => GoodStart(s.forwarders[k]);
    case JoinForwarder(k) => GoodJoin(s.forwarders[k]);
    case WakeForwarder => GoodWake(s.forwarders[CONTROL]); GoodWake(s.forwarders[DATA]);
    case OpenTcp => GoodWake(s.forwarders[TCP]);
    case Await => GoodWait(s.forwarders[s.phase.k], 0);
    case AwaitReturns => GoodReturn(s.forwarders[s.phase.k], WaiterReturns(0));
    case ForwarderRuns(k) => GoodAdvance(s.forwarders[k]);
    case ForwarderReturns(k) => GoodReturn(s.forwarders[k], ThreadReturns);
    case _ =>
  }

  lemma {:induction false} RunKeeps(s: Slot, steps: seq<Step>)
    requires Inv(s) && IsRun(s, steps)
    ensures Inv(After(s, steps))
    decreases |steps|
  {
    if steps != [] {
      hide Inv;
      StepKeeps(s, steps[0]);
      RunKeeps(Apply(s, steps[0]), steps[1..]);
    }
  }

  /**
   * From the return of finish to the next accept no forwarder runs or has work
   * pending, and a forwarder only ever uses a connection that has not been freed.
   */
  lemma ForwardersRestBetweenClients(steps: seq<Step>)
    requires IsRun(Initial, steps)
    ensures var s := After(Initial, steps);
      && |s.forwarders| == 3
      && (s.phase == Free ==> forall k | 0 <= k < 3 :: AtRest(s.forwarders[k]))
      && (forall k | 0 <= k < 3 && Enabled(s, UseClient(k)) :: s.client != NOBODY && s.client in s.live)
  {
    assert Good(Fresh);
    RunKeeps(Initial, steps);
    hide Good, IsRun, After;
  }

  // ---- which forwarders are woken ----

  /** How often forwarder k has been woken. */
  function Wakes(s: Slot, k: nat): nat
    requires k < |s.forwarders|
  {
    WorkerLaws.Count(WakeAccepted, s.forwarders[k].log)
  }

  /** An accept reaches service, for its connection, exactly when the ports open and both forwarders can be woken. */
  lemma AcceptSucceedsIff(s: Slot, conn: int)
    requires |s.forwarders| == 3 && s.phase == Free && conn >= 0 && conn !in s.done
    ensures Apply(Apply(s, Claim(conn)), OpenPorts(false)).phase == Waiting(0)
    ensures var s2 := Apply(Apply(s, Claim(conn)), OpenPorts(true));
      && s2.phase == Opening(1) && s2.client == conn && s2.forwarders == s.forwarders
      && var s3 := Apply(s2, WakeForwarder);
      && (s3.phase == Opening(2) <==> CanWake(s.forwarders[CONTROL].state))
      && (s3.phase != Opening(2) ==> s3.phase == Waiting(0))
      && (s3.phase == Opening(2) ==>
            var s4 := Apply(s3, WakeForwarder);
            && s4.client == conn && (s4.phase == Serving <==> CanWake(s.forwarders[DATA].state))
            && (s4.phase != Serving ==> s4.phase == Waiting(0)))
  {
  }

  /** The wakes that the step gives forwarder k. */
  function Given(s: Slot, step: Step, k: nat): nat
    requires |s.forwarders| == 3 && k < 3
  {
    if !CanWake(s.forwarders[k].state) then 0
    else if step == OpenTcp && k == TCP then 1
    else if step == WakeForwarder && s.phase == Opening(1) && k == CONTROL then 1
    else if step == WakeForwarder && s.phase == Opening(2) && k == DATA then 1
    else 0
  }

  /** A forwarder is woken by its own place in accept or by an open request, and by nothing else. */
  lemma WakesGiven(s: Slot, step: Step, k: nat)
    requires Enabled(s, step) && k < 3
    ensures |Apply(s, step).forwarders| == 3 && Wakes(Apply(s, step), k) == Wakes(s, k) + Given(s, step, k)
  {
    hide WorkerLaws.Count;
    var w := s.forwarders[k];
    WorkerLaws.CountMore(w.log, WakeAccepted);
    WorkerLaws.CountMore(w.log, Launched);
    WorkerLaws.CountMore(w.log, WaitedIdle);
    if step == ForwarderRuns(k) { AdvanceWakesNobody(w); }
  }

  lemma AdvanceWakesNobody(w: Worker)
    ensures WorkerLaws.Count(WakeAccepted, Advance(w).log) == WorkerLaws.Count(WakeAccepted, w.log)
  {
    hide WorkerLaws.Count;
    var v := match w.thread case InWork => w.(log := w.log + [RunEnded]) case Woken => AfterWait(w) case _ => w;
    WorkerLaws.CountMore(w.log, RunEnded);
    WorkerLaws.CountMore(w.log, PeriodicDue);
    WorkerLaws.CountMore(v.log, RunBegan);
    WorkerLaws.CountMore(v.log, Halted);
  }

  /** How far an accept begun when the forwarders had been woken c and d times has come. */
  predicate AcceptedSoFar(s: Slot, c: nat, d: nat) {
    && |s.forwarders| == 3
    && match s.phase
       case Opening(n) =>
         n <= 2 && Wakes(s, CONTROL) == c + (if n == 2 then 1 else 0) && Wakes(s, DATA) == d
       case Serving => Wakes(s, CONTROL) == c + 1 && Wakes(s, DATA) == d + 1
       case Waiting(_) => Wakes(s, CONTROL) <= c + 1 && Wakes(s, DATA) <= d + 1
       case Free => true
  }

  lemma AcceptGoesOn(s: Slot, step: Step, c: nat, d: nat)
    requires AcceptedSoFar(s, c, d) && Enabled(s, step) && !step.Claim? && s.phase != Free
    ensures AcceptedSoFar(Apply(s, step), c, d)
  {
    hide Wakes;
    WakesGiven(s, step, CONTROL);
    WakesGiven(s, step, DATA);
  }

  lemma {:induction false} AcceptRun(s: Slot, steps: seq<Step>, c: nat, d: nat)
    requires AcceptedSoFar(s, c, d) && s.phase != Free && IsRun(s, steps) && Clear !in steps
    ensures AcceptedSoFar(After(s, steps), c, d)
    decreases |steps|
  {
    hide AcceptedSoFar;
    if steps != [] {
      assert !steps[0].Claim? && Apply(s, steps[0]).phase != Free;
      AcceptGoesOn(s, steps[0], c, d);
      hide Apply, Enabled;
      AcceptRun(Apply(s, steps[0]), steps[1..], c, d);
    }
  }

  /** No service without open ports. */
  lemma {:induction false} ServiceNeedsPorts(s: Slot, steps: seq<Step>)
    requires (s.phase == Opening(0) || s.phase.Waiting?) && IsRun(s, steps) && Clear !in steps
    requires !After(s, steps).phase.Waiting? && After(s, steps).phase != Opening(0)
    ensures OpenPorts(true) in steps
    decreases |steps|
  {
    if steps != [] && steps[0] != OpenPorts(true) { ServiceNeedsPorts(Apply(s, steps[0]), steps[1..]); }
  }

  /**
   * While a client is served, its accept has woken the control forwarder once and the
   * data forwarder once, and its ports are open, in every run from the claim on.
   */
  lemma ServedByBothForwarders(s: Slot, conn: int, steps: seq<Step>)
    requires Enabled(s, Claim(conn)) && IsRun(Apply(s, Claim(conn)), steps) && Clear !in steps
    ensures var t := After(Apply(s, Claim(conn)), steps);
      |t.forwarders| == 3 &&
      (t.phase == Serving ==>
         Wakes(t, CONTROL) == Wakes(s, CONTROL) + 1 && Wakes(t, DATA) == Wakes(s, DATA) + 1 && OpenPorts(true) in steps)
  {
    if After(Apply(s, Claim(conn)), steps).phase == Serving { ServiceNeedsPorts(Apply(s, Claim(conn)), steps); }
    AcceptRun(Apply(s, Claim(conn)), steps, Wakes(s, CONTROL), Wakes(s, DATA));
  }

  // ---- starting and joining the forwarders ----

  /** Once started, a forwarder can be woken, and the others are as they were. */
  lemma StartReadies(s: Slot, k: nat)
    requires Enabled(s, StartForwarder(k)) && s.forwarders[k].state == Stopped
    ensures var t := Apply(s, StartForwarder(k));
      && t == s.(forwarders := t.forwarders) && |t.forwarders| == 3 && CanWake(t.forwarders[k].state)
      && forall j | 0 <= j < 3 && j != k :: t.forwarders[j] == s.forwarders[j]
  {
  }

  /** Without forwarder k, one of the two that accept wakes, no accept gets past it. */
  predicate CannotServe(s: Slot, k: nat) {
    && |s.forwarders| == 3 && (k == CONTROL || k == DATA)
    && Agrees(s.forwarders[k]) && WorkerLaws.Closing(s.forwarders[k].state)
    && s.phase != Serving && (k == CONTROL ==> s.phase != Opening(2))
  }

  lemma CannotServeStays(s: Slot, step: Step, k: nat)
    requires CannotServe(s, k) && Enabled(s, step) && step != StartForwarder(k)
    ensures CannotServe(Apply(s, step), k)
  {
  }

  /** From the join of either forwarder on, no client is served until it is started again. */
  lemma NoServiceOnceJoined(s: Slot, k: nat, steps: seq<Step>)
    requires Enabled(s, JoinForwarder(k)) && Agrees(s.forwarders[k]) && (k == CONTROL || k == DATA)
    requires IsRun(Apply(s, JoinForwarder(k)), steps) && StartForwarder(k) !in steps
    ensures After(Apply(s, JoinForwarder(k)), steps).phase != Serving
  {
    CannotServeRun(Apply(s, JoinForwarder(k)), k, steps);
  }

  lemma {:induction false} CannotServeRun(s: Slot, k: nat, steps: seq<Step>)
    requires CannotServe(s, k) && IsRun(s, steps) && StartForwarder(k) !in steps
    ensures CannotServe(After(s, steps), k)
    decreases |steps|
  {
    if steps != [] {
      hide CannotServe, Apply, Enabled;
      CannotServeStays(s, steps[0], k);
      CannotServeRun(Apply(s, steps[0]), k, steps[1..]);
    }
  }
}
