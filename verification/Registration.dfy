/**
 * The registration service: a status and two slot counts, posted under the
 * service's mutex, and a periodic worker whose runs read them and report them.
 * A step is one critical section of the service's mutex, or a step of the worker.
 */
module RegistrationService {
  import opened WorkerMachine

  datatype Status = Unknown | Ready | Full | Off

  datatype Content = Content(status: Status, used: nat, total: nat)

  /** What one run read: the content, its place in the history, and the wakes accepted by then. */
  datatype Report = Report(content: Content, at: nat, seen: nat)

  datatype Service = Service(
    worker: Worker,
    history: seq<Content>,   // every content ever held; the last one is current
    posted: seq<nat>,        // for each accepted wake, the newest content at that moment
    hasRead: bool,           // the run in progress has read the content
    reports: seq<Report>,
    starting: bool,          // start holds the service's mutex, between starting the worker and waking it
    stops: nat)              // stops that have posted Off and not yet asked the worker to join

  function Initial(c: Content): Service {
    Service(Fresh.(periodic := true), [c], [], false, [], false, 0)
  }

  function Current(s: Service): Content
    requires s.history != []
  {
    s.history[|s.history| - 1]
  }

  function Seen(s: Service): nat {
    if s.reports == [] then 0 else s.reports[|s.reports| - 1].seen
  }

  // ---- the critical sections ----

  function Post(s: Service, c: Content): Service { s.(history := s.history + [c]) }

  function WakeWorker(s: Service): Service {
    if CanWake(s.worker.state) && s.history != [] then
      s.(worker := Wake(s.worker), posted := s.posted + [|s.history| - 1])
    else s
  }

  function StartWorker(s: Service): Service { s.(worker := Start(s.worker), starting := true) }

  /** The rest of start: an accepted wake turns Off back into unknown. */
  function WakeStarted(s: Service): Service
    requires s.history != []
  {
    var t := WakeWorker(s).(starting := false);
    if CanWake(s.worker.state) && Current(t).status == Off then Post(t, Current(t).(status := Unknown)) else t
  }

  function UpdateService(s: Service, used: nat, total: nat): Service
    requires s.history != []
  {
    if Current(s).status == Off then s
    else WakeWorker(Post(s, Content(if used >= total then Full else Ready, used, total)))
  }

  function StopService(s: Service): Service
    requires s.history != []
  {
    WakeWorker(Post(s, Current(s).(status := Off)).(stops := s.stops + 1))
  }

  function ReadContent(s: Service): Service
    requires s.history != []
  {
    s.(hasRead := true,
       reports := s.reports + [Report(Current(s), |s.history| - 1, |s.posted|)])
  }

  // ---- steps and runs ----

  datatype Move =
    | StartUp                  // start takes the service's mutex and starts the worker
    | StartWakes               // and wakes it, still holding that mutex
    | Update(used: nat, total: nat)
    | Stop                     // the critical section of stop
    | StopJoins                // its call of the worker's join
    | Read                     // the report function's critical section
    | WorkerAdvances
    | WorkerReturns

  predicate CanMove(s: Service, m: Move) {
    match m
    case StartWakes => s.starting
    case Read => s.worker.thread == InWork && !s.hasRead && !s.starting
    case WorkerAdvances => Enabled(s.worker, DoAdvance) && (s.worker.thread == InWork ==> s.hasRead)
    case WorkerReturns => Enabled(s.worker, ThreadReturns)
    case StopJoins => s.stops > 0
    case _ => !s.starting
  }

  function Perform(s: Service, m: Move): (t: Service)
    requires s.history != []
    ensures t.history != []
  {
    match m
    case StartUp => StartWorker(s)
    case StartWakes => WakeStarted(s)
    case Update(used, total) => UpdateService(s, used, total)
    case Stop => StopService(s)
    case StopJoins => if s.stops > 0 then s.(worker := Join(s.worker), stops := s.stops - 1) else s
    case Read => ReadContent(s)
    case WorkerAdvances => s.(worker := Advance(s.worker), hasRead := false)
    case WorkerReturns => s.(worker := Apply(s.worker, ThreadReturns))
  }

  predicate CanPerform(s: Service, moves: seq<Move>)
    requires s.history != []
    decreases |moves|
  {
    moves == [] || (CanMove(s, moves[0]) && CanPerform(Perform(s, moves[0]), moves[1..]))
  }

  function PerformAll(s: Service, moves: seq<Move>): (t: Service)
    requires s.history != []
    ensures t.history != []
    decreases |moves|
  {
    if moves == [] then s else PerformAll(Perform(s, moves[0]), moves[1..])
  }

  // ---- the invariant ----

  /** A report holds the content it claims, at least as new as every wake accepted before it. */
  predicate Honest(r: Report, history: seq<Content>, posted: seq<nat>) {
    && r.at < |history| && r.content == history[r.at] && r.seen <= |posted|
    && forall k | 0 <= k < r.seen :: posted[k] <= r.at
  }

  predicate Faithful(reports: seq<Report>, history: seq<Content>, posted: seq<nat>) {
    && (forall i | 0 <= i < |reports| :: Honest(reports[i], history, posted))
    && (forall k | 0 <= k < |posted| :: posted[k] < |history|)
  }

  /** A wake whose content no run has read yet has a run due, or one about to read. */
  predicate NothingMissed(s: Service) {
    Due(s.worker.state) || (s.worker.thread == InWork && !s.hasRead) || Seen(s) == |s.posted|
  }

  ghost predicate Good(s: Service) {
    s.history != [] && Inv(s.worker) && Faithful(s.reports, s.history, s.posted) && NothingMissed(s)
  }

  lemma WakeWorkerKeeps(s: Service)
    requires Good(s)
    ensures Good(WakeWorker(s))
  {
    WakeKeeps(s.worker);
  }

  lemma PostKeeps(s: Service, c: Content)
    requires Good(s)
    ensures Good(Post(s, c))
  {
  }

  lemma StartUpKeeps(s: Service)
    requires Good(s)
    ensures Good(StartWorker(s))
  {
    StartKeeps(s.worker);
  }

  lemma StartWakesKeeps(s: Service)
    requires Good(s)
    ensures Good(WakeStarted(s))
  {
    WakeWorkerKeeps(s);
    var u := WakeWorker(s).(starting := false);
    if Current(u).status == Off { PostKeeps(u, Current(u).(status := Unknown)); }
  }

  lemma UpdateKeeps(s: Service, used: nat, total: nat)
    requires Good(s)
    ensures Good(UpdateService(s, used, total))
  {
    if Current(s).status != Off {
      var c := Content(if used >= total then Full else Ready, used, total);
      PostKeeps(s, c);
      WakeWorkerKeeps(Post(s, c));
    }
  }

  lemma StopKeeps(s: Service)
    requires Good(s)
    ensures Good(StopService(s))
  {
    HoldsSomething(s);
    hide Good, WakeWorker;
    var t := Post(s, Current(s).(status := Off));
    PostKeeps(s, Current(s).(status := Off));
    StopCounts(t);
    WakeWorkerKeeps(t.(stops := t.stops + 1));
  }

  lemma StopCounts(s: Service)
    requires Good(s)
    ensures Good(s.(stops := s.stops + 1))
  {
    hide Inv;
  }

  lemma ReadKeeps(s: Service)
    requires Good(s) && CanMove(s, Read)
    ensures Good(ReadContent(s))
  {
  }

  lemma WorkerKeeps(s: Service)
    requires Good(s) && CanMove(s, WorkerAdvances)
    ensures Good(Perform(s, WorkerAdvances))
  {
    AdvanceKeeps(s.worker);
    AdvanceOutcome(s.worker);
    hide Advance, Promises;
  }

  lemma WorkerReturnsKeeps(s: Service)
    requires Good(s) && CanMove(s, WorkerReturns)
    ensures Good(Perform(s, WorkerReturns))
  {
    StepKeeps(s.worker, ThreadReturns);
    hide Promises;
  }

  lemma StopJoinsKeeps(s: Service)
    requires Good(s)
    ensures Good(Perform(s, StopJoins))
  {
    JoinKeeps(s.worker);
    hide Promises;
  }

  lemma MoveKeeps(s: Service, m: Move)
    requires Good(s) && CanMove(s, m)
    ensures Good(Perform(s, m))
  {
    HoldsSomething(s);
    hide Good, StartWorker, WakeStarted, UpdateService, StopService, ReadContent;
    match m
    case StartUp => StartUpKeeps(s);
    case StartWakes => StartWakesKeeps(s);
    case Update(used, total) => UpdateKeeps(s, used, total);
    case Stop => StopKeeps(s);
    case StopJoins => StopJoinsKeeps(s);
    case Read => ReadKeeps(s);
    case WorkerAdvances => WorkerKeeps(s);
    case WorkerReturns => WorkerReturnsKeeps(s);
  }

  // ---- whole runs ----

  /** t is a later state than s: nothing reported or posted is taken back. */
  predicate Later(s: Service, t: Service) {
    s.history <= t.history && s.posted <= t.posted && s.reports <= t.reports
  }

  lemma MoveGrows(s: Service, m: Move)
    requires s.history != []
    ensures Later(s, Perform(s, m))
  {
  }

  lemma {:induction false} RunsGrow(s: Service, moves: seq<Move>)
    requires s.history != []
    ensures Later(s, PerformAll(s, moves))
    decreases |moves|
  {
    if moves != [] {
      MoveGrows(s, moves[0]);
      RunsGrow(Perform(s, moves[0]), moves[1..]);
    }
  }

  lemma {:induction false} RunsKeep(s: Service, moves: seq<Move>)
    requires Good(s) && CanPerform(s, moves)
    ensures Good(PerformAll(s, moves))
    decreases |moves|
  {
    if moves != [] {
      MoveKeeps(s, moves[0]);
      RunsKeep(Perform(s, moves[0]), moves[1..]);
    }
  }

  /** The worker has nothing in hand: it stopped, or sleeps until the next wake. */
  predicate Quiet(w: Worker) { w.state == Stopped || w.state == Idle }

  lemma ReportIsNew(s: Service, t: Service)
    requires Faithful(s.reports, s.history, s.posted) && Later(s, t)
    requires NothingMissed(t) && Agrees(t.worker) && Quiet(t.worker) && |t.posted| > |s.posted|
    ensures |t.reports| > |s.reports| && t.reports[|t.reports| - 1].seen == |t.posted|
  {
    if s.reports != [] { assert Honest(s.reports[|s.reports| - 1], s.history, s.posted); }
  }

  /**
   * Whatever move had its wake accepted, by the time the worker is quiet again a
   * report made after that move has read the content then posted or a newer one.
   */
  lemma AcceptedIsReported(s: Service, m: Move, after: seq<Move>) returns (i: nat)
    requires Good(s) && CanMove(s, m) && |Perform(s, m).posted| > |s.posted|
    requires CanPerform(Perform(s, m), after) && Quiet(PerformAll(Perform(s, m), after).worker)
    ensures var t := PerformAll(Perform(s, m), after);
      |s.reports| <= i < |t.reports| && Perform(s, m).posted[|s.posted|] <= t.reports[i].at
    ensures i == |PerformAll(Perform(s, m), after).reports| - 1
  {
    hide Promises, Perform, PerformAll, CanMove, CanPerform;
    MoveKeeps(s, m);
    var u := Perform(s, m);
    RunsKeep(u, after);
    MoveGrows(s, m);
    RunsGrow(u, after);
    var t := PerformAll(u, after);
    ReportIsNew(s, t);
    i := |t.reports| - 1;
    assert Honest(t.reports[i], t.history, t.posted);
    assert t.posted[|s.posted|] == u.posted[|s.posted|];
  }

  predicate KnownFrom(s: Service, k: nat) {
    !s.starting && forall i | k <= i < |s.history| :: s.history[i].status != Unknown
  }

  lemma {:induction false} StaysKnown(s: Service, moves: seq<Move>, k: nat)
    requires s.history != [] && CanPerform(s, moves) && StartUp !in moves && KnownFrom(s, k)
    ensures KnownFrom(PerformAll(s, moves), k)
    decreases |moves|
  {
    if moves != [] { StaysKnown(Perform(s, moves[0]), moves[1..], k); }
  }

  /** That report is really sent for an update or a stop: it does not read Unknown, on which nothing is sent. */
  lemma UpdateIsSent(s: Service, m: Move, after: seq<Move>)
    requires Good(s) && CanMove(s, m) && |Perform(s, m).posted| > |s.posted| && (m.Update? || m.Stop?)
    requires CanPerform(Perform(s, m), after) && Quiet(PerformAll(Perform(s, m), after).worker) && StartUp !in after
    ensures var t := PerformAll(Perform(s, m), after);
      && |s.reports| < |t.reports|
      && var r := t.reports[|t.reports| - 1];
         Perform(s, m).posted[|s.posted|] <= r.at && r.content.status != Unknown
  {
    hide Good, Perform, CanMove, KnownFrom, Quiet;
    HoldsSomething(s);
    var u := Perform(s, m);
    var k := u.posted[|s.posted|];
    PostsKnown(s, m);
    MoveKeeps(s, m);
    StaysKnown(u, after, k);
    var i := AcceptedIsReported(s, m, after);
    RunsKeep(u, after);
    ReadsKnown(PerformAll(u, after), i, k);
  }

  lemma HoldsSomething(s: Service)
    requires Good(s)
    ensures s.history != []
  {
    hide Inv;
  }

  lemma PostsKnown(s: Service, m: Move)
    requires CanMove(s, m) && s.history != [] && |Perform(s, m).posted| > |s.posted| && (m.Update? || m.Stop?)
    ensures KnownFrom(Perform(s, m), Perform(s, m).posted[|s.posted|])
  {
  }

  lemma ReadsKnown(t: Service, i: nat, k: nat)
    requires Good(t) && KnownFrom(t, k) && i < |t.reports| && k <= t.reports[i].at
    ensures t.reports[i].content.status != Unknown
  {
    hide Inv;
    assert Honest(t.reports[i], t.history, t.posted);
  }

  /** Until the next start, all content from position off on, and every report after the first n, is Off. */
  predicate OffFrom(s: Service, off: nat, n: nat) {
    && !s.starting && off < |s.history| && n <= |s.reports|
    && (forall i | off <= i < |s.history| :: s.history[i].status == Off)
    && (forall i | n <= i < |s.reports| :: s.reports[i].content.status == Off)
  }

  lemma {:induction false} StaysOff(s: Service, moves: seq<Move>, off: nat, n: nat)
    requires Good(s) && CanPerform(s, moves) && StartUp !in moves && OffFrom(s, off, n)
    ensures OffFrom(PerformAll(s, moves), off, n)
    decreases |moves|
  {
    if moves != [] {
      MoveKeeps(s, moves[0]);
      assert OffFrom(Perform(s, moves[0]), off, n);
      StaysOff(Perform(s, moves[0]), moves[1..], off, n);
    }
  }

  lemma OffAfterStop(s: Service, after: seq<Move>)
    requires Good(s) && CanWake(s.worker.state) && !s.starting
    requires CanPerform(StopService(s), after) && StartUp !in after
    ensures var t := PerformAll(StopService(s), after);
      && (forall i | |s.reports| <= i < |t.reports| :: t.reports[i].content.status == Off)
      && (t.worker.state == Stopped ==> |t.reports| > |s.reports|)
  {
    hide Promises;
    MoveKeeps(s, Stop);
    StaysOff(StopService(s), after, |s.history|, |s.reports|);
    if PerformAll(StopService(s), after).worker.state == Stopped {
      var i := AcceptedIsReported(s, Stop, after);
    }
  }

  /**
   * From a service that is started and not being stopped: after stop's critical section every report reads Off,
   * and by the time the worker has stopped at least one has, so the last does.
   */
  lemma OffIsReportedLast(c: Content, before: seq<Move>, after: seq<Move>)
    requires CanPerform(Initial(c), before)
    requires CanWake(PerformAll(Initial(c), before).worker.state) && !PerformAll(Initial(c), before).starting
    requires CanPerform(StopService(PerformAll(Initial(c), before)), after) && StartUp !in after
    ensures var s := PerformAll(Initial(c), before);
      var t := PerformAll(StopService(s), after);
      && (forall i | |s.reports| <= i < |t.reports| :: t.reports[i].content.status == Off)
      && (t.worker.state == Stopped ==> |t.reports| > |s.reports|)
  {
    RunsKeep(Initial(c), before);
    OffAfterStop(PerformAll(Initial(c), before), after);
  }

  // ---- the code ----

  class Registrar {
    const worker: WorkerHandle
    var status: Status
    var used: nat
    var total: nat
    ghost var history: seq<Content>
    ghost var posted: seq<nat>
    ghost var hasRead: bool
    ghost var reports: seq<Report>
    ghost var starting: bool
    ghost var stops: nat

    ghost function Model(): Service
      reads this, worker
    {
      Service(worker.Model(), history, posted, hasRead, reports, starting, stops)
    }

    ghost predicate Valid()
      reads this, worker
    {
      Good(Model()) && Current(Model()) == Content(status, used, total)
    }

    constructor ()
      ensures Valid() && Model() == Initial(Content(Unknown, 0, 0)) && fresh(worker)
    {
      worker := new WorkerHandle(true);
      status, used, total := Unknown, 0, 0;
      history, posted, hasRead, reports := [Content(Unknown, 0, 0)], [], false, [];
      starting, stops := false, 0;
    }

    method Wake() returns (accepted: bool)
      requires Valid()
      modifies this`posted, worker
      ensures Valid() && Model() == WakeWorker(old(Model()))
      ensures accepted <==> CanWake(old(worker.state))
    {
      hide Promises;
      WakeWorkerKeeps(Model());
      accepted := worker.WakeUp();
      if accepted { posted := posted + [|history| - 1]; }
    }

    /** Start, up to the worker's start. */
    method Begin()
      requires Valid() && CanMove(Model(), StartUp)
      modifies this, worker
      ensures Valid() && Model() == StartWorker(old(Model()))
    {
      hide Promises;
      StartUpKeeps(Model());
      worker.Launch();
      starting := true;
    }

    /** The rest of start, from the worker's wake on. */
    method BeginWake() returns (accepted: bool)
      requires Valid() && CanMove(Model(), StartWakes)
      modifies this, worker
      ensures Valid() && Model() == WakeStarted(old(Model()))
      ensures accepted <==> CanWake(old(worker.state))
    {
      hide Promises;
      StartWakesKeeps(Model());
      accepted := Wake();
      starting := false;
      if accepted && status == Off {
        status := Unknown;
        history := history + [Content(status, used, total)];
      }
    }

    method Post(used': nat, total': nat)
      requires Valid()
      modifies this, worker
      ensures Valid() && Model() == UpdateService(old(Model()), used', total')
    {
      hide Promises;
      UpdateKeeps(Model(), used', total');
      if status != Off {
        PostKeeps(Model(), Content(if used' >= total' then Full else Ready, used', total'));
        status := if used' >= total' then Full else Ready;
        used, total := used', total';
        history := history + [Content(status, used, total)];
        var accepted := Wake();
      }
    }

    method Finish()
      requires Valid()
      modifies this, worker
      ensures Valid() && Model() == StopService(old(Model()))
    {
      hide Promises;
      StopKeeps(Model());
      PostKeeps(Model(), Content(Off, used, total));
      status := Off;
      history, stops := history + [Content(Off, used, total)], stops + 1;
      var accepted := Wake();
    }

    /** The report function, while a run of the worker is in progress. */
    method ReadStatus() returns (c: Content)
      requires Valid() && CanMove(Model(), Read)
      modifies this
      ensures Valid() && Model() == ReadContent(old(Model()))
      ensures c == Current(old(Model()))
    {
      ReadKeeps(Model());
      c := Content(status, used, total);
      reports, hasRead := reports + [Report(c, |history| - 1, |posted|)], true;
    }
  }
}
