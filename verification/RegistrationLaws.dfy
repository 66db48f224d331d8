/** What the registration service's calls post, and that it is what gets reported. */
module RegistrationLaws {
  import opened WorkerMachine
  import opened RegistrationService
  import WorkerLaws

  /** The content an update stands for: these counts, and full exactly when no slot is left. */
  predicate Describes(c: Content, used: nat, total: nat) {
    c.used == used && c.total == total && c.status in {Full, Ready} && (c.status == Full <==> used >= total)
  }

  /** An update posts its counts and wakes the worker, unless the service is off. */
  lemma UpdatePosts(s: Service, used: nat, total: nat)
    requires s.history != []
    ensures var t := Perform(s, Update(used, total));
      if Current(s).status == Off then t == s
      else
        && |t.history| == |s.history| + 1 && s.history <= t.history && Describes(Current(t), used, total)
        && t.worker == Wake(s.worker)
        && t.posted == s.posted + if CanWake(s.worker.state) then [|s.history|] else []
  {
  }

  /** A stop changes the status and nothing else of the content, and wakes the worker. */
  lemma StopPosts(s: Service)
    requires s.history != []
    ensures var t := Perform(s, Stop);
      && |t.history| == |s.history| + 1 && s.history <= t.history
      && Current(t) == Content(Off, Current(s).used, Current(s).total)
      && t.worker == Wake(s.worker)
      && t.posted == s.posted + if CanWake(s.worker.state) then [|s.history|] else []
  {
  }

  /** A start of a stopped service wakes its worker and takes it out of Off, so that updates count again. */
  lemma RestartCounts(s: Service, used: nat, total: nat)
    requires s.history != [] && s.worker.state == Stopped
    ensures var t := Perform(Perform(s, StartUp), StartWakes);
      && t.worker == Wake(Start(s.worker)) && t.worker.state == Signaled && !t.starting
      && Current(t).status != Off && Current(t).used == Current(s).used && Current(t).total == Current(s).total
      && (Current(s).status != Off ==> t.history == s.history)
      && Describes(Current(Perform(t, Update(used, total))), used, total)
  {
  }

  /** A start whose wake is refused leaves the content, and so a service that is off, as it was. */
  lemma RefusedStartChangesNothing(s: Service)
    requires s.history != [] && s.worker.state in {Stopping, StoppingAfterWork}
    ensures Perform(Perform(s, StartUp), StartWakes) == s.(starting := false)
  {
  }

  predicate PostsNothing(m: Move) { !m.Update? && !m.Stop? && !m.StartUp? && !m.StartWakes? }

  lemma {:induction false} HistoryStays(s: Service, moves: seq<Move>)
    requires s.history != [] && forall i | 0 <= i < |moves| :: PostsNothing(moves[i])
    ensures PerformAll(s, moves).history == s.history
    decreases |moves|
  {
    if moves != [] {
      assert PostsNothing(moves[0]);
      HistoryStays(Perform(s, moves[0]), moves[1..]);
    }
  }

  /**
   * An update whose wake was accepted and that no other posting follows: by the time
   * the worker is quiet again the last report describes it.
   */
  lemma UpdateIsReported(s: Service, used: nat, total: nat, after: seq<Move>)
    requires Good(s) && CanMove(s, Update(used, total)) && Current(s).status != Off && CanWake(s.worker.state)
    requires CanPerform(Perform(s, Update(used, total)), after)
    requires forall i | 0 <= i < |after| :: PostsNothing(after[i])
    requires Quiet(PerformAll(Perform(s, Update(used, total)), after).worker)
    ensures var t := PerformAll(Perform(s, Update(used, total)), after);
      |s.reports| < |t.reports| && Describes(t.reports[|t.reports| - 1].content, used, total)
  {
    var m := Update(used, total);
    var u := Perform(s, m);
    UpdatePosts(s, used, total);
    hide Perform, PerformAll, CanMove, CanPerform, Describes, Promises;
    MoveKeeps(s, m);
    HistoryStays(u, after);
    var i := AcceptedIsReported(s, m, after);
    RunsKeep(u, after);
    var t := PerformAll(u, after);
    assert Honest(t.reports[i], t.history, t.posted);
    assert t.reports[i].at == |u.history| - 1;
  }

  /** Likewise a stop: the last report is Off with the counts there were. */
  lemma StopIsReported(s: Service, after: seq<Move>)
    requires Good(s) && CanMove(s, Stop) && CanWake(s.worker.state)
    requires CanPerform(Perform(s, Stop), after)
    requires forall i | 0 <= i < |after| :: PostsNothing(after[i])
    requires Quiet(PerformAll(Perform(s, Stop), after).worker)
    ensures var t := PerformAll(Perform(s, Stop), after);
      |s.reports| < |t.reports| &&
      t.reports[|t.reports| - 1].content == Content(Off, Current(s).used, Current(s).total)
  {
    var u := Perform(s, Stop);
    StopPosts(s);
    hide Perform, PerformAll, CanMove, CanPerform, Promises;
    MoveKeeps(s, Stop);
    HistoryStays(u, after);
    var i := AcceptedIsReported(s, Stop, after);
    RunsKeep(u, after);
    var t := PerformAll(u, after);
    assert Honest(t.reports[i], t.history, t.posted);
    assert t.reports[i].at == |u.history| - 1;
  }

  // ---- the end of a stop ----

  lemma ClosedMove(s: Service, m: Move)
    requires s.history != [] && Agrees(s.worker) && WorkerLaws.Closing(s.worker.state) && CanMove(s, m) && m != StartUp
    ensures var t := Perform(s, m);
      Agrees(t.worker) && WorkerLaws.Closing(t.worker.state) && t.posted == s.posted
  {
  }

  lemma {:induction false} ClosedRun(s: Service, moves: seq<Move>)
    requires s.history != [] && Agrees(s.worker) && WorkerLaws.Closing(s.worker.state)
    requires CanPerform(s, moves) && StartUp !in moves
    ensures var t := PerformAll(s, moves);
      Agrees(t.worker) && WorkerLaws.Closing(t.worker.state) && t.posted == s.posted
    decreases |moves|
  {
    if moves != [] {
      hide Agrees, WorkerLaws.Closing, Perform, CanMove;
      ClosedMove(s, moves[0]);
      ClosedRun(Perform(s, moves[0]), moves[1..]);
    }
  }

  /**
   * Once a stop has asked the worker to join, until the next start no call wakes it, and
   * its thread can go on until it has stopped.
   */
  lemma StopEnds(s: Service, moves: seq<Move>)
    requires s.history != [] && Agrees(s.worker) && CanMove(s, StopJoins)
    requires CanPerform(Perform(s, StopJoins), moves) && StartUp !in moves
    ensures var t := PerformAll(Perform(s, StopJoins), moves);
      && !CanWake(t.worker.state) && t.posted == s.posted
      && (t.worker.state != Stopped ==> Enabled(t.worker, DoAdvance))
  {
    ClosedRun(Perform(s, StopJoins), moves);
  }

  // ---- one report for each run ----

  predicate Tallied(s: Service) {
    && (s.hasRead ==> s.worker.thread == InWork)
    && |s.reports| == WorkerLaws.Count(RunEnded, s.worker.log) + if s.hasRead then 1 else 0
  }

  lemma TalliedMove(s: Service, m: Move)
    requires s.history != [] && Agrees(s.worker) && Tallied(s) && CanMove(s, m)
    ensures Agrees(Perform(s, m).worker) && Tallied(Perform(s, m))
  {
    hide WorkerLaws.Count;
    var w := s.worker;
    if m == WorkerAdvances {
      var v := match w.thread case InWork => w.(log := w.log + [RunEnded]) case Woken => AfterWait(w) case _ => w;
      WorkerLaws.CountMore(w.log, RunEnded);
      WorkerLaws.CountMore(w.log, PeriodicDue);
      WorkerLaws.CountMore(v.log, RunBegan);
      WorkerLaws.CountMore(v.log, Halted);
    } else {
      WorkerLaws.CountMore(w.log, Launched);
      WorkerLaws.CountMore(w.log, WakeAccepted);
    }
  }

  /** In every run of a new service, each run of the worker reads the content exactly once. */
  lemma OneReadPerRun(c: Content, moves: seq<Move>)
    requires CanPerform(Initial(c), moves)
    ensures Tallied(PerformAll(Initial(c), moves))
  {
    TalliedRun(Initial(c), moves);
  }

  lemma {:induction false} TalliedRun(s: Service, moves: seq<Move>)
    requires s.history != [] && Agrees(s.worker) && Tallied(s) && CanPerform(s, moves)
    ensures Tallied(PerformAll(s, moves))
    decreases |moves|
  {
    if moves != [] {
      hide Agrees, Tallied, Perform, CanMove;
      TalliedMove(s, moves[0]);
      TalliedRun(Perform(s, moves[0]), moves[1..]);
    }
  }
}
