// The scheduler never deadlocks, and every interleaving of it comes to an end.
module ScheduleTermination {
  import opened Plans
  import opened Wrappers
  import opened Schedule
  import opened ScheduleInvariant
  import opened ScheduleSteps
  import opened ScheduleOutcome

  lemma WorkerProgress(cfg: Config, s: State) returns (l: Label)
    requires Valid(cfg) && Inv(cfg, s) && s.workers != map[]
    ensures Enabled(cfg, s, l) && (l.Acquire? || l.MapReturn? || l.Finish? || l.Release?)
  {
    if Holders(s) == {} {
      var t :| t in s.workers;
      assert t !in Holders(s);
      l := Acquire(t);
    } else {
      var t :| t in Holders(s);
      assert t in s.workers && (s.workers[t].Releasing? || Live(s, t));
      l := match s.workers[t]
        case First => MapReturn(t)
        case Second => MapReturn(t)
        case Report(_) => Finish(t)
        case _ => Release(t);
    }
  }

  // A dispatcher parked in cond.Wait always has a worker that has still to broadcast.
  lemma ParkedHasWorker(cfg: Config, s: State) returns (t: TrackId)
    requires Inv(cfg, s) && s.disp.Parked?
    ensures Live(s, t)
  {
    assert |With(s.status, Running)| > 0;
    assert With(s.status, Running) != {};
    t :| t in With(s.status, Running);
    assert Is(s, t, Running) && Queue(s) == [];
  }

  // Until the scheduler has returned some step is enabled that is not an acquire error.
  lemma Progress(cfg: Config, s: State) returns (l: Label)
    requires Valid(cfg) && Inv(cfg, s) && !s.disp.Returned?
    ensures Enabled(cfg, s, l) && !l.AcquireFail?
  {
    if s.workers != map[] {
      l := WorkerProgress(cfg, s);
    } else {
      match s.disp
      case Scanning => l := Scan;
      case Spawning(_) => l := Spawn;
      case Gap => l := Idle;
      case Joining => l := Join;
      case Parked =>
        l := Idle;
        var t := ParkedHasWorker(cfg, s);
        assert false;
    }
  }

  function Weight(s: State, t: TrackId): nat {
    if t in s.workers then
      match s.workers[t]
      case Queued => 24
      case First => 20
      case Second => 16
      case Report(_) => 12
      case Releasing => 1
    else if Is(s, t, Pending) then 40
    else if Is(s, t, Running) then 30
    else 0
  }

  function TotalWeight(plan: seq<Track>, s: State): nat {
    if plan == [] then 0 else Weight(s, plan[0].id) + TotalWeight(plan[1..], s)
  }

  function DispatcherWeight(d: Dispatcher): nat {
    match d
    case Scanning => 3
    case Spawning(_) => 3
    case Gap => 2
    case Parked => 1
    case Joining => 1
    case Returned => 0
  }

  function Measure(cfg: Config, s: State): nat {
    TotalWeight(cfg.plan, s) + DispatcherWeight(s.disp)
  }

  lemma {:induction false} WeightNoMore(plan: seq<Track>, s: State, s': State)
    requires forall u :: u in Ids(plan) ==> Weight(s', u) <= Weight(s, u)
    ensures TotalWeight(plan, s') <= TotalWeight(plan, s)
  {
    if plan != [] {
      assert plan[0] in plan && plan == [plan[0]] + plan[1..];
      WeightNoMore(plan[1..], s, s');
    }
  }

  lemma {:induction false} WeightDrops(plan: seq<Track>, s: State, s': State, t: TrackId, k: nat)
    requires forall u :: u in Ids(plan) ==> Weight(s', u) <= Weight(s, u)
    requires t in Ids(plan) && Weight(s', t) + k <= Weight(s, t)
    ensures TotalWeight(plan, s') + k <= TotalWeight(plan, s)
  {
    assert plan[0] in plan && plan == [plan[0]] + plan[1..];
    if plan[0].id == t {
      WeightNoMore(plan[1..], s, s');
    } else {
      WeightDrops(plan[1..], s, s', t, k);
    }
  }

  lemma WeightElsewhere(cfg: Config, s: State, s': State, t: TrackId)
    requires Moves(cfg, s, s')
    requires t in s'.workers <==> t in s.workers
    requires t in s.workers ==> s'.workers[t] == s.workers[t]
    ensures Weight(s', t) <= Weight(s, t)
  {
    if t in s.status {
      assert Move(cfg, s.status, s'.status, s'.groupErr, t);
    }
  }

  // The track a label is about, if it moves a worker.
  function Subject(s: State, l: Label): Option<TrackId> {
    match l
    case Acquire(id) => Some(id)
    case AcquireFail(id) => Some(id)
    case MapReturn(id) => Some(id)
    case Finish(id) => Some(id)
    case Release(id) => Some(id)
    case Spawn => if s.disp.Spawning? && s.disp.queue != [] then Some(s.disp.queue[0]) else None
    case _ => None
  }

  lemma OthersNoHeavier(cfg: Config, s: State, l: Label, t: TrackId)
    requires Valid(cfg) && Inv(cfg, s) && Enabled(cfg, s, l) && Subject(s, l) != Some(t)
    ensures Weight(Next(cfg, s, l), t) <= Weight(s, t)
  {
    StepMoves(cfg, s, l);
    StepElsewhere(cfg, s, l, t);
    WeightElsewhere(cfg, s, Next(cfg, s, l), t);
  }

  lemma AcquireLighter(cfg: Config, s: State, id: TrackId)
    requires id in s.workers && s.workers[id].Queued?
    ensures Weight(NextAcquire(s, id), id) + 4 == Weight(s, id)
  {
  }

  lemma MapReturnLighter(cfg: Config, s: State, id: TrackId)
    requires id in s.workers && (s.workers[id].First? || s.workers[id].Second?)
    ensures Weight(NextMapReturn(cfg, s, id), id) + 4 <= Weight(s, id)
  {
  }

  lemma AcquireFailLighter(cfg: Config, s: State, id: TrackId)
    requires Is(s, id, Running) && Enabled(cfg, s, AcquireFail(id))
    ensures Weight(NextAcquireFail(s, id), id) + 24 <= Weight(s, id)
  {
  }

  lemma FinishLighter(cfg: Config, s: State, id: TrackId)
    requires Enabled(cfg, s, Finish(id))
    ensures Weight(NextFinish(cfg, s, id), id) + 11 <= Weight(s, id)
  {
    FinishShape(cfg, s, id);
  }

  lemma ReleaseLighter(cfg: Config, s: State, id: TrackId)
    requires Crew(s) && Enabled(cfg, s, Release(id))
    ensures Weight(Next(cfg, s, Release(id)), id) + 1 <= Weight(s, id)
  {
  }

  lemma SpawnLighter(cfg: Config, s: State)
    requires Crew(s) && s.disp.Spawning?
    ensures Weight(NextSpawn(s), s.disp.queue[0]) + 6 <= Weight(s, s.disp.queue[0])
  {
    assert s.disp.queue[0] in Queue(s);
  }

  lemma SubjectLighter(cfg: Config, s: State, l: Label) returns (t: TrackId, k: nat)
    requires Valid(cfg) && Inv(cfg, s) && Enabled(cfg, s, l) && Subject(s, l).Some?
    ensures t in Ids(cfg.plan) && Subject(s, l) == Some(t)
    ensures Weight(Next(cfg, s, l), t) + k <= Weight(s, t)
    ensures k == if l.AcquireFail? || l.Finish? then 11 else 1
  {
    t := Subject(s, l).value;
    k := if l.AcquireFail? || l.Finish? then 11 else 1;
    match l
    case AcquireFail(id) =>
      assert Live(s, id);
      AcquireFailLighter(cfg, s, id);
    case Finish(id) =>
      assert Live(s, id);
      FinishLighter(cfg, s, id);
    case Release(id) => ReleaseLighter(cfg, s, id);
    case Spawn =>
      assert s.disp.queue[0] in Queue(s);
      SpawnLighter(cfg, s);
    case Acquire(id) =>
      assert Live(s, id);
      AcquireLighter(cfg, s, id);
    case MapReturn(id) =>
      assert Live(s, id);
      MapReturnLighter(cfg, s, id);
  }

  lemma SubjectStepLess(cfg: Config, s: State, l: Label)
    requires Valid(cfg) && Inv(cfg, s) && Enabled(cfg, s, l) && Subject(s, l).Some?
    ensures Measure(cfg, Next(cfg, s, l)) < Measure(cfg, s)
  {
    var s' := Next(cfg, s, l);
    var t, k := SubjectLighter(cfg, s, l);
    forall u | u in Ids(cfg.plan) ensures Weight(s', u) <= Weight(s, u) {
      if u != t {
        OthersNoHeavier(cfg, s, l, u);
      }
    }
    WeightDrops(cfg.plan, s, s', t, k);
    SubjectDispatcher(cfg, s, l);
  }

  lemma SubjectDispatcher(cfg: Config, s: State, l: Label)
    requires Enabled(cfg, s, l) && Subject(s, l).Some?
    ensures DispatcherWeight(Next(cfg, s, l).disp) <=
      DispatcherWeight(s.disp) + if l.AcquireFail? || l.Finish? then 2 else 0
  {
    if l.Finish? {
      FinishShape(cfg, s, l.id);
    }
  }

  lemma ScanLighter(cfg: Config, s: State, t: TrackId)
    requires Valid(cfg) && Crew(s) && s.status.Keys == Ids(cfg.plan) && s.completed != |cfg.plan|
    requires t in ReadyList(cfg.plan, s)
    ensures Weight(NextScan(cfg, s), t) + 10 <= Weight(s, t)
  {
    hide Ids, Deps;
    ReadyListFits(cfg.plan, s);
    assert Is(s, t, Pending);
  }

  lemma SweepLighter(cfg: Config, s: State, t: TrackId)
    requires Crew(s) && Is(s, t, Pending) && s.completed < |cfg.plan| && s.running == 0
    ensures Weight(NextIdle(cfg, s), t) + 40 <= Weight(s, t)
  {
  }

  lemma ScanDispatcher(cfg: Config, s: State)
    requires s.disp.Scanning?
    ensures DispatcherWeight(NextScan(cfg, s).disp) < 3 ||
      (s.completed != |cfg.plan| && ReadyList(cfg.plan, s) != [] && DispatcherWeight(NextScan(cfg, s).disp) == 3)
  {
    if s.completed == |cfg.plan| {} else {}
  }

  lemma IdleDispatcher(cfg: Config, s: State)
    requires s.disp.Gap?
    ensures DispatcherWeight(NextIdle(cfg, s).disp) < 2 ||
      (s.completed < |cfg.plan| && s.running == 0 && DispatcherWeight(NextIdle(cfg, s).disp) == 3)
  {
    if s.completed < |cfg.plan| && s.running == 0 {} else {}
  }

  lemma NoneHeavier(cfg: Config, s: State, l: Label)
    requires Valid(cfg) && Inv(cfg, s) && Enabled(cfg, s, l) && Subject(s, l).None?
    ensures forall u :: u in Ids(cfg.plan) ==> Weight(Next(cfg, s, l), u) <= Weight(s, u)
  {
    forall u | u in Ids(cfg.plan) ensures Weight(Next(cfg, s, l), u) <= Weight(s, u) {
      OthersNoHeavier(cfg, s, l, u);
    }
  }

  lemma ScanStepLess(cfg: Config, s: State)
    requires Valid(cfg) && Inv(cfg, s) && s.disp.Scanning?
    ensures Measure(cfg, Next(cfg, s, Scan)) < Measure(cfg, s)
  {
    var s' := Next(cfg, s, Scan);
    NoneHeavier(cfg, s, Scan);
    WeightNoMore(cfg.plan, s, s');
    ScanDispatcher(cfg, s);
    if DispatcherWeight(s'.disp) >= 3 {
      var t := ReadyList(cfg.plan, s)[0];
      ReadyListFits(cfg.plan, s);
      ScanLighter(cfg, s, t);
      WeightDrops(cfg.plan, s, s', t, 10);
    }
  }

  lemma SomePending(cfg: Config, s: State) returns (t: TrackId)
    requires Valid(cfg) && Books(cfg, s) && s.completed < |cfg.plan| && s.running == 0
    ensures Is(s, t, Pending) && t in Ids(cfg.plan)
  {
    Census(cfg, s);
    assert With(s.status, Pending) != {};
    t :| t in With(s.status, Pending);
  }

  lemma IdleStepLess(cfg: Config, s: State)
    requires Valid(cfg) && Inv(cfg, s) && s.disp.Gap?
    ensures Measure(cfg, Next(cfg, s, Idle)) < Measure(cfg, s)
  {
    var s' := Next(cfg, s, Idle);
    NoneHeavier(cfg, s, Idle);
    WeightNoMore(cfg.plan, s, s');
    IdleDispatcher(cfg, s);
    if DispatcherWeight(s'.disp) >= 2 {
      var t := SomePending(cfg, s);
      SweepLighter(cfg, s, t);
      WeightDrops(cfg.plan, s, s', t, 40);
    }
  }

  // Every step makes the measure smaller.
  lemma StepLess(cfg: Config, s: State, l: Label)
    requires Valid(cfg) && Inv(cfg, s) && Enabled(cfg, s, l)
    ensures Measure(cfg, Next(cfg, s, l)) < Measure(cfg, s)
  {
    hide Inv, Valid, Next, Measure;
    if l.Scan? {
      ScanStepLess(cfg, s);
    } else if l.Idle? {
      IdleStepLess(cfg, s);
    } else if l.Join? {
      JoinStepLess(cfg, s);
    } else {
      SubjectStepLess(cfg, s, l);
    }
  }

  lemma JoinStepLess(cfg: Config, s: State)
    requires Valid(cfg) && Inv(cfg, s) && Enabled(cfg, s, Join)
    ensures Measure(cfg, Next(cfg, s, Join)) < Measure(cfg, s)
  {
    hide Inv, Valid;
    NoneHeavier(cfg, s, Join);
    WeightNoMore(cfg.plan, s, Next(cfg, s, Join));
  }

  // So no interleaving takes more steps than the measure of its start.
  lemma {:induction false} RunsAreShort(cfg: Config, ss: seq<State>, ls: seq<Label>, i: nat)
    requires Valid(cfg) && IsRun(cfg, ss, ls) && i <= |ls|
    ensures i + Measure(cfg, ss[i]) <= Measure(cfg, ss[0])
  {
    if i > 0 {
      RunsAreShort(cfg, ss, ls, i - 1);
      MeasureAt(cfg, ss, ls, i - 1);
    }
  }

  lemma MeasureAt(cfg: Config, ss: seq<State>, ls: seq<Label>, k: nat)
    requires Valid(cfg) && IsRun(cfg, ss, ls) && k < |ls|
    ensures Measure(cfg, ss[k + 1]) < Measure(cfg, ss[k])
  {
    RunKeeps(cfg, ss, ls, k);
    StepLess(cfg, ss[k], ls[k]);
  }

  lemma Extend(cfg: Config, ss: seq<State>, ls: seq<Label>, l: Label) returns (ss': seq<State>, ls': seq<Label>)
    requires IsRun(cfg, ss, ls) && Enabled(cfg, ss[|ls|], l)
    ensures ss' == ss + [Next(cfg, ss[|ls|], l)] && ls' == ls + [l] && IsRun(cfg, ss', ls')
  {
    hide Next, Init, Enabled;
    ss', ls' := ss + [Next(cfg, ss[|ls|], l)], ls + [l];
  }

  // Every run can be completed, and without a further acquire error.
  lemma {:induction false} Completes(cfg: Config, ss: seq<State>, ls: seq<Label>)
    returns (ss': seq<State>, ls': seq<Label>)
    requires Valid(cfg) && IsRun(cfg, ss, ls)
    ensures Complete(cfg, ss', ls') && |ls| <= |ls'| && ss'[..|ss|] == ss && ls'[..|ls|] == ls
    ensures ss'[|ls'|].groupErr == ss[|ls|].groupErr
    ensures ss[|ls|].gapSweep ==> ss'[|ls'|].gapSweep
    decreases Measure(cfg, ss[|ls|])
  {
    hide Next, Init, Enabled;
    var s := ss[|ls|];
    RunKeeps(cfg, ss, ls, |ls|);
    if s.disp.Returned? {
      ss', ls' := ss, ls;
    } else {
      var l := Progress(cfg, s);
      StepLess(cfg, s, l);
      ErrorKept(cfg, s, l);
      var ss1, ls1 := Extend(cfg, ss, ls, l);
      ss', ls' := Completes(cfg, ss1, ls1);
      assert ss'[..|ss|] == ss'[..|ss1|][..|ss|] && ls'[..|ls|] == ls'[..|ls1|][..|ls|];
    }
  }

  lemma ErrorKept(cfg: Config, s: State, l: Label)
    requires Enabled(cfg, s, l) && !l.AcquireFail?
    ensures Next(cfg, s, l).groupErr == s.groupErr && (s.gapSweep ==> Next(cfg, s, l).gapSweep)
  {
    match l
    case Scan => ScanShape(cfg, s);
    case Idle => IdleShape(cfg, s);
    case Finish(id) => FinishShape(cfg, s, id);
    case _ =>
  }
}
