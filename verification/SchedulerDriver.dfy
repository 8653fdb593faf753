// A whole run of the scheduler object: its critical sections taken one after the other, in
// whatever order the goroutines get to them.
module SchedulerDriver {
  import opened Plans
  import opened Wrappers
  import opened Schedule
  import opened ScheduleInvariant
  import opened ScheduleSteps
  import opened ScheduleOutcome
  import opened ScheduleTheorems
  import opened ScheduleTermination
  import opened ScheduleGap
  import opened TrackStates
  import opened SchedulerRuntime

  // The object's parameters are those of the configuration.
  ghost predicate Fitted(run: TrackRun) {
    run.cfg.mapper == run.mapper && run.cfg.max == run.max && run.cfg.plan == run.plan && Schedule.Valid(run.cfg)
  }

  function Holding(run: TrackRun): set<TrackId>
    reads run
  {
    set t | t in run.workers && Holds(run.workers[t])
  }

  // Whether a step can be taken now.
  predicate Able(run: TrackRun, l: Label)
    reads run
  {
    match l
    case Scan => run.dispatcher.Scanning?
    case Idle => run.dispatcher.Gap?
    case Spawn => run.dispatcher.Spawning? && run.dispatcher.queue != []
    case Acquire(id) => id in run.workers && run.workers[id].Queued? && |Holding(run)| < Slots(run.max)
    case AcquireFail(id) => id in run.workers && run.workers[id].Queued? && id in run.states
    case MapReturn(id) => id in run.workers && (run.workers[id].First? || run.workers[id].Second?)
    case Finish(id) => id in run.workers && run.workers[id].Report? && id in run.states
    case Release(id) => id in run.workers && run.workers[id].Releasing?
    case Join => run.dispatcher.Joining? && run.workers == map[]
  }

  lemma AbleIsEnabled(run: TrackRun, l: Label)
    requires Fitted(run)
    ensures Able(run, l) <==> Enabled(run.cfg, run.Abs(), l)
  {
    hide DegreesOf;
    assert Holding(run) == Holders(run.Abs());
  }

  // Some step that can be taken, other than the failure of an acquire.
  method AnyStep(run: TrackRun) returns (l: Label)
    requires Fitted(run) && run.Valid() && Inv(run.cfg, run.Abs()) && !run.dispatcher.Returned?
    ensures Enabled(run.cfg, run.Abs(), l) && !l.AcquireFail?
  {
    if run.workers != map[] {
      l := WorkerStep(run);
    } else {
      NobodyToWaitFor(run.cfg, run.Abs());
      hide Inv;
      match run.dispatcher
      case Scanning => l := Scan;
      case Spawning(_) => l := Spawn;
      case Gap => l := Idle;
      case _ => l := Join;
      AbleIsEnabled(run, l);
    }
  }

  lemma NobodyToWaitFor(cfg: Config, s: State)
    requires Inv(cfg, s) && s.workers == map[]
    ensures !s.disp.Parked? && (s.disp.Spawning? ==> s.disp.queue != [])
  {
    if s.disp.Parked? {
      var t := ParkedHasWorker(cfg, s);
    }
  }

  method WorkerStep(run: TrackRun) returns (l: Label)
    requires Fitted(run) && run.Valid() && Inv(run.cfg, run.Abs()) && run.workers != map[]
    ensures Enabled(run.cfg, run.Abs(), l) && !l.AcquireFail?
  {
    var holding := Holding(run);
    if holding == {} {
      var t :| t in run.workers;
      assert t !in holding;
      l := Acquire(t);
    } else {
      var t :| t in holding;
      assert run.workers[t].Releasing? || Live(run.Abs(), t);
      l := match run.workers[t]
        case First => MapReturn(t)
        case Second => MapReturn(t)
        case Report(_) => Finish(t)
        case _ => Release(t);
    }
    AbleIsEnabled(run, l);
  }

  // The group's error, or the states in plan order.
  predicate Collected(run: TrackRun, result: Option<seq<TrackState>>)
    reads run
  {
    (result.None? <==> run.groupErr) && (result.Some? ==> InOrder(run, result.value))
  }

  predicate InOrder(run: TrackRun, rows: seq<TrackState>)
    reads run
  {
    |rows| == |run.plan| &&
    forall i :: 0 <= i < |run.plan| ==> run.plan[i].id in run.states && rows[i] == run.states[run.plan[i].id]
  }

  // The critical section of a label.
  method TakeStep(run: TrackRun, l: Label) returns (result: Option<seq<TrackState>>)
    requires Fitted(run) && run.Valid() && Inv(run.cfg, run.Abs()) && Enabled(run.cfg, run.Abs(), l)
    requires run.Explains()
    modifies run
    ensures run.Valid() && run.Explains()
    ensures run.Abs() == Next(run.cfg, old(run.Abs()), l)
    ensures l.Join? ==> Collected(run, result)
  {
    result := None;
    RunsWhile(run, l);
    hide Inv, AllExplained, Fitted, DegreesOf, StatusesOf, NextScan, NextIdle, NextFinish, DistinctIds, TrackRun.Wired;
    match l {
      case Scan => var ready := run.Scan();
      case Idle => run.Idle();
      case Spawn => run.Spawn();
      case Join => result := run.Collect();
      case _ => TakeWorkerStep(run, l);
    }
  }

  method TakeWorkerStep(run: TrackRun, l: Label)
    requires Fitted(run) && run.Valid() && Enabled(run.cfg, run.Abs(), l) && run.Explains()
    requires l.Acquire? || l.AcquireFail? || l.MapReturn? || l.Finish? || l.Release?
    requires l.Finish? ==> l.id in run.states && run.states[l.id].status == Running
    modifies run
    ensures run.Valid() && run.Explains()
    ensures run.Abs() == Next(run.cfg, old(run.Abs()), l)
  {
    hide AllExplained, Fitted, DegreesOf, StatusesOf, NextFinish, NextAcquireFail, Holders, DistinctIds, TrackRun.Wired;
    match l {
      case Acquire(id) => run.AcquireSlot(id);
      case AcquireFail(id) => run.AcquireFailed(id, Message("context done"));
      case MapReturn(id) =>
        MapperFits(run);
        run.MapReturned(id, run.mapper(id, if run.workers[id].First? then 0 else 1));
      case Finish(id) => run.Finished(id);
      case Release(id) => run.Released(id);
    }
  }

  lemma MapperFits(run: TrackRun)
    requires Fitted(run)
    ensures run.cfg.mapper == run.mapper
  {
  }

  lemma RunsWhile(run: TrackRun, l: Label)
    requires Inv(run.cfg, run.Abs()) && Enabled(run.cfg, run.Abs(), l)
    ensures l.Finish? ==> l.id in run.states && run.states[l.id].status == Running
  {
    if l.Finish? {
      LiveIsRunning(run.Abs(), l.id);
    }
  }

  ghost predicate NoAcquireFails(turns: seq<Label>) {
    forall k :: 0 <= k < |turns| ==> !turns[k].AcquireFail?
  }

  // The run so far, which follows the turns as long as they can be taken.
  ghost predicate OnTrack(run: TrackRun, ss: seq<State>, ls: seq<Label>)
    reads run
  {
    IsRun(run.cfg, ss, ls) && ss[|ls|] == run.Abs() && run.Valid() && run.Explains()
  }

  // If the turns are the labels of a complete run, that run has been followed so far.
  ghost predicate Following(cfg: Config, whole: seq<State>, turns: seq<Label>, ss: seq<State>, ls: seq<Label>, k: nat) {
    Complete(cfg, whole, turns) ==> k <= |turns| && ls == turns[..k] && ss == whole[..k + 1]
  }

  lemma FollowOn(cfg: Config, whole: seq<State>, turns: seq<Label>, ss: seq<State>, ls: seq<Label>, k: nat)
    requires Following(cfg, whole, turns, ss, ls, k) && IsRun(cfg, ss, ls) && !ss[|ls|].disp.Returned?
    ensures Complete(cfg, whole, turns) ==> k < |turns| && Enabled(cfg, ss[|ls|], turns[k])
    ensures k < |turns| ==>
      Following(cfg, whole, turns, ss + [Next(cfg, ss[|ls|], turns[k])], ls + [turns[k]], k + 1)
  {
    hide Next, Enabled;
    if Complete(cfg, whole, turns) {
      assert whole[k] == ss[|ls|];
      if k < |turns| {
        assert whole[k + 1] == Next(cfg, whole[k], turns[k]);
        assert whole[..k + 2] == whole[..k + 1] + [whole[k + 1]] && turns[..k + 1] == turns[..k] + [turns[k]];
      }
    }
  }

  // The wanted step if it can be taken, else any but the failure of an acquire.
  method NextLabel(run: TrackRun, turns: seq<Label>, k: nat) returns (l: Label)
    requires Fitted(run) && run.Valid() && Inv(run.cfg, run.Abs()) && !run.dispatcher.Returned?
    ensures Enabled(run.cfg, run.Abs(), l)
    ensures k < |turns| && Enabled(run.cfg, run.Abs(), turns[k]) ==> l == turns[k]
    ensures NoAcquireFails(turns) ==> !l.AcquireFail?
  {
    hide Inv, Enabled, Fitted, Able;
    if k < |turns| {
      AbleIsEnabled(run, turns[k]);
      if Able(run, turns[k]) {
        return turns[k];
      }
    }
    l := AnyStep(run);
  }

  // One turn of anyone.
  method OneTurn(run: TrackRun, turns: seq<Label>, k: nat, ghost whole: seq<State>, ghost ss: seq<State>,
                 ghost ls: seq<Label>)
    returns (result: Option<seq<TrackState>>, ghost ss': seq<State>, ghost ls': seq<Label>)
    requires Fitted(run) && OnTrack(run, ss, ls) && !run.dispatcher.Returned?
    requires Following(run.cfg, whole, turns, ss, ls, k)
    modifies run
    ensures OnTrack(run, ss', ls') && Following(run.cfg, whole, turns, ss', ls', k + 1)
    ensures Measure(run.cfg, run.Abs()) < old(Measure(run.cfg, run.Abs()))
    ensures run.dispatcher.Returned? ==> Collected(run, result)
    ensures NoAcquireFails(turns) ==> run.groupErr == old(run.groupErr)
  {
    ghost var s := run.Abs();
    RunKeeps(run.cfg, ss, ls, |ls|);
    FollowOn(run.cfg, whole, turns, ss, ls, k);
    var l := NextLabel(run, turns, k);
    StepLess(run.cfg, s, l);
    ss', ls' := Extend(run.cfg, ss, ls, l);
    OnlyJoinReturns(run.cfg, s, l);
    hide Inv, Next, Enabled, Fitted, Measure, AllExplained, IsRun, NoAcquireFails, Complete, Collected;
    result := TakeStep(run, l);
  }

  lemma OnlyJoinReturns(cfg: Config, s: State, l: Label)
    requires Enabled(cfg, s, l) && !s.disp.Returned?
    ensures Next(cfg, s, l).disp.Returned? ==> l.Join?
    ensures !l.AcquireFail? ==> Next(cfg, s, l).groupErr == s.groupErr
  {
    hide NextScan, NextIdle, NextFinish, Holders;
    ScanReturnsNot(cfg, s);
    IdleShape(cfg, s);
    ScanShape(cfg, s);
    if l.Finish? {
      FinishShape(cfg, s, l.id);
    }
  }

  lemma ScanReturnsNot(cfg: Config, s: State)
    ensures !NextScan(cfg, s).disp.Returned?
  {
    hide ReadyList, Elems, SetAll;
    if s.completed == |cfg.plan| {} else {}
  }

  // The rows tell the expected statuses.
  ghost predicate ExpectedRows(cfg: Config, rows: seq<TrackState>) {
    |rows| == |cfg.plan| && forall i :: 0 <= i < |rows| ==> rows[i].status == Expected(cfg, cfg.plan[i].id)
  }

  lemma RowsAsExpected(run: TrackRun, rows: seq<TrackState>)
    requires run.Valid() && InOrder(run, rows) && AsExpected(run.cfg, run.Abs())
    ensures ExpectedRows(run.cfg, rows)
  {
    hide DegreesOf, Expected, Ids;
    forall i | 0 <= i < |rows| ensures rows[i].status == Expected(run.cfg, run.plan[i].id) {
      IdAt(run.plan, i);
      assert Is(run.Abs(), run.plan[i].id, Expected(run.cfg, run.plan[i].id));
    }
  }

  // What a complete run returns: the expected rows, if no acquire failed and no sweep
  // blocked a ready track; in particular for every order of the turns, if no selected
  // track depends on another that is to be done.
  lemma ResultExpected(run: TrackRun, ss: seq<State>, ls: seq<Label>, result: Option<seq<TrackState>>)
    requires Fitted(run) && OnTrack(run, ss, ls) && run.dispatcher.Returned? && Collected(run, result)
    ensures Complete(run.cfg, ss, ls)
    ensures !run.groupErr ==>
      result.Some? && ((!run.gapSweep || !HasChain(run.cfg)) ==> ExpectedRows(run.cfg, result.value))
  {
    hide HasChain, Expected, AllExplained, IsRun, DegreesOf, StatusesOf, InOrder, ExpectedRows;
    if !run.groupErr {
      OutcomeIffNoGap(run.cfg, ss, ls);
      ExpectedIffNoChain(run.cfg);
      if !run.gapSweep || !HasChain(run.cfg) {
        assert AsExpected(run.cfg, run.Abs());
        RowsAsExpected(run, result.value);
      }
    }
  }

  // A selected track whose dependencies are Done is Done or Failed as the mapper replied:
  // to the second call if the first reply is retryable, else to the first.
  ghost predicate AsReplied(run: TrackRun, t: TrackId)
    reads run
  {
    t in Ids(run.plan) && (run.only == [] || t in run.only) &&
    (forall d :: d in Deps(run.plan, t) ==> d in run.states && run.states[d].status == Done) ==>
      t in run.states && (run.states[t].status == Done || run.states[t].status == Failed) &&
      (run.states[t].status == Done <==>
        (if run.mapper(t, 0).retryable then run.mapper(t, 1) else run.mapper(t, 0)).err.None?)
  }

  ghost predicate AllAsReplied(run: TrackRun)
    reads run
  {
    forall t :: AsReplied(run, t)
  }

  lemma RunAsReplied(run: TrackRun, ss: seq<State>, ls: seq<Label>)
    requires Fitted(run) && OnTrack(run, ss, ls) && run.dispatcher.Returned? && run.cfg.only == run.only
    ensures !run.groupErr && !run.gapSweep ==> AllAsReplied(run)
  {
    hide AllExplained, IsRun, DegreesOf, Ids, Deps;
    if !run.groupErr && !run.gapSweep {
      assert Complete(run.cfg, ss, ls);
      forall t ensures AsReplied(run, t) {
        OneAsReplied(run, ss, ls, t);
      }
    }
  }

  lemma OneAsReplied(run: TrackRun, ss: seq<State>, ls: seq<Label>, t: TrackId)
    requires Fitted(run) && Complete(run.cfg, ss, ls) && ss[|ls|] == run.Abs() && run.cfg.only == run.only
    requires !run.groupErr && !run.gapSweep
    ensures AsReplied(run, t)
  {
    hide Init, Next, Enabled, DegreesOf, Ids, Deps, DistinctIds;
    if t in Ids(run.plan) && (run.only == [] || t in run.only) &&
       forall d :: d in Deps(run.plan, t) ==> d in run.states && run.states[d].status == Done
    {
      forall d | d in Deps(run.plan, t) ensures Is(ss[|ls|], d, Done) {
      }
      EndsAsReplied(run.cfg, ss, ls, t);
    }
  }

  // DefaultScheduler.Run: the setup, and then turn after turn until the group has returned.
  // The order of the turns is any; a turn that cannot be taken gives way to one that can.
  // It always ends, in a complete run of the transition system, in the given one if the
  // turns are one. Without a failed acquire the result is what plan, selection, artifacts
  // and mapper alone determine, unless a sweep came between a scan and its idle check.
  method Run(run: TrackRun, turns: seq<Label>, ghost whole: seq<State>)
    returns (setup: SetupResult, result: Option<seq<TrackState>>, ghost ss: seq<State>, ghost ls: seq<Label>)
    requires run.Unstarted() && run.cfg.mapper == run.mapper && run.cfg.max == run.max
    modifies run
    ensures setup.UnknownTrack? <==> exists id :: id in run.only && id !in Ids(run.plan)
    ensures setup.ProbeFailed? <==> run.SelectorKnown() && run.only != [] && !run.ProbesFine()
    ensures setup.Ready? ==> Schedule.Valid(run.cfg) && Complete(run.cfg, ss, ls) && ss[|ls|] == run.Abs()
    ensures setup.Ready? ==> Collected(run, result) && run.Explains()
    ensures setup.Ready? && Complete(run.cfg, whole, turns) ==> ss == whole && ls == turns
    ensures setup.Ready? && NoAcquireFails(turns) ==> result.Some?
    ensures setup.Ready? && result.Some? && (!run.gapSweep || !HasChain(run.cfg)) ==>
      ExpectedRows(run.cfg, result.value)
    ensures setup.Ready? && result.Some? && !run.gapSweep ==> AllAsReplied(run)
  {
    setup := run.Setup();
    result, ss, ls := None, [], [];
    if !setup.Ready? {
      return;
    }
    ss := [run.Abs()];
    hide Following, AllExplained, AllAsReplied, HasChain, ExpectedRows, Collected, NoAcquireFails, Complete, Measure;
    Starts(run.cfg, whole, turns, ss[0]);
    var k := 0;
    while !run.dispatcher.Returned?
      invariant Fitted(run) && OnTrack(run, ss, ls) && Following(run.cfg, whole, turns, ss, ls, k)
      invariant run.dispatcher.Returned? ==> Collected(run, result)
      invariant NoAcquireFails(turns) ==> !run.groupErr
      decreases Measure(run.cfg, run.Abs())
    {
      result, ss, ls := OneTurn(run, turns, k, whole, ss, ls);
      k := k + 1;
    }
    ResultExpected(run, ss, ls, result);
    RunAsReplied(run, ss, ls);
    Followed(run.cfg, whole, turns, ss, ls, k);
  }

  lemma Starts(cfg: Config, whole: seq<State>, turns: seq<Label>, s: State)
    requires s == Init(cfg)
    ensures IsRun(cfg, [s], []) && Following(cfg, whole, turns, [s], [], 0)
  {
    if Complete(cfg, whole, turns) {
      assert whole[..1] == [s] && turns[..0] == [];
    }
  }

  lemma Followed(cfg: Config, whole: seq<State>, turns: seq<Label>, ss: seq<State>, ls: seq<Label>, k: nat)
    requires Schedule.Valid(cfg) && Following(cfg, whole, turns, ss, ls, k) && Complete(cfg, ss, ls)
    ensures Complete(cfg, whole, turns) ==> ss == whole && ls == turns
  {
    if Complete(cfg, whole, turns) && k < |turns| {
      assert whole[k] == ss[|ls|] && Enabled(cfg, whole[k], turns[k]);
      ReturnedIsLast(cfg, whole, turns, k);
    } else if Complete(cfg, whole, turns) {
      assert turns[..|turns|] == turns && whole[..|whole|] == whole;
    }
  }

  // Nothing happens after the return.
  lemma ReturnedIsLast(cfg: Config, ss: seq<State>, ls: seq<Label>, k: nat)
    requires Schedule.Valid(cfg) && IsRun(cfg, ss, ls) && k < |ls|
    ensures !ss[k].disp.Returned?
  {
    RunKeeps(cfg, ss, ls, k);
    assert Enabled(cfg, ss[k], ls[k]);
    assert Inv(cfg, ss[k]);
  }
}
