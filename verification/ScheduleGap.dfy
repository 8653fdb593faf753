// Between a scan that finds nothing and the idle check that follows it the mutex is
// free. A worker that finishes there can make a track ready, and the sweep then blocks
// it. This module says for exactly which inputs that can happen.
module ScheduleGap {
  import opened Plans
  import Wrappers
  import opened Schedule
  import opened ScheduleInvariant
  import opened ScheduleSteps
  import opened ScheduleOutcome
  import opened ScheduleTheorems
  import opened ScheduleTermination

  // Some selected track gets all its dependencies done, one of them by this run.
  ghost predicate ChainAt(cfg: Config, t: TrackId) {
    Selected(cfg, t) && Within(Deps(cfg.plan, t), LeastDone(cfg)) &&
    exists d :: d in Deps(cfg.plan, t) && Selected(cfg, d)
  }

  ghost predicate HasChain(cfg: Config) {
    exists t :: ChainAt(cfg, t)
  }

  lemma GapNeedsChain(cfg: Config, ss: seq<State>, ls: seq<Label>, i: nat)
    requires Valid(cfg) && IsRun(cfg, ss, ls) && i <= |ls| && ss[i].gapSweep
    ensures HasChain(cfg)
  {
    RunKeeps(cfg, ss, ls, i);
    var s := ss[i];
    var t :| Robbed(cfg, s, t);
    forall d | d in Deps(cfg.plan, t) ensures d in LeastDone(cfg) {
      assert Is(s, d, Done);
    }
    var d :| d in Deps(cfg.plan, t) && !Preset(cfg, d);
    assert TrackSound(cfg, s.status, s.groupErr, d);
    assert ChainAt(cfg, t);
  }

  // --- building the bad run ---

  // A clean run so far, in which t still waits.
  ghost predicate Clean(cfg: Config, ss: seq<State>, ls: seq<Label>, t: TrackId) {
    IsRun(cfg, ss, ls) && !ss[|ls|].groupErr && !ss[|ls|].gapSweep && Is(ss[|ls|], t, Pending)
  }

  lemma StillPending(cfg: Config, s: State, l: Label, t: TrackId)
    requires Valid(cfg) && Inv(cfg, s) && Due(cfg, s) && Enabled(cfg, s, l)
    requires !l.Scan? && !l.Idle? && !l.AcquireFail?
    requires !s.groupErr && !s.gapSweep && Is(s, t, Pending) && ChainAt(cfg, t)
    ensures Is(Next(cfg, s, l), t, Pending)
    ensures !Next(cfg, s, l).groupErr && !Next(cfg, s, l).gapSweep
  {
    var s' := Next(cfg, s, l);
    StepMoves(cfg, s, l);
    StepDue(cfg, s, l);
    QuietFlags(cfg, s, l);
    assert Move(cfg, s.status, s'.status, s'.groupErr, t);
    OnlyScanStarts(cfg, s, l, t);
  }

  lemma QuietFlags(cfg: Config, s: State, l: Label)
    requires Enabled(cfg, s, l) && !l.Idle? && !l.AcquireFail?
    ensures Next(cfg, s, l).groupErr == s.groupErr && Next(cfg, s, l).gapSweep == s.gapSweep
  {
    match l
    case Scan => ScanShape(cfg, s);
    case Finish(id) => FinishShape(cfg, s, id);
    case _ =>
  }

  lemma OnlyScanStarts(cfg: Config, s: State, l: Label, t: TrackId)
    requires Crew(s) && Enabled(cfg, s, l) && !l.Scan? && Is(s, t, Pending)
    ensures !Is(Next(cfg, s, l), t, Running)
  {
    match l
    case Idle => IdleStatuses(cfg, s);
    case Finish(id) =>
      assert Live(s, id);
      FinishStatuses(cfg, s, id);
    case _ =>
  }

  lemma PendingLeft(cfg: Config, s: State, t: TrackId)
    requires Valid(cfg) && Books(cfg, s) && Is(s, t, Pending)
    ensures s.completed < |cfg.plan|
  {
    Census(cfg, s);
    assert t in With(s.status, Pending);
  }

  // A scan leaves no ready track, and does not start a track that is not ready.
  lemma ScanEmpties(cfg: Config, s: State)
    requires Valid(cfg) && Books(cfg, s) && s.completed != |cfg.plan|
    ensures !SomeReady(NextScan(cfg, s))
    ensures forall t :: Is(s, t, Pending) && !IsReady(s, t) ==> Is(NextScan(cfg, s), t, Pending)
    ensures !SomeReady(s) ==> NextScan(cfg, s).disp.Gap?
  {
    var s' := NextScan(cfg, s);
    ReadyListFits(cfg.plan, s);
    forall t | t in s'.status ensures !IsReady(s', t) {
      assert IsReady(s, t) ==> t in ReadyList(cfg.plan, s);
    }
    ReadyMeansSome(cfg, s);
  }

  lemma ReadyMeansSome(cfg: Config, s: State)
    requires Valid(cfg)
    ensures ReadyList(cfg.plan, s) != [] ==> SomeReady(s)
  {
    ReadyListFits(cfg.plan, s);
    if ReadyList(cfg.plan, s) != [] {
      assert ReadyList(cfg.plan, s)[0] in ReadyList(cfg.plan, s);
    }
  }

  lemma ScanClean(cfg: Config, ss: seq<State>, ls: seq<Label>, t: TrackId)
    returns (ss': seq<State>, ls': seq<Label>)
    requires Valid(cfg) && Clean(cfg, ss, ls, t) && ss[|ls|].disp.Scanning? && !IsReady(ss[|ls|], t)
    ensures Clean(cfg, ss', ls', t) && !SomeReady(ss'[|ls'|])
    ensures !SomeReady(ss[|ls|]) ==> ss'[|ls'|].disp.Gap?
    ensures ss'[|ls'|].disp.Gap? || ss'[|ls'|].disp.Spawning?
  {
    var s := ss[|ls|];
    RunKeeps(cfg, ss, ls, |ls|);
    PendingLeft(cfg, s, t);
    ScanEmpties(cfg, s);
    ScanShape(cfg, s);
    ss', ls' := Extend(cfg, ss, ls, Scan);
    assert ss'[|ls'|] == NextScan(cfg, s);
  }

  lemma {:induction false} SpawnClean(cfg: Config, ss: seq<State>, ls: seq<Label>, t: TrackId)
    returns (ss': seq<State>, ls': seq<Label>)
    requires Valid(cfg) && Clean(cfg, ss, ls, t) && !SomeReady(ss[|ls|])
    requires ss[|ls|].disp.Spawning? || ss[|ls|].disp.Scanning?
    ensures Clean(cfg, ss', ls', t) && !SomeReady(ss'[|ls'|]) && ss'[|ls'|].disp.Scanning?
    decreases Measure(cfg, ss[|ls|])
  {
    var s := ss[|ls|];
    RunKeeps(cfg, ss, ls, |ls|);
    if s.disp.Scanning? {
      ss', ls' := ss, ls;
    } else {
      hide Inv, Due, Measure;
      SpawnQuiet(cfg, s);
      var ss1, ls1 := Extend(cfg, ss, ls, Spawn);
      assert ss1[|ls1|] == NextSpawn(s);
      ss', ls' := SpawnClean(cfg, ss1, ls1, t);
    }
  }

  lemma SpawnQuiet(cfg: Config, s: State)
    requires Valid(cfg) && Inv(cfg, s) && s.disp.Spawning? && !SomeReady(s)
    ensures Enabled(cfg, s, Spawn) && !SomeReady(NextSpawn(s))
    ensures Measure(cfg, NextSpawn(s)) < Measure(cfg, s)
  {
    StepLess(cfg, s, Spawn);
    hide Measure;
    assert forall t :: IsReady(NextSpawn(s), t) <==> IsReady(s, t);
  }

  lemma {:induction false} DrainClean(cfg: Config, ss: seq<State>, ls: seq<Label>, t: TrackId)
    returns (ss': seq<State>, ls': seq<Label>)
    requires Valid(cfg) && Clean(cfg, ss, ls, t) && ss[|ls|].disp.Gap? && ChainAt(cfg, t)
    ensures Clean(cfg, ss', ls', t) && ss'[|ls'|].disp.Gap? && ss'[|ls'|].workers == map[]
    decreases Measure(cfg, ss[|ls|])
  {
    var s := ss[|ls|];
    RunKeeps(cfg, ss, ls, |ls|);
    if s.workers == map[] {
      ss', ls' := ss, ls;
    } else {
      var l := WorkerProgress(cfg, s);
      StepLess(cfg, s, l);
      StillPending(cfg, s, l, t);
      StaysInGap(cfg, s, l);
      var ss1, ls1 := Extend(cfg, ss, ls, l);
      ss', ls' := DrainClean(cfg, ss1, ls1, t);
    }
  }

  lemma StaysInGap(cfg: Config, s: State, l: Label)
    requires s.disp.Gap? && Enabled(cfg, s, l) && (l.Acquire? || l.MapReturn? || l.Finish? || l.Release?)
    ensures Next(cfg, s, l).disp.Gap?
  {
    if l.Finish? {
      FinishShape(cfg, s, l.id);
    }
  }

  // With nobody running and t still waiting, the sweep hits a ready track.
  lemma SweepHits(cfg: Config, s: State, t: TrackId)
    requires Valid(cfg) && Inv(cfg, s) && Due(cfg, s) && s.disp.Gap? && s.workers == map[]
    requires !s.groupErr && !s.gapSweep && Is(s, t, Pending) && ChainAt(cfg, t)
    ensures Next(cfg, s, Idle).gapSweep && Next(cfg, s, Idle).groupErr == s.groupErr
  {
    assert With(s.status, Running) == {} by {
      forall u | u in s.status ensures s.status[u] != Running {
        assert Is(s, u, Running) ==> u in Queue(s) || Live(s, u);
      }
    }
    PendingLeft(cfg, s, t);
    IdleShape(cfg, s);
    if !SomeReady(s) {
      SweptDoomed(cfg, s);
    }
  }

  lemma StartClean(cfg: Config, t: TrackId) returns (ss: seq<State>, ls: seq<Label>)
    requires Valid(cfg) && ChainAt(cfg, t)
    ensures Clean(cfg, ss, ls, t) && ss[|ls|].disp.Scanning? && !IsReady(ss[|ls|], t)
  {
    hide DistinctIds, Terminals, Within;
    ss, ls := [Init(cfg)], [];
    var d :| d in Deps(cfg.plan, t) && Selected(cfg, d);
    assert Is(ss[0], t, Pending) && Is(ss[0], d, Pending);
    UndoneZero(Deps(cfg.plan, t), ss[0].status);
  }

  lemma GapRun(cfg: Config, t: TrackId) returns (ss: seq<State>, ls: seq<Label>)
    requires Valid(cfg) && ChainAt(cfg, t)
    ensures Complete(cfg, ss, ls) && !ss[|ls|].groupErr && ss[|ls|].gapSweep
  {
    ss, ls := StartClean(cfg, t);
    ss, ls := ScanClean(cfg, ss, ls, t);
    if ss[|ls|].disp.Spawning? {
      ss, ls := SpawnClean(cfg, ss, ls, t);
      assert !IsReady(ss[|ls|], t);
      ss, ls := ScanClean(cfg, ss, ls, t);
    }
    ss, ls := DrainClean(cfg, ss, ls, t);
    RunKeeps(cfg, ss, ls, |ls|);
    SweepHits(cfg, ss[|ls|], t);
    ss, ls := Extend(cfg, ss, ls, Idle);
    ss, ls := Completes(cfg, ss, ls);
  }

  // Every complete run without acquire errors ends as expected.
  ghost predicate AlwaysExpected(cfg: Config) {
    forall ss: seq<State>, ls: seq<Label> ::
      Complete(cfg, ss, ls) && !ss[|ls|].groupErr ==> AsExpected(cfg, ss[|ls|])
  }

  lemma ExpectedIffNoChain(cfg: Config)
    requires Valid(cfg)
    ensures AlwaysExpected(cfg) <==> !HasChain(cfg)
  {
    if HasChain(cfg) {
      var t :| ChainAt(cfg, t);
      var ss, ls := GapRun(cfg, t);
      OutcomeIffNoGap(cfg, ss, ls);
    } else {
      forall ss: seq<State>, ls: seq<Label> | Complete(cfg, ss, ls) && !ss[|ls|].groupErr
        ensures AsExpected(cfg, ss[|ls|])
      {
        if ss[|ls|].gapSweep {
          GapNeedsChain(cfg, ss, ls, |ls|);
        }
        OutcomeIffNoGap(cfg, ss, ls);
      }
    }
  }

  // --- building the good run ---

  // A run so far without errors and gap sweeps; before an idle check nothing is ready.
  ghost predicate Calm(cfg: Config, ss: seq<State>, ls: seq<Label>) {
    IsRun(cfg, ss, ls) && CalmAt(ss[|ls|])
  }

  ghost predicate CalmAt(s: State) {
    !s.groupErr && !s.gapSweep && (s.disp.Gap? ==> !SomeReady(s))
  }

  // The dispatcher's own step at a scan and before an idle check, else any.
  lemma CalmStep(cfg: Config, s: State) returns (l: Label)
    requires Valid(cfg) && Inv(cfg, s) && CalmAt(s) && !s.disp.Returned?
    ensures Enabled(cfg, s, l) && CalmAt(Next(cfg, s, l))
  {
    if s.disp.Gap? {
      l := Idle;
      IdleIsCalm(cfg, s);
    } else if s.disp.Scanning? {
      l := Scan;
      ScanIsCalm(cfg, s);
    } else {
      l := Progress(cfg, s);
      NoNewGap(cfg, s, l);
      QuietFlags(cfg, s, l);
    }
  }

  lemma IdleIsCalm(cfg: Config, s: State)
    requires CalmAt(s) && s.disp.Gap?
    ensures CalmAt(NextIdle(cfg, s))
  {
    hide SomeReady, With, SetAll;
    IdleShape(cfg, s);
  }

  lemma ScanIsCalm(cfg: Config, s: State)
    requires Valid(cfg) && Inv(cfg, s) && CalmAt(s) && s.disp.Scanning?
    ensures CalmAt(NextScan(cfg, s))
  {
    ScanShape(cfg, s);
    if s.completed != |cfg.plan| {
      ScanEmpties(cfg, s);
    }
  }

  lemma NoNewGap(cfg: Config, s: State, l: Label)
    requires Enabled(cfg, s, l) && !s.disp.Gap? && !s.disp.Scanning? && !l.AcquireFail?
    ensures !Next(cfg, s, l).disp.Gap?
  {
    if l.Finish? {
      FinishShape(cfg, s, l.id);
    }
  }

  lemma {:induction false} CalmCompletes(cfg: Config, ss: seq<State>, ls: seq<Label>)
    returns (ss': seq<State>, ls': seq<Label>)
    requires Valid(cfg) && Calm(cfg, ss, ls)
    ensures Complete(cfg, ss', ls') && Calm(cfg, ss', ls')
    decreases Measure(cfg, ss[|ls|])
  {
    hide Next, Init, Enabled, CalmAt, Inv, Due, Measure;
    var s := ss[|ls|];
    RunKeeps(cfg, ss, ls, |ls|);
    if s.disp.Returned? {
      ss', ls' := ss, ls;
    } else {
      var l := CalmStep(cfg, s);
      StepLess(cfg, s, l);
      var ss1, ls1 := Extend(cfg, ss, ls, l);
      ss', ls' := CalmCompletes(cfg, ss1, ls1);
    }
  }

  // Every input has a complete run without errors and gap sweeps.
  lemma GoodRun(cfg: Config) returns (ss: seq<State>, ls: seq<Label>)
    requires Valid(cfg)
    ensures Complete(cfg, ss, ls) && !ss[|ls|].groupErr && !ss[|ls|].gapSweep
  {
    ss, ls := CalmCompletes(cfg, [Init(cfg)], []);
  }

  // --- when all interleavings agree ---

  // Any two complete runs without acquire errors end with the same statuses.
  ghost predicate Independent(cfg: Config) {
    forall ss1: seq<State>, ls1: seq<Label>, ss2: seq<State>, ls2: seq<Label> ::
      Complete(cfg, ss1, ls1) && !ss1[|ls1|].groupErr && Complete(cfg, ss2, ls2) && !ss2[|ls2|].groupErr ==>
        ss1[|ls1|].status == ss2[|ls2|].status
  }

  // The outcome is the same for every interleaving without acquire errors exactly for
  // the inputs in which no selected track depends, with all its dependencies getting
  // done, on another selected track.
  lemma IndependentIffNoChain(cfg: Config)
    requires Valid(cfg)
    ensures Independent(cfg) <==> !HasChain(cfg)
  {
    hide Init, Next, Enabled, AsExpected, HasChain;
    if HasChain(cfg) {
      var ss1, ls1, ss2, ls2 := TwoOutcomes(cfg);
    } else {
      ExpectedIffNoChain(cfg);
      forall ss1: seq<State>, ls1: seq<Label>, ss2: seq<State>, ls2: seq<Label> |
        Complete(cfg, ss1, ls1) && !ss1[|ls1|].groupErr && Complete(cfg, ss2, ls2) && !ss2[|ls2|].groupErr
        ensures ss1[|ls1|].status == ss2[|ls2|].status
      {
        SameIfExpected(cfg, ss1, ls1, ss2, ls2);
      }
    }
  }

  // With a chain there are two complete runs without acquire errors that end differently.
  lemma TwoOutcomes(cfg: Config)
    returns (ss1: seq<State>, ls1: seq<Label>, ss2: seq<State>, ls2: seq<Label>)
    requires Valid(cfg) && HasChain(cfg)
    ensures Complete(cfg, ss1, ls1) && !ss1[|ls1|].groupErr && AsExpected(cfg, ss1[|ls1|])
    ensures Complete(cfg, ss2, ls2) && !ss2[|ls2|].groupErr && !AsExpected(cfg, ss2[|ls2|])
    ensures ss1[|ls1|].status != ss2[|ls2|].status
  {
    var t :| ChainAt(cfg, t);
    ss1, ls1 := GoodRun(cfg);
    ss2, ls2 := GapRun(cfg, t);
    OutcomeIffNoGap(cfg, ss1, ls1);
    OutcomeIffNoGap(cfg, ss2, ls2);
    hide Complete, ChainAt, Expected, Ids;
    var u :| u in Ids(cfg.plan) && !Is(ss2[|ls2|], u, Expected(cfg, u));
    assert Is(ss1[|ls1|], u, Expected(cfg, u));
  }

  lemma SameIfExpected(cfg: Config, ss1: seq<State>, ls1: seq<Label>, ss2: seq<State>, ls2: seq<Label>)
    requires Valid(cfg) && Complete(cfg, ss1, ls1) && Complete(cfg, ss2, ls2)
    requires AsExpected(cfg, ss1[|ls1|]) && AsExpected(cfg, ss2[|ls2|])
    ensures ss1[|ls1|].status == ss2[|ls2|].status
  {
    RunKeeps(cfg, ss1, ls1, |ls1|);
    RunKeeps(cfg, ss2, ls2, |ls2|);
    hide Expected, Ids, Complete;
    var sts1, sts2 := ss1[|ls1|].status, ss2[|ls2|].status;
    assert sts1.Keys == Ids(cfg.plan) == sts2.Keys;
    forall t | t in sts1 ensures sts1[t] == sts2[t] {
      assert Is(ss1[|ls1|], t, Expected(cfg, t)) && Is(ss2[|ls2|], t, Expected(cfg, t));
    }
  }

  // --- an input with a chain ---

  const FIRST := TrackId("a")
  const SECOND := TrackId("b")

  // Two tracks, the second after the first, and a mapper that always succeeds.
  function Pair(): Config {
    Config([Track(FIRST, [], false), Track(SECOND, [FIRST], false)], [], {}, map[], 2,
           (t, n) => MapReply(Wrappers.None, false, Wrappers.None))
  }

  lemma PairIs()
    ensures var cfg := Pair();
      Valid(cfg) && Deps(cfg.plan, FIRST) == [] && Deps(cfg.plan, SECOND) == [FIRST] &&
      Selected(cfg, FIRST) && Selected(cfg, SECOND) && Succeeds(cfg, FIRST)
  {
    var plan := Pair().plan;
    assert FIRST.text == "a" && SECOND.text == "b" && "a"[0] != "b"[0];
    assert plan[0] in plan && plan[1] in plan;
    assert plan[1..][0] == plan[1];
  }

  lemma PairHasChain()
    ensures Valid(Pair()) && ChainAt(Pair(), SECOND) && !Independent(Pair())
  {
    PairIs();
    hide Pair, Valid, Deps, Selected, Succeeds, LeastDone, Independent;
    var cfg := Pair();
    LeastClosed(cfg);
    assert Justified(cfg, LeastDone(cfg), FIRST);
    InPlan(cfg, FIRST);
    assert FIRST in Deps(cfg.plan, SECOND);
    IndependentIffNoChain(cfg);
  }

  lemma InPlan(cfg: Config, t: TrackId)
    requires Selected(cfg, t)
    ensures t in Ids(cfg.plan)
  {
  }
}
