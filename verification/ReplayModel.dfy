// Track files across a scheduler run, and what a replay does to them.
module ReplayModel {
  import opened Plans
  import opened Wrappers
  import opened Schedule
  import opened ScheduleInvariant
  import opened ScheduleSteps
  import opened ScheduleOutcome
  import opened ScheduleTheorems

  function Lookup(files: map<TrackId, File>, t: TrackId): Option<File> {
    if t in files then Some(files[t]) else None
  }

  // The file of t once k mapper calls for it have returned.
  function FileAfter(cfg: Config, t: TrackId, k: nat): Option<File> {
    if k == 0 then Lookup(cfg.files, t)
    else if cfg.mapper(t, k - 1).file.Some? then cfg.mapper(t, k - 1).file
    else FileAfter(cfg, t, k - 1)
  }

  // Some call for t left a file.
  predicate LeavesFile(cfg: Config, t: TrackId) {
    cfg.mapper(t, 0).file.Some? || (Attempts(cfg, t) == 2 && cfg.mapper(t, 1).file.Some?)
  }

  function Returned(s: State, t: TrackId): nat {
    if t in s.workers && s.workers[t].First? then 0
    else if t in s.workers && s.workers[t].Second? then 1
    else Calls(s, t)
  }

  // The files on disk are those the returned calls left, and only the tracks that ended
  // have been mapped to the end.
  ghost predicate Filed(cfg: Config, s: State, t: TrackId) {
    && Lookup(s.files, t) == FileAfter(cfg, t, Returned(s, t))
    && (Is(s, t, Blocked) ==> Calls(s, t) == 0)
    && (Is(s, t, Done) && Selected(cfg, t) ==> Calls(s, t) == Attempts(cfg, t))
    && (Is(s, t, Failed) && !s.groupErr ==> Calls(s, t) == Attempts(cfg, t))
  }

  lemma InitFiled(cfg: Config, t: TrackId)
    ensures Filed(cfg, Init(cfg), t)
  {
  }

  lemma FiledMapReturn(cfg: Config, s: State, id: TrackId)
    requires CallsFit(cfg, s, id) && Filed(cfg, s, id) && Is(s, id, Running)
    requires id in s.workers && (s.workers[id].First? || s.workers[id].Second?)
    ensures Filed(cfg, NextMapReturn(cfg, s, id), id)
  {
  }

  // A step that touches neither the worker nor the calls nor the file of t.
  lemma FiledElsewhere(cfg: Config, s: State, s': State, t: TrackId)
    requires Moves(cfg, s, s') && Crew(s) && CallsFit(cfg, s, t) && Filed(cfg, s, t)
    requires Returned(s', t) == Returned(s, t) && Calls(s', t) == Calls(s, t)
    requires Lookup(s'.files, t) == Lookup(s.files, t)
    requires Is(s', t, Done) && !Is(s, t, Done) ==> Calls(s, t) == Attempts(cfg, t)
    requires Is(s', t, Failed) && !Is(s, t, Failed) && !s'.groupErr ==> Calls(s, t) == Attempts(cfg, t)
    ensures Filed(cfg, s', t)
  {
    if t in s.status {
      assert Move(cfg, s.status, s'.status, s'.groupErr, t);
      assert Is(s, t, Pending) ==> t !in s.workers;
    }
  }

  // Only the return of a mapper call touches the files.
  lemma FilesSame(cfg: Config, s: State, l: Label)
    requires Enabled(cfg, s, l) && !l.MapReturn?
    ensures Next(cfg, s, l).files == s.files
  {
    hide NextScan, NextIdle, NextFinish, Holders;
    ScanShape(cfg, s);
    IdleShape(cfg, s);
    if l.Finish? {
      FinishShape(cfg, s, l.id);
    }
  }

  lemma FilesShape(cfg: Config, s: State, l: Label, t: TrackId)
    requires Enabled(cfg, s, l) && l != Label.MapReturn(t)
    ensures Lookup(Next(cfg, s, l).files, t) == Lookup(s.files, t)
  {
    if l.MapReturn? {
      var s' := NextMapReturn(cfg, s, l.id);
    } else {
      FilesSame(cfg, s, l);
    }
  }

  lemma FiledAcquire(cfg: Config, s: State, id: TrackId)
    requires CallsFit(cfg, s, id) && Filed(cfg, s, id) && Is(s, id, Running) && id in s.workers && s.workers[id].Queued?
    ensures Filed(cfg, NextAcquire(s, id), id)
  {
  }

  lemma ReturnedSame(cfg: Config, s: State, l: Label, t: TrackId)
    requires Crew(s) && CallsFit(cfg, s, t) && Enabled(cfg, s, l)
    requires l != Label.MapReturn(t) && l != Label.Acquire(t)
    ensures Returned(Next(cfg, s, l), t) == Returned(s, t) && Calls(Next(cfg, s, l), t) == Calls(s, t)
  {
    if l == Label.Finish(t) {
      FinishShape(cfg, s, t);
    } else if l == Label.AcquireFail(t) || l == Label.Release(t) {
    } else if l.Spawn? && s.disp.queue[0] == t {
      assert t in Queue(s);
    } else {
      StepElsewhere(cfg, s, l, t);
    }
  }

  // Only the last critical section of its own worker makes a track Done, or Failed
  // without an acquire error.
  lemma OwnEnd(cfg: Config, s: State, l: Label, t: TrackId)
    requires Enabled(cfg, s, l) && Crew(s)
    ensures var s' := Next(cfg, s, l);
      (Is(s', t, Done) && !Is(s, t, Done)) || (Is(s', t, Failed) && !Is(s, t, Failed) && !s'.groupErr) ==>
        l == Label.Finish(t)
  {
    hide NextScan, NextIdle, NextFinish, Holders, Crew;
    match l
    case Finish(id) => FinishStatuses(cfg, s, id);
    case Idle => IdleStatuses(cfg, s);
    case Scan => ScanEndsNone(cfg, s);
    case AcquireFail(_) =>
    case _ => QuietStatus(cfg, s, l);
  }

  lemma ScanEndsNone(cfg: Config, s: State)
    ensures forall t ::
      (Is(NextScan(cfg, s), t, Failed) ==> Is(s, t, Failed)) && (Is(NextScan(cfg, s), t, Done) ==> Is(s, t, Done))
  {
    hide ReadyList, Elems, Ids;
    if s.completed == |cfg.plan| {} else {}
  }

  lemma FiledStep(cfg: Config, s: State, l: Label, t: TrackId)
    requires Valid(cfg) && Inv(cfg, s) && Enabled(cfg, s, l) && Filed(cfg, s, t)
    ensures Filed(cfg, Next(cfg, s, l), t)
  {
    assert CallsFit(cfg, s, t);
    if l == Label.MapReturn(t) {
      assert Live(s, t);
      FiledMapReturn(cfg, s, t);
    } else if l == Label.Acquire(t) {
      assert Live(s, t);
      FiledAcquire(cfg, s, t);
    } else {
      StepMoves(cfg, s, l);
      ReturnedSame(cfg, s, l, t);
      OwnEnd(cfg, s, l, t);
      FilesShape(cfg, s, l, t);
      FiledElsewhere(cfg, s, Next(cfg, s, l), t);
    }
  }

  lemma {:induction false} RunFiled(cfg: Config, ss: seq<State>, ls: seq<Label>, i: nat, t: TrackId)
    requires Valid(cfg) && IsRun(cfg, ss, ls) && i <= |ls|
    ensures Filed(cfg, ss[i], t)
  {
    hide Filed, Inv, Due, Next, Enabled, Init;
    if i == 0 {
      InitFiled(cfg, t);
    } else {
      RunFiled(cfg, ss, ls, i - 1, t);
      RunKeeps(cfg, ss, ls, i - 1);
      FiledStep(cfg, ss[i - 1], ls[i - 1], t);
    }
  }

  // How many mapper calls for t have returned on the way.
  function Returns(ls: seq<Label>, t: TrackId): nat {
    if ls == [] then 0
    else Returns(ls[..|ls| - 1], t) + if ls[|ls| - 1] == Label.MapReturn(t) then 1 else 0
  }

  lemma ReturnedStep(cfg: Config, s: State, l: Label, t: TrackId)
    requires Crew(s) && CallsFit(cfg, s, t) && Enabled(cfg, s, l)
    ensures Returned(Next(cfg, s, l), t) == Returned(s, t) + if l == Label.MapReturn(t) then 1 else 0
  {
    if l != Label.MapReturn(t) && l != Label.Acquire(t) {
      ReturnedSame(cfg, s, l, t);
    }
  }

  lemma {:induction false} ReturnsCounted(cfg: Config, ss: seq<State>, ls: seq<Label>, i: nat, t: TrackId)
    requires Valid(cfg) && IsRun(cfg, ss, ls) && i <= |ls|
    ensures Returns(ls[..i], t) == Returned(ss[i], t)
  {
    hide CallsFit, Crew, Books, Desk, Sound, Cascading, Scanned, Due, Next, Enabled, Returned;
    if i == 0 {
      NoneReturned(cfg, t);
    } else {
      ReturnsCounted(cfg, ss, ls, i - 1, t);
      RunKeeps(cfg, ss, ls, i - 1);
      ReturnedStep(cfg, ss[i - 1], ls[i - 1], t);
      assert ls[..i][..i - 1] == ls[..i - 1];
    }
  }

  lemma NoneReturned(cfg: Config, t: TrackId)
    ensures Returned(Init(cfg), t) == 0
  {
  }

  // The mapper is asked a second time for a track only after a retryable first reply, and
  // for a track that has ended without an acquire error exactly then.
  lemma RetriedIffRetryable(cfg: Config, ss: seq<State>, ls: seq<Label>, i: nat, t: TrackId)
    requires Valid(cfg) && IsRun(cfg, ss, ls) && i <= |ls| && t in Ids(cfg.plan)
    ensures Returns(ls[..i], t) <= 2 && (Returns(ls[..i], t) == 2 ==> cfg.mapper(t, 0).retryable)
    ensures (cfg.only == [] || t in cfg.only) && !ss[i].groupErr && (Is(ss[i], t, Done) || Is(ss[i], t, Failed)) ==>
      Returns(ls[..i], t) == if cfg.mapper(t, 0).retryable then 2 else 1
  {
    ReturnsCounted(cfg, ss, ls, i, t);
    RunFiled(cfg, ss, ls, i, t);
    Safety(cfg, ss, ls, i, t);
    RepliesDecide(cfg, t);
    RunKeeps(cfg, ss, ls, i);
    hide Books, Desk, Sound, Cascading, Scanned, Due, FileAfter, Complete, Attempts, Retries;
    assert Live(ss[i], t) ==> Is(ss[i], t, Running);
  }

  // --- the replay ---

  // What the mapper of the program does: a call without error has created the file.
  ghost predicate WritesOnSuccess(cfg: Config) {
    forall t, n :: cfg.mapper(t, n).err.None? ==> cfg.mapper(t, n).file.Some?
  }

  // The replay hands the scheduler the tracks to rerun; their old files have been moved
  // away, and the probe looks at the files that are left.
  ghost predicate IsReplay(cfg: Config) {
    Valid(cfg) && cfg.only != [] && WritesOnSuccess(cfg) &&
    (forall t :: t in cfg.only ==> t !in cfg.files) &&
    (forall t :: t in Ids(cfg.plan) ==> (t in cfg.probe <==> t in cfg.files))
  }

  ghost predicate ReplayRun(cfg: Config, ss: seq<State>, ls: seq<Label>) {
    IsReplay(cfg) && Complete(cfg, ss, ls) && !ss[|ls|].groupErr
  }

  // After a replay a track has a file exactly if the scheduler reports it Done, or it
  // failed and one of its calls left a file all the same.
  lemma ArtifactIffDone(cfg: Config, ss: seq<State>, ls: seq<Label>, t: TrackId)
    requires ReplayRun(cfg, ss, ls) && t in Ids(cfg.plan)
    ensures t in ss[|ls|].files <==>
      Is(ss[|ls|], t, Done) || (Is(ss[|ls|], t, Failed) && LeavesFile(cfg, t))
  {
    var s := ss[|ls|];
    RunKeeps(cfg, ss, ls, |ls|);
    RunFiled(cfg, ss, ls, |ls|, t);
    AllTerminal(cfg, s, t);
    assert CallsFit(cfg, s, t) && TrackSound(cfg, s.status, s.groupErr, t);
    FileAfterEnd(cfg, t);
    assert t in s.files <==> Lookup(s.files, t).Some?;
    assert t in cfg.files <==> Lookup(cfg.files, t).Some?;
  }

  lemma FileAfterEnd(cfg: Config, t: TrackId)
    ensures FileAfter(cfg, t, 0) == Lookup(cfg.files, t)
    ensures FileAfter(cfg, t, Attempts(cfg, t)).Some? <==> Lookup(cfg.files, t).Some? || LeavesFile(cfg, t)
    ensures WritesOnSuccess(cfg) && Succeeds(cfg, t) ==> LeavesFile(cfg, t)
  {
    assert FileAfter(cfg, t, 1) == if cfg.mapper(t, 0).file.Some? then cfg.mapper(t, 0).file else Lookup(cfg.files, t);
    assert FileAfter(cfg, t, 2) == if cfg.mapper(t, 1).file.Some? then cfg.mapper(t, 1).file else FileAfter(cfg, t, 1);
  }

  // So files and Done agree on the whole plan exactly if no failed track left a file.
  lemma ArtifactsAreDoneIff(cfg: Config, ss: seq<State>, ls: seq<Label>)
    requires ReplayRun(cfg, ss, ls)
    ensures (forall t :: t in Ids(cfg.plan) ==> (t in ss[|ls|].files <==> Is(ss[|ls|], t, Done))) <==>
            (forall t :: t in Ids(cfg.plan) && Is(ss[|ls|], t, Failed) ==> !LeavesFile(cfg, t))
  {
    forall t | t in Ids(cfg.plan)
      ensures t in ss[|ls|].files <==> Is(ss[|ls|], t, Done) || (Is(ss[|ls|], t, Failed) && LeavesFile(cfg, t))
    {
      ArtifactIffDone(cfg, ss, ls, t);
    }
  }

  // The tracks without a file, in plan order: what a replay without a selector reruns.
  function Missing(plan: seq<Track>, files: map<TrackId, File>): seq<TrackId> {
    if plan == [] then []
    else Missing(plan[..|plan| - 1], files) +
         (if plan[|plan| - 1].id in files then [] else [plan[|plan| - 1].id])
  }

  lemma {:induction false} MissingAre(plan: seq<Track>, files: map<TrackId, File>)
    ensures forall t :: t in Missing(plan, files) <==> t in Ids(plan) && t !in files
  {
    if plan != [] {
      var init, last := plan[..|plan| - 1], plan[|plan| - 1];
      MissingAre(init, files);
      assert plan == init + [last];
      assert Ids(plan) == Ids(init) + {last.id};
    }
  }

  lemma {:induction false} MissingInOrder(plan: seq<Track>, files: map<TrackId, File>)
    ensures InPlanOrder(plan, Missing(plan, files))
  {
    if plan == [] {
      var none: seq<nat> := [];
      assert |none| == |Missing(plan, files)|;
    } else {
      var init, last := plan[..|plan| - 1], plan[|plan| - 1];
      MissingInOrder(init, files);
      hide InPlanOrder;
      InOrderSnoc(init, Missing(init, files), last);
      assert init + [last] == plan && Missing(init, files) + [] == Missing(init, files);
    }
  }

  ghost predicate QuietFailures(cfg: Config) {
    forall t :: t in Ids(cfg.plan) && !Succeeds(cfg, t) ==> !LeavesFile(cfg, t)
  }

  // A replay without a selector.
  ghost predicate FullReplay(cfg: Config, ss: seq<State>, ls: seq<Label>) {
    ReplayRun(cfg, ss, ls) && cfg.only == Missing(cfg.plan, cfg.files)
  }

  // A replay without a selector presets every track it does not rerun as Done, and no
  // track loses its file.
  lemma FullReplayKeepsFiles(cfg: Config, ss: seq<State>, ls: seq<Label>, t: TrackId)
    requires FullReplay(cfg, ss, ls) && t in Ids(cfg.plan)
    ensures !Selected(cfg, t) <==> t in cfg.files
    ensures t in cfg.files ==> Is(ss[0], t, Done) && Is(ss[|ls|], t, Done) && t in ss[|ls|].files
  {
    MissingAre(cfg.plan, cfg.files);
    if t in cfg.files {
      assert Is(ss[0], t, Done);
      RunMovesOnly(cfg, ss, ls);
      Absorbing(cfg, ss, 0, |ls|, t);
      ArtifactIffDone(cfg, ss, ls, t);
    }
  }

  lemma AllDoneSelectsNothing(cfg: Config, ss: seq<State>, ls: seq<Label>)
    requires ReplayRun(cfg, ss, ls)
    requires forall t :: t in Ids(cfg.plan) ==> Is(ss[|ls|], t, Done)
    ensures Missing(cfg.plan, ss[|ls|].files) == []
  {
    MissingAre(cfg.plan, ss[|ls|].files);
    var rest := Missing(cfg.plan, ss[|ls|].files);
    if rest != [] {
      assert rest[0] in rest;
      ArtifactIffDone(cfg, ss, ls, rest[0]);
    }
  }

  // --- a second replay ---

  // The configuration of the replay that follows a run which ended in s.
  ghost predicate NextReplay(cfg: Config, s: State, cfg2: Config) {
    cfg2.plan == cfg.plan && cfg2.mapper == cfg.mapper && cfg2.files == s.files &&
    cfg2.only == Missing(cfg.plan, s.files)
  }

  lemma ArtifactsAreLeastDone(cfg: Config, ss: seq<State>, ls: seq<Label>, t: TrackId)
    requires ReplayRun(cfg, ss, ls) && !ss[|ls|].gapSweep && QuietFailures(cfg) && t in Ids(cfg.plan)
    ensures t in ss[|ls|].files <==> t in LeastDone(cfg)
  {
    OutcomeIffNoGap(cfg, ss, ls);
    assert Is(ss[|ls|], t, Expected(cfg, t));
    ArtifactIffDone(cfg, ss, ls, t);
    if Is(ss[|ls|], t, Failed) {
      LeastClosed(cfg);
      assert Succeeds(cfg, t) ==> Justified(cfg, LeastDone(cfg), t);
    }
  }

  // Gap sweeps or not: whatever has a file after a replay is in the least set, and what was
  // preset for it has one.
  lemma FilesAreDue(cfg: Config, ss: seq<State>, ls: seq<Label>, t: TrackId)
    requires ReplayRun(cfg, ss, ls) && QuietFailures(cfg) && t in Ids(cfg.plan)
    ensures t in ss[|ls|].files ==> t in LeastDone(cfg)
  {
    ArtifactIffDone(cfg, ss, ls, t);
    RunKeeps(cfg, ss, ls, |ls|);
    assert TrackSound(cfg, ss[|ls|].status, false, t);
    Safety(cfg, ss, ls, |ls|, t);
  }

  // The second replay selects exactly the tracks without a file, all of them selected
  // before; what it presets has a file and is in the first one's least set.
  lemma SecondSelection(cfg: Config, ss: seq<State>, ls: seq<Label>, cfg2: Config, t: TrackId)
    requires FullReplay(cfg, ss, ls) && QuietFailures(cfg)
    requires NextReplay(cfg, ss[|ls|], cfg2) && IsReplay(cfg2) && t in Ids(cfg.plan)
    ensures Preset(cfg2, t) <==> t in ss[|ls|].files
    ensures Selected(cfg2, t) <==> t !in ss[|ls|].files
    ensures Preset(cfg2, t) ==> t in LeastDone(cfg)
    ensures Preset(cfg, t) ==> Preset(cfg2, t)
    ensures Selected(cfg2, t) ==> Selected(cfg, t)
    ensures Succeeds(cfg2, t) == Succeeds(cfg, t)
  {
    FilesAreDue(cfg, ss, ls, t);
    FullReplayKeepsFiles(cfg, ss, ls, t);
    MissingAre(cfg.plan, ss[|ls|].files);
    MissingAre(cfg.plan, cfg.files);
  }

  lemma SecondWithin(cfg: Config, ss: seq<State>, ls: seq<Label>, cfg2: Config)
    requires FullReplay(cfg, ss, ls) && QuietFailures(cfg)
    requires NextReplay(cfg, ss[|ls|], cfg2) && IsReplay(cfg2)
    ensures LeastDone(cfg2) <= LeastDone(cfg)
  {
    var done := LeastDone(cfg);
    SamePlan(cfg, ss[|ls|], cfg2);
    hide FullReplay, QuietFailures, NextReplay, IsReplay, Selected, Preset, Succeeds;
    LeastClosed(cfg);
    forall t | t in Ids(cfg2.plan) && Justified(cfg2, done, t) ensures t in done {
      SecondSelection(cfg, ss, ls, cfg2, t);
      assert t !in done ==> Justified(cfg, done, t);
    }
    assert Closed(cfg2, done);
  }

  lemma FirstWithin(cfg: Config, ss: seq<State>, ls: seq<Label>, cfg2: Config)
    requires FullReplay(cfg, ss, ls) && QuietFailures(cfg)
    requires NextReplay(cfg, ss[|ls|], cfg2) && IsReplay(cfg2)
    ensures LeastDone(cfg) <= LeastDone(cfg2)
  {
    var done := LeastDone(cfg2);
    SamePlan(cfg, ss[|ls|], cfg2);
    hide FullReplay, QuietFailures, NextReplay, IsReplay, Selected, Preset, Succeeds;
    LeastClosed(cfg2);
    forall t | t in Ids(cfg.plan) && Justified(cfg, done, t) ensures t in done {
      SecondSelection(cfg, ss, ls, cfg2, t);
      assert t !in done ==> Justified(cfg2, done, t);
    }
    assert Closed(cfg, done);
  }

  // A replay leaves the least set as it is, gap sweeps included.
  lemma SecondLeastDone(cfg: Config, ss: seq<State>, ls: seq<Label>, cfg2: Config)
    requires FullReplay(cfg, ss, ls) && QuietFailures(cfg)
    requires NextReplay(cfg, ss[|ls|], cfg2) && IsReplay(cfg2)
    ensures LeastDone(cfg2) == LeastDone(cfg)
  {
    SecondWithin(cfg, ss, ls, cfg2);
    FirstWithin(cfg, ss, ls, cfg2);
  }

  lemma SamePlan(cfg: Config, s: State, cfg2: Config)
    requires NextReplay(cfg, s, cfg2)
    ensures cfg2.plan == cfg.plan
  {
  }

  // --- any number of replays ---

  datatype Replay = Replay(cfg: Config, ss: seq<State>, ls: seq<Label>)

  ghost predicate IsFull(r: Replay) {
    FullReplay(r.cfg, r.ss, r.ls)
  }

  ghost predicate Follows(r: Replay, r2: Replay)
    requires IsFull(r)
  {
    NextReplay(r.cfg, r.ss[|r.ls|], r2.cfg)
  }

  // Replays without a selector, each starting from the files that the one before left.
  ghost predicate IsChain(rs: seq<Replay>) {
    (forall i :: 0 <= i < |rs| ==> IsFull(rs[i])) &&
    (forall i :: 0 <= i < |rs| - 1 ==> Follows(rs[i], rs[i + 1]))
  }

  predicate HasFile(r: Replay, t: TrackId)
    requires |r.ss| == |r.ls| + 1
  {
    t in r.ss[|r.ls|].files
  }

  lemma {:induction false} ChainKeeps(rs: seq<Replay>, i: nat)
    requires IsChain(rs) && i < |rs| && QuietFailures(rs[0].cfg)
    ensures rs[i].cfg.plan == rs[0].cfg.plan && QuietFailures(rs[i].cfg)
    ensures LeastDone(rs[i].cfg) == LeastDone(rs[0].cfg)
  {
    hide IsFull, Follows, QuietFailures, LeastDone;
    if i > 0 {
      ChainKeeps(rs, i - 1);
      ChainStep(rs[i - 1], rs[i]);
    }
  }

  lemma ChainStep(r: Replay, r2: Replay)
    requires IsFull(r) && IsFull(r2) && Follows(r, r2) && QuietFailures(r.cfg)
    ensures r2.cfg.plan == r.cfg.plan && QuietFailures(r2.cfg) && LeastDone(r2.cfg) == LeastDone(r.cfg)
    ensures forall t :: t in Ids(r.cfg.plan) && HasFile(r, t) ==> HasFile(r2, t)
  {
    SecondLeastDone(r.cfg, r.ss, r.ls, r2.cfg);
    hide LeastDone;
    forall t | t in Ids(r.cfg.plan) && HasFile(r, t) ensures HasFile(r2, t) {
      FullReplayKeepsFiles(r2.cfg, r2.ss, r2.ls, t);
    }
  }

  lemma FullRun(r: Replay)
    requires IsFull(r)
    ensures |r.ss| == |r.ls| + 1
  {
  }

  lemma OneReplay(r: Replay, t: TrackId)
    requires IsFull(r) && QuietFailures(r.cfg) && t in Ids(r.cfg.plan) && |r.ss| == |r.ls| + 1
    ensures HasFile(r, t) ==> t in LeastDone(r.cfg)
    ensures !r.ss[|r.ls|].gapSweep ==> (HasFile(r, t) <==> t in LeastDone(r.cfg))
  {
    hide LeastDone, QuietFailures;
    FilesAreDue(r.cfg, r.ss, r.ls, t);
    if !r.ss[|r.ls|].gapSweep {
      ArtifactsAreLeastDone(r.cfg, r.ss, r.ls, t);
    }
  }

  // Over any number of replays files only come in, never outside the least set of the
  // first; and any replay without a gap sweep ends with exactly that set.
  lemma {:induction false} ReplaysConverge(rs: seq<Replay>, i: nat, j: nat, t: TrackId)
    requires IsChain(rs) && i <= j < |rs| && QuietFailures(rs[0].cfg) && t in Ids(rs[0].cfg.plan)
    ensures |rs[i].ss| == |rs[i].ls| + 1 && |rs[j].ss| == |rs[j].ls| + 1
    ensures HasFile(rs[i], t) ==> HasFile(rs[j], t)
    ensures HasFile(rs[j], t) ==> t in LeastDone(rs[0].cfg)
    ensures !rs[j].ss[|rs[j].ls|].gapSweep ==> (HasFile(rs[j], t) <==> t in LeastDone(rs[0].cfg))
    decreases j
  {
    hide IsFull, Follows, QuietFailures, LeastDone;
    FullRun(rs[i]);
    FullRun(rs[j]);
    ChainKeeps(rs, j);
    OneReplay(rs[j], t);
    if i < j {
      ChainKeeps(rs, j - 1);
      ReplaysConverge(rs, i, j - 1, t);
      ChainStep(rs[j - 1], rs[j]);
    }
  }

  // With no gap sweep in either run, a second replay leaves exactly the same tracks with
  // a file.
  lemma ReplayIsIdempotent(cfg: Config, ss: seq<State>, ls: seq<Label>,
                           cfg2: Config, ss2: seq<State>, ls2: seq<Label>, t: TrackId)
    requires FullReplay(cfg, ss, ls) && !ss[|ls|].gapSweep && QuietFailures(cfg)
    requires NextReplay(cfg, ss[|ls|], cfg2) && ReplayRun(cfg2, ss2, ls2) && !ss2[|ls2|].gapSweep
    requires t in Ids(cfg.plan)
    ensures t in ss2[|ls2|].files <==> t in ss[|ls|].files
  {
    hide LeastDone, Complete, WritesOnSuccess, Missing;
    SecondLeastDone(cfg, ss, ls, cfg2);
    ArtifactsAreLeastDone(cfg, ss, ls, t);
    ArtifactsAreLeastDone(cfg2, ss2, ls2, t);
  }
}
