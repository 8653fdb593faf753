// A whole replay: choosing the tracks, moving their files, running the scheduler on them,
// and comparing what it leaves with what was there before.
module ReplayDriver {
  import opened Plans
  import opened Wrappers
  import opened Schedule
  import opened ScheduleInvariant
  import opened ScheduleOutcome
  import opened ScheduleTheorems
  import opened ReplayModel
  import Runtime = ReplayRuntime
  import opened TrackStates
  import opened SchedulerRuntime
  import opened SchedulerDriver

  datatype ReplayOutput =
    | SelectorError(id: TrackId)
    | NoTracksToRerun
    | SchedulerError
    | Compared(mismatches: map<TrackId, seq<Runtime.Mismatch>>)

  function Rerun(plan: seq<Track>, only: seq<TrackId>, files: map<TrackId, File>): seq<TrackId> {
    if only == [] then Missing(plan, files) else only
  }

  // What the scheduler is handed: the tracks to rerun, and a directory without their files.
  function Handed(plan: seq<Track>, rerun: seq<TrackId>, files: map<TrackId, File>, max: int,
                  mapper: (TrackId, nat) -> MapReply): Config
  {
    var kept := files - Elems(rerun);
    Config(plan, rerun, kept.Keys, kept, max, mapper)
  }

  lemma HandedIsReplay(plan: seq<Track>, rerun: seq<TrackId>, files: map<TrackId, File>, max: int,
                       mapper: (TrackId, nat) -> MapReply)
    requires DistinctIds(plan) && rerun != [] && forall t :: t in rerun ==> t in Ids(plan)
    ensures var cfg := Handed(plan, rerun, files, max, mapper); Valid(cfg) && (IsReplay(cfg) <==> WritesOnSuccess(cfg))
  {
    hide WritesOnSuccess, Ids, DistinctIds;
    forall t | t in rerun ensures t in Elems(rerun) {
    }
  }

  // Without a selector no file is moved, and the scheduler gets just the missing tracks.
  lemma HandedMissing(plan: seq<Track>, files: map<TrackId, File>, max: int, mapper: (TrackId, nat) -> MapReply)
    ensures forall t :: t in Missing(plan, files) ==> t in Ids(plan)
    ensures var cfg := Handed(plan, Missing(plan, files), files, max, mapper);
      cfg.files == files && cfg.only == Missing(plan, cfg.files)
  {
    hide Missing, Ids;
    MissingAre(plan, files);
    assert files - Elems(Missing(plan, files)) == files;
  }

  // The scheduler as the replay calls it.
  method RunScheduler(plan: seq<Track>, rerun: seq<TrackId>, kept: map<TrackId, File>, max: int,
                      mapper: (TrackId, nat) -> MapReply, turns: seq<Label>, ghost cfg: Config)
    returns (ok: bool, files: map<TrackId, File>, ghost ss: seq<State>, ghost ls: seq<Label>)
    requires cfg == Config(plan, rerun, kept.Keys, kept, max, mapper) && Valid(cfg)
    ensures Complete(cfg, ss, ls) && files == ss[|ls|].files && (ok <==> !ss[|ls|].groupErr)
    ensures NoAcquireFails(turns) ==> ok
  {
    var probe := (id: TrackId) => if id in kept then Present else Absent;
    var run := new TrackRun(plan, rerun, probe, max, mapper, kept, cfg);
    var setup, result;
    hide AllExplained, InOrder, ExpectedRows, NoAcquireFails, DistinctIds, Ids, Init;
    setup, result, ss, ls := Run(run, turns, []);
    ok, files := result.Some?, run.files;
  }

  // DefaultReplay.Run behind the parsing of the plan. The scheduler object writes its
  // files in the directory; here they come back with its result.
  method Replay(dir: Runtime.RunDir, plan: seq<Track>, only: seq<TrackId>, max: int,
                mapper: (TrackId, nat) -> MapReply, turns: seq<Label>)
    returns (out: ReplayOutput, ghost r: ReplayModel.Replay)
    requires DistinctIds(plan)
    modifies dir
    ensures out.SelectorError? <==> exists id :: id in only && id !in Ids(plan)
    ensures out.SelectorError? ==> out.id in only && out.id !in Ids(plan)
    ensures out.NoTracksToRerun? <==> only == [] && Missing(plan, old(dir.mapDir)) == []
    ensures out.SelectorError? || out.NoTracksToRerun? ==>
      dir.mapDir == old(dir.mapDir) && dir.backupDir == old(dir.backupDir)
    ensures NoAcquireFails(turns) ==> !out.SchedulerError?
    ensures out.SchedulerError? || out.Compared? ==>
      r.cfg == Handed(plan, Rerun(plan, only, old(dir.mapDir)), old(dir.mapDir), max, mapper) &&
      Complete(r.cfg, r.ss, r.ls) && dir.mapDir == r.ss[|r.ls|].files &&
      dir.backupDir == old(dir.backupDir) + Runtime.Restrict(old(dir.mapDir), Elems(r.cfg.only))
    ensures out.Compared? && WritesOnSuccess(r.cfg) ==> ReplayRun(r.cfg, r.ss, r.ls)
    ensures out.Compared? && WritesOnSuccess(r.cfg) && only == [] ==> IsFull(r)
    ensures out.Compared? ==> Reported(dir.backupDir, dir.mapDir, plan, r.cfg.only, out.mismatches)
  {
    hide WritesOnSuccess, Missing, Complete, NoAcquireFails, DistinctIds, Ids, Reported;
    r := ReplayModel.Replay(Handed(plan, [], dir.mapDir, max, mapper), [], []);
    var sel := dir.SelectTracks(plan, only);
    if sel.NotInPlan? {
      return SelectorError(sel.id), r;
    }
    HandedMissing(plan, dir.mapDir, max, mapper);
    if sel.ids == [] {
      return NoTracksToRerun, r;
    }
    HandedIsReplay(plan, sel.ids, dir.mapDir, max, mapper);
    ghost var cfg := Handed(plan, sel.ids, dir.mapDir, max, mapper);
    dir.BackUp(sel.ids);
    var ok, files;
    ghost var ss, ls;
    ok, files, ss, ls := RunScheduler(plan, sel.ids, dir.mapDir, max, mapper, turns, cfg);
    dir.mapDir := files;
    r := ReplayModel.Replay(cfg, ss, ls);
    if !ok {
      return SchedulerError, r;
    }
    var all := dir.ParityCheck(plan, sel.ids);
    IsReported(dir.backupDir, dir.mapDir, plan, sel.ids, all);
    out := Compared(all);
  }

  // What the parity check reports, of the old and the new files.
  ghost predicate Reported(backups: map<TrackId, File>, files: map<TrackId, File>, plan: seq<Track>,
                           rerun: seq<TrackId>, all: map<TrackId, seq<Runtime.Mismatch>>)
  {
    forall id :: id in all <==>
      id in rerun && !Runtime.Exempt(plan, id) && id in backups &&
      Runtime.Mismatches(backups[id].rows, Runtime.Rows(Lookup(files, id))) != []
  }

  lemma IsReported(backups: map<TrackId, File>, files: map<TrackId, File>, plan: seq<Track>,
                   rerun: seq<TrackId>, all: map<TrackId, seq<Runtime.Mismatch>>)
    requires forall id :: id in all <==>
      id in rerun && !Runtime.Exempt(plan, id) && id in backups &&
      Runtime.Mismatches(backups[id].rows, Runtime.Rows(Lookup(files, id))) != []
    ensures Reported(backups, files, plan, rerun, all)
  {
  }

  // A rerun track that ends Done has the file of its last mapper call; so it is reported
  // exactly if those rows are not the old ones, apart from their evidence ids.
  lemma DoneIsReportedIff(r: ReplayModel.Replay, old_: map<TrackId, File>, backups: map<TrackId, File>,
                          all: map<TrackId, seq<Runtime.Mismatch>>, id: TrackId)
    requires ReplayRun(r.cfg, r.ss, r.ls) && id in r.cfg.only && Is(r.ss[|r.ls|], id, Done)
    requires Reported(backups + Runtime.Restrict(old_, Elems(r.cfg.only)), r.ss[|r.ls|].files, r.cfg.plan, r.cfg.only,
      all)
    requires id in old_ && !Runtime.Exempt(r.cfg.plan, id)
    ensures var reply := if r.cfg.mapper(id, 0).retryable then r.cfg.mapper(id, 1) else r.cfg.mapper(id, 0);
      reply.file.Some? &&
      (id !in all <==> |old_[id].rows| == |reply.file.value.rows| && forall i, key ::
         0 <= i < |old_[id].rows| && key != "evidence_ids" ==>
           !Runtime.Differs(old_[id].rows[i], reply.file.value.rows[i], key))
  {
    DoneHasFinalFile(r.cfg, r.ss, r.ls, id);
    RepliesDecide(r.cfg, id);
    hide Complete;
    assert id in Elems(r.cfg.only);
    Runtime.CleanIffSameRows(old_[id].rows, FinalReply(r.cfg, id).file.value.rows);
  }

  lemma DoneHasFinalFile(cfg: Config, ss: seq<State>, ls: seq<Label>, id: TrackId)
    requires ReplayRun(cfg, ss, ls) && id in cfg.only && Is(ss[|ls|], id, Done)
    ensures FinalReply(cfg, id).file.Some? && Lookup(ss[|ls|].files, id) == FinalReply(cfg, id).file
  {
    RunKeeps(cfg, ss, ls, |ls|);
    RunFiled(cfg, ss, ls, |ls|, id);
    hide Filed, CallsFit, Complete, Due, Books, Crew, Desk, Cascading, Scanned;
    DoneFile(cfg, ss[|ls|], id);
  }

  lemma DoneFile(cfg: Config, s: State, id: TrackId)
    requires Filed(cfg, s, id) && CallsFit(cfg, s, id) && Crew(s) && WritesOnSuccess(cfg)
    requires Is(s, id, Done) && Selected(cfg, id) && TrackSound(cfg, s.status, s.groupErr, id)
    ensures FinalReply(cfg, id).file.Some? && Lookup(s.files, id) == FinalReply(cfg, id).file
  {
    assert !Live(s, id);
    assert FileAfter(cfg, id, Attempts(cfg, id)) == FinalReply(cfg, id).file;
  }

  // --- replay after replay ---

  predicate Ends(r: ReplayModel.Replay, files: map<TrackId, File>) {
    |r.ss| == |r.ls| + 1 && r.ss[|r.ls|].files == files
  }

  // The replays so far, and the files that they have left in the directory.
  ghost predicate ChainTo(rs: seq<ReplayModel.Replay>, first: Config, files: map<TrackId, File>) {
    IsChain(rs) &&
    if rs == [] then files == first.files
    else rs[0].cfg == first && SameWork(rs[|rs| - 1].cfg, first) && Ends(rs[|rs| - 1], files)
  }

  ghost predicate SameWork(cfg: Config, first: Config) {
    cfg.plan == first.plan && cfg.mapper == first.mapper
  }

  lemma ChainGrows(rs: seq<ReplayModel.Replay>, r: ReplayModel.Replay, first: Config, files: map<TrackId, File>,
                   after: map<TrackId, File>)
    requires ChainTo(rs, first, files)
    requires first == Handed(first.plan, Missing(first.plan, first.files), first.files, first.max, first.mapper)
    requires r.cfg == Handed(first.plan, Missing(first.plan, files), files, first.max, first.mapper)
    requires IsFull(r) && Ends(r, after)
    ensures ChainTo(rs + [r], first, after)
  {
    HandedMissing(first.plan, files, first.max, first.mapper);
    hide IsFull, Missing;
    if rs != [] {
      assert Follows(rs[|rs| - 1], r);
    }
  }

  // What has a file at the end: whatever had one before, nothing outside the least set of
  // the first replay, and all of it if the last replay had no gap sweep.
  lemma ChainLeaves(rs: seq<ReplayModel.Replay>, first: Config, files: map<TrackId, File>, t: TrackId)
    requires ChainTo(rs, first, files) && rs != [] && QuietFailures(first) && t in Ids(first.plan)
    ensures t in first.files ==> t in files
    ensures t in files ==> t in LeastDone(first)
    ensures !rs[|rs| - 1].ss[|rs[|rs| - 1].ls|].gapSweep ==> (t in files <==> t in LeastDone(first))
  {
    hide QuietFailures, LeastDone, Follows;
    ReplaysConverge(rs, 0, |rs| - 1, t);
    assert IsFull(rs[0]);
    FullReplayKeepsFiles(rs[0].cfg, rs[0].ss, rs[0].ls, t);
  }

  lemma StillWrites(cfg: Config, mapper: (TrackId, nat) -> MapReply)
    requires cfg.mapper == mapper && forall t, n :: mapper(t, n).err.None? ==> mapper(t, n).file.Some?
    ensures WritesOnSuccess(cfg)
  {
  }

  // Any number of replays without a selector, until nothing is missing any more.
  method ReplayAll(dir: Runtime.RunDir, plan: seq<Track>, max: int, mapper: (TrackId, nat) -> MapReply,
                   orders: seq<seq<Label>>)
    returns (ghost rs: seq<ReplayModel.Replay>, ghost first: Config)
    requires DistinctIds(plan) && forall k :: 0 <= k < |orders| ==> NoAcquireFails(orders[k])
    requires forall t, n :: mapper(t, n).err.None? ==> mapper(t, n).file.Some?
    modifies dir
    ensures first == Handed(plan, Missing(plan, old(dir.mapDir)), old(dir.mapDir), max, mapper)
    ensures ChainTo(rs, first, dir.mapDir) && first.files == old(dir.mapDir)
    ensures |rs| < |orders| ==> Missing(plan, dir.mapDir) == []
  {
    hide WritesOnSuccess, Missing, Complete, NoAcquireFails, Reported;
    rs, first := [], Handed(plan, Missing(plan, dir.mapDir), dir.mapDir, max, mapper);
    HandedMissing(plan, dir.mapDir, max, mapper);
    assert ChainTo(rs, first, dir.mapDir);
    for k := 0 to |orders|
      invariant ChainTo(rs, first, dir.mapDir) && |rs| == k
    {
      var out;
      ghost var files := dir.mapDir;
      ghost var r;
      out, r := Replay(dir, plan, [], max, mapper, orders[k]);
      if out.NoTracksToRerun? {
        return;
      }
      assert WritesOnSuccess(r.cfg) by {
        StillWrites(r.cfg, mapper);
      }
      FullRun(r);
      ChainGrows(rs, r, first, files, dir.mapDir);
      rs := rs + [r];
    }
  }
}
