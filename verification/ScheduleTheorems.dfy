// The main results about whole runs of the scheduler.
module ScheduleTheorems {
  import opened Plans
  import opened Schedule
  import opened ScheduleInvariant
  import opened ScheduleSteps
  import opened ScheduleOutcome

  // --- schedule independence ---

  // The status the plan, the selection, the artifacts and the mapper alone give a track.
  ghost function Expected(cfg: Config, t: TrackId): Status {
    if t in LeastDone(cfg) then Done
    else if Selected(cfg, t) && Within(Deps(cfg.plan, t), LeastDone(cfg)) then Failed
    else Blocked
  }

  ghost predicate AsExpected(cfg: Config, s: State) {
    forall t :: t in Ids(cfg.plan) ==> Is(s, t, Expected(cfg, t))
  }

  lemma AllTerminal(cfg: Config, s: State, t: TrackId)
    requires Valid(cfg) && Books(cfg, s) && s.completed == |cfg.plan| && t in Ids(cfg.plan)
    ensures t in s.status && Terminal(s.status[t])
  {
    Census(cfg, s);
    assert With(s.status, Running) == {} && With(s.status, Pending) == {};
    assert t !in With(s.status, Running) && t !in With(s.status, Pending);
  }

  lemma ExpectedTrack(cfg: Config, s: State, t: TrackId)
    requires Valid(cfg) && Inv(cfg, s) && Due(cfg, s) && s.completed == |cfg.plan|
    requires !s.groupErr && !s.gapSweep && t in Ids(cfg.plan)
    ensures Is(s, t, Expected(cfg, t))
  {
    AllTerminal(cfg, s, t);
    assert TrackSound(cfg, s.status, s.groupErr, t);
    if !Is(s, t, Done) {
      NotDue(cfg, s, t);
    }
    if Is(s, t, Failed) {
      forall d | d in Deps(cfg.plan, t) ensures d in LeastDone(cfg) {
        assert Is(s, d, Done);
      }
    }
  }

  lemma RobbedIsUnexpected(cfg: Config, s: State, t: TrackId)
    requires Robbed(cfg, s, t) && DoneIsDue(cfg, s)
    ensures Expected(cfg, t) != Blocked
  {
    forall d | d in Deps(cfg.plan, t) ensures d in LeastDone(cfg) {
      assert Is(s, d, Done);
    }
  }

  // Without acquire errors a run that returns ends with exactly the expected status
  // of every track if and only if no sweep blocked a ready track.
  lemma OutcomeIffNoGap(cfg: Config, ss: seq<State>, ls: seq<Label>)
    requires Valid(cfg) && Complete(cfg, ss, ls) && !ss[|ls|].groupErr
    ensures AsExpected(cfg, ss[|ls|]) <==> !ss[|ls|].gapSweep
  {
    var s := ss[|ls|];
    RunKeeps(cfg, ss, ls, |ls|);
    if s.gapSweep {
      var t :| Robbed(cfg, s, t);
      RobbedIsUnexpected(cfg, s, t);
      assert t in Ids(cfg.plan) && !Is(s, t, Expected(cfg, t));
    } else {
      forall t | t in Ids(cfg.plan) ensures Is(s, t, Expected(cfg, t)) {
        ExpectedTrack(cfg, s, t);
      }
    }
  }

  // What Run then returns: the expected statuses, in plan order.
  lemma ResultsExpected(cfg: Config, ss: seq<State>, ls: seq<Label>)
    requires Valid(cfg) && Complete(cfg, ss, ls) && !ss[|ls|].groupErr && !ss[|ls|].gapSweep
    ensures Ids(cfg.plan) <= ss[|ls|].status.Keys
    ensures Results(cfg, ss[|ls|]).Some? && |Results(cfg, ss[|ls|]).value| == |cfg.plan|
    ensures forall i :: 0 <= i < |cfg.plan| ==>
      Results(cfg, ss[|ls|]).value[i] == Expected(cfg, cfg.plan[i].id)
  {
    RunKeeps(cfg, ss, ls, |ls|);
    OutcomeIffNoGap(cfg, ss, ls);
    ResultsAre(cfg, ss[|ls|]);
  }

  lemma ResultsAre(cfg: Config, s: State)
    requires AsExpected(cfg, s) && !s.groupErr && Ids(cfg.plan) <= s.status.Keys
    ensures Results(cfg, s).Some? && |Results(cfg, s).value| == |cfg.plan|
    ensures forall i :: 0 <= i < |cfg.plan| ==> Results(cfg, s).value[i] == Expected(cfg, cfg.plan[i].id)
  {
    forall i | 0 <= i < |cfg.plan| ensures Results(cfg, s).value[i] == Expected(cfg, cfg.plan[i].id) {
      assert cfg.plan[i] in cfg.plan;
      assert Is(s, cfg.plan[i].id, Expected(cfg, cfg.plan[i].id));
    }
  }

  lemma StepAt(cfg: Config, ss: seq<State>, ls: seq<Label>, k: nat)
    requires Valid(cfg) && IsRun(cfg, ss, ls) && k < |ls|
    ensures Moves(cfg, ss[k], ss[k + 1])
  {
    RunKeeps(cfg, ss, ls, k);
    StepMoves(cfg, ss[k], ls[k]);
  }

  // --- safety, whatever the interleaving, acquire errors and gap sweeps included ---

  ghost predicate MovesOnly(cfg: Config, ss: seq<State>) {
    forall k :: 0 <= k < |ss| - 1 ==> Moves(cfg, ss[k], ss[k + 1])
  }

  lemma RunMovesOnly(cfg: Config, ss: seq<State>, ls: seq<Label>)
    requires Valid(cfg) && IsRun(cfg, ss, ls)
    ensures MovesOnly(cfg, ss)
  {
    forall k | 0 <= k < |ss| - 1 ensures Moves(cfg, ss[k], ss[k + 1]) {
      StepAt(cfg, ss, ls, k);
    }
  }

  // Done, Failed and Blocked are final, and no track becomes Pending again.
  lemma {:induction false} Absorbing(cfg: Config, ss: seq<State>, i: nat, j: nat, t: TrackId)
    requires MovesOnly(cfg, ss) && i <= j < |ss| && t in ss[i].status
    ensures t in ss[j].status
    ensures Terminal(ss[i].status[t]) ==> ss[j].status[t] == ss[i].status[t]
    ensures ss[i].status[t] != Pending ==> ss[j].status[t] != Pending
    decreases j
  {
    if i < j {
      Absorbing(cfg, ss, i, j - 1, t);
      assert Moves(cfg, ss[j - 1], ss[j - 1 + 1]);
      assert Move(cfg, ss[j - 1].status, ss[j].status, ss[j].groupErr, t);
    }
  }

  // A track starts only when all its dependencies are Done; Done stays within the
  // least set; only selected tracks run or fail, and only they have been mapped.
  lemma Safety(cfg: Config, ss: seq<State>, ls: seq<Label>, i: nat, t: TrackId)
    requires Valid(cfg) && IsRun(cfg, ss, ls) && i <= |ls| && t in Ids(cfg.plan)
    ensures Is(ss[i], t, Running) || Is(ss[i], t, Failed) ==>
      Selected(cfg, t) && AllDone(ss[i].status, Deps(cfg.plan, t))
    ensures Is(ss[i], t, Done) ==> t in LeastDone(cfg)
    ensures cfg.only != [] && t !in cfg.only ==>
      Calls(ss[i], t) == 0 && Is(ss[i], t, if t in cfg.probe then Done else Blocked)
    ensures Calls(ss[i], t) <= 2 && (Calls(ss[i], t) == 2 ==> cfg.mapper(t, 0).retryable)
    ensures |Holders(ss[i])| <= if cfg.max <= 0 then 4 else cfg.max
  {
    RunKeeps(cfg, ss, ls, i);
    assert TrackSound(cfg, ss[i].status, ss[i].groupErr, t);
    assert CallsFit(cfg, ss[i], t);
    if !Selected(cfg, t) {
      RunMovesOnly(cfg, ss, ls);
      Absorbing(cfg, ss, 0, i, t);
    }
  }

  ghost predicate Launches(ss: seq<State>, i: nat, t: TrackId)
    requires i + 1 < |ss|
  {
    Is(ss[i], t, Pending) && Is(ss[i + 1], t, Running)
  }

  // A track is launched at most once in a run.
  lemma LaunchedOnce(cfg: Config, ss: seq<State>, ls: seq<Label>, i: nat, j: nat, t: TrackId)
    requires Valid(cfg) && IsRun(cfg, ss, ls) && i < |ls| && j < |ls|
    requires Launches(ss, i, t) && Launches(ss, j, t)
    ensures i == j
  {
    RunMovesOnly(cfg, ss, ls);
    if i < j {
      Absorbing(cfg, ss, i + 1, j, t);
    } else if j < i {
      Absorbing(cfg, ss, j + 1, i, t);
    }
  }

  // A worker at the head of the queue gets the semaphore exactly if there is room.
  lemma GrantedIffRoom(cfg: Config, s: State, id: TrackId)
    ensures Enabled(cfg, s, Acquire(id)) <==>
      id in s.workers && s.workers[id].Queued? && |Holders(s)| < if cfg.max <= 0 then 4 else cfg.max
  {
  }

  // --- what the replies decide ---

  // A reply is asked for again exactly if the mapper marks it as retryable, error or not.
  lemma RepliesDecide(cfg: Config, t: TrackId)
    ensures Attempts(cfg, t) == if cfg.mapper(t, 0).retryable then 2 else 1
    ensures FinalReply(cfg, t) == if cfg.mapper(t, 0).retryable then cfg.mapper(t, 1) else cfg.mapper(t, 0)
    ensures Succeeds(cfg, t) <==> FinalReply(cfg, t).err.None?
  {
  }

  // A track that has run to its end without an acquire error: a second call exactly after a
  // retryable first reply, and Done exactly if the last reply has no error.
  lemma EndedAsReplied(cfg: Config, ss: seq<State>, ls: seq<Label>, i: nat, t: TrackId)
    requires Valid(cfg) && IsRun(cfg, ss, ls) && i <= |ls| && !ss[i].groupErr
    requires t in Ids(cfg.plan) && (cfg.only == [] || t in cfg.only)
    requires Is(ss[i], t, Done) || Is(ss[i], t, Failed)
    ensures Is(ss[i], t, Done) <==>
      (if cfg.mapper(t, 0).retryable then cfg.mapper(t, 1) else cfg.mapper(t, 0)).err.None?
  {
    RunKeeps(cfg, ss, ls, i);
    RepliesDecide(cfg, t);
    assert TrackSound(cfg, ss[i].status, ss[i].groupErr, t);
  }

  // In a complete run without acquire errors and gap sweeps that is so for every selected
  // track whose dependencies are all Done.
  lemma EndsAsReplied(cfg: Config, ss: seq<State>, ls: seq<Label>, t: TrackId)
    requires Valid(cfg) && Complete(cfg, ss, ls) && !ss[|ls|].groupErr && !ss[|ls|].gapSweep
    requires t in Ids(cfg.plan) && (cfg.only == [] || t in cfg.only)
    requires forall d :: d in Deps(cfg.plan, t) ==> Is(ss[|ls|], d, Done)
    ensures Is(ss[|ls|], t, Done) || Is(ss[|ls|], t, Failed)
    ensures Is(ss[|ls|], t, Done) <==>
      (if cfg.mapper(t, 0).retryable then cfg.mapper(t, 1) else cfg.mapper(t, 0)).err.None?
  {
    RunKeeps(cfg, ss, ls, |ls|);
    OutcomeIffNoGap(cfg, ss, ls);
    assert Is(ss[|ls|], t, Expected(cfg, t));
    hide IsRun, Inv, Ids, Deps;
    DueIsExpected(cfg, ss[|ls|], t);
    EndedAsReplied(cfg, ss, ls, |ls|, t);
  }

  lemma DueIsExpected(cfg: Config, s: State, t: TrackId)
    requires DoneIsDue(cfg, s) && Selected(cfg, t) && forall d :: d in Deps(cfg.plan, t) ==> Is(s, d, Done)
    ensures Expected(cfg, t) == Done || Expected(cfg, t) == Failed
  {
    hide LeastDone, Deps;
  }
}
