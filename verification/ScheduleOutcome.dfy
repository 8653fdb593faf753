// What a run of the scheduler ends with, and when that is independent of the
// interleaving.
module ScheduleOutcome {
  import opened Plans
  import opened Schedule
  import opened ScheduleInvariant
  import opened ScheduleSteps

  // --- the least set of tracks that get done ---

  ghost predicate Within(deps: seq<TrackId>, done: set<TrackId>) {
    forall d :: d in deps ==> d in done
  }

  ghost predicate Justified(cfg: Config, done: set<TrackId>, t: TrackId) {
    Preset(cfg, t) || (Selected(cfg, t) && Succeeds(cfg, t) && Within(Deps(cfg.plan, t), done))
  }

  ghost predicate Closed(cfg: Config, done: set<TrackId>) {
    forall t :: t in Ids(cfg.plan) && Justified(cfg, done, t) ==> t in done
  }

  // The preset tracks and, again and again, each selected track whose dependencies
  // are in and whose mapper succeeds: the intersection of all closed sets.
  ghost function LeastDone(cfg: Config): set<TrackId> {
    set t | t in Ids(cfg.plan) && forall done: set<TrackId> :: Closed(cfg, done) ==> t in done
  }

  lemma LeastClosed(cfg: Config)
    ensures Closed(cfg, LeastDone(cfg))
  {
    forall t | t in Ids(cfg.plan) && Justified(cfg, LeastDone(cfg), t)
      ensures t in LeastDone(cfg)
    {
      forall done: set<TrackId> | Closed(cfg, done) ensures t in done {
        assert Within(Deps(cfg.plan, t), LeastDone(cfg)) ==> Within(Deps(cfg.plan, t), done);
        assert Justified(cfg, done, t);
      }
    }
  }

  lemma LeastJustified(cfg: Config, t: TrackId)
    requires t in LeastDone(cfg)
    ensures Justified(cfg, LeastDone(cfg), t)
  {
    var done := LeastDone(cfg);
    if !Justified(cfg, done, t) {
      forall u | u in Ids(cfg.plan) && Justified(cfg, done - {t}, u) ensures u in done - {t} {
        assert Justified(cfg, done, u);
        LeastClosed(cfg);
      }
      assert Closed(cfg, done - {t});
    }
  }

  // Tracks that each wait for one another, or for a track outside the least set, are
  // outside it too.
  lemma Doomed(cfg: Config, xs: set<TrackId>)
    requires forall t :: t in xs ==>
      !Preset(cfg, t) && exists d :: d in Deps(cfg.plan, t) && (d in xs || d !in LeastDone(cfg))
    ensures xs !! LeastDone(cfg)
  {
    var rest := LeastDone(cfg) - xs;
    forall t | t in xs ensures !Justified(cfg, rest, t) {
      var d :| d in Deps(cfg.plan, t) && (d in xs || d !in LeastDone(cfg));
      assert d !in rest;
    }
    forall t | t in Ids(cfg.plan) && Justified(cfg, rest, t) ensures t in rest {
      assert Justified(cfg, LeastDone(cfg), t);
      LeastClosed(cfg);
    }
    assert Closed(cfg, rest);
    assert LeastDone(cfg) <= rest;
  }

  // --- invariants about the least set ---

  ghost predicate Stuck(cfg: Config, t: TrackId) {
    exists d :: d in Deps(cfg.plan, t) && d !in LeastDone(cfg)
  }

  ghost predicate DoneIsDue(cfg: Config, s: State) {
    forall t :: Is(s, t, Done) ==> t in LeastDone(cfg)
  }

  ghost predicate BlockedIsStuck(cfg: Config, s: State) {
    !s.groupErr && !s.gapSweep ==>
      forall t :: Is(s, t, Blocked) && Selected(cfg, t) ==> Stuck(cfg, t)
  }

  // A track that was ready after the first scan and got blocked.
  ghost predicate Robbed(cfg: Config, s: State, t: TrackId) {
    Is(s, t, Blocked) && Selected(cfg, t) && AllDone(s.status, Deps(cfg.plan, t)) && Waits(cfg, t)
  }

  ghost predicate GapWitness(cfg: Config, s: State) {
    s.gapSweep ==> exists t :: Robbed(cfg, s, t)
  }

  ghost predicate Due(cfg: Config, s: State) {
    DoneIsDue(cfg, s) && BlockedIsStuck(cfg, s) && GapWitness(cfg, s)
  }

  lemma InitDue(cfg: Config)
    requires Valid(cfg)
    ensures Due(cfg, Init(cfg))
  {
    LeastClosed(cfg);
    forall t | Is(Init(cfg), t, Done) ensures t in LeastDone(cfg) {
      assert Justified(cfg, LeastDone(cfg), t);
    }
  }

  lemma DoneIsDueKept(cfg: Config, s: State, s': State)
    requires Moves(cfg, s, s') && Sound(cfg, s) && DoneIsDue(cfg, s) && s.status.Keys == Ids(cfg.plan)
    ensures DoneIsDue(cfg, s')
  {
    LeastClosed(cfg);
    forall t | Is(s', t, Done) && !Is(s, t, Done) ensures t in LeastDone(cfg) {
      assert Move(cfg, s.status, s'.status, s'.groupErr, t);
      assert TrackSound(cfg, s.status, s.groupErr, t);
      forall d | d in Deps(cfg.plan, t) ensures d in LeastDone(cfg) {
        assert Is(s, d, Done);
      }
      assert Justified(cfg, LeastDone(cfg), t);
    }
  }

  // Outside the least set: a failed track (without acquire errors), a blocked track
  // that is stuck, and an id the plan does not have.
  lemma NotDue(cfg: Config, s: State, t: TrackId)
    requires Sound(cfg, s) && BlockedIsStuck(cfg, s) && !s.groupErr && !s.gapSweep
    requires t !in Ids(cfg.plan) || Is(s, t, Failed) || Is(s, t, Blocked)
    ensures t !in LeastDone(cfg)
  {
    if t in s.status {
      assert TrackSound(cfg, s.status, s.groupErr, t);
    }
    if t in LeastDone(cfg) {
      LeastJustified(cfg, t);
    }
  }

  lemma CascadedDoomed(cfg: Config, s: State, id: TrackId)
    requires Valid(cfg) && Sound(cfg, s) && Is(s, id, Running) && !Succeeds(cfg, id)
    ensures forall t :: t in Cascaded(cfg.plan, s.status[id := Failed], id) ==> Stuck(cfg, t)
  {
    var sts := s.status[id := Failed];
    var hit := Cascaded(cfg.plan, sts, id);
    CascadedPending(cfg.plan, sts, id);
    assert TrackSound(cfg, s.status, s.groupErr, id);
    if id in LeastDone(cfg) {
      LeastJustified(cfg, id);
    }
    forall t | t in hit
      ensures !Preset(cfg, t) && exists d :: d in Deps(cfg.plan, t) && (d in hit || d !in LeastDone(cfg))
    {
      assert TrackSound(cfg, s.status, s.groupErr, t);
      var d := CascadedCause(cfg.plan, sts, id, t);
    }
    Doomed(cfg, hit);
  }

  lemma SweptDoomed(cfg: Config, s: State)
    requires Valid(cfg) && Books(cfg, s) && Sound(cfg, s) && BlockedIsStuck(cfg, s)
    requires !s.groupErr && !s.gapSweep && !SomeReady(s) && s.running == 0
    ensures forall t :: Is(s, t, Pending) ==> Stuck(cfg, t)
  {
    var pending := With(s.status, Pending);
    assert With(s.status, Running) == {};
    forall t | t in pending
      ensures !Preset(cfg, t) && exists d :: d in Deps(cfg.plan, t) && (d in pending || d !in LeastDone(cfg))
    {
      assert TrackSound(cfg, s.status, s.groupErr, t);
      assert !IsReady(s, t);
      UndoneZero(Deps(cfg.plan, t), s.status);
      var d :| d in Deps(cfg.plan, t) && !IsDone(s.status, d);
      if d !in pending {
        assert d !in With(s.status, Running);
        NotDue(cfg, s, d);
      }
    }
    Doomed(cfg, pending);
  }

  lemma BlockedKept(cfg: Config, s: State, s': State)
    requires BlockedIsStuck(cfg, s) && (s'.groupErr <== s.groupErr) && (s'.gapSweep <== s.gapSweep)
    requires forall t :: Is(s', t, Blocked) ==> Is(s, t, Blocked)
    ensures BlockedIsStuck(cfg, s')
  {
  }

  lemma BlockedIdle(cfg: Config, s: State)
    requires Valid(cfg) && Books(cfg, s) && Sound(cfg, s) && BlockedIsStuck(cfg, s)
    ensures BlockedIsStuck(cfg, NextIdle(cfg, s))
  {
    var s' := NextIdle(cfg, s);
    if s.completed < |cfg.plan| && s.running == 0 {
      if !s'.groupErr && !s'.gapSweep {
        SweptDoomed(cfg, s);
        assert forall t :: Is(s', t, Blocked) ==> Is(s, t, Blocked) || Is(s, t, Pending);
      }
    } else {
      BlockedKept(cfg, s, s');
    }
  }

  lemma BlockedFinish(cfg: Config, s: State, id: TrackId)
    requires Valid(cfg) && Sound(cfg, s) && BlockedIsStuck(cfg, s)
    requires Enabled(cfg, s, Finish(id)) && Is(s, id, Running) && CallsFit(cfg, s, id)
    ensures BlockedIsStuck(cfg, NextFinish(cfg, s, id))
  {
    var s' := NextFinish(cfg, s, id);
    if s.workers[id].err.Some? {
      CascadedDoomed(cfg, s, id);
      assert forall t :: Is(s', t, Blocked) ==>
        Is(s, t, Blocked) || t in Cascaded(cfg.plan, s.status[id := Failed], id);
    } else {
      BlockedKept(cfg, s, s');
    }
  }

  lemma BlockedScan(cfg: Config, s: State)
    requires BlockedIsStuck(cfg, s)
    ensures BlockedIsStuck(cfg, NextScan(cfg, s))
  {
    hide ReadyList, Elems, Stuck, Selected;
    ScanShape(cfg, s);
    if s.completed == |cfg.plan| {} else { BlockedKept(cfg, s, NextScan(cfg, s)); }
  }

  lemma BlockedStep(cfg: Config, s: State, l: Label)
    requires Valid(cfg) && Inv(cfg, s) && BlockedIsStuck(cfg, s) && Enabled(cfg, s, l)
    ensures BlockedIsStuck(cfg, Next(cfg, s, l))
  {
    hide BlockedIsStuck, Books, Sound, Desk, Cascading, Scanned, NextScan, NextIdle, NextFinish, DistinctIds;
    hide Ids, Holders;
    match l
    case Scan => BlockedScan(cfg, s);
    case Idle => BlockedIdle(cfg, s);
    case Finish(id) =>
      LiveIsRunning(s, id);
      BlockedFinish(cfg, s, id);
    case AcquireFail(id) => BlockedKept(cfg, s, NextAcquireFail(s, id));
    case _ =>
      QuietStatus(cfg, s, l);
      BlockedKept(cfg, s, Next(cfg, s, l));
  }

  // A terminal status is never left.
  lemma TerminalKept(cfg: Config, s: State, s': State, t: TrackId)
    requires Moves(cfg, s, s') && t in s.status && Terminal(s.status[t])
    ensures t in s'.status && s'.status[t] == s.status[t]
  {
    assert Move(cfg, s.status, s'.status, s'.groupErr, t);
  }

  lemma RobbedKept(cfg: Config, s: State, s': State, t: TrackId)
    requires Moves(cfg, s, s') && Robbed(cfg, s, t)
    ensures Robbed(cfg, s', t)
  {
    TerminalKept(cfg, s, s', t);
    forall d | d in Deps(cfg.plan, t) ensures IsDone(s'.status, d) {
      DoneKept(cfg, s, s', d);
    }
  }

  lemma SweepRobs(cfg: Config, s: State, t: TrackId)
    requires Books(cfg, s) && Sound(cfg, s) && IsReady(s, t)
    requires Scanned(cfg, s) && s.disp.Gap? && s.completed < |cfg.plan| && s.running == 0
    ensures Robbed(cfg, NextIdle(cfg, s), t)
  {
    var s' := NextIdle(cfg, s);
    ReadyDone(cfg, s, t);
    assert TrackSound(cfg, s.status, s.groupErr, t);
    assert forall d :: IsDone(s.status, d) ==> IsDone(s'.status, d);
  }

  lemma GapIdle(cfg: Config, s: State)
    requires Books(cfg, s) && Sound(cfg, s) && Scanned(cfg, s) && s.disp.Gap? && GapWitness(cfg, s)
    ensures GapWitness(cfg, NextIdle(cfg, s))
  {
    if s.gapSweep {
      var t :| Robbed(cfg, s, t);
      IdleMoves(cfg, s);
      RobbedKept(cfg, s, NextIdle(cfg, s), t);
    } else if s.completed < |cfg.plan| && s.running == 0 {
      if SomeReady(s) {
        var t :| t in s.status && IsReady(s, t);
        SweepRobs(cfg, s, t);
      }
    }
  }

  lemma GapStep(cfg: Config, s: State, l: Label)
    requires Valid(cfg) && Inv(cfg, s) && GapWitness(cfg, s) && Enabled(cfg, s, l)
    ensures GapWitness(cfg, Next(cfg, s, l))
  {
    hide Valid, Books, Crew;
    if l.Idle? {
      GapIdle(cfg, s);
    } else {
      StepMoves(cfg, s, l);
      if s.gapSweep {
        var t :| Robbed(cfg, s, t);
        RobbedKept(cfg, s, Next(cfg, s, l), t);
      }
    }
  }

  lemma StepDue(cfg: Config, s: State, l: Label)
    requires Valid(cfg) && Inv(cfg, s) && Due(cfg, s) && Enabled(cfg, s, l)
    ensures Due(cfg, Next(cfg, s, l))
  {
    StepMoves(cfg, s, l);
    DoneIsDueKept(cfg, s, Next(cfg, s, l));
    BlockedStep(cfg, s, l);
    GapStep(cfg, s, l);
  }

  // --- runs ---

  // Everything above holds in every state of every run.
  lemma {:induction false} RunKeeps(cfg: Config, ss: seq<State>, ls: seq<Label>, i: nat)
    requires Valid(cfg) && IsRun(cfg, ss, ls) && i <= |ls|
    ensures Inv(cfg, ss[i]) && Due(cfg, ss[i])
  {
    if i == 0 {
      InitInv(cfg);
      InitDue(cfg);
    } else {
      RunKeeps(cfg, ss, ls, i - 1);
      StepInv(cfg, ss[i - 1], ls[i - 1]);
      StepDue(cfg, ss[i - 1], ls[i - 1]);
    }
  }
}
