// Every step of the scheduler keeps the invariant.
module ScheduleSteps {
  import opened Plans
  import opened Schedule
  import opened ScheduleInvariant

  // --- what the larger steps leave alone ---

  lemma ScanShape(cfg: Config, s: State)
    ensures NextScan(cfg, s).workers == s.workers && NextScan(cfg, s).calls == s.calls &&
      NextScan(cfg, s).files == s.files
    ensures NextScan(cfg, s).groupErr == s.groupErr && NextScan(cfg, s).gapSweep == s.gapSweep
    ensures forall t :: Is(NextScan(cfg, s), t, Failed) ==> Is(s, t, Failed)
  {
    hide ReadyList, Elems, Ids;
    if s.completed == |cfg.plan| {} else {}
  }

  lemma IdleShape(cfg: Config, s: State)
    ensures NextIdle(cfg, s).workers == s.workers && NextIdle(cfg, s).calls == s.calls &&
      NextIdle(cfg, s).files == s.files
    ensures NextIdle(cfg, s).groupErr == s.groupErr && (s.gapSweep ==> NextIdle(cfg, s).gapSweep)
    ensures NextIdle(cfg, s).scanned == s.scanned && NextIdle(cfg, s).running == s.running
    ensures NextIdle(cfg, s).disp ==
      if s.completed < |cfg.plan| then (if s.running == 0 then Scanning else Parked) else Joining
    ensures s.completed >= |cfg.plan| ==> NextIdle(cfg, s).completed == s.completed
  {
    hide With, SetAll, SomeReady;
    if s.completed < |cfg.plan| && s.running == 0 {} else {}
  }

  lemma FinishShape(cfg: Config, s: State, id: TrackId)
    requires id in s.workers && s.workers[id].Report?
    ensures var s' := NextFinish(cfg, s, id);
      s'.disp == Wake(s.disp) && s'.workers == s.workers[id := Releasing] && s'.calls == s.calls &&
      s'.groupErr == s.groupErr && s'.gapSweep == s.gapSweep && s'.scanned == s.scanned && s'.files == s.files
  {
    hide Cascaded, SetAll, DropEdges;
    if s.workers[id].err.Some? {} else {}
  }

  // --- Crew ---

  // The steps that change no status.
  lemma QuietStatus(cfg: Config, s: State, l: Label)
    requires Enabled(cfg, s, l) && !l.Scan? && !l.Idle? && !l.AcquireFail? && !l.Finish?
    ensures var s' := Next(cfg, s, l); s'.status == s.status && s'.groupErr == s.groupErr && s'.gapSweep == s.gapSweep
  {
    hide NextScan, NextIdle, NextFinish, Holders;
  }

  lemma ScanStatuses(cfg: Config, s: State)
    requires Valid(cfg) && s.completed != |cfg.plan| && s.status.Keys == Ids(cfg.plan)
    ensures var s', ready := NextScan(cfg, s), ReadyList(cfg.plan, s);
      s'.status.Keys == s.status.Keys && Queue(s') == ready && (s'.disp.Spawning? ==> ready != []) && Distinct(ready) &&
      (forall t :: t in ready ==> Is(s, t, Pending)) &&
      (forall t :: t in s.status ==> s'.status[t] == if t in ready then Running else s.status[t])
  {
    ReadyListFits(cfg.plan, s);
    hide ReadyList, Ids, DistinctIds;
  }

  lemma CrewStarts(s: State, s': State, ready: seq<TrackId>)
    requires Crew(s) && s.disp.Scanning? && s'.workers == s.workers
    requires s'.status.Keys == s.status.Keys && Queue(s') == ready && (s'.disp.Spawning? ==> ready != []) &&
      Distinct(ready)
    requires forall t :: t in ready ==> Is(s, t, Pending)
    requires forall t :: t in s.status ==> s'.status[t] == if t in ready then Running else s.status[t]
    ensures Crew(s')
  {
    hide Distinct;
    assert forall t :: Is(s', t, Running) <==> Is(s, t, Running) || t in ready;
    assert forall t :: Live(s', t) <==> Live(s, t);
  }

  lemma CrewScan(cfg: Config, s: State)
    requires Valid(cfg) && Crew(s) && s.disp.Scanning? && s.status.Keys == Ids(cfg.plan)
    ensures Crew(NextScan(cfg, s))
  {
    if s.completed != |cfg.plan| {
      ScanStatuses(cfg, s);
      ScanShape(cfg, s);
      hide NextScan, Crew;
      CrewStarts(s, NextScan(cfg, s), ReadyList(cfg.plan, s));
    }
  }

  lemma IdleStatuses(cfg: Config, s: State)
    ensures NextIdle(cfg, s).status.Keys == s.status.Keys
    ensures forall t :: t in s.status ==>
      (NextIdle(cfg, s).status[t] == s.status[t] ||
       (s.status[t] == Pending && NextIdle(cfg, s).status[t] == Blocked && s.running == 0))
  {
    if s.completed < |cfg.plan| && s.running == 0 {
    } else {
    }
  }

  lemma CrewIdle(cfg: Config, s: State)
    requires Crew(s) && s.disp.Gap?
    ensures Crew(NextIdle(cfg, s))
  {
    if s.completed < |cfg.plan| && s.running == 0 {
      CrewBlocks(s, NextIdle(cfg, s));
    }
  }

  lemma CrewBlocks(s: State, s': State)
    requires Crew(s) && s'.workers == s.workers && Queue(s) == Queue(s') == [] && !s'.disp.Spawning?
    requires s'.status.Keys == s.status.Keys
    requires forall t :: t in s.status ==>
      (s'.status[t] == s.status[t] || (s.status[t] == Pending && s'.status[t] == Blocked))
    ensures Crew(s')
  {
    assert forall t :: Is(s', t, Running) <==> Is(s, t, Running);
    assert forall t :: Live(s', t) <==> Live(s, t);
  }

  lemma CrewSpawn(s: State)
    requires Crew(s) && s.disp.Spawning? && s.disp.queue != []
    ensures Crew(NextSpawn(s))
  {
    var s', q := NextSpawn(s), s.disp.queue;
    assert q == [q[0]] + q[1..] && Queue(s) == q;
    assert Queue(s') == q[1..];
    DistinctTail(q);
    assert forall t :: Is(s', t, Running) <==> Is(s, t, Running);
    assert forall t :: Live(s', t) <==> Live(s, t) || t == q[0];
  }

  // A worker that stays live, or is gone after its end.
  lemma CrewSameStatus(s: State, s': State, id: TrackId)
    requires Crew(s) && s'.status == s.status && s'.disp == s.disp && id in s.workers
    requires if s.workers[id].Releasing? then s'.workers == s.workers - {id}
             else id in s'.workers && s'.workers == s.workers[id := s'.workers[id]] &&
                  !s'.workers[id].Releasing?
    ensures Crew(s')
  {
    assert Queue(s') == Queue(s);
    assert forall t :: Is(s', t, Running) <==> Is(s, t, Running);
    assert forall t :: Live(s', t) <==> Live(s, t);
  }

  // A worker that ends its track, with other Pending tracks blocked or not.
  lemma CrewEnd(s: State, s': State, id: TrackId)
    requires Crew(s) && Live(s, id) && s'.disp == Wake(s.disp)
    requires s'.status.Keys == s.status.Keys && Terminal(s'.status[id])
    requires forall t :: t in s.status && t != id ==>
      s'.status[t] == s.status[t] || (s.status[t] == Pending && Terminal(s'.status[t]))
    requires s'.workers == s.workers - {id} || s'.workers == s.workers[id := Releasing]
    ensures Crew(s')
  {
    assert Queue(s') == Queue(s);
    assert Is(s, id, Running);
    assert forall t :: Is(s', t, Running) <==> Is(s, t, Running) && t != id;
    assert forall t :: Live(s', t) <==> Live(s, t) && t != id;
  }

  lemma FinishStatuses(cfg: Config, s: State, id: TrackId)
    requires Enabled(cfg, s, Finish(id)) && Crew(s)
    ensures NextFinish(cfg, s, id).status.Keys == s.status.Keys
    ensures forall t :: t in s.status && t != id ==>
      NextFinish(cfg, s, id).status[t] == s.status[t] ||
      (s.status[t] == Pending && NextFinish(cfg, s, id).status[t] == Blocked)
    ensures NextFinish(cfg, s, id).status[id] == if s.workers[id].err.Some? then Failed else Done
  {
    CascadedPending(cfg.plan, s.status[id := Failed], id);
    LiveIsRunning(s, id);
    hide Cascaded, Crew, DropEdges, Holders;
    if s.workers[id].err.Some? {} else {}
  }

  lemma LiveIsRunning(s: State, id: TrackId)
    requires Crew(s) && Live(s, id)
    ensures Is(s, id, Running)
  {
  }

  // --- Desk ---

  // No worker starts or stops holding the semaphore.
  lemma HoldersSame(s: State, s': State)
    requires forall t :: (t in s'.workers && Holds(s'.workers[t])) <==> (t in s.workers && Holds(s.workers[t]))
    ensures Holders(s') == Holders(s)
  {
  }

  lemma HoldersGrow(s: State, id: TrackId)
    requires id in s.workers && s.workers[id].Queued?
    ensures |Holders(NextAcquire(s, id))| == |Holders(s)| + 1
  {
    assert Holders(NextAcquire(s, id)) == Holders(s) + {id};
  }

  lemma HoldersShrink(s: State, id: TrackId)
    ensures |Holders(s.(workers := s.workers - {id}))| <= |Holders(s)|
  {
    assert Holders(s.(workers := s.workers - {id})) == Holders(s) - {id};
  }

  // --- moves of a track ---

  // What one step may do to the status of track t.
  ghost predicate Move(cfg: Config, sts: Statuses, sts': Statuses, groupErr': bool, t: TrackId)
    requires t in sts && t in sts'
  {
    || sts'[t] == sts[t]
    || (sts[t] == Pending && sts'[t] == Running && AllDone(sts, Deps(cfg.plan, t)))
    || (sts[t] == Pending && sts'[t] == Blocked)
    || (sts[t] == Running && sts'[t] == Failed && (groupErr' || !Succeeds(cfg, t)))
    || (sts[t] == Running && sts'[t] == Done && Succeeds(cfg, t))
  }

  ghost predicate Moves(cfg: Config, s: State, s': State) {
    s'.status.Keys == s.status.Keys && (s.groupErr ==> s'.groupErr) &&
    forall t :: t in s.status ==> Move(cfg, s.status, s'.status, s'.groupErr, t)
  }

  lemma DoneKept(cfg: Config, s: State, s': State, d: TrackId)
    requires Moves(cfg, s, s') && IsDone(s.status, d)
    ensures IsDone(s'.status, d)
  {
    assert Move(cfg, s.status, s'.status, s'.groupErr, d);
  }

  lemma MoveSound(cfg: Config, s: State, s': State, t: TrackId)
    requires Moves(cfg, s, s') && t in s.status && TrackSound(cfg, s.status, s.groupErr, t)
    ensures TrackSound(cfg, s'.status, s'.groupErr, t)
  {
    assert Move(cfg, s.status, s'.status, s'.groupErr, t);
    forall d | IsDone(s.status, d) ensures IsDone(s'.status, d) {
      DoneKept(cfg, s, s', d);
    }
  }

  lemma SoundKept(cfg: Config, s: State, s': State)
    requires Moves(cfg, s, s') && Sound(cfg, s)
    ensures Sound(cfg, s')
  {
    forall t | t in s'.status ensures TrackSound(cfg, s'.status, s'.groupErr, t) {
      MoveSound(cfg, s, s', t);
    }
  }

  lemma ReadyDone(cfg: Config, s: State, t: TrackId)
    requires Books(cfg, s) && IsReady(s, t)
    ensures AllDone(s.status, Deps(cfg.plan, t))
  {
    UndoneZero(Deps(cfg.plan, t), s.status);
  }

  lemma ScanMoves(cfg: Config, s: State)
    requires Valid(cfg) && Books(cfg, s)
    ensures Moves(cfg, s, NextScan(cfg, s))
  {
    var s' := NextScan(cfg, s);
    if s.completed != |cfg.plan| {
      ReadyListFits(cfg.plan, s);
      forall t | t in s.status ensures Move(cfg, s.status, s'.status, s'.groupErr, t) {
        if t in ReadyList(cfg.plan, s) {
          ReadyDone(cfg, s, t);
        }
      }
    }
  }

  lemma IdleMoves(cfg: Config, s: State)
    ensures Moves(cfg, s, NextIdle(cfg, s))
  {
    if s.completed < |cfg.plan| && s.running == 0 {} else {}
  }

  lemma AcquireFailMoves(cfg: Config, s: State, id: TrackId)
    requires id in s.status
    ensures Moves(cfg, s, NextAcquireFail(s, id))
  {
  }

  lemma FinishMoves(cfg: Config, s: State, id: TrackId)
    requires Enabled(cfg, s, Finish(id)) && Is(s, id, Running) && CallsFit(cfg, s, id)
    ensures Moves(cfg, s, NextFinish(cfg, s, id))
  {
    CascadedPending(cfg.plan, s.status[id := Failed], id);
  }

  lemma StepMoves(cfg: Config, s: State, l: Label)
    requires Valid(cfg) && Inv(cfg, s) && Enabled(cfg, s, l)
    ensures Moves(cfg, s, Next(cfg, s, l))
  {
    match l
    case Scan => ScanMoves(cfg, s);
    case Idle => IdleMoves(cfg, s);
    case AcquireFail(id) => AcquireFailMoves(cfg, s, id);
    case Finish(id) => 
      assert Live(s, id);
      FinishMoves(cfg, s, id);
    case Acquire(id) =>
    case MapReturn(id) =>
    case Spawn =>
    case Release(id) =>
    case Join =>
  }

  lemma PendingBefore(cfg: Config, s: State, s': State, t: TrackId)
    requires Moves(cfg, s, s') && Is(s', t, Pending)
    ensures Is(s, t, Pending)
  {
    assert Move(cfg, s.status, s'.status, s'.groupErr, t);
  }

  // --- Cascading ---

  lemma CascadingKept(cfg: Config, s: State, s': State)
    requires Moves(cfg, s, s') && Cascading(cfg, s)
    requires !s'.groupErr ==> forall t :: Is(s', t, Failed) ==> Is(s, t, Failed)
    ensures Cascading(cfg, s')
  {
    forall t, u | !s'.groupErr && Is(s', t, Failed) && Is(s', u, Pending)
      ensures t !in Deps(cfg.plan, u)
    {
      PendingBefore(cfg, s, s', u);
    }
  }

  lemma CascadingFinish(cfg: Config, s: State, id: TrackId)
    requires Enabled(cfg, s, Finish(id)) && Is(s, id, Running) && Cascading(cfg, s)
    ensures Cascading(cfg, NextFinish(cfg, s, id))
  {
    var s' := NextFinish(cfg, s, id);
    var sts := s.status[id := Failed];
    CascadedPending(cfg.plan, sts, id);
    forall t, u | !s'.groupErr && Is(s', t, Failed) && Is(s', u, Pending)
      ensures t !in Deps(cfg.plan, u)
    {
      assert Is(s, u, Pending);
      if t == id {
        if t in Deps(cfg.plan, u) {
          CascadedClosed(cfg.plan, sts, id, id, u);
        }
      } else {
        assert Is(s, t, Failed);
      }
    }
  }

  lemma CascadingStep(cfg: Config, s: State, l: Label)
    requires Valid(cfg) && Inv(cfg, s) && Enabled(cfg, s, l)
    ensures Cascading(cfg, Next(cfg, s, l))
  {
    var s' := Next(cfg, s, l);
    if l.Finish? {
      assert Live(s, l.id);
      CascadingFinish(cfg, s, l.id);
    } else {
      StepMoves(cfg, s, l);
      NewlyFailed(cfg, s, l);
      CascadingKept(cfg, s, s');
    }
  }

  // Only a worker's last critical section fails a track.
  lemma NewlyFailed(cfg: Config, s: State, l: Label)
    requires Enabled(cfg, s, l) && !l.Finish?
    ensures !Next(cfg, s, l).groupErr ==> forall t :: Is(Next(cfg, s, l), t, Failed) ==> Is(s, t, Failed)
  {
    hide NextScan, NextIdle, NextFinish, Holders;
    ScanShape(cfg, s);
    IdleStatuses(cfg, s);
  }

  // --- Scanned ---

  lemma PresetDone(cfg: Config, s: State, d: TrackId)
    requires s.status.Keys == Ids(cfg.plan) && Sound(cfg, s) && Preset(cfg, d)
    ensures Is(s, d, Done)
  {
    assert TrackSound(cfg, s.status, s.groupErr, d);
  }

  lemma ScannedScan(cfg: Config, s: State)
    requires Valid(cfg) && Books(cfg, s) && Sound(cfg, s) && s.disp.Scanning? && Scanned(cfg, s)
    ensures Scanned(cfg, NextScan(cfg, s))
  {
    var s' := NextScan(cfg, s);
    if s.completed != |cfg.plan| {
      ReadyListFits(cfg.plan, s);
      forall t | Is(s', t, Pending) ensures Waits(cfg, t) {
        assert Is(s, t, Pending) && !IsReady(s, t);
        UndoneZero(Deps(cfg.plan, t), s.status);
        var d :| d in Deps(cfg.plan, t) && !IsDone(s.status, d);
        if Preset(cfg, d) {
          PresetDone(cfg, s, d);
        }
      }
    }
  }

  lemma ScannedKept(cfg: Config, s: State, s': State)
    requires Moves(cfg, s, s') && Scanned(cfg, s)
    requires s'.scanned == s.scanned && (s'.disp.Gap? ==> s.disp.Gap?)
    ensures Scanned(cfg, s')
  {
    forall t | s'.scanned && Is(s', t, Pending) ensures Waits(cfg, t) {
      PendingBefore(cfg, s, s', t);
    }
  }

  lemma ScannedStep(cfg: Config, s: State, l: Label)
    requires Valid(cfg) && Inv(cfg, s) && Enabled(cfg, s, l)
    ensures Scanned(cfg, Next(cfg, s, l))
  {
    if l.Scan? {
      ScannedScan(cfg, s);
    } else {
      StepMoves(cfg, s, l);
      OnlyScanFindsGap(cfg, s, l);
      ScannedKept(cfg, s, Next(cfg, s, l));
    }
  }

  lemma OnlyScanFindsGap(cfg: Config, s: State, l: Label)
    requires Enabled(cfg, s, l) && !l.Scan?
    ensures Next(cfg, s, l).scanned == s.scanned && (Next(cfg, s, l).disp.Gap? ==> s.disp.Gap?)
  {
    hide NextScan, NextIdle, NextFinish, Holders;
    IdleShape(cfg, s);
    if l.Finish? {
      FinishShape(cfg, s, l.id);
    }
  }

  // --- Desk and CallsFit ---

  lemma DeskQuiet(cfg: Config, s: State, l: Label)
    requires Desk(cfg, s) && Enabled(cfg, s, l)
    requires l.MapReturn? || l.Acquire? || l.Release? || l.Join?
    ensures Desk(cfg, Next(cfg, s, l))
  {
    var s' := Next(cfg, s, l);
    match l
    case MapReturn(id) => HoldersSame(s, s');
    case Acquire(id) => HoldersGrow(s, id);
    case Release(id) => HoldersShrink(s, id);
    case Join =>
  }

  lemma DeskSpawn(cfg: Config, s: State)
    requires Desk(cfg, s) && Crew(s) && s.disp.Spawning?
    ensures Desk(cfg, NextSpawn(s))
  {
    assert s.disp.queue[0] in Queue(s);
    HoldersSame(s, NextSpawn(s));
  }

  lemma RunningLeft(cfg: Config, s: State, id: TrackId)
    requires Valid(cfg) && Books(cfg, s) && Crew(s) && Live(s, id)
    ensures s.completed < |cfg.plan| && s.running > 0
  {
    assert Is(s, id, Running);
    assert id in With(s.status, Running);
    Census(cfg, s);
  }

  lemma DeskEnd(cfg: Config, s: State, s': State)
    requires Desk(cfg, s) && s.completed < |cfg.plan| && s'.disp == Wake(s.disp)
    requires Holders(s') == Holders(s)
    ensures Desk(cfg, s')
  {
  }

  lemma DeskScan(cfg: Config, s: State)
    requires Desk(cfg, s) && s.disp.Scanning?
    ensures Desk(cfg, NextScan(cfg, s))
  {
    HoldersSame(s, NextScan(cfg, s));
  }

  lemma DeskIdle(cfg: Config, s: State)
    requires Valid(cfg) && Books(cfg, s) && Desk(cfg, s) && s.disp.Gap?
    ensures Desk(cfg, NextIdle(cfg, s))
  {
    hide NextIdle, Ids, Holders, Degrees;
    Census(cfg, s);
    IdleShape(cfg, s);
    HoldersSame(s, NextIdle(cfg, s));
  }

  lemma DeskAcquireFail(cfg: Config, s: State, id: TrackId)
    requires Valid(cfg) && Books(cfg, s) && Crew(s) && Desk(cfg, s) && Enabled(cfg, s, AcquireFail(id))
    ensures Desk(cfg, NextAcquireFail(s, id))
  {
    RunningLeft(cfg, s, id);
    HoldersSame(s, NextAcquireFail(s, id));
    DeskEnd(cfg, s, NextAcquireFail(s, id));
  }

  lemma DeskFinish(cfg: Config, s: State, id: TrackId)
    requires s.completed < |cfg.plan| && Desk(cfg, s) && id in s.workers && s.workers[id].Report?
    ensures Desk(cfg, NextFinish(cfg, s, id))
  {
    FinishShape(cfg, s, id);
    HoldersSame(s, NextFinish(cfg, s, id));
    DeskEnd(cfg, s, NextFinish(cfg, s, id));
  }

  lemma DeskStep(cfg: Config, s: State, l: Label)
    requires Valid(cfg) && Inv(cfg, s) && Enabled(cfg, s, l)
    ensures Desk(cfg, Next(cfg, s, l))
  {
    match l
    case Scan => DeskScan(cfg, s);
    case Idle => DeskIdle(cfg, s);
    case Spawn => DeskSpawn(cfg, s);
    case AcquireFail(id) => DeskAcquireFail(cfg, s, id);
    case Finish(id) =>
      RunningLeft(cfg, s, id);
      DeskFinish(cfg, s, id);
    case _ => DeskQuiet(cfg, s, l);
  }

  // A step of another track's worker, or of the dispatcher.
  lemma CallsOther(cfg: Config, s: State, s': State, t: TrackId)
    requires Moves(cfg, s, s') && CallsFit(cfg, s, t) && Calls(s', t) == Calls(s, t)
    requires t in s'.workers <==> t in s.workers
    requires t in s.workers ==> s'.workers[t] == s.workers[t]
    ensures CallsFit(cfg, s', t)
  {
    if t in s.status {
      assert Move(cfg, s.status, s'.status, s'.groupErr, t);
    }
  }

  lemma CallsAcquire(cfg: Config, s: State, id: TrackId)
    requires CallsFit(cfg, s, id) && id in s.workers && Selected(cfg, id)
    ensures CallsFit(cfg, NextAcquire(s, id), id)
  {
  }

  lemma CallsAcquireFail(cfg: Config, s: State, id: TrackId)
    requires CallsFit(cfg, s, id) && id in s.workers && s.workers[id].Queued? && Is(s, id, Running)
    ensures CallsFit(cfg, NextAcquireFail(s, id), id)
  {
  }

  lemma CallsMapReturn(cfg: Config, s: State, id: TrackId)
    requires CallsFit(cfg, s, id) && Enabled(cfg, s, MapReturn(id)) && Selected(cfg, id)
    ensures CallsFit(cfg, NextMapReturn(cfg, s, id), id)
  {
  }

  lemma CallsFinish(cfg: Config, s: State, id: TrackId)
    requires CallsFit(cfg, s, id) && Enabled(cfg, s, Finish(id))
    ensures CallsFit(cfg, NextFinish(cfg, s, id), id)
  {
  }

  lemma CallsRelease(cfg: Config, s: State, id: TrackId)
    requires CallsFit(cfg, s, id) && Enabled(cfg, s, Release(id)) && id in s.status && Terminal(s.status[id])
    ensures CallsFit(cfg, Next(cfg, s, Release(id)), id)
  {
  }

  lemma CallsOwn(cfg: Config, s: State, l: Label)
    requires Inv(cfg, s) && Enabled(cfg, s, l)
    requires l.Acquire? || l.AcquireFail? || l.MapReturn? || l.Finish? || l.Release?
    ensures CallsFit(cfg, Next(cfg, s, l), l.id)
  {
    assert CallsFit(cfg, s, l.id);
    if l.Release? {
      CallsRelease(cfg, s, l.id);
    } else {
      LiveSelected(cfg, s, l.id);
      match l
      case Acquire(id) => CallsAcquire(cfg, s, id);
      case AcquireFail(id) => CallsAcquireFail(cfg, s, id);
      case MapReturn(id) => CallsMapReturn(cfg, s, id);
      case Finish(id) => CallsFinish(cfg, s, id);
    }
  }

  lemma LiveSelected(cfg: Config, s: State, id: TrackId)
    requires Crew(s) && Sound(cfg, s) && Live(s, id)
    ensures Is(s, id, Running) && Selected(cfg, id)
  {
    assert TrackSound(cfg, s.status, s.groupErr, id);
  }

  lemma CallsSpawn(cfg: Config, s: State)
    requires Crew(s) && s.disp.Spawning? && CallsFit(cfg, s, s.disp.queue[0])
    ensures CallsFit(cfg, NextSpawn(s), s.disp.queue[0])
  {
    assert s.disp.queue[0] in Queue(s);
  }

  lemma CallsStep(cfg: Config, s: State, l: Label, t: TrackId)
    requires Valid(cfg) && Inv(cfg, s) && Enabled(cfg, s, l)
    ensures CallsFit(cfg, Next(cfg, s, l), t)
  {
    if (l.Acquire? || l.AcquireFail? || l.MapReturn? || l.Finish? || l.Release?) && l.id == t {
      CallsOwn(cfg, s, l);
    } else if l.Spawn? && s.disp.queue[0] == t {
      CallsSpawn(cfg, s);
    } else {
      StepMoves(cfg, s, l);
      StepElsewhere(cfg, s, l, t);
      CallsOther(cfg, s, Next(cfg, s, l), t);
    }
  }

  lemma StepElsewhere(cfg: Config, s: State, l: Label, t: TrackId)
    requires Enabled(cfg, s, l)
    requires !((l.Acquire? || l.AcquireFail? || l.MapReturn? || l.Finish? || l.Release?) && l.id == t)
    requires !(l.Spawn? && s.disp.queue[0] == t)
    ensures Calls(Next(cfg, s, l), t) == Calls(s, t)
    ensures t in Next(cfg, s, l).workers <==> t in s.workers
    ensures t in s.workers ==> Next(cfg, s, l).workers[t] == s.workers[t]
  {
    if l.Scan? || l.Idle? || l.Join? {
      DispatcherElsewhere(cfg, s, l);
    } else if l.Finish? {
      FinishShape(cfg, s, l.id);
    } else if !l.Spawn? {
      WorkerElsewhere(cfg, s, l, t);
    }
  }

  lemma DispatcherElsewhere(cfg: Config, s: State, l: Label)
    requires Enabled(cfg, s, l) && (l.Scan? || l.Idle? || l.Join?)
    ensures Next(cfg, s, l).workers == s.workers && Next(cfg, s, l).calls == s.calls
  {
    match l
    case Scan => ScanShape(cfg, s);
    case Idle => IdleShape(cfg, s);
    case Join =>
  }

  lemma WorkerElsewhere(cfg: Config, s: State, l: Label, t: TrackId)
    requires Enabled(cfg, s, l) && (l.Acquire? || l.AcquireFail? || l.MapReturn? || l.Release?) && l.id != t
    ensures Calls(Next(cfg, s, l), t) == Calls(s, t)
    ensures t in Next(cfg, s, l).workers <==> t in s.workers
    ensures t in s.workers ==> Next(cfg, s, l).workers[t] == s.workers[t]
  {
  }

  lemma BooksQuiet(cfg: Config, s: State, l: Label)
    requires Books(cfg, s) && Crew(s) && Enabled(cfg, s, l)
    requires !(l.Scan? || l.Idle? || l.AcquireFail? || l.Finish?)
    ensures Books(cfg, Next(cfg, s, l))
  {
    if l.Acquire? || l.MapReturn? {
      assert Live(s, l.id) && Is(s, l.id, Running);
    }
  }

  lemma BooksStep(cfg: Config, s: State, l: Label)
    requires Valid(cfg) && Books(cfg, s) && Crew(s) && Enabled(cfg, s, l)
    ensures Books(cfg, Next(cfg, s, l))
  {
    match l
    case Scan => BooksScan(cfg, s);
    case Idle => BooksIdle(cfg, s);
    case AcquireFail(id) =>
      assert Live(s, id);
      BooksAcquireFail(cfg, s, id);
    case Finish(id) =>
      assert Live(s, id);
      if s.workers[id].err.Some? { BooksFinishErr(cfg, s, id); } else { BooksFinishOk(cfg, s, id); }
    case _ => BooksQuiet(cfg, s, l);
  }

  lemma CrewFinish(cfg: Config, s: State, id: TrackId)
    requires Crew(s) && Enabled(cfg, s, Finish(id))
    ensures Crew(NextFinish(cfg, s, id))
  {
    FinishStatuses(cfg, s, id);
    assert Live(s, id);
    CrewEnd(s, NextFinish(cfg, s, id), id);
  }

  lemma CrewWorker(cfg: Config, s: State, l: Label)
    requires Crew(s) && Enabled(cfg, s, l)
    requires l.Acquire? || l.MapReturn? || l.Release?
    ensures Crew(Next(cfg, s, l))
  {
    CrewSameStatus(s, Next(cfg, s, l), l.id);
  }

  lemma CrewAcquireFail(cfg: Config, s: State, id: TrackId)
    requires Crew(s) && Enabled(cfg, s, AcquireFail(id))
    ensures Crew(NextAcquireFail(s, id))
  {
    assert Live(s, id) && Is(s, id, Running);
    CrewEnd(s, NextAcquireFail(s, id), id);
  }

  lemma CrewStep(cfg: Config, s: State, l: Label)
    requires Valid(cfg) && s.status.Keys == Ids(cfg.plan) && Crew(s) && Enabled(cfg, s, l)
    ensures Crew(Next(cfg, s, l))
  {
    match l
    case Scan => CrewScan(cfg, s);
    case Idle => CrewIdle(cfg, s);
    case Spawn => CrewSpawn(s);
    case AcquireFail(id) => CrewAcquireFail(cfg, s, id);
    case Finish(id) => CrewFinish(cfg, s, id);
    case Join =>
    case _ => CrewWorker(cfg, s, l);
  }

  // The invariant is inductive.
  lemma StepInv(cfg: Config, s: State, l: Label)
    requires Valid(cfg) && Inv(cfg, s) && Enabled(cfg, s, l)
    ensures Inv(cfg, Next(cfg, s, l))
  {
    BooksStep(cfg, s, l);
    CrewStep(cfg, s, l);
    DeskStep(cfg, s, l);
    StepMoves(cfg, s, l);
    SoundKept(cfg, s, Next(cfg, s, l));
    CascadingStep(cfg, s, l);
    ScannedStep(cfg, s, l);
    forall t ensures CallsFit(cfg, Next(cfg, s, l), t) {
      CallsStep(cfg, s, l, t);
    }
  }
}
