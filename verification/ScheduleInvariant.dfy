// What holds in every reachable state of the scheduler, under every interleaving.
module ScheduleInvariant {
  import opened Plans
  import opened Wrappers
  import opened Schedule

  // The counters count what their names say whenever the mutex is free.
  ghost predicate Books(cfg: Config, s: State) {
    && s.status.Keys == Ids(cfg.plan)
    && s.inDegree.Keys == Ids(cfg.plan)
    && s.calls.Keys == Ids(cfg.plan)
    && Degrees(cfg.plan, s.inDegree, s.status)
    && s.completed == |Terminals(s.status)|
    && s.running == |With(s.status, Running)|
  }

  function Queue(s: State): seq<TrackId> {
    if s.disp.Spawning? then s.disp.queue else []
  }

  predicate Live(s: State, id: TrackId) {
    id in s.workers && !s.workers[id].Releasing?
  }

  predicate Is(s: State, id: TrackId, st: Status) {
    id in s.status && s.status[id] == st
  }

  function Calls(s: State, id: TrackId): nat {
    if id in s.calls then s.calls[id] else 0
  }

  // How far each track's worker is, and how often it has called the mapper.
  ghost predicate CallsFit(cfg: Config, s: State, t: TrackId) {
    && (t in s.workers ==>
        match s.workers[t]
        case Queued => Calls(s, t) == 0
        case First => Calls(s, t) == 1
        case Second => Calls(s, t) == 2 && Retries(cfg.mapper(t, 0))
        case Report(err) => Calls(s, t) == Attempts(cfg, t) && err == FinalReply(cfg, t).err
        case Releasing => Calls(s, t) == Attempts(cfg, t))
    && (t !in s.workers && (Is(s, t, Pending) || Is(s, t, Running)) ==> Calls(s, t) == 0)
    && Calls(s, t) <= Attempts(cfg, t)
    && (!Selected(cfg, t) ==> Calls(s, t) == 0)
  }

  // Who runs where: a Running track waits in the spawn queue or has one live worker.
  ghost predicate Crew(s: State) {
    && (s.disp.Spawning? ==> s.disp.queue != [])
    && Distinct(Queue(s))
    && (forall t :: t in Queue(s) ==> Is(s, t, Running) && t !in s.workers)
    && (forall t :: Live(s, t) ==> Is(s, t, Running))
    && (forall t :: t in s.workers && s.workers[t].Releasing? ==> t in s.status && Terminal(s.status[t]))
    && (forall t :: Is(s, t, Running) ==> t in Queue(s) || Live(s, t))
  }

  // The semaphore is never over its size, a parked dispatcher has a worker to wait
  // for, and the loop ends only when every track has an end.
  ghost predicate Desk(cfg: Config, s: State) {
    && |Holders(s)| <= Slots(cfg.max)
    && (s.disp.Parked? ==> s.running > 0)
    && (s.disp.Joining? || s.disp.Returned? ==> s.completed == |cfg.plan|)
    && (s.disp.Returned? ==> s.workers == map[])
  }

  predicate Preset(cfg: Config, id: TrackId) {
    id in Ids(cfg.plan) && !Selected(cfg, id) && id in cfg.probe
  }

  // What the status of track t says about t and its dependencies.
  ghost predicate TrackSound(cfg: Config, sts: Statuses, groupErr: bool, t: TrackId)
    requires t in sts
  {
    match sts[t]
    case Pending => Selected(cfg, t)
    case Running => Selected(cfg, t) && AllDone(sts, Deps(cfg.plan, t))
    case Failed => Selected(cfg, t) && AllDone(sts, Deps(cfg.plan, t)) && (groupErr || !Succeeds(cfg, t))
    case Done =>
      Preset(cfg, t) || (Selected(cfg, t) && AllDone(sts, Deps(cfg.plan, t)) && Succeeds(cfg, t))
    case Blocked => !Preset(cfg, t)
  }

  ghost predicate Sound(cfg: Config, s: State) {
    forall t :: t in s.status ==> TrackSound(cfg, s.status, s.groupErr, t)
  }

  // Without acquire errors no Pending track has a Failed dependency.
  ghost predicate Cascading(cfg: Config, s: State) {
    !s.groupErr ==>
      forall t, u :: Is(s, t, Failed) && Is(s, u, Pending) ==> t !in Deps(cfg.plan, u)
  }

  ghost predicate Waits(cfg: Config, t: TrackId) {
    exists d :: d in Deps(cfg.plan, t) && !Preset(cfg, d)
  }

  // After the first scan a Pending track has a dependency that is not preset.
  ghost predicate Scanned(cfg: Config, s: State) {
    && (s.scanned ==> forall t :: Is(s, t, Pending) ==> Waits(cfg, t))
    && (s.disp.Gap? ==> s.scanned)
  }

  ghost predicate Inv(cfg: Config, s: State) {
    && Books(cfg, s) && Crew(s) && Desk(cfg, s) && Sound(cfg, s)
    && Cascading(cfg, s) && Scanned(cfg, s) && forall t :: CallsFit(cfg, s, t)
  }

  // --- the cascade ---

  lemma CascadedPending(plan: seq<Track>, sts: Statuses, from: TrackId)
    ensures Cascaded(plan, sts, from) <= With(sts, Pending)
  {
  }

  // A Pending track with a dependency among `from` and the cascaded tracks is cascaded.
  lemma CascadedClosed(plan: seq<Track>, sts: Statuses, from: TrackId, t: TrackId, u: TrackId)
    requires t == from || t in Cascaded(plan, sts, from)
    requires u in sts && sts[u] == Pending && t in Deps(plan, u)
    ensures u in Cascaded(plan, sts, from)
  {
    if t == from {
      assert PendingPath(plan, sts, [from, u]);
    } else {
      var p :| PendingPath(plan, sts, p) && p[0] == from && p[|p| - 1] == t;
      assert PendingPath(plan, sts, p + [u]);
    }
  }

  // Every cascaded track depends on `from` or on another cascaded track.
  lemma CascadedCause(plan: seq<Track>, sts: Statuses, from: TrackId, u: TrackId) returns (t: TrackId)
    requires u in Cascaded(plan, sts, from)
    ensures t in Deps(plan, u) && (t == from || t in Cascaded(plan, sts, from))
  {
    var p :| PendingPath(plan, sts, p) && p[0] == from && p[|p| - 1] == u;
    t := p[|p| - 2];
    if |p| > 2 {
      assert PendingPath(plan, sts, p[..|p| - 1]);
    }
  }

  // --- counting ---

  lemma {:induction false} ReadyListFits(plan: seq<Track>, s: State)
    requires DistinctIds(plan)
    ensures forall t :: t in ReadyList(plan, s) <==> t in Ids(plan) && IsReady(s, t)
    ensures Distinct(ReadyList(plan, s))
  {
    if plan != [] {
      var init, last := plan[..|plan| - 1], plan[|plan| - 1];
      LastTrack(plan);
      hide DistinctIds, Ids, IsReady;
      ReadyListFits(init, s);
    }
  }

  lemma {:induction false} ReadyInOrder(plan: seq<Track>, s: State)
    ensures InPlanOrder(plan, ReadyList(plan, s))
  {
    if plan == [] {
      var none: seq<nat> := [];
      assert |none| == |ReadyList(plan, s)|;
    } else {
      var init, last := plan[..|plan| - 1], plan[|plan| - 1];
      ReadyInOrder(init, s);
      hide InPlanOrder, IsReady;
      InOrderSnoc(init, ReadyList(init, s), last);
      assert init + [last] == plan && ReadyList(init, s) + [] == ReadyList(init, s);
    }
  }

  lemma {:induction false} ElemsCount(xs: seq<TrackId>)
    requires Distinct(xs)
    ensures |Elems(xs)| == |xs|
  {
    if xs != [] {
      ElemsCount(xs[1..]);
      assert xs == [xs[0]] + xs[1..];
      assert Elems(xs) == {xs[0]} + Elems(xs[1..]);
    }
  }

  lemma StatusesSplit(sts: Statuses)
    ensures |Terminals(sts)| + |With(sts, Running)| + |With(sts, Pending)| == |sts.Keys|
  {
    var a, b, c := Terminals(sts), With(sts, Running), With(sts, Pending);
    assert sts.Keys == a + b + c;
  }

  // The statuses split the plan.
  lemma Census(cfg: Config, s: State)
    requires Valid(cfg) && Books(cfg, s)
    ensures s.completed + s.running + |With(s.status, Pending)| == |cfg.plan|
  {
    IdsCount(cfg.plan);
    StatusesSplit(s.status);
  }

  // Moving Pending tracks to st.
  lemma StartCounts(sts: Statuses, ids: set<TrackId>)
    requires ids <= With(sts, Pending)
    ensures Terminals(SetAll(sts, ids, Running)) == Terminals(sts)
    ensures |With(SetAll(sts, ids, Running), Running)| == |With(sts, Running)| + |ids|
  {
    assert With(SetAll(sts, ids, Running), Running) == With(sts, Running) + ids;
  }

  lemma BlockCounts(sts: Statuses, ids: set<TrackId>)
    requires ids <= With(sts, Pending)
    ensures |Terminals(SetAll(sts, ids, Blocked))| == |Terminals(sts)| + |ids|
    ensures With(SetAll(sts, ids, Blocked), Running) == With(sts, Running)
  {
    assert Terminals(SetAll(sts, ids, Blocked)) == Terminals(sts) + ids;
  }

  lemma MoveOneCounts(sts: Statuses, id: TrackId, st: Status)
    requires id in sts && sts[id] == Running && Terminal(st)
    ensures |Terminals(sts[id := st])| == |Terminals(sts)| + 1
    ensures |With(sts[id := st], Running)| == |With(sts, Running)| - 1
  {
    assert Terminals(sts[id := st]) == Terminals(sts) + {id};
    assert With(sts, Running) == With(sts[id := st], Running) + {id};
  }

  ghost predicate Degrees(plan: seq<Track>, inDegree: map<TrackId, int>, sts: Statuses) {
    forall t :: t in inDegree ==> inDegree[t] == Undone(Deps(plan, t), sts)
  }

  lemma DegreesSame(plan: seq<Track>, inDegree: map<TrackId, int>, sts: Statuses, sts': Statuses)
    requires Degrees(plan, inDegree, sts)
    requires forall d :: IsDone(sts, d) <==> IsDone(sts', d)
    ensures Degrees(plan, inDegree, sts')
  {
    forall t | t in inDegree ensures inDegree[t] == Undone(Deps(plan, t), sts') {
      UndoneSame(Deps(plan, t), sts, sts');
    }
  }

  lemma DegreesDrop(plan: seq<Track>, inDegree: map<TrackId, int>, sts: Statuses, id: TrackId)
    requires Degrees(plan, inDegree, sts) && !IsDone(sts, id)
    ensures Degrees(plan, DropEdges(plan, inDegree, id), sts[id := Done])
    ensures DropEdges(plan, inDegree, id).Keys == inDegree.Keys
  {
    forall t | t in inDegree
      ensures DropEdges(plan, inDegree, id)[t] == Undone(Deps(plan, t), sts[id := Done])
    {
      UndoneDrops(Deps(plan, t), sts, sts[id := Done], id);
    }
  }

  lemma InitBooks(cfg: Config)
    requires Valid(cfg)
    ensures Books(cfg, Init(cfg))
  {
    assert With(Init(cfg).status, Running) == {};
  }

  lemma InitRest(cfg: Config, s: State)
    requires s.status.Keys == Ids(cfg.plan)
    requires forall t :: t in s.status ==> s.status[t] == InitStatus(cfg, t)
    requires forall t :: t in s.calls ==> s.calls[t] == 0
    requires s.disp.Scanning? && s.workers == map[] && !s.scanned
    ensures Crew(s) && Desk(cfg, s) && Sound(cfg, s) && Cascading(cfg, s) && Scanned(cfg, s)
    ensures forall t :: CallsFit(cfg, s, t)
  {
    assert Holders(s) == {};
    assert forall t :: Is(s, t, Pending) ==> Selected(cfg, t);
  }

  lemma InitInv(cfg: Config)
    requires Valid(cfg)
    ensures Inv(cfg, Init(cfg))
  {
    InitBooks(cfg);
    InitRest(cfg, Init(cfg));
  }

  // --- Books ---

  lemma BooksScan(cfg: Config, s: State)
    requires Valid(cfg) && Books(cfg, s) && s.disp.Scanning?
    ensures Books(cfg, NextScan(cfg, s))
  {
    if s.completed != |cfg.plan| {
      var ready := ReadyList(cfg.plan, s);
      ReadyListFits(cfg.plan, s);
      ElemsCount(ready);
      StartCounts(s.status, Elems(ready));
      DegreesSame(cfg.plan, s.inDegree, s.status, SetAll(s.status, Elems(ready), Running));
    }
  }

  lemma BooksIdle(cfg: Config, s: State)
    requires Valid(cfg) && Books(cfg, s) && s.disp.Gap?
    ensures Books(cfg, NextIdle(cfg, s))
  {
    if s.completed < |cfg.plan| && s.running == 0 {
      var pending := With(s.status, Pending);
      BlockCounts(s.status, pending);
      DegreesSame(cfg.plan, s.inDegree, s.status, SetAll(s.status, pending, Blocked));
      var s' := NextIdle(cfg, s);
      assert s'.status == SetAll(s.status, pending, Blocked);
      assert s'.status.Keys == Ids(cfg.plan);
      assert Degrees(cfg.plan, s'.inDegree, s'.status);
      assert s'.completed == |Terminals(s'.status)|;
      assert s'.running == |With(s'.status, Running)|;
    }
  }

  lemma BooksAcquireFail(cfg: Config, s: State, id: TrackId)
    requires Valid(cfg) && Books(cfg, s) && id in s.status && s.status[id] == Running
    ensures Books(cfg, NextAcquireFail(s, id))
  {
    MoveOneCounts(s.status, id, Failed);
    DegreesSame(cfg.plan, s.inDegree, s.status, s.status[id := Failed]);
  }

  // Failing a Running track and blocking some Pending ones.
  lemma FailCounts(plan: seq<Track>, inDegree: map<TrackId, int>, sts: Statuses, id: TrackId, blocked: set<TrackId>)
    requires id in sts && sts[id] == Running && blocked <= With(sts[id := Failed], Pending)
    requires Degrees(plan, inDegree, sts)
    ensures var sts' := SetAll(sts[id := Failed], blocked, Blocked);
      && sts'.Keys == sts.Keys
      && Degrees(plan, inDegree, sts')
      && |Terminals(sts')| == |Terminals(sts)| + |blocked| + 1
      && |With(sts', Running)| == |With(sts, Running)| - 1
  {
    MoveOneCounts(sts, id, Failed);
    BlockCounts(sts[id := Failed], blocked);
    DegreesSame(plan, inDegree, sts, SetAll(sts[id := Failed], blocked, Blocked));
  }

  lemma BooksFinishErr(cfg: Config, s: State, id: TrackId)
    requires Valid(cfg) && Books(cfg, s) && Is(s, id, Running)
    requires id in s.workers && s.workers[id].Report? && s.workers[id].err.Some?
    ensures Books(cfg, NextFinish(cfg, s, id))
  {
    var blocked := Cascaded(cfg.plan, s.status[id := Failed], id);
    CascadedPending(cfg.plan, s.status[id := Failed], id);
    FailCounts(cfg.plan, s.inDegree, s.status, id, blocked);
    var s' := NextFinish(cfg, s, id);
    assert s'.status == SetAll(s.status[id := Failed], blocked, Blocked);
  }

  lemma BooksFinishOk(cfg: Config, s: State, id: TrackId)
    requires Valid(cfg) && Books(cfg, s) && Is(s, id, Running)
    requires id in s.workers && s.workers[id].Report? && s.workers[id].err.None?
    ensures Books(cfg, NextFinish(cfg, s, id))
  {
    hide Ids, Deps, Cascaded, SetAll;
    MoveOneCounts(s.status, id, Done);
    DegreesDrop(cfg.plan, s.inDegree, s.status, id);
    var s' := NextFinish(cfg, s, id);
    assert s'.status == s.status[id := Done];
    assert s'.inDegree == DropEdges(cfg.plan, s.inDegree, id);
    assert s'.status.Keys == s.status.Keys;
  }
}
