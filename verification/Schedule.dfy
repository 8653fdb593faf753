// The track scheduler as a labelled transition system. One label is one critical
// section of the dispatcher or of a worker goroutine (or one of their lock-free
// steps), so a run is one interleaving of them.
module Schedule {
  import opened Plans
  import opened Wrappers

  // What one call of the mapper returns, and the track file it leaves, if any.
  datatype MapReply = MapReply(err: Option<Message>, retryable: bool, file: Option<File>)

  // `probe` holds the tracks whose artifact the probe reports present; `files` are
  // the track files on disk at the start; mapper(id, n) answers the n-th call for id.
  datatype Config = Config(
    plan: seq<Track>,
    only: seq<TrackId>,
    probe: set<TrackId>,
    files: map<TrackId, File>,
    max: int,
    mapper: (TrackId, nat) -> MapReply)

  // Holding the semaphore means being in First, Second, Report or Releasing.
  datatype Worker =
    | Queued
    | First
    | Second
    | Report(err: Option<Message>)
    | Releasing

  // Gap: the scan found nothing and the lock is free again. Parked: in cond.Wait.
  // Joining: the loop is over and g.Wait runs.
  datatype Dispatcher =
    | Scanning
    | Spawning(queue: seq<TrackId>)
    | Gap
    | Parked
    | Joining
    | Returned

  // groupErr, calls, scanned and gapSweep record the past: an acquire failed; the
  // mapper calls so far; the first scan is over; a sweep blocked a ready track.
  datatype State = State(
    status: Statuses,
    inDegree: map<TrackId, int>,
    completed: int,
    running: int,
    disp: Dispatcher,
    workers: map<TrackId, Worker>,
    files: map<TrackId, File>,
    groupErr: bool,
    calls: map<TrackId, nat>,
    scanned: bool,
    gapSweep: bool)

  datatype Label =
    | Scan
    | Idle
    | Spawn
    | Acquire(id: TrackId)
    | AcquireFail(id: TrackId)
    | MapReturn(id: TrackId)
    | Finish(id: TrackId)
    | Release(id: TrackId)
    | Join

  ghost predicate Valid(cfg: Config) {
    DistinctIds(cfg.plan) && forall id :: id in cfg.only ==> id in Ids(cfg.plan)
  }

  function Slots(max: int): int {
    if max <= 0 then 4 else max
  }

  predicate Selected(cfg: Config, id: TrackId) {
    id in Ids(cfg.plan) && (cfg.only == [] || id in cfg.only)
  }

  // An error alone is not retryable; only the Retryable flag of the reply is.
  predicate IsRetryable(r: MapReply) {
    r.retryable
  }

  predicate Retries(r: MapReply) {
    (r.err.Some? || r.retryable) && IsRetryable(r)
  }

  function Attempts(cfg: Config, id: TrackId): nat {
    if Retries(cfg.mapper(id, 0)) then 2 else 1
  }

  function FinalReply(cfg: Config, id: TrackId): MapReply {
    cfg.mapper(id, Attempts(cfg, id) - 1)
  }

  predicate Succeeds(cfg: Config, id: TrackId) {
    FinalReply(cfg, id).err.None?
  }

  function With(sts: Statuses, st: Status): set<TrackId> {
    set t | t in sts && sts[t] == st
  }

  function Terminals(sts: Statuses): set<TrackId> {
    set t | t in sts && Terminal(sts[t])
  }

  predicate IsReady(s: State, id: TrackId) {
    id in s.status && s.status[id] == Pending && id in s.inDegree && s.inDegree[id] == 0
  }

  ghost predicate SomeReady(s: State) {
    exists t :: t in s.status && IsReady(s, t)
  }

  // The ready tracks in plan order.
  function ReadyList(plan: seq<Track>, s: State): seq<TrackId> {
    if plan == [] then []
    else ReadyList(plan[..|plan| - 1], s) +
         (if IsReady(s, plan[|plan| - 1].id) then [plan[|plan| - 1].id] else [])
  }

  predicate Holds(w: Worker) {
    w.First? || w.Second? || w.Report? || w.Releasing?
  }

  function Holders(s: State): set<TrackId> {
    set t | t in s.workers && Holds(s.workers[t])
  }

  // A path from p[0] along dependency edges, every later track on it Pending.
  ghost predicate PendingPath(plan: seq<Track>, sts: Statuses, p: seq<TrackId>) {
    |p| >= 2 &&
    forall i :: 1 <= i < |p| ==>
      p[i] in sts && sts[p[i]] == Pending && p[i - 1] in Deps(plan, p[i])
  }

  ghost predicate Reaches(plan: seq<Track>, sts: Statuses, from: TrackId, to: TrackId) {
    exists p :: PendingPath(plan, sts, p) && p[0] == from && p[|p| - 1] == to
  }

  // What a failure of `from` blocks.
  ghost function Cascaded(plan: seq<Track>, sts: Statuses, from: TrackId): set<TrackId> {
    set t | t in sts && Reaches(plan, sts, from, t)
  }

  function SetAll(sts: Statuses, ids: set<TrackId>, st: Status): (sts': Statuses)
    ensures sts'.Keys == sts.Keys
    ensures forall t :: t in sts ==> sts'[t] == if t in ids then st else sts[t]
  {
    map t | t in sts :: if t in ids then st else sts[t]
  }

  ghost function DropEdges(plan: seq<Track>, inDegree: map<TrackId, int>, id: TrackId): (m: map<TrackId, int>)
    ensures m.Keys == inDegree.Keys
  {
    map t | t in inDegree :: inDegree[t] - multiset(Deps(plan, t))[id]
  }

  // cond.Broadcast: a parked dispatcher goes back to the head of the loop.
  function Wake(d: Dispatcher): Dispatcher {
    if d.Parked? then Scanning else d
  }

  function InitStatus(cfg: Config, id: TrackId): Status {
    if Selected(cfg, id) then Pending else if id in cfg.probe then Done else Blocked
  }

  ghost function Init(cfg: Config): State {
    var sts := map t | t in Ids(cfg.plan) :: InitStatus(cfg, t);
    State(sts,
          map t | t in Ids(cfg.plan) :: Undone(Deps(cfg.plan, t), sts),
          |Terminals(sts)|, 0, Scanning, map[], cfg.files, false,
          map t | t in Ids(cfg.plan) :: 0, false, false)
  }

  predicate Enabled(cfg: Config, s: State, l: Label) {
    match l
    case Scan => s.disp.Scanning?
    case Idle => s.disp.Gap?
    case Spawn => s.disp.Spawning? && s.disp.queue != []
    case Acquire(id) =>
      id in s.workers && s.workers[id].Queued? && |Holders(s)| < Slots(cfg.max)
    case AcquireFail(id) => id in s.workers && s.workers[id].Queued? && id in s.status
    case MapReturn(id) => id in s.workers && (s.workers[id].First? || s.workers[id].Second?)
    case Finish(id) => id in s.workers && s.workers[id].Report? && id in s.status
    case Release(id) => id in s.workers && s.workers[id].Releasing?
    case Join => s.disp.Joining? && s.workers == map[]
  }

  ghost function NextScan(cfg: Config, s: State): State {
    if s.completed == |cfg.plan| then s.(disp := Joining)
    else
      var ready := ReadyList(cfg.plan, s);
      s.(status := SetAll(s.status, Elems(ready), Running),
         running := s.running + |ready|,
         disp := if ready == [] then Gap else Spawning(ready),
         scanned := true)
  }

  ghost function NextIdle(cfg: Config, s: State): State {
    if s.completed < |cfg.plan| then
      if s.running == 0 then
        var pending := With(s.status, Pending);
        s.(status := SetAll(s.status, pending, Blocked),
           completed := s.completed + |pending|,
           disp := Scanning,
           gapSweep := s.gapSweep || SomeReady(s))
      else s.(disp := Parked)
    else s.(disp := Joining)
  }

  function NextSpawn(s: State): State
    requires s.disp.Spawning? && s.disp.queue != []
  {
    s.(workers := s.workers[s.disp.queue[0] := Queued],
       disp := if |s.disp.queue| == 1 then Scanning else Spawning(s.disp.queue[1..]))
  }

  function NextAcquire(s: State, id: TrackId): State {
    s.(workers := s.workers[id := First], calls := s.calls[id := 1])
  }

  function NextAcquireFail(s: State, id: TrackId): State
    requires id in s.status
  {
    var hit := s.status[id] == Running;
    s.(status := if hit then s.status[id := Failed] else s.status,
       completed := if hit then s.completed + 1 else s.completed,
       running := s.running - 1,
       disp := Wake(s.disp),
       workers := s.workers - {id},
       groupErr := true)
  }

  function NextMapReturn(cfg: Config, s: State, id: TrackId): State
    requires id in s.workers
  {
    var r := cfg.mapper(id, if s.workers[id].First? then 0 else 1);
    var retry := s.workers[id].First? && Retries(r);
    s.(workers := s.workers[id := if retry then Second else Report(r.err)],
       calls := if retry then s.calls[id := 2] else s.calls,
       files := if r.file.Some? then s.files[id := r.file.value] else s.files)
  }

  ghost function NextFinish(cfg: Config, s: State, id: TrackId): State
    requires id in s.workers && s.workers[id].Report?
  {
    var s1 := s.(running := s.running - 1,
                 disp := Wake(s.disp),
                 workers := s.workers[id := Releasing]);
    if s.workers[id].err.Some? then
      var blocked := Cascaded(cfg.plan, s.status[id := Failed], id);
      s1.(status := SetAll(s.status[id := Failed], blocked, Blocked),
          completed := s.completed + |blocked| + 1)
    else
      s1.(status := s.status[id := Done],
          inDegree := DropEdges(cfg.plan, s.inDegree, id),
          completed := s.completed + 1)
  }

  // A label that is not enabled changes nothing.
  ghost function Next(cfg: Config, s: State, l: Label): State {
    if !Enabled(cfg, s, l) then s else
    match l
    case Scan => NextScan(cfg, s)
    case Idle => NextIdle(cfg, s)
    case Spawn => NextSpawn(s)
    case Acquire(id) => NextAcquire(s, id)
    case AcquireFail(id) => NextAcquireFail(s, id)
    case MapReturn(id) => NextMapReturn(cfg, s, id)
    case Finish(id) => NextFinish(cfg, s, id)
    case Release(id) => s.(workers := s.workers - {id})
    case Join => s.(disp := Returned)
  }

  // A run: its states and the labels between them, from the initial state.
  ghost predicate IsPath(cfg: Config, ss: seq<State>, ls: seq<Label>) {
    |ss| == |ls| + 1 &&
    forall i :: 0 <= i < |ls| ==> Enabled(cfg, ss[i], ls[i]) && ss[i + 1] == Next(cfg, ss[i], ls[i])
  }

  ghost predicate IsRun(cfg: Config, ss: seq<State>, ls: seq<Label>) {
    IsPath(cfg, ss, ls) && ss[0] == Init(cfg)
  }

  ghost predicate Complete(cfg: Config, ss: seq<State>, ls: seq<Label>) {
    IsRun(cfg, ss, ls) && ss[|ls|].disp.Returned?
  }

  // Run returns the states in plan order, or the group's first error.
  function Results(cfg: Config, s: State): Option<seq<Status>>
    requires Ids(cfg.plan) <= s.status.Keys
  {
    if s.groupErr then None
    else Some(seq(|cfg.plan|, (i: nat) requires i < |cfg.plan| =>
      assert cfg.plan[i] in cfg.plan; s.status[cfg.plan[i].id]))
  }
}
