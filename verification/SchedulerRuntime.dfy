// The shared variables of a scheduler run and the code that updates them: one method
// per critical section, with the loops of the source. Each method takes the step of
// the transition system that its label names.
module SchedulerRuntime {
  import opened Plans
  import opened Wrappers
  import opened Schedule
  import opened ScheduleInvariant
  import opened TrackStates

  class TrackRun {
    const plan: seq<Track>
    const only: seq<TrackId>
    const probe: TrackId -> Probe
    const max: int
    const mapper: (TrackId, nat) -> MapReply
    ghost const cfg: Config

    var states: map<TrackId, TrackState>
    var adj: map<TrackId, seq<TrackId>>
    var inDegree: map<TrackId, int>
    var completedCount: int
    var runningCount: int
    var dispatcher: Dispatcher
    var workers: map<TrackId, Worker>
    var files: map<TrackId, File>
    var groupErr: bool
    ghost var calls: map<TrackId, nat>
    ghost var scanned: bool
    ghost var gapSweep: bool

    constructor (plan: seq<Track>, only: seq<TrackId>, probe: TrackId -> Probe, max: int,
                 mapper: (TrackId, nat) -> MapReply, files: map<TrackId, File>, ghost cfg: Config)
      ensures this.plan == plan && this.only == only && this.probe == probe && this.max == max && this.mapper == mapper
      ensures this.files == files && this.cfg == cfg
      ensures states == map[] && adj == map[] && inDegree == map[] && completedCount == 0 && runningCount == 0
      ensures dispatcher.Scanning? && workers == map[] && !groupErr && !scanned && !gapSweep
    {
      this.plan, this.only, this.probe, this.max, this.files := plan, only, probe, max, files;
      this.mapper, this.cfg := mapper, cfg;
      states, adj, inDegree, completedCount, runningCount := map[], map[], map[], 0, 0;
      dispatcher, workers, groupErr := Scanning, map[], false;
      calls, scanned, gapSweep := map[], false, false;
    }

    ghost predicate Wired()
      reads `adj
    {
      forall id :: Edges(adj, id) == Dependents(plan, id)
    }

    // The state of the transition system that the variables stand for.
    ghost function Abs(): State
      reads this
    {
      State(StatusesOf(states), DegreesOf(states.Keys, inDegree), completedCount, runningCount,
            dispatcher, workers, files, groupErr, calls, scanned, gapSweep)
    }

    ghost predicate Valid()
      reads `states, `adj
    {
      cfg.plan == plan && DistinctIds(plan) && Wired() && states.Keys == Ids(plan)
    }

    // scheduler.go, lines 71-74: the inner loop over the dependencies of one track.
    method AddEdges(t: Track)
      modifies `adj, `inDegree
      ensures EdgesAdded(old(adj), adj, t.deps, t.id)
      ensures CountAdded(old(inDegree), inDegree, t.id, |t.deps|)
    {
      hide EdgesAdded, CountAdded, Occurrences;
      AddedNothing(adj, inDegree, t.id);
      for j := 0 to |t.deps|
        invariant EdgesAdded(old(adj), adj, t.deps[..j], t.id)
        invariant CountAdded(old(inDegree), inDegree, t.id, j)
      {
        var dep := t.deps[j];
        AddedRound(old(adj), adj, old(inDegree), inDegree, t.deps, j, t.id);
        adj := adj[dep := Edges(adj, dep) + [t.id]];
        inDegree := inDegree[t.id := Count(inDegree, t.id) + 1];
      }
      assert t.deps[..|t.deps|] == t.deps;
    }

    // scheduler.go, lines 69-75: every track Pending, the edges, and the in-degrees.
    method BuildGraph()
      requires DistinctIds(plan) && states == map[] && adj == map[] && inDegree == map[]
      modifies `states, `adj, `inDegree
      ensures states == Fresh(plan) && Wired()
      ensures forall k :: 0 <= k < |plan| ==> Count(inDegree, plan[k].id) == |plan[k].deps|
    {
      for i := 0 to |plan|
        invariant states == Fresh(plan[..i])
        invariant forall id :: Edges(adj, id) == Dependents(plan[..i], id)
        invariant CountsTo(plan, inDegree, i)
      {
        FreshRound(plan, i);
        states := states[plan[i].id := TrackState(Pending, NoError)];
        ghost var adj0, deg0 := adj, inDegree;
        AddEdges(plan[i]);
        EdgesRound(plan, adj0, adj, i);
        CountsRound(plan, deg0, inDegree, i);
      }
      assert plan[..|plan|] == plan;
    }

    // scheduler.go, lines 77-83: every id of the selector has to be in the plan.
    method CheckSelector() returns (bad: Option<TrackId>)
      requires states.Keys == Ids(plan)
      ensures bad.None? <==> SelectorKnown()
      ensures bad.Some? ==> bad.value in only && bad.value !in Ids(plan)
    {
      for i := 0 to |only|
        invariant forall k :: 0 <= k < i ==> only[k] in Ids(plan)
      {
        if only[i] !in states {
          return Some(only[i]);
        }
      }
      return None;
    }

    // scheduler.go, lines 87-108: the unselected tracks, Done or Blocked by their artifact.
    method Preset() returns (ok: bool)
      requires Valid() && cfg.only == only && only != [] && states == Fresh(plan) && completedCount == 0
      requires forall id :: id in Ids(plan) ==> (id in cfg.probe <==> probe(id).Present?)
      requires Degrees(plan, DegreesOf(Ids(plan), inDegree), StatusesOf(states)) && Terminals(StatusesOf(states)) == {}
      modifies `states, `inDegree, `completedCount
      ensures ok <==> ProbesFine()
      ensures ok ==> Valid() && states == PresetStates(cfg, |plan|) && completedCount == |Terminals(StatusesOf(states))|
      ensures ok ==> Degrees(plan, DegreesOf(Ids(plan), inDegree), StatusesOf(states))
    {
      hide Ids, DegreesOf, Terminals, Fresh, Degrees, Dependents, Edges, PresetStates, DropEdges;
      PresetStart(cfg);
      for i := 0 to |plan|
        invariant Valid() && states == PresetStates(cfg, i) && completedCount == |Terminals(StatusesOf(states))|
        invariant Degrees(plan, DegreesOf(Ids(plan), inDegree), StatusesOf(states))
        invariant forall k :: 0 <= k < i && plan[k].id !in only ==> !probe(plan[k].id).ProbeError?
      {
        PresetRound(cfg, i);
        IdAt(plan, i);
        var id := plan[i].id;
        if id !in only {
          match probe(id)
          case ProbeError => return false;
          case Present =>
            PresetCounts(plan, DegreesOf(Ids(plan), inDegree), StatusesOf(states), id, Done);
            FinishTrack(id);
            completedCount := completedCount + 1;
          case Absent =>
            PresetCounts(plan, DegreesOf(Ids(plan), inDegree), StatusesOf(states), id, Blocked);
            StatusesUpdate(states, id, TrackState(Blocked, NotInRerunSet));
            states := states[id := TrackState(Blocked, NotInRerunSet)];
            completedCount := completedCount + 1;
        }
      }
      ok := true;
    }

    ghost predicate Explains()
      reads `states
    {
      AllExplained(cfg, states)
    }

    ghost predicate Unstarted()
      reads this
    {
      cfg.plan == plan && cfg.only == only && DistinctIds(plan) && cfg.files == files &&
      (forall id :: id in Ids(plan) ==> (id in cfg.probe <==> probe(id).Present?)) &&
      states == map[] && adj == map[] && inDegree == map[] && completedCount == 0 && runningCount == 0 &&
      dispatcher.Scanning? && workers == map[] && !groupErr && !scanned && !gapSweep
    }

    ghost predicate SelectorKnown() {
      forall id :: id in only ==> id in Ids(plan)
    }

    ghost predicate ProbesFine() {
      forall k :: 0 <= k < |plan| && plan[k].id !in only ==> !probe(plan[k].id).ProbeError?
    }

    // The preset loop, if there is a selector.
    method PresetAll() returns (ok: bool)
      requires Valid() && cfg.only == only && states == Fresh(plan) && completedCount == 0
      requires forall id :: id in Ids(plan) ==> (id in cfg.probe <==> probe(id).Present?)
      requires forall k :: 0 <= k < |plan| ==> Count(inDegree, plan[k].id) == |plan[k].deps|
      modifies `states, `inDegree, `completedCount
      ensures ok <==> (only != [] ==> ProbesFine())
      ensures ok ==> Valid() && StatusesOf(states) == Init(cfg).status
      ensures ok ==> DegreesOf(states.Keys, inDegree) == Init(cfg).inDegree && completedCount == Init(cfg).completed
      ensures ok ==> Explains()
    {
      hide AllExplained, Ids, DegreesOf, Terminals, Fresh, Degrees, Dependents, Edges, PresetStates;
      FreshDegrees(plan, inDegree);
      PresetStart(cfg);
      ok := true;
      if only != [] {
        ok := Preset();
      }
      if ok {
        ExplainedPreset(cfg);
        IsInit(cfg, states, inDegree);
      }
    }

    // scheduler.go, lines 60-108: everything up to the dispatcher loop. It ends in an error exactly
    // for a selector with an unknown id, or else a failing probe of an unselected track.
    method Setup() returns (result: SetupResult)
      requires Unstarted()
      modifies `states, `adj, `inDegree, `completedCount, `calls
      ensures result.UnknownTrack? <==> !SelectorKnown()
      ensures result.UnknownTrack? ==> result.id in only && result.id !in Ids(plan)
      ensures result.ProbeFailed? <==> SelectorKnown() && only != [] && !ProbesFine()
      ensures result.Ready? ==> Valid() && Abs() == Init(cfg) && Explains()
    {
      hide AllExplained, Ids, DegreesOf, StatusesOf, Terminals, Fresh, Dependents, Edges, SelectorKnown;
      hide ProbesFine, InitStatus, Undone, Deps, DistinctIds, Selected;
      BuildGraph();
      FreshKeys(plan);
      var bad := CheckSelector();
      if bad.Some? {
        result := UnknownTrack(bad.value);
      } else {
        calls := map t | t in Ids(plan) :: 0;
        var ok := PresetAll();
        result := if ok then Ready else ProbeFailed;
      }
    }

    // One dependency less for every edge out of id.
    method ReleaseDependents(id: TrackId)
      requires Wired()
      modifies `inDegree
      ensures forall t :: Count(inDegree, t) == Count(old(inDegree), t) - multiset(Dependents(plan, id))[t]
    {
      var edges := Edges(adj, id);
      for j := 0 to |edges|
        invariant forall t :: Count(inDegree, t) == Count(old(inDegree), t) - multiset(edges[..j])[t]
      {
        inDegree := inDegree[edges[j] := Count(inDegree, edges[j]) - 1];
        assert edges[..j + 1] == edges[..j] + [edges[j]];
      }
      assert edges[..|edges|] == edges;
    }

    // The scan loop: marks the ready tracks Running and lists them.
    method CollectReady() returns (ready: seq<TrackId>)
      requires DistinctIds(plan) && states.Keys == Ids(plan)
      modifies `states
      ensures ready == ReadyList(plan, old(Abs())) && states == Started(old(states), ready)
      ensures StatusesOf(states) == SetAll(StatusesOf(old(states)), Elems(ready), Running)
      ensures InPlanOrder(plan, ready)
    {
      ReadyInOrder(plan, Abs());
      hide Ids, ReadyList, Started, StatusesOf, SetAll, Elems, Dependents, Edges, DegreesOf, InPlanOrder;
      ghost var s0, before := Abs(), states;
      ready := [];
      ScanNothing(plan, s0, before);
      for i := 0 to |plan|
        invariant states.Keys == Ids(plan) && ScannedTo(plan, s0, before, states, ready, i)
      {
        IdAt(plan, i);
        var id := plan[i].id;
        ScanRound(plan, s0, before, states, ready, i);
        ReadyMeans(s0, before, inDegree, id);
        if states[id].status == Pending && Count(inDegree, id) == 0 {
          ready := ready + [id];
          states := states[id := states[id].(status := Running)];
        }
      }
      assert plan[..|plan|] == plan;
      StartedStatuses(before, ready);
    }

    // The sweep: blocks every Pending track.
    method BlockPending()
      requires DistinctIds(plan) && states.Keys == Ids(plan)
      modifies `states, `completedCount
      ensures Swept(plan, old(states), states, With(StatusesOf(old(states)), Pending))
      ensures states.Keys == old(states).Keys && forall t :: t in states ==>
        states[t] == if old(states)[t].status == Pending then TrackState(Blocked, Unsatisfied(Deps(plan, t)))
                     else old(states)[t]
      ensures completedCount == old(completedCount) + |With(StatusesOf(old(states)), Pending)|
    {
      hide SweptTo, StatusesOf, With, DistinctIds, Swept;
      ghost var before, c0 := states, completedCount;
      SweptNothing(plan, before);
      for i := 0 to |plan|
        invariant SweptTo(plan, before, states, completedCount - c0, i)
      {
        var t := plan[i];
        assert t in plan;
        SweepRound(plan, before, states, completedCount - c0, i);
        if states[t.id].status == Pending {
          states := states[t.id := TrackState(Blocked, Unsatisfied(t.deps))];
          completedCount := completedCount + 1;
        }
      }
      SweptAll(plan, before, states, completedCount - c0);
      SweptMeans(plan, before, states);
    }

    // scheduler.go, lines 118-134: one scan of the plan.
    method Scan() returns (ready: seq<TrackId>)
      requires Valid() && dispatcher.Scanning?
      modifies `states, `runningCount, `dispatcher, `scanned
      ensures Valid() && Abs() == NextScan(cfg, old(Abs()))
      ensures states == Started(old(states), ready)
      ensures old(Explains()) ==> Explains()
    {
      hide AllExplained, Ids, ReadyList, Elems, SetAll, Started, DegreesOf, StatusesOf, Dependents, Edges;
      if completedCount == |plan| {
        dispatcher := Joining;
        StartedNone(states);
        return [];
      }
      ghost var before := states;
      ReadyPending(plan, Abs(), before);
      ready := CollectReady();
      if old(Explains()) {
        ExplainedStarted(cfg, before, ready);
      }
      runningCount := runningCount + |ready|;
      dispatcher := if ready == [] then Gap else Spawning(ready);
      scanned := true;
      assert Abs().inDegree == old(Abs()).inDegree;
    }

    // scheduler.go, lines 136-159: nothing was ready; sweep, wait or leave the loop.
    method Idle()
      requires Valid() && dispatcher.Gap?
      modifies `states, `completedCount, `dispatcher, `gapSweep
      ensures Valid() && Abs() == NextIdle(cfg, old(Abs()))
      ensures old(completedCount) < |plan| && old(runningCount) == 0 ==>
        Swept(plan, old(states), states, With(StatusesOf(old(states)), Pending))
      ensures old(Explains()) ==> Explains()
    {
      hide AllExplained, Ids, Swept, With, SetAll, DegreesOf, StatusesOf, Dependents, Edges, SomeReady;
      if completedCount < |plan| {
        if runningCount == 0 {
          gapSweep := gapSweep || SomeReady(Abs());
          SweptStatuses(plan, states);
          ghost var before := states;
          BlockPending();
          if old(Explains()) {
            ExplainedSwept(cfg, before, states);
          }
          dispatcher := Scanning;
          assert Abs().inDegree == old(Abs()).inDegree;
        } else {
          dispatcher := Parked;
        }
      } else {
        dispatcher := Joining;
      }
    }

    // scheduler.go, lines 161-163: one goroutine of the spawn loop.
    method Spawn()
      requires Valid() && dispatcher.Spawning? && dispatcher.queue != []
      modifies `workers, `dispatcher
      ensures Valid() && Abs() == NextSpawn(old(Abs()))
    {
      hide Ids, DegreesOf, StatusesOf, Dependents, Edges;
      workers := workers[dispatcher.queue[0] := Queued];
      dispatcher := if |dispatcher.queue| == 1 then Scanning else Spawning(dispatcher.queue[1..]);
    }

    // scheduler.go, line 164, the semaphore is granted, and the first mapper call begins.
    method AcquireSlot(id: TrackId)
      requires Valid() && Enabled(cfg, Abs(), Label.Acquire(id))
      modifies `workers, `calls
      ensures Valid() && Abs() == NextAcquire(old(Abs()), id)
    {
      hide Ids, DegreesOf, StatusesOf, Dependents, Edges;
      workers := workers[id := First];
      calls := calls[id := 1];
    }

    // scheduler.go, lines 164-175: the acquire returned an error.
    method AcquireFailed(id: TrackId, msg: Message)
      requires Valid() && Enabled(cfg, Abs(), Label.AcquireFail(id))
      modifies `states, `completedCount, `runningCount, `dispatcher, `workers, `groupErr
      ensures Valid() && Abs() == NextAcquireFail(old(Abs()), id)
      ensures states == AcquireFailedInto(old(states), id, msg)
      ensures old(Explains()) ==> Explains()
    {
      hide AllExplained, AcquireFailedInto, Ids, DegreesOf, StatusesOf, Dependents, Edges;
      MarkAcquireFailed(id, msg);
      runningCount := runningCount - 1;
      dispatcher := Wake(dispatcher);
      workers := workers - {id};
      groupErr := true;
    }

    method MarkAcquireFailed(id: TrackId, msg: Message)
      requires Valid() && id in states
      modifies `states, `completedCount
      ensures states.Keys == old(states).Keys && states == AcquireFailedInto(old(states), id, msg)
      ensures old(states)[id].status == Running ==> states == old(states)[id := TrackState(Failed, AcquireError(msg))]
      ensures old(states)[id].status != Running ==> states == old(states)
      ensures if StatusesOf(old(states))[id] == Running
        then StatusesOf(states) == StatusesOf(old(states))[id := Failed] && completedCount == old(completedCount) + 1
        else StatusesOf(states) == StatusesOf(old(states)) && completedCount == old(completedCount)
      ensures old(Explains()) ==> Explains()
    {
      hide AllExplained, Ids, StatusesOf, Dependents, Edges;
      StatusesUpdate(states, id, TrackState(Failed, AcquireError(msg)));
      if states[id].status == Running {
        if old(Explains()) {
          ExplainedEnd(cfg, states, id, TrackState(Failed, AcquireError(msg)));
        }
        states := states[id := TrackState(Failed, AcquireError(msg))];
        completedCount := completedCount + 1;
      }
    }

    // scheduler.go, lines 180-191: a mapper call returned; a retryable first reply calls once more.
    method MapReturned(id: TrackId, reply: MapReply)
      requires Valid() && Enabled(cfg, Abs(), Label.MapReturn(id))
      requires reply == cfg.mapper(id, if workers[id].First? then 0 else 1)
      modifies `workers, `calls, `files
      ensures Valid() && Abs() == NextMapReturn(cfg, old(Abs()), id)
    {
      hide Ids, DegreesOf, StatusesOf, Dependents, Edges;
      if reply.file.Some? {
        files := files[id := reply.file.value];
      }
      if workers[id].First? && Retries(reply) {
        workers := workers[id := Second];
        calls := calls[id := 2];
      } else {
        workers := workers[id := Report(reply.err)];
      }
    }

    // scheduler.go, lines 193-226: the worker's last critical section.
    method Finished(id: TrackId)
      requires Valid() && Enabled(cfg, Abs(), Label.Finish(id))
      modifies `states, `inDegree, `completedCount, `runningCount, `dispatcher, `workers
      ensures Valid() && Abs() == NextFinish(cfg, old(Abs()), id)
      ensures old(workers)[id].err.None? ==> states == old(states)[id := old(states)[id].(status := Done)]
      ensures old(workers)[id].err.Some? ==> FailedInto(id, old(workers)[id].err.value, old(states), states)
      ensures old(Explains()) && old(states)[id].status == Running ==> Explains()
    {
      hide AllExplained, Ids, DegreesOf, StatusesOf, Dependents, Edges, NextFinish, FailedInto;
      if workers[id].err.Some? {
        ghost var before := states;
        var msg := workers[id].err.value;
        FinishedErr(id, msg);
        if old(Explains()) && before[id].status == Running {
          ExplainedFailed(id, msg, before);
        }
      } else {
        if Explains() && states[id].status == Running {
          ExplainedEnd(cfg, states, id, TrackState(Done, NoError));
        }
        FinishedOk(id);
      }
    }

    ghost predicate FailedInto(id: TrackId, msg: Message, before: map<TrackId, TrackState>,
                               after: map<TrackId, TrackState>)
      requires id in before
    {
      Hit(plan, before[id := TrackState(Failed, MapperError(msg))], after, id,
          Cascaded(plan, StatusesOf(before)[id := Failed], id))
    }

    lemma ExplainedFailed(id: TrackId, msg: Message, before: map<TrackId, TrackState>)
      requires id in before && before[id].status == Running && cfg.plan == plan
      requires AllExplained(cfg, before) && FailedInto(id, msg, before, states)
      ensures AllExplained(cfg, states)
    {
      var mid := before[id := TrackState(Failed, MapperError(msg))];
      ExplainedEnd(cfg, before, id, TrackState(Failed, MapperError(msg)));
      CascadedPending(plan, StatusesOf(before)[id := Failed], id);
      ExplainedHit(cfg, mid, states, id, Cascaded(plan, StatusesOf(before)[id := Failed], id));
    }

    method FinishedErr(id: TrackId, msg: Message)
      requires Valid() && id in states && id in workers && workers[id] == Report(Some(msg))
      modifies `states, `completedCount, `runningCount, `dispatcher, `workers
      ensures Valid() && Abs() == NextFinish(cfg, old(Abs()), id)
      ensures FailedInto(id, msg, old(states), states)
    {
      hide Ids, DegreesOf, StatusesOf, Dependents, Edges, SetAll, Cascaded, Hit;
      FailTrack(id, msg);
      runningCount := runningCount - 1;
      completedCount := completedCount + 1;
      dispatcher := Wake(dispatcher);
      workers := workers[id := Releasing];
    }

    method FinishedOk(id: TrackId)
      requires Valid() && id in states && id in workers && workers[id] == Report(None)
      modifies `states, `inDegree, `completedCount, `runningCount, `dispatcher, `workers
      ensures Valid() && Abs() == NextFinish(cfg, old(Abs()), id)
      ensures states == old(states)[id := old(states)[id].(status := Done)]
    {
      hide Ids, DegreesOf, StatusesOf, Dependents, Edges, DropEdges;
      FinishTrack(id);
      runningCount := runningCount - 1;
      completedCount := completedCount + 1;
      dispatcher := Wake(dispatcher);
      workers := workers[id := Releasing];
    }

    // Blocks every Pending track that the failure of id reaches.
    method Cascade(id: TrackId)
      requires DistinctIds(plan) && Wired() && states.Keys == Ids(plan)
      modifies `states, `completedCount
      ensures Hit(plan, old(states), states, id, Cascaded(plan, old(StatusesOf(states)), id))
      ensures completedCount == old(completedCount) + |Cascaded(plan, old(StatusesOf(states)), id)|
      decreases With(StatusesOf(states), Pending), 1
    {
      ghost var before, hit: set<TrackId> := states, {};
      ReachedNothing(plan, before, id);
      var edges := Edges(adj, id);
      for j := 0 to |edges|
        invariant Reached(plan, before, states, id, hit)
        invariant completedCount == old(completedCount) + |hit|
        invariant CaughtUpTo(before, hit, edges, j)
      {
        ghost var hit0 := hit;
        hit := BlockDependent(id, edges[j], before, hit);
        CaughtMore(before, hit0, hit, edges, j);
      }
      CascadeDone(plan, before, states, id, hit);
    }

    // The body of the cascade's loop.
    method BlockDependent(id: TrackId, d: TrackId, ghost before: map<TrackId, TrackState>, ghost hit: set<TrackId>)
      returns (ghost hit': set<TrackId>)
      requires DistinctIds(plan) && Wired() && states.Keys == Ids(plan)
      requires Reached(plan, before, states, id, hit) && d in Dependents(plan, id)
      modifies `states, `completedCount
      ensures Reached(plan, before, states, id, hit') && hit <= hit' && Caught(before, hit', d)
      ensures completedCount == old(completedCount) - |hit| + |hit'|
      decreases With(StatusesOf(before), Pending), 0
    {
      hide Cascaded, SetAll;
      DependentsAre(plan, id, d);
      hit' := hit;
      if states[d].status == Pending {
        ghost var hit1 := CascadeRound(plan, StatusesOf(before), id, hit, d);
        BlockedOne(plan, before, states, id, hit, d);
        states := states[d := TrackState(Blocked, DependencyFailed(id))];
        completedCount := completedCount + 1;
        Cascade(d);
        HitRound(plan, before, old(states), states, id, hit, d, hit1);
        hit' := hit + {d} + hit1;
      }
    }

    method FailTrack(id: TrackId, msg: Message)
      requires Valid() && id in states
      modifies `states, `completedCount
      ensures Valid()
      ensures StatusesOf(states) == SetAll(StatusesOf(old(states))[id := Failed],
        Cascaded(plan, StatusesOf(old(states))[id := Failed], id), Blocked)
      ensures completedCount == old(completedCount) + |Cascaded(plan, StatusesOf(old(states))[id := Failed], id)|
      ensures Hit(plan, old(states)[id := TrackState(Failed, MapperError(msg))], states, id,
        Cascaded(plan, StatusesOf(old(states))[id := Failed], id))
    {
      hide Ids, Cascaded, With, Dependents, Edges, SetAll, StatusesOf;
      StatusesUpdate(states, id, TrackState(Failed, MapperError(msg)));
      states := states[id := TrackState(Failed, MapperError(msg))];
      ghost var before := states;
      Cascade(id);
      HitStatuses(plan, before, states, id, Cascaded(plan, StatusesOf(before), id));
    }

    method FinishTrack(id: TrackId)
      requires Valid() && id in states
      modifies `states, `inDegree
      ensures Valid()
      ensures StatusesOf(states) == StatusesOf(old(states))[id := Done]
      ensures DegreesOf(states.Keys, inDegree) == DropEdges(plan, DegreesOf(old(states.Keys), old(inDegree)), id)
      ensures states == old(states)[id := old(states)[id].(status := Done)]
    {
      hide Ids, Dependents, Edges, Deps, DegreesOf, StatusesOf, DistinctIds, DropEdges;
      StatusesUpdate(states, id, states[id].(status := Done));
      states := states[id := states[id].(status := Done)];
      ghost var before := inDegree;
      ReleaseDependents(id);
      EdgesDropped(plan, states.Keys, before, inDegree, id);
    }

    // The deferred release of the semaphore.
    method Released(id: TrackId)
      requires Valid() && Enabled(cfg, Abs(), Label.Release(id))
      modifies `workers
      ensures Valid() && Abs() == Next(cfg, old(Abs()), Label.Release(id))
    {
      hide Ids, DegreesOf, StatusesOf, Dependents, Edges;
      workers := workers - {id};
    }

    // scheduler.go, lines 231-240: g.Wait has returned; the result in plan order.
    method Collect() returns (result: Option<seq<TrackState>>)
      requires Valid() && Enabled(cfg, Abs(), Label.Join)
      modifies `dispatcher
      ensures Valid() && Abs() == Next(cfg, old(Abs()), Label.Join)
      ensures result.None? <==> groupErr
      ensures result.Some? ==> |result.value| == |plan|
      ensures result.Some? ==> forall i :: 0 <= i < |plan| ==>
        plan[i].id in states && result.value[i] == states[plan[i].id]
    {
      hide Ids, DegreesOf, StatusesOf, Dependents, Edges;
      if groupErr {
        dispatcher := Returned;
        return None;
      }
      var out: seq<TrackState> := [];
      for i := 0 to |plan|
        invariant |out| == i
        invariant forall k :: 0 <= k < i ==> plan[k].id in states && out[k] == states[plan[k].id]
      {
        IdAt(plan, i);
        out := out + [states[plan[i].id]];
      }
      dispatcher := Returned;
      result := Some(out);
    }
  }
}
