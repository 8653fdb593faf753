// What the scheduler's shared variables hold, and what the loops over them do, by value.
module TrackStates {
  import opened Plans
  import Wrappers
  import opened Schedule
  import opened ScheduleInvariant

  datatype Reason =
    | NoError
    | NotInRerunSet
    | Unsatisfied(deps: seq<TrackId>)
    | DependencyFailed(id: TrackId)
    | MapperError(msg: Wrappers.Message)
    | AcquireError(msg: Wrappers.Message)

  datatype TrackState = TrackState(status: Status, error: Reason)

  datatype Probe = Present | Absent | ProbeError

  datatype SetupResult = Ready | UnknownTrack(id: TrackId) | ProbeFailed

  function StatusesOf(states: map<TrackId, TrackState>): (sts: Statuses)
    ensures sts.Keys == states.Keys
  {
    map t | t in states :: states[t].status
  }

  // Go's zero values for missing map keys.
  function Count(inDegree: map<TrackId, int>, id: TrackId): int {
    if id in inDegree then inDegree[id] else 0
  }

  function DegreesOf(ids: set<TrackId>, inDegree: map<TrackId, int>): map<TrackId, int> {
    map t | t in ids :: Count(inDegree, t)
  }

  function Edges(adj: map<TrackId, seq<TrackId>>, id: TrackId): seq<TrackId> {
    if id in adj then adj[id] else []
  }

  // t, once for each time deps lists id.
  function Occurrences(deps: seq<TrackId>, id: TrackId, t: TrackId): seq<TrackId> {
    if deps == [] then []
    else Occurrences(deps[..|deps| - 1], id, t) + (if deps[|deps| - 1] == id then [t] else [])
  }

  // The tracks that depend on id, in plan order and with multiplicity.
  function Dependents(plan: seq<Track>, id: TrackId): seq<TrackId> {
    if plan == [] then []
    else Dependents(plan[..|plan| - 1], id) +
         Occurrences(plan[|plan| - 1].deps, id, plan[|plan| - 1].id)
  }

  lemma {:induction false} OccurrencesCount(deps: seq<TrackId>, id: TrackId, t: TrackId)
    ensures multiset(Occurrences(deps, id, t)) == multiset{}[t := multiset(deps)[id]]
  {
    if deps != [] {
      OccurrencesCount(deps[..|deps| - 1], id, t);
      assert deps == deps[..|deps| - 1] + [deps[|deps| - 1]];
    }
  }

  lemma {:induction false} DependentsCount(plan: seq<Track>, id: TrackId, t: TrackId)
    requires DistinctIds(plan)
    ensures multiset(Dependents(plan, id))[t] == multiset(Deps(plan, t))[id]
  {
    if plan != [] {
      var init, last := plan[..|plan| - 1], plan[|plan| - 1];
      LastTrack(plan);
      hide DistinctIds, Ids, Deps, Occurrences;
      DependentsCount(init, id, t);
      OccurrencesCount(last.deps, id, last.id);
      if t == last.id {
        DepsAt(plan, |plan| - 1);
        DepsUnknown(init, t);
      } else {
        DepsSnoc(init, last, t);
      }
    }
  }

  lemma {:induction false} DepsSnoc(plan: seq<Track>, last: Track, t: TrackId)
    requires t != last.id
    ensures Deps(plan + [last], t) == Deps(plan, t)
  {
    if plan != [] {
      DepsSnoc(plan[1..], last, t);
      assert (plan + [last])[1..] == plan[1..] + [last];
    }
  }

  // Who is in the edge list of id.
  lemma DependentsAre(plan: seq<Track>, id: TrackId, t: TrackId)
    requires DistinctIds(plan)
    ensures t in Dependents(plan, id) <==> id in Deps(plan, t)
    ensures t in Dependents(plan, id) ==> t in Ids(plan)
  {
    DependentsCount(plan, id, t);
    if t !in Ids(plan) {
      DepsUnknown(plan, t);
    }
    assert t in multiset(Dependents(plan, id)) <==> t in Dependents(plan, id);
    assert id in multiset(Deps(plan, t)) <==> id in Deps(plan, t);
  }

  ghost predicate Catches(plan: seq<Track>, sts: Statuses, from: TrackId, hit: set<TrackId>) {
    forall t, u :: u in sts && sts[u] == Pending && t in Deps(plan, u) && t in hit + {from} ==> u in hit
  }

  // A set of Pending tracks that catches every Pending dependent of `from` and of its
  // own members catches everything the failure of `from` reaches.
  lemma CatchesCascade(plan: seq<Track>, sts: Statuses, from: TrackId, hit: set<TrackId>)
    requires Catches(plan, sts, from, hit)
    ensures Cascaded(plan, sts, from) <= hit
  {
    forall u | u in Cascaded(plan, sts, from) ensures u in hit {
      var p :| PendingPath(plan, sts, p) && p[0] == from && p[|p| - 1] == u;
      CatchesPath(plan, sts, from, hit, p, |p| - 1);
    }
  }

  lemma {:induction false} CatchesPath(plan: seq<Track>, sts: Statuses, from: TrackId, hit: set<TrackId>,
                                       p: seq<TrackId>, i: nat)
    requires Catches(plan, sts, from, hit)
    requires PendingPath(plan, sts, p) && p[0] == from && 1 <= i < |p|
    ensures p[i] in hit
  {
    if i > 1 {
      CatchesPath(plan, sts, from, hit, p, i - 1);
    }
    var t, u := p[i - 1], p[i];
    assert t in hit + {from} && t in Deps(plan, u) && u in sts && sts[u] == Pending;
  }

  // What a nested cascade from the dependent d reaches, the outer one reaches too.
  lemma NestedCascade(plan: seq<Track>, sts: Statuses, sts1: Statuses, from: TrackId, d: TrackId)
    requires d in sts && sts[d] == Pending && from in Deps(plan, d)
    requires forall t :: t in sts1 && sts1[t] == Pending ==> t in sts && sts[t] == Pending
    ensures {d} + Cascaded(plan, sts1, d) <= Cascaded(plan, sts, from)
  {
    assert PendingPath(plan, sts, [from, d]);
    forall u | u in Cascaded(plan, sts1, d) ensures u in Cascaded(plan, sts, from) {
      var p :| PendingPath(plan, sts1, p) && p[0] == d && p[|p| - 1] == u;
      assert PendingPath(plan, sts, [from] + p) by {
        forall i | 1 <= i < |p| + 1
          ensures ([from] + p)[i] in sts && sts[([from] + p)[i]] == Pending &&
            ([from] + p)[i - 1] in Deps(plan, ([from] + p)[i])
        {
          if i > 1 {
            assert p[i - 1] in sts1 && sts1[p[i - 1]] == Pending && p[i - 2] in Deps(plan, p[i - 1]);
          }
        }
      }
    }
  }

  // hit is closed: whatever Pending track depends on a member is a member.
  ghost predicate Swallows(plan: seq<Track>, sts: Statuses, hit: set<TrackId>) {
    forall t, u :: u in sts && sts[u] == Pending && t in Deps(plan, u) && t in hit ==> u in hit
  }

  ghost predicate BlockedFor(plan: seq<Track>, after: map<TrackId, TrackState>, from: TrackId, hit: set<TrackId>,
                             t: TrackId)
  {
    t in after && after[t].status == Blocked && after[t].error.DependencyFailed? &&
    after[t].error.id in Deps(plan, t) && after[t].error.id in hit + {from}
  }

  // The tracks in hit are blocked, each with an error that names a dependency which is
  // `from` itself or was blocked too; the other tracks are as before.
  ghost predicate Hit(plan: seq<Track>, before: map<TrackId, TrackState>, after: map<TrackId, TrackState>,
                      from: TrackId, hit: set<TrackId>)
  {
    after.Keys == before.Keys && hit <= before.Keys &&
    (forall t :: t in before && t !in hit ==> after[t] == before[t]) &&
    (forall t :: t in hit ==> BlockedFor(plan, after, from, hit, t))
  }

  ghost predicate Reached(plan: seq<Track>, before: map<TrackId, TrackState>, after: map<TrackId, TrackState>,
                          from: TrackId, hit: set<TrackId>)
  {
    Hit(plan, before, after, from, hit) && hit <= Cascaded(plan, StatusesOf(before), from) &&
    Swallows(plan, StatusesOf(before), hit)
  }

  predicate Caught(before: map<TrackId, TrackState>, hit: set<TrackId>, d: TrackId) {
    d in before && before[d].status == Pending ==> d in hit
  }

  ghost predicate CaughtUpTo(before: map<TrackId, TrackState>, hit: set<TrackId>, edges: seq<TrackId>, n: nat) {
    n <= |edges| && forall k :: 0 <= k < n ==> Caught(before, hit, edges[k])
  }

  lemma CaughtMore(before: map<TrackId, TrackState>, hit: set<TrackId>, hit': set<TrackId>, edges: seq<TrackId>, n: nat)
    requires CaughtUpTo(before, hit, edges, n) && hit <= hit' && n < |edges| && Caught(before, hit', edges[n])
    ensures CaughtUpTo(before, hit', edges, n + 1)
  {
  }

  lemma HitStatuses(plan: seq<Track>, before: map<TrackId, TrackState>, after: map<TrackId, TrackState>,
                    from: TrackId, hit: set<TrackId>)
    requires Hit(plan, before, after, from, hit)
    ensures StatusesOf(after) == SetAll(StatusesOf(before), hit, Blocked)
  {
  }

  lemma HitRound(plan: seq<Track>, before: map<TrackId, TrackState>, mid: map<TrackId, TrackState>,
                 after: map<TrackId, TrackState>, from: TrackId, hit: set<TrackId>, d: TrackId, hit1: set<TrackId>)
    requires Hit(plan, before, mid, from, hit) && d in mid && from in Deps(plan, d)
    requires Hit(plan, mid[d := TrackState(Blocked, DependencyFailed(from))], after, d, hit1)
    requires hit1 !! hit + {d} && d !in hit
    ensures Hit(plan, before, after, from, hit + {d} + hit1)
  {
  }

  // One round of the cascade loop: d is blocked, and then what its failure reaches.
  lemma CascadeRound(plan: seq<Track>, sts: Statuses, from: TrackId, hit: set<TrackId>, d: TrackId)
    returns (hit1: set<TrackId>)
    requires hit <= Cascaded(plan, sts, from) && Swallows(plan, sts, hit)
    requires d in sts && sts[d] == Pending && d !in hit && from in Deps(plan, d)
    ensures hit1 == Cascaded(plan, SetAll(sts, hit + {d}, Blocked), d)
    ensures hit + {d} + hit1 <= Cascaded(plan, sts, from) && Swallows(plan, sts, hit + {d} + hit1)
    ensures hit1 !! hit + {d}
    ensures SetAll(SetAll(sts, hit + {d}, Blocked), hit1, Blocked) == SetAll(sts, hit + {d} + hit1, Blocked)
  {
    var sts1 := SetAll(sts, hit + {d}, Blocked);
    hit1 := Cascaded(plan, sts1, d);
    CascadedPending(plan, sts1, d);
    NestedCascade(plan, sts, sts1, from, d);
    var all := hit + {d} + hit1;
    forall t, u | u in sts && sts[u] == Pending && t in Deps(plan, u) && t in all ensures u in all {
      if u !in hit + {d} {
        assert sts1[u] == Pending;
        assert t in {d} + hit1;
        CascadedClosed(plan, sts1, d, t, u);
      }
    }
  }

  // The error fits the status of t; a blocked track names a dependency that really
  // failed or was blocked.
  ghost predicate Explained(cfg: Config, states: map<TrackId, TrackState>, t: TrackId)
    requires t in states
  {
    match states[t].status
    case Failed => states[t].error.AcquireError? || states[t].error.MapperError?
    case Blocked =>
      (match states[t].error
       case NotInRerunSet => !Selected(cfg, t)
       case Unsatisfied(deps) => deps == Deps(cfg.plan, t)
       case DependencyFailed(d) => d in Deps(cfg.plan, t) && d in states && states[d].status in {Failed, Blocked}
       case _ => false)
    case _ => states[t].error == NoError
  }

  ghost predicate AllExplained(cfg: Config, states: map<TrackId, TrackState>) {
    forall t :: t in states ==> Explained(cfg, states, t)
  }

  lemma ExplainedStarted(cfg: Config, before: map<TrackId, TrackState>, ready: seq<TrackId>)
    requires AllExplained(cfg, before)
    requires forall t :: t in ready ==> t in before && before[t].status == Pending
    ensures AllExplained(cfg, Started(before, ready))
  {
    var after := Started(before, ready);
    forall t | t in after ensures Explained(cfg, after, t) {
      assert Explained(cfg, before, t);
    }
  }

  lemma ExplainedSwept(cfg: Config, before: map<TrackId, TrackState>, after: map<TrackId, TrackState>)
    requires AllExplained(cfg, before) && Swept(cfg.plan, before, after, With(StatusesOf(before), Pending))
    ensures AllExplained(cfg, after)
  {
    forall t | t in after ensures Explained(cfg, after, t) {
      assert Explained(cfg, before, t);
    }
  }

  // A Running track ends as Done or Failed.
  lemma ExplainedEnd(cfg: Config, before: map<TrackId, TrackState>, id: TrackId, st: TrackState)
    requires AllExplained(cfg, before) && id in before && before[id].status == Running
    requires st == TrackState(Done, NoError) ||
      (st.status == Failed && (st.error.AcquireError? || st.error.MapperError?))
    ensures AllExplained(cfg, before[id := st])
    ensures before[id].error == NoError
  {
    var after := before[id := st];
    assert Explained(cfg, before, id);
    forall t | t in after ensures Explained(cfg, after, t) {
      assert Explained(cfg, before, t);
    }
  }

  lemma ExplainedHit(cfg: Config, before: map<TrackId, TrackState>, after: map<TrackId, TrackState>,
                     from: TrackId, hit: set<TrackId>)
    requires AllExplained(cfg, before) && Hit(cfg.plan, before, after, from, hit)
    requires from in before && before[from].status == Failed
    requires forall t :: t in hit ==> before[t].status == Pending
    ensures AllExplained(cfg, after)
  {
    forall t | t in after ensures Explained(cfg, after, t) {
      assert Explained(cfg, before, t);
      if t in hit {
        assert BlockedFor(cfg.plan, after, from, hit, t);
      }
    }
  }

  lemma ExplainedPreset(cfg: Config)
    ensures AllExplained(cfg, PresetStates(cfg, |cfg.plan|))
  {
    var states := PresetStates(cfg, |cfg.plan|);
    forall t | t in states ensures Explained(cfg, states, t) {
      assert states[t] == TrackState(Pending, NoError) || (states[t] == PresetState(cfg, t) && !Selected(cfg, t));
    }
  }

  lemma EdgesDropped(plan: seq<Track>, ids: set<TrackId>, before: map<TrackId, int>, after: map<TrackId, int>,
                     id: TrackId)
    requires DistinctIds(plan)
    requires forall t :: Count(after, t) == Count(before, t) - multiset(Dependents(plan, id))[t]
    ensures DegreesOf(ids, after) == DropEdges(plan, DegreesOf(ids, before), id)
  {
    hide Dependents, Deps, DistinctIds, Count;
    forall t | t in ids ensures multiset(Dependents(plan, id))[t] == multiset(Deps(plan, t))[id] {
      DependentsCount(plan, id, t);
    }
  }

  ghost predicate EdgesAdded(before: map<TrackId, seq<TrackId>>, after: map<TrackId, seq<TrackId>>,
                             deps: seq<TrackId>, t: TrackId)
  {
    forall id :: Edges(after, id) == Edges(before, id) + Occurrences(deps, id, t)
  }

  ghost predicate CountAdded(before: map<TrackId, int>, after: map<TrackId, int>, t: TrackId, n: int) {
    forall u :: Count(after, u) == Count(before, u) + if u == t then n else 0
  }

  lemma AddedNothing(adj: map<TrackId, seq<TrackId>>, inDegree: map<TrackId, int>, t: TrackId)
    ensures EdgesAdded(adj, adj, [], t) && CountAdded(inDegree, inDegree, t, 0)
  {
  }

  lemma OccurrencesSnoc(deps: seq<TrackId>, j: nat, id: TrackId, t: TrackId)
    requires j < |deps|
    ensures Occurrences(deps[..j + 1], id, t) == Occurrences(deps[..j], id, t) + if deps[j] == id then [t] else []
  {
    assert deps[..j + 1][..j] == deps[..j];
  }

  lemma EdgeAdded(adj0: map<TrackId, seq<TrackId>>, adj: map<TrackId, seq<TrackId>>, deps: seq<TrackId>, j: nat,
                  t: TrackId)
    requires j < |deps| && EdgesAdded(adj0, adj, deps[..j], t)
    ensures EdgesAdded(adj0, adj[deps[j] := Edges(adj, deps[j]) + [t]], deps[..j + 1], t)
  {
    hide Occurrences;
    var after := adj[deps[j] := Edges(adj, deps[j]) + [t]];
    forall id ensures Edges(after, id) == Edges(adj0, id) + Occurrences(deps[..j + 1], id, t) {
      OccurrencesSnoc(deps, j, id, t);
      Assoc(Edges(adj0, id), Occurrences(deps[..j], id, t), if deps[j] == id then [t] else []);
    }
  }

  lemma Assoc(a: seq<TrackId>, b: seq<TrackId>, c: seq<TrackId>)
    ensures a + (b + c) == a + b + c
    ensures c == [] ==> a + b + c == a + b
  {
  }

  lemma AddedRound(adj0: map<TrackId, seq<TrackId>>, adj: map<TrackId, seq<TrackId>>,
                   deg0: map<TrackId, int>, deg: map<TrackId, int>, deps: seq<TrackId>, j: nat, t: TrackId)
    requires j < |deps| && EdgesAdded(adj0, adj, deps[..j], t) && CountAdded(deg0, deg, t, j)
    ensures EdgesAdded(adj0, adj[deps[j] := Edges(adj, deps[j]) + [t]], deps[..j + 1], t)
    ensures CountAdded(deg0, deg[t := Count(deg, t) + 1], t, j + 1)
  {
    hide Occurrences, EdgesAdded, Edges;
    EdgeAdded(adj0, adj, deps, j, t);
  }

  function Fresh(plan: seq<Track>): map<TrackId, TrackState> {
    map t | t in Ids(plan) :: TrackState(Pending, NoError)
  }

  lemma FreshRound(plan: seq<Track>, i: nat)
    requires DistinctIds(plan) && i < |plan|
    ensures Fresh(plan[..i + 1]) == Fresh(plan[..i])[plan[i].id := TrackState(Pending, NoError)]
  {
    IdsPrefix(plan, i);
  }

  lemma EdgesRound(plan: seq<Track>, adj0: map<TrackId, seq<TrackId>>, adj: map<TrackId, seq<TrackId>>, i: nat)
    requires i < |plan| && forall id :: Edges(adj0, id) == Dependents(plan[..i], id)
    requires EdgesAdded(adj0, adj, plan[i].deps, plan[i].id)
    ensures forall id :: Edges(adj, id) == Dependents(plan[..i + 1], id)
  {
    assert plan[..i + 1][..i] == plan[..i];
  }

  ghost predicate CountsTo(plan: seq<Track>, inDegree: map<TrackId, int>, i: nat) {
    i <= |plan| &&
    (forall k :: 0 <= k < i ==> Count(inDegree, plan[k].id) == |plan[k].deps|) &&
    (forall k :: i <= k < |plan| ==> Count(inDegree, plan[k].id) == 0)
  }

  lemma CountsRound(plan: seq<Track>, before: map<TrackId, int>, after: map<TrackId, int>, i: nat)
    requires DistinctIds(plan) && i < |plan| && CountsTo(plan, before, i)
    requires CountAdded(before, after, plan[i].id, |plan[i].deps|)
    ensures CountsTo(plan, after, i + 1)
  {
  }

  // --- the rerun subset ---

  function PresetState(cfg: Config, id: TrackId): TrackState {
    if id in cfg.probe then TrackState(Done, NoError) else TrackState(Blocked, NotInRerunSet)
  }

  // The states after the first n tracks of the preset loop.
  function PresetStates(cfg: Config, n: nat): (states: map<TrackId, TrackState>)
    requires n <= |cfg.plan|
    ensures states.Keys == Ids(cfg.plan)
  {
    map t | t in Ids(cfg.plan) ::
      if t in Ids(cfg.plan[..n]) && !Selected(cfg, t) then PresetState(cfg, t) else TrackState(Pending, NoError)
  }

  lemma PresetRound(cfg: Config, n: nat)
    requires DistinctIds(cfg.plan) && n < |cfg.plan|
    ensures var id := cfg.plan[n].id;
      id in Ids(cfg.plan) && PresetStates(cfg, n)[id] == TrackState(Pending, NoError) &&
      PresetStates(cfg, n + 1) ==
        if Selected(cfg, id) then PresetStates(cfg, n) else PresetStates(cfg, n)[id := PresetState(cfg, id)]
  {
    IdAt(cfg.plan, n);
    IdsPrefix(cfg.plan, n);
  }

  lemma FreshKeys(plan: seq<Track>)
    ensures Fresh(plan).Keys == Ids(plan)
  {
  }

  lemma IsInit(cfg: Config, states: map<TrackId, TrackState>, inDegree: map<TrackId, int>)
    requires states == PresetStates(cfg, |cfg.plan|)
    requires Degrees(cfg.plan, DegreesOf(Ids(cfg.plan), inDegree), StatusesOf(states))
    ensures StatusesOf(states) == Init(cfg).status && DegreesOf(states.Keys, inDegree) == Init(cfg).inDegree
    ensures |Terminals(StatusesOf(states))| == Init(cfg).completed
  {
    PresetEnd(cfg);
  }

  lemma PresetCounts(plan: seq<Track>, inDegree: map<TrackId, int>, sts: Statuses, id: TrackId, st: Status)
    requires Degrees(plan, inDegree, sts) && id in sts && sts[id] == Pending && Terminal(st)
    ensures |Terminals(sts[id := st])| == |Terminals(sts)| + 1
    ensures st == Done ==> Degrees(plan, DropEdges(plan, inDegree, id), sts[id := st])
    ensures st == Blocked ==> Degrees(plan, inDegree, sts[id := st])
  {
    assert Terminals(sts[id := st]) == Terminals(sts) + {id};
    if st == Done {
      DegreesDrop(plan, inDegree, sts, id);
    } else if st == Blocked {
      DegreesSame(plan, inDegree, sts, sts[id := st]);
    }
  }

  lemma PresetStart(cfg: Config)
    ensures PresetStates(cfg, 0) == Fresh(cfg.plan)
    ensures cfg.only == [] ==> PresetStates(cfg, |cfg.plan|) == Fresh(cfg.plan)
  {
    assert Ids(cfg.plan[..0]) == {};
  }

  lemma PresetEnd(cfg: Config)
    ensures StatusesOf(PresetStates(cfg, |cfg.plan|)) == Init(cfg).status
  {
    assert cfg.plan[..|cfg.plan|] == cfg.plan;
  }

  lemma {:induction false} UndoneAll(deps: seq<TrackId>, sts: Statuses)
    requires forall t :: t in sts ==> sts[t] == Pending
    ensures Undone(deps, sts) == |deps|
  {
    if deps != [] {
      UndoneAll(deps[1..], sts);
    }
  }

  lemma FreshDegrees(plan: seq<Track>, inDegree: map<TrackId, int>)
    requires DistinctIds(plan)
    requires forall k :: 0 <= k < |plan| ==> Count(inDegree, plan[k].id) == |plan[k].deps|
    ensures Degrees(plan, DegreesOf(Ids(plan), inDegree), StatusesOf(Fresh(plan)))
    ensures Terminals(StatusesOf(Fresh(plan))) == {}
  {
    forall t | t in Ids(plan) ensures Count(inDegree, t) == Undone(Deps(plan, t), StatusesOf(Fresh(plan))) {
      var u :| u in plan && u.id == t;
      var k :| 0 <= k < |plan| && plan[k] == u;
      DepsAt(plan, k);
      UndoneAll(Deps(plan, t), StatusesOf(Fresh(plan)));
    }
  }

  lemma StatusesUpdate(states: map<TrackId, TrackState>, id: TrackId, st: TrackState)
    requires id in states
    ensures StatusesOf(states[id := st]) == StatusesOf(states)[id := st.status]
    ensures states[id := st].Keys == states.Keys
    ensures StatusesOf(states)[id] == states[id].status
  {
  }

  lemma StartedNone(before: map<TrackId, TrackState>)
    ensures Started(before, []) == before
  {
  }

  lemma SweptStatuses(plan: seq<Track>, before: map<TrackId, TrackState>)
    ensures forall after :: Swept(plan, before, after, With(StatusesOf(before), Pending)) ==>
      StatusesOf(after) == SetAll(StatusesOf(before), With(StatusesOf(before), Pending), Blocked)
  {
    forall after | Swept(plan, before, after, With(StatusesOf(before), Pending))
      ensures StatusesOf(after) == SetAll(StatusesOf(before), With(StatusesOf(before), Pending), Blocked)
    {
    }
  }

  lemma StartedStatuses(before: map<TrackId, TrackState>, ready: seq<TrackId>)
    ensures StatusesOf(Started(before, ready)) == SetAll(StatusesOf(before), Elems(ready), Running)
  {
  }

  lemma BlockedOne(plan: seq<Track>, before: map<TrackId, TrackState>, mid: map<TrackId, TrackState>,
                   from: TrackId, hit: set<TrackId>, d: TrackId)
    requires Hit(plan, before, mid, from, hit) && d in mid && mid[d].status == Pending
    ensures StatusesOf(mid[d := TrackState(Blocked, DependencyFailed(from))]) ==
      SetAll(StatusesOf(before), hit + {d}, Blocked)
    ensures With(StatusesOf(mid[d := TrackState(Blocked, DependencyFailed(from))]), Pending) <
      With(StatusesOf(before), Pending)
  {
    var sts, sts1 := StatusesOf(before), StatusesOf(mid[d := TrackState(Blocked, DependencyFailed(from))]);
    assert d in With(sts, Pending) && d !in With(sts1, Pending);
  }

  lemma ReachedNothing(plan: seq<Track>, before: map<TrackId, TrackState>, from: TrackId)
    ensures Reached(plan, before, before, from, {})
  {
  }

  lemma CascadeDone(plan: seq<Track>, before: map<TrackId, TrackState>, after: map<TrackId, TrackState>,
                    from: TrackId, hit: set<TrackId>)
    requires DistinctIds(plan) && Reached(plan, before, after, from, hit)
    requires CaughtUpTo(before, hit, Dependents(plan, from), |Dependents(plan, from)|)
    ensures hit == Cascaded(plan, StatusesOf(before), from)
  {
    var sts := StatusesOf(before);
    forall t, u | u in sts && sts[u] == Pending && t in Deps(plan, u) && t in hit + {from} ensures u in hit {
      if t == from {
        DependentsAre(plan, from, u);
        var k :| 0 <= k < |Dependents(plan, from)| && Dependents(plan, from)[k] == u;
        assert Caught(before, hit, u);
      }
    }
    CatchesCascade(plan, sts, from, hit);
  }

  function AcquireFailedInto(before: map<TrackId, TrackState>, id: TrackId,
                             msg: Wrappers.Message): map<TrackId, TrackState>
  {
    if id in before && before[id].status == Running then before[id := TrackState(Failed, AcquireError(msg))]
    else before
  }

  // The tracks in ready are marked Running; nothing else changes.
  function Started(before: map<TrackId, TrackState>, ready: seq<TrackId>): (after: map<TrackId, TrackState>)
    ensures after.Keys == before.Keys
  {
    map t | t in before :: if t in ready then before[t].(status := Running) else before[t]
  }

  ghost predicate Swept(plan: seq<Track>, before: map<TrackId, TrackState>, after: map<TrackId, TrackState>,
                        hit: set<TrackId>)
  {
    after.Keys == before.Keys &&
    forall t :: t in before ==>
      after[t] == if t in hit then TrackState(Blocked, Unsatisfied(Deps(plan, t))) else before[t]
  }

  lemma IdsPrefix(plan: seq<Track>, i: nat)
    requires DistinctIds(plan) && i < |plan|
    ensures Ids(plan[..i + 1]) == Ids(plan[..i]) + {plan[i].id}
    ensures plan[i].id !in Ids(plan[..i])
  {
    assert plan[..i + 1] == plan[..i] + [plan[i]];
    forall u | u in plan[..i] ensures u.id != plan[i].id {
      var k :| 0 <= k < i && plan[..i][k] == u;
      assert plan[k].id != plan[i].id;
    }
  }

  ghost predicate ScannedTo(plan: seq<Track>, s0: State, before: map<TrackId, TrackState>,
                            now: map<TrackId, TrackState>, ready: seq<TrackId>, n: nat)
  {
    n <= |plan| && ready == ReadyList(plan[..n], s0) && now == Started(before, ready)
  }

  lemma ScanNothing(plan: seq<Track>, s0: State, before: map<TrackId, TrackState>)
    ensures ScannedTo(plan, s0, before, before, [], 0)
  {
    StartedNone(before);
  }

  lemma ReadyMeans(s: State, states: map<TrackId, TrackState>, inDegree: map<TrackId, int>, id: TrackId)
    requires s.status == StatusesOf(states) && s.inDegree == DegreesOf(states.Keys, inDegree) && id in states
    ensures IsReady(s, id) <==> states[id].status == Pending && Count(inDegree, id) == 0
  {
  }

  lemma ReadyPending(plan: seq<Track>, s: State, states: map<TrackId, TrackState>)
    requires DistinctIds(plan) && s.status == StatusesOf(states)
    ensures forall t :: t in ReadyList(plan, s) ==> t in states && states[t].status == Pending
  {
    ReadyListFits(plan, s);
  }

  lemma ReadyListGrows(plan: seq<Track>, s0: State, n: nat)
    requires DistinctIds(plan) && n < |plan|
    ensures ReadyList(plan[..n + 1], s0) ==
      ReadyList(plan[..n], s0) + if IsReady(s0, plan[n].id) then [plan[n].id] else []
    ensures plan[n].id !in ReadyList(plan[..n], s0)
  {
    assert DistinctIds(plan[..n]);
    ReadyListFits(plan[..n], s0);
    IdsPrefix(plan, n);
    assert plan[..n + 1][..n] == plan[..n];
  }

  lemma ScanRound(plan: seq<Track>, s0: State, before: map<TrackId, TrackState>,
                  now: map<TrackId, TrackState>, ready: seq<TrackId>, n: nat)
    requires DistinctIds(plan) && n < |plan| && ScannedTo(plan, s0, before, now, ready, n)
    requires plan[n].id in before
    ensures now[plan[n].id] == before[plan[n].id]
    ensures if IsReady(s0, plan[n].id)
      then ScannedTo(plan, s0, before, now[plan[n].id := before[plan[n].id].(status := Running)], ready + [plan[n].id],
        n + 1)
      else ScannedTo(plan, s0, before, now, ready, n + 1)
  {
    ReadyListGrows(plan, s0, n);
  }

  function SweptSet(plan: seq<Track>, before: map<TrackId, TrackState>, n: nat): set<TrackId> {
    set t | t in With(StatusesOf(before), Pending) && n <= |plan| && t in Ids(plan[..n])
  }

  lemma SweptMeans(plan: seq<Track>, before: map<TrackId, TrackState>, after: map<TrackId, TrackState>)
    requires Swept(plan, before, after, With(StatusesOf(before), Pending))
    ensures after.Keys == before.Keys && forall t :: t in after ==>
      after[t] == if before[t].status == Pending then TrackState(Blocked, Unsatisfied(Deps(plan, t))) else before[t]
  {
  }

  ghost predicate SweptTo(plan: seq<Track>, before: map<TrackId, TrackState>, now: map<TrackId, TrackState>, c: int,
                          n: nat)
  {
    Swept(plan, before, now, SweptSet(plan, before, n)) && c == |SweptSet(plan, before, n)|
  }

  lemma SweptSetGrows(plan: seq<Track>, before: map<TrackId, TrackState>, n: nat)
    requires DistinctIds(plan) && n < |plan| && plan[n].id in before
    ensures plan[n].id !in SweptSet(plan, before, n)
    ensures SweptSet(plan, before, n + 1) ==
      SweptSet(plan, before, n) + if before[plan[n].id].status == Pending then {plan[n].id} else {}
    ensures |SweptSet(plan, before, n + 1)| ==
      |SweptSet(plan, before, n)| + if before[plan[n].id].status == Pending then 1 else 0
  {
    IdsPrefix(plan, n);
  }

  lemma SweptNothing(plan: seq<Track>, before: map<TrackId, TrackState>)
    ensures SweptTo(plan, before, before, 0, 0)
  {
    assert SweptSet(plan, before, 0) == {};
  }

  lemma SweptAll(plan: seq<Track>, before: map<TrackId, TrackState>, now: map<TrackId, TrackState>, c: int)
    requires before.Keys == Ids(plan) && SweptTo(plan, before, now, c, |plan|)
    ensures Swept(plan, before, now, With(StatusesOf(before), Pending)) && c == |With(StatusesOf(before), Pending)|
  {
    assert plan[..|plan|] == plan;
    assert SweptSet(plan, before, |plan|) == With(StatusesOf(before), Pending);
  }

  lemma SweepRound(plan: seq<Track>, before: map<TrackId, TrackState>, now: map<TrackId, TrackState>, c: int, n: nat)
    requires DistinctIds(plan) && n < |plan| && plan[n].id in before
    requires SweptTo(plan, before, now, c, n)
    ensures plan[n].id in now
    ensures now[plan[n].id].status == Pending ==>
      SweptTo(plan, before, now[plan[n].id := TrackState(Blocked, Unsatisfied(plan[n].deps))], c + 1, n + 1)
    ensures now[plan[n].id].status != Pending ==> SweptTo(plan, before, now, c, n + 1)
  {
    SweptSetGrows(plan, before, n);
    DepsAt(plan, n);
    SweptOne(plan, before, now, SweptSet(plan, before, n), plan[n].id);
    hide Swept, SweptSet, DistinctIds, Deps;
  }

  lemma SweptOne(plan: seq<Track>, before: map<TrackId, TrackState>, now: map<TrackId, TrackState>, hit: set<TrackId>,
                 t: TrackId)
    requires Swept(plan, before, now, hit) && t in before && t !in hit
    ensures t in now && now[t] == before[t]
    ensures Swept(plan, before, now[t := TrackState(Blocked, Unsatisfied(Deps(plan, t)))], hit + {t})
  {
    hide Deps;
  }
}
