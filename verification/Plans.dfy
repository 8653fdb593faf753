// Research plans: tracks, their dependency lists, and what the dependency
// counters of the scheduler count.
module Plans {

  datatype TrackId = TrackId(text: string)

  // A track's jsonl file. A row holds the keys of one JSON object with their values.
  type Row = map<string, string>
  datatype File = File(rows: seq<Row>)

  // `nondeterministic` says that the plan carries an explicit `deterministic: false`.
  datatype Track = Track(id: TrackId, deps: seq<TrackId>, nondeterministic: bool)

  datatype Status = Pending | Running | Done | Failed | Blocked

  type Statuses = map<TrackId, Status>

  predicate Terminal(st: Status) {
    st == Done || st == Failed || st == Blocked
  }

  predicate DistinctIds(plan: seq<Track>) {
    forall i, j :: 0 <= i < j < |plan| ==> plan[i].id != plan[j].id
  }

  predicate Distinct(xs: seq<TrackId>) {
    forall i, j :: 0 <= i < j < |xs| ==> xs[i] != xs[j]
  }

  lemma DistinctTail(xs: seq<TrackId>)
    requires Distinct(xs) && xs != []
    ensures Distinct(xs[1..]) && xs[0] !in xs[1..]
  {
  }

  // The ids stand in the order of the plan, one for each of some of its entries.
  ghost predicate InPlanOrder(plan: seq<Track>, ids: seq<TrackId>) {
    exists at: seq<nat> ::
      |at| == |ids| && (forall i :: 0 <= i < |at| ==> at[i] < |plan| && plan[at[i]].id == ids[i]) &&
      forall i, j :: 0 <= i < j < |at| ==> at[i] < at[j]
  }

  lemma InOrderSnoc(plan: seq<Track>, ids: seq<TrackId>, last: Track)
    requires InPlanOrder(plan, ids)
    ensures InPlanOrder(plan + [last], ids) && InPlanOrder(plan + [last], ids + [last.id])
  {
    var at: seq<nat> :| |at| == |ids| && (forall i :: 0 <= i < |at| ==> at[i] < |plan| && plan[at[i]].id == ids[i]) &&
      forall i, j :: 0 <= i < j < |at| ==> at[i] < at[j];
    var whole := plan + [last];
    assert forall i :: 0 <= i < |at| ==> at[i] < |whole| && whole[at[i]].id == ids[i];
    assert InPlanOrder(whole, ids);
    var more := at + [|plan|];
    assert forall i :: 0 <= i < |more| ==> more[i] < |whole| && whole[more[i]].id == (ids + [last.id])[i];
    assert InPlanOrder(whole, ids + [last.id]);
  }

  function Elems(xs: seq<TrackId>): set<TrackId> {
    set x | x in xs
  }

  function Ids(plan: seq<Track>): set<TrackId> {
    set t | t in plan :: t.id
  }

  // The dependency list of the track called id, as the plan writes it.
  function Deps(plan: seq<Track>, id: TrackId): seq<TrackId> {
    if plan == [] then [] else if plan[0].id == id then plan[0].deps else Deps(plan[1..], id)
  }

  predicate IsDone(sts: Statuses, id: TrackId) {
    id in sts && sts[id] == Done
  }

  predicate AllDone(sts: Statuses, deps: seq<TrackId>) {
    forall d :: d in deps ==> IsDone(sts, d)
  }

  // How many entries of deps, counted with multiplicity, are not Done. An id that
  // no track carries is never Done and so counts forever.
  function Undone(deps: seq<TrackId>, sts: Statuses): nat {
    if deps == [] then 0
    else (if IsDone(sts, deps[0]) then 0 else 1) + Undone(deps[1..], sts)
  }

  lemma {:induction false} DepsAt(plan: seq<Track>, i: nat)
    requires DistinctIds(plan) && i < |plan|
    ensures Deps(plan, plan[i].id) == plan[i].deps
  {
    if i > 0 {
      DepsAt(plan[1..], i - 1);
    }
  }

  lemma IdAt(plan: seq<Track>, i: nat)
    requires i < |plan|
    ensures plan[i].id in Ids(plan)
  {
    assert plan[i] in plan;
  }

  // The last track of a plan and what is in front of it.
  lemma LastTrack(plan: seq<Track>)
    requires DistinctIds(plan) && plan != []
    ensures var init, last := plan[..|plan| - 1], plan[|plan| - 1];
      plan == init + [last] && DistinctIds(init) && Ids(plan) == Ids(init) + {last.id} && last.id !in Ids(init)
  {
    var init, last := plan[..|plan| - 1], plan[|plan| - 1];
    assert plan == init + [last];
    forall t | t in init ensures t.id != last.id {
      var i :| 0 <= i < |init| && init[i] == t;
      assert plan[i].id != plan[|plan| - 1].id;
    }
  }

  lemma {:induction false} DepsUnknown(plan: seq<Track>, id: TrackId)
    requires id !in Ids(plan)
    ensures Deps(plan, id) == []
  {
    if plan != [] {
      assert plan[0] in plan;
      assert forall t :: t in plan[1..] ==> t in plan;
      DepsUnknown(plan[1..], id);
    }
  }

  lemma {:induction false} IdsCount(plan: seq<Track>)
    requires DistinctIds(plan)
    ensures |Ids(plan)| == |plan|
  {
    if plan == [] {
      assert Ids(plan) == {};
    } else {
      IdsCount(plan[1..]);
      assert plan == [plan[0]] + plan[1..];
      assert Ids(plan) == {plan[0].id} + Ids(plan[1..]);
    }
  }

  lemma {:induction false} UndoneZero(deps: seq<TrackId>, sts: Statuses)
    ensures Undone(deps, sts) == 0 <==> AllDone(sts, deps)
  {
    if deps != [] {
      UndoneZero(deps[1..], sts);
      assert deps == [deps[0]] + deps[1..];
    }
  }

  lemma {:induction false} UndoneSame(deps: seq<TrackId>, sts: Statuses, sts': Statuses)
    requires forall d :: d in deps ==> (IsDone(sts, d) <==> IsDone(sts', d))
    ensures Undone(deps, sts) == Undone(deps, sts')
  {
    if deps != [] {
      assert deps[0] in deps;
      UndoneSame(deps[1..], sts, sts');
    }
  }

  // When id becomes Done, the count drops by the number of times id is listed.
  lemma {:induction false} UndoneDrops(deps: seq<TrackId>, sts: Statuses, sts': Statuses, id: TrackId)
    requires !IsDone(sts, id) && IsDone(sts', id)
    requires forall d :: d != id ==> (IsDone(sts, d) <==> IsDone(sts', d))
    ensures Undone(deps, sts') == Undone(deps, sts) - multiset(deps)[id]
  {
    if deps != [] {
      UndoneDrops(deps[1..], sts, sts', id);
      assert deps == [deps[0]] + deps[1..];
    }
  }
}
