// The exit test of the dispatcher loop on any plan, ids that occur twice included. The
// loop ends when completedCount reaches the number of plan entries. The preset loop counts
// every entry, everything later counts an id once.
module ScheduleExit {
  import opened Plans
  import opened Schedule

  // The statuses by id, and completedCount.
  datatype Counts = Counts(status: Statuses, completed: int)

  // Every place of the code that changes a status.
  datatype Change =
    | Start(id: TrackId)
    | End(id: TrackId, st: Status)
    | Block(id: TrackId)

  function SelectedEntries(cfg: Config, plan: seq<Track>): nat {
    if plan == [] then 0
    else SelectedEntries(cfg, plan[..|plan| - 1]) + if Selected(cfg, plan[|plan| - 1].id) then 1 else 0
  }

  function SelectedIds(cfg: Config, plan: seq<Track>): set<TrackId> {
    set t | t in plan && Selected(cfg, t.id) :: t.id
  }

  // No selected id stands in two entries.
  ghost predicate SelectedDistinct(cfg: Config, plan: seq<Track>) {
    forall i, j :: 0 <= i < j < |plan| && Selected(cfg, plan[i].id) ==> plan[i].id != plan[j].id
  }

  ghost function Start0(cfg: Config): Counts {
    Counts(map t | t in Ids(cfg.plan) :: InitStatus(cfg, t), |cfg.plan| - SelectedEntries(cfg, cfg.plan))
  }

  predicate Allowed(c: Counts, ch: Change) {
    ch.id in c.status &&
    match ch
    case Start(id) => c.status[id] == Pending
    case End(id, st) => c.status[id] == Running && (st == Done || st == Failed)
    case Block(id) => c.status[id] == Pending
  }

  function Changed(c: Counts, ch: Change): Counts {
    match ch
    case Start(id) => Counts(c.status[id := Running], c.completed)
    case End(id, st) => Counts(c.status[id := st], c.completed + 1)
    case Block(id) => Counts(c.status[id := Blocked], c.completed + 1)
  }

  ghost predicate IsHistory(cfg: Config, cs: seq<Counts>, changes: seq<Change>) {
    |cs| == |changes| + 1 && cs[0] == Start0(cfg) &&
    forall i :: 0 <= i < |changes| ==> Allowed(cs[i], changes[i]) && cs[i + 1] == Changed(cs[i], changes[i])
  }

  function EndedIds(cfg: Config, c: Counts): set<TrackId> {
    set t | t in c.status && Selected(cfg, t) && Terminal(c.status[t])
  }

  ghost predicate Counted(cfg: Config, c: Counts) {
    c.status.Keys == Ids(cfg.plan) &&
    (forall t :: t in c.status && !Selected(cfg, t) ==> Terminal(c.status[t])) &&
    c.completed == |cfg.plan| - SelectedEntries(cfg, cfg.plan) + |EndedIds(cfg, c)|
  }

  lemma CountedStart(cfg: Config)
    ensures Counted(cfg, Start0(cfg))
  {
    assert EndedIds(cfg, Start0(cfg)) == {};
  }

  lemma EndedGrows(cfg: Config, c: Counts, ch: Change)
    requires Allowed(c, ch) && Selected(cfg, ch.id)
    ensures ch.id !in EndedIds(cfg, c)
    ensures EndedIds(cfg, Changed(c, ch)) == EndedIds(cfg, c) + if ch.Start? then {} else {ch.id}
  {
    hide Selected;
  }

  lemma CountedChange(cfg: Config, c: Counts, ch: Change)
    requires Counted(cfg, c) && Allowed(c, ch)
    ensures Counted(cfg, Changed(c, ch))
  {
    hide Ids, SelectedEntries, EndedIds, Selected;
    assert Selected(cfg, ch.id);
    EndedGrows(cfg, c, ch);
  }

  lemma {:induction false} CountedAlways(cfg: Config, cs: seq<Counts>, changes: seq<Change>, i: nat)
    requires IsHistory(cfg, cs, changes) && i <= |changes|
    ensures Counted(cfg, cs[i])
  {
    hide Counted;
    if i == 0 {
      CountedStart(cfg);
    } else {
      CountedAlways(cfg, cs, changes, i - 1);
      CountedChange(cfg, cs[i - 1], changes[i - 1]);
    }
  }

  // There are as many selected ids as selected entries exactly if none is repeated.
  lemma {:induction false} EntriesAndIds(cfg: Config, plan: seq<Track>)
    ensures |SelectedIds(cfg, plan)| <= SelectedEntries(cfg, plan)
    ensures |SelectedIds(cfg, plan)| == SelectedEntries(cfg, plan) <==> SelectedDistinct(cfg, plan)
  {
    hide Selected;
    if plan == [] {
      assert SelectedIds(cfg, plan) == {};
    } else {
      var init, last := plan[..|plan| - 1], plan[|plan| - 1];
      EntriesAndIds(cfg, init);
      assert plan == init + [last];
      assert SelectedIds(cfg, plan) == SelectedIds(cfg, init) + if Selected(cfg, last.id) then {last.id} else {};
      SelectedSnoc(cfg, init, last);
    }
  }

  lemma SelectedSnoc(cfg: Config, init: seq<Track>, last: Track)
    ensures SelectedDistinct(cfg, init + [last]) <==>
      SelectedDistinct(cfg, init) && (Selected(cfg, last.id) ==> last.id !in SelectedIds(cfg, init))
  {
    hide Selected;
    var plan := init + [last];
    if SelectedDistinct(cfg, plan) {
      forall i, j | 0 <= i < j < |init| && Selected(cfg, init[i].id) ensures init[i].id != init[j].id {
        assert plan[i] == init[i] && plan[j] == init[j];
      }
      forall t | t in init && Selected(cfg, t.id) ensures t.id != last.id {
        var i :| 0 <= i < |init| && init[i] == t;
        assert plan[i].id != plan[|init|].id;
      }
    }
    if SelectedDistinct(cfg, init) && (Selected(cfg, last.id) ==> last.id !in SelectedIds(cfg, init)) {
      forall i, j | 0 <= i < j < |plan| && Selected(cfg, plan[i].id) ensures plan[i].id != plan[j].id {
        if j == |init| {
          assert init[i] in init;
        }
      }
    }
  }

  lemma EndedAreSelected(cfg: Config, c: Counts)
    requires Counted(cfg, c)
    ensures EndedIds(cfg, c) <= SelectedIds(cfg, cfg.plan)
    ensures EndedIds(cfg, c) == SelectedIds(cfg, cfg.plan) <==> forall t :: t in c.status ==> Terminal(c.status[t])
  {
    hide Selected;
    forall t | t in c.status && Selected(cfg, t) ensures t in SelectedIds(cfg, cfg.plan) {
      var u :| u in cfg.plan && u.id == t;
    }
    forall t | t in SelectedIds(cfg, cfg.plan) ensures t in c.status && Selected(cfg, t) {
    }
    if EndedIds(cfg, c) == SelectedIds(cfg, cfg.plan) {
      forall t | t in c.status ensures Terminal(c.status[t]) {
        if Selected(cfg, t) {
          assert t in EndedIds(cfg, c);
        }
      }
    }
  }

  // In every state of every history the exit test is met exactly if every track has ended
  // and no selected id is repeated; with a repeated selected id it never is.
  lemma ExitIff(cfg: Config, cs: seq<Counts>, changes: seq<Change>, i: nat)
    requires IsHistory(cfg, cs, changes) && i <= |changes|
    ensures cs[i].completed <= |cfg.plan|
    ensures cs[i].completed == |cfg.plan| <==>
      SelectedDistinct(cfg, cfg.plan) && forall t :: t in cs[i].status ==> Terminal(cs[i].status[t])
  {
    CountedAlways(cfg, cs, changes, i);
    EntriesAndIds(cfg, cfg.plan);
    EndedAreSelected(cfg, cs[i]);
    hide SelectedDistinct, SelectedIds, EndedIds, SelectedEntries, IsHistory;
    SubsetCount(EndedIds(cfg, cs[i]), SelectedIds(cfg, cfg.plan));
  }

  lemma SubsetCount(a: set<TrackId>, b: set<TrackId>)
    requires a <= b
    ensures |a| <= |b| && (|a| == |b| <==> a == b)
  {
    assert b == a + (b - a);
  }
}
