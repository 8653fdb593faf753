// The replay around the scheduler: choosing the tracks, moving their old files away,
// and comparing old and new rows.
module ReplayRuntime {
  import opened Plans
  import opened Wrappers
  import opened ReplayModel

  datatype Mismatch = RowCount(old_: nat, new_: nat) | RowData(index: nat)

  // --- comparing two files ---

  function Strip(row: Row): Row {
    row - {"evidence_ids"}
  }

  // An unreadable file reads as no rows.
  function Rows(f: Option<File>): seq<Row> {
    if f.Some? then f.value.rows else []
  }

  // The indices below n at which the rows differ apart from their evidence ids.
  function RowDiffs(olds: seq<Row>, news: seq<Row>, n: nat): seq<Mismatch>
    requires n <= |olds| && n <= |news|
  {
    if n == 0 then []
    else RowDiffs(olds, news, n - 1) + (if Strip(olds[n - 1]) != Strip(news[n - 1]) then [RowData(n - 1)] else [])
  }

  function Mismatches(olds: seq<Row>, news: seq<Row>): seq<Mismatch> {
    if |olds| != |news| then [RowCount(|olds|, |news|)] else RowDiffs(olds, news, |olds|)
  }

  lemma {:induction false} RowDiffsAre(olds: seq<Row>, news: seq<Row>, n: nat)
    requires n <= |olds| && n <= |news|
    ensures forall m :: m in RowDiffs(olds, news, n) <==>
      m.RowData? && m.index < n && Strip(olds[m.index]) != Strip(news[m.index])
  {
    if n > 0 {
      RowDiffsAre(olds, news, n - 1);
    }
  }

  // The key is in one of the rows only, or has different values in them.
  predicate Differs(a: Row, b: Row, key: string) {
    (key in a) != (key in b) || (key in a && a[key] != b[key])
  }

  // As many rows, and no key but "evidence_ids" tells two of them apart.
  ghost predicate SameRows(olds: seq<Row>, news: seq<Row>) {
    |olds| == |news| &&
    forall i, key :: 0 <= i < |olds| && key != "evidence_ids" ==> !Differs(olds[i], news[i], key)
  }

  lemma StripTells(a: Row, b: Row)
    ensures Strip(a) == Strip(b) <==> forall key :: key != "evidence_ids" ==> !Differs(a, b, key)
  {
    if Strip(a) == Strip(b) {
      forall key | key != "evidence_ids" ensures !Differs(a, b, key) {
        assert key in a <==> key in Strip(a);
        assert key in b <==> key in Strip(b);
        assert key in a ==> a[key] == Strip(a)[key] && b[key] == Strip(b)[key];
      }
    }
    if forall key :: key != "evidence_ids" ==> !Differs(a, b, key) {
      assert forall key :: key in Strip(a) <==> key in Strip(b) by {
        forall key ensures key in Strip(a) <==> key in Strip(b) {
          assert key != "evidence_ids" ==> !Differs(a, b, key);
        }
      }
      forall key | key in Strip(a) ensures Strip(a)[key] == Strip(b)[key] {
        assert !Differs(a, b, key);
      }
    }
  }

  // Nothing is reported exactly if both files have the same rows apart from evidence ids.
  lemma CleanIffSameRows(olds: seq<Row>, news: seq<Row>)
    ensures Mismatches(olds, news) == [] <==> SameRows(olds, news)
  {
    if |olds| == |news| {
      var ms := Mismatches(olds, news);
      MismatchesAre(olds, news);
      if ms != [] {
        assert ms[0] in ms;
      }
      if !SameRows(olds, news) {
        var i, key :| 0 <= i < |olds| && key != "evidence_ids" && Differs(olds[i], news[i], key);
        assert RowData(i) in ms;
      }
    }
  }

  // What is reported: the numbers of rows if they differ, else every row that some key but
  // "evidence_ids" tells apart.
  lemma MismatchesAre(olds: seq<Row>, news: seq<Row>)
    ensures |olds| != |news| ==> Mismatches(olds, news) == [RowCount(|olds|, |news|)]
    ensures |olds| == |news| ==> forall m :: m in Mismatches(olds, news) <==>
      m.RowData? && m.index < |olds| &&
      exists key :: key != "evidence_ids" && Differs(olds[m.index], news[m.index], key)
  {
    if |olds| == |news| {
      RowDiffsAre(olds, news, |olds|);
      forall i | 0 <= i < |olds|
        ensures Strip(olds[i]) != Strip(news[i]) <==>
          exists key :: key != "evidence_ids" && Differs(olds[i], news[i], key)
      {
        StripTells(olds[i], news[i]);
      }
    }
  }

  method CompareFiles(old_: Option<File>, new_: Option<File>) returns (mismatches: seq<Mismatch>)
    ensures mismatches == Mismatches(Rows(old_), Rows(new_))
    ensures var olds := if old_.Some? then old_.value.rows else [];
      var news := if new_.Some? then new_.value.rows else [];
      (mismatches == [] <==> SameRows(olds, news)) &&
      (|olds| != |news| ==> mismatches == [RowCount(|olds|, |news|)]) &&
      (|olds| == |news| ==> forall i: nat :: RowData(i) in mismatches <==>
         i < |olds| && exists key :: key != "evidence_ids" && Differs(olds[i], news[i], key))
  {
    CleanIffSameRows(Rows(old_), Rows(new_));
    MismatchesAre(Rows(old_), Rows(new_));
    hide SameRows, Differs, Strip;
    mismatches := CompareRows(old_, new_);
  }

  method CompareRows(old_: Option<File>, new_: Option<File>) returns (mismatches: seq<Mismatch>)
    ensures mismatches == Mismatches(Rows(old_), Rows(new_))
  {
    var olds, news := Rows(old_), Rows(new_);
    mismatches := [];
    if |olds| != |news| {
      return [RowCount(|olds|, |news|)];
    }
    for i := 0 to |olds|
      invariant |olds| == |news| == |Rows(old_)| == |Rows(new_)|
      invariant forall k :: i <= k < |olds| ==> olds[k] == Rows(old_)[k] && news[k] == Rows(new_)[k]
      invariant mismatches == RowDiffs(Rows(old_), Rows(new_), i)
    {
      olds := olds[i := olds[i] - {"evidence_ids"}];
      news := news[i := news[i] - {"evidence_ids"}];
      if olds[i] != news[i] {
        mismatches := mismatches + [RowData(i)];
      }
    }
  }

  // --- the directories of a run ---

  function Restrict(files: map<TrackId, File>, ids: set<TrackId>): map<TrackId, File> {
    map t | t in files && t in ids :: files[t]
  }

  predicate Exempt(plan: seq<Track>, id: TrackId) {
    exists k :: 0 <= k < |plan| && plan[k].id == id && plan[k].nondeterministic
  }

  datatype Selection = Selected(ids: seq<TrackId>) | NotInPlan(id: TrackId)

  class RunDir {
    var mapDir: map<TrackId, File>
    var backupDir: map<TrackId, File>

    method FindFailedTracks(plan: seq<Track>) returns (failed: seq<TrackId>)
      ensures failed == Missing(plan, mapDir)
      ensures InPlanOrder(plan, failed) && forall t :: t in failed <==> t in Ids(plan) && t !in mapDir
    {
      MissingInOrder(plan, mapDir);
      MissingAre(plan, mapDir);
      hide InPlanOrder;
      failed := [];
      for i := 0 to |plan|
        invariant failed == Missing(plan[..i], mapDir)
      {
        assert plan[..i + 1][..i] == plan[..i];
        if plan[i].id !in mapDir {
          failed := failed + [plan[i].id];
        }
      }
      assert plan[..|plan|] == plan;
    }

    // The selector if there is one, else the tracks without a file.
    method SelectTracks(plan: seq<Track>, only: seq<TrackId>) returns (sel: Selection)
      ensures sel.NotInPlan? <==> exists id :: id in only && id !in Ids(plan)
      ensures sel.NotInPlan? ==> sel.id in only && sel.id !in Ids(plan)
      ensures sel.Selected? ==> sel.ids == if only == [] then Missing(plan, mapDir) else only
    {
      var trackIds: set<TrackId> := {};
      for i := 0 to |plan|
        invariant trackIds == Ids(plan[..i])
      {
        assert plan[..i + 1] == plan[..i] + [plan[i]];
        trackIds := trackIds + {plan[i].id};
      }
      assert plan[..|plan|] == plan;
      for i := 0 to |only|
        invariant forall k :: 0 <= k < i ==> only[k] in trackIds
      {
        if only[i] !in trackIds {
          return NotInPlan(only[i]);
        }
      }
      if only == [] {
        var failed := FindFailedTracks(plan);
        sel := Selected(failed);
      } else {
        sel := Selected(only);
      }
    }

    // Moves the old file of every selected track into the backup directory.
    method BackUp(rerun: seq<TrackId>)
      modifies this
      ensures mapDir == old(mapDir) - Elems(rerun)
      ensures forall t :: t in rerun && t in old(mapDir) ==> t in backupDir && backupDir[t] == old(mapDir)[t]
      ensures forall t :: t in old(backupDir) && (t !in rerun || t !in old(mapDir)) ==>
        t in backupDir && backupDir[t] == old(backupDir)[t]
      ensures backupDir == old(backupDir) + Restrict(old(mapDir), Elems(rerun))
      ensures forall t :: t in rerun ==> t !in mapDir
    {
      for i := 0 to |rerun|
        invariant mapDir == old(mapDir) - Elems(rerun[..i])
        invariant backupDir == old(backupDir) + Restrict(old(mapDir), Elems(rerun[..i]))
      {
        assert rerun[..i + 1] == rerun[..i] + [rerun[i]];
        assert Elems(rerun[..i + 1]) == Elems(rerun[..i]) + {rerun[i]};
        var id := rerun[i];
        if id in mapDir {
          backupDir := backupDir[id := mapDir[id]];
          mapDir := mapDir - {id};
        }
      }
      assert rerun[..|rerun|] == rerun;
    }

    // Reports a track exactly if it was rerun, is not exempt, has a backup, and the
    // rows differ; and then reports all the differences.
    method ParityCheck(plan: seq<Track>, rerun: seq<TrackId>) returns (all: map<TrackId, seq<Mismatch>>)
      requires DistinctIds(plan)
      ensures forall id :: id in all <==>
        id in rerun && !Exempt(plan, id) && id in backupDir &&
        Mismatches(backupDir[id].rows, Rows(Lookup(mapDir, id))) != []
      ensures forall id :: id in all ==>
        id in backupDir && all[id] == Mismatches(backupDir[id].rows, Rows(Lookup(mapDir, id)))
      ensures forall id :: id in all <==>
        id in rerun && !(exists k :: 0 <= k < |plan| && plan[k].id == id && plan[k].nondeterministic) &&
        id in backupDir && !SameRows(backupDir[id].rows, if id in mapDir then mapDir[id].rows else [])
    {
      all := map[];
      var trackMap: map<TrackId, Track> := map[];
      for i := 0 to |plan|
        invariant forall id :: id in trackMap ==> exists k :: 0 <= k < i && plan[k].id == id && trackMap[id] == plan[k]
        invariant forall k :: 0 <= k < i ==> plan[k].id in trackMap && trackMap[plan[k].id] == plan[k]
      {
        trackMap := trackMap[plan[i].id := plan[i]];
      }
      for i := 0 to |rerun|
        invariant forall id :: id in all <==>
          id in rerun[..i] && !Exempt(plan, id) && id in backupDir &&
          Mismatches(backupDir[id].rows, Rows(Lookup(mapDir, id))) != []
        invariant forall id :: id in all ==>
          id in backupDir && all[id] == Mismatches(backupDir[id].rows, Rows(Lookup(mapDir, id)))
      {
        var id := rerun[i];
        assert Exempt(plan, id) <==> id in trackMap && trackMap[id].nondeterministic;
        assert rerun[..i + 1] == rerun[..i] + [id];
        if id in trackMap && trackMap[id].nondeterministic {
          continue;
        }
        if id in backupDir {
          var mismatches := CompareFiles(Some(backupDir[id]), Lookup(mapDir, id));
          if |mismatches| > 0 {
            all := all[id := mismatches];
          }
        }
      }
      assert rerun[..|rerun|] == rerun;
      forall id | id in backupDir
        ensures Mismatches(backupDir[id].rows, Rows(Lookup(mapDir, id))) != [] <==>
          !SameRows(backupDir[id].rows, if id in mapDir then mapDir[id].rows else [])
      {
        CleanIffSameRows(backupDir[id].rows, Rows(Lookup(mapDir, id)));
      }
    }
  }
}
