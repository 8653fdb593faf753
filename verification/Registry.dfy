// The table of artifacts: one row per run and path, with the hash of what is there.
module Registry {
  import opened Wrappers
  import Texts

  datatype Rec = Rec(sha: string, size: int)

  datatype ArtifactRow = ArtifactRow(runId: string, path: string, rec: Rec)

  // What looking at a path gives: nothing there, an error, or hash and size.
  datatype Looked = Absent | Broken | Record(rec: Rec)

  predicate Matches(r: ArtifactRow, runId: string, path: string) {
    r.runId == runId && r.path == path
  }

  // The last row for a run and a path.
  function Lookup(rows: seq<ArtifactRow>, runId: string, path: string): Option<Rec> {
    if rows == [] then None
    else if Matches(rows[|rows| - 1], runId, path) then Some(rows[|rows| - 1].rec)
    else Lookup(rows[..|rows| - 1], runId, path)
  }

  function Delete(rows: seq<ArtifactRow>, runId: string, path: string): seq<ArtifactRow> {
    if rows == [] then []
    else Delete(rows[..|rows| - 1], runId, path) +
         if Matches(rows[|rows| - 1], runId, path) then [] else [rows[|rows| - 1]]
  }

  ghost predicate Unique(rows: seq<ArtifactRow>) {
    forall i, j :: 0 <= i < j < |rows| ==> !Matches(rows[j], rows[i].runId, rows[i].path)
  }

  lemma {:induction false} LookupFinds(rows: seq<ArtifactRow>, runId: string, path: string)
    ensures Lookup(rows, runId, path).Some? <==> exists i :: 0 <= i < |rows| && Matches(rows[i], runId, path)
  {
    if rows != [] && !Matches(rows[|rows| - 1], runId, path) {
      LookupFinds(rows[..|rows| - 1], runId, path);
      assert forall i :: 0 <= i < |rows| - 1 ==> rows[i] == rows[..|rows| - 1][i];
    }
  }

  // In a table without repetition the row that is found is the only one.
  lemma {:induction false} LookupIs(rows: seq<ArtifactRow>, i: nat)
    requires Unique(rows) && i < |rows|
    ensures Lookup(rows, rows[i].runId, rows[i].path) == Some(rows[i].rec)
  {
    if i < |rows| - 1 {
      LookupIs(rows[..|rows| - 1], i);
    }
  }

  lemma {:induction false} DeleteLookup(rows: seq<ArtifactRow>, runId: string, path: string, r: string, p: string)
    ensures Lookup(Delete(rows, runId, path), r, p) == if r == runId && p == path then None else Lookup(rows, r, p)
  {
    if rows != [] {
      var init, last := rows[..|rows| - 1], rows[|rows| - 1];
      DeleteLookup(init, runId, path, r, p);
      var less := Delete(init, runId, path);
      assert (less + [last])[..|less|] == less;
      assert less + [] == less;
    }
  }

  lemma {:induction false} DeleteUnique(rows: seq<ArtifactRow>, runId: string, path: string)
    requires Unique(rows)
    ensures Unique(Delete(rows, runId, path))
    ensures forall x :: x in Delete(rows, runId, path) ==> x in rows
  {
    if rows != [] {
      var init, last := rows[..|rows| - 1], rows[|rows| - 1];
      DeleteUnique(init, runId, path);
      var less := Delete(init, runId, path);
      forall i | 0 <= i < |less| ensures !Matches(last, less[i].runId, less[i].path) {
        assert less[i] in init;
      }
    }
  }

  lemma InsertUnique(rows: seq<ArtifactRow>, r: ArtifactRow)
    requires Unique(rows) && Lookup(rows, r.runId, r.path).None?
    ensures Unique(rows + [r])
  {
    LookupFinds(rows, r.runId, r.path);
  }

  lemma InsertLookup(rows: seq<ArtifactRow>, row: ArtifactRow, r: string, p: string)
    ensures Lookup(rows + [row], r, p) == if Matches(row, r, p) then Some(row.rec) else Lookup(rows, r, p)
  {
    assert (rows + [row])[..|rows|] == rows;
  }

  // --- dropping repetitions in place ---

  // Every element that differs from the one before it.
  function Deduped(s: seq<string>): seq<string> {
    if |s| == 0 then []
    else if |s| >= 2 && s[|s| - 2] == s[|s| - 1] then Deduped(s[..|s| - 1])
    else Deduped(s[..|s| - 1]) + [s[|s| - 1]]
  }

  lemma {:induction false} DedupedFits(s: seq<string>)
    ensures |Deduped(s)| <= |s|
    ensures forall x :: x in Deduped(s) <==> x in s
    ensures s != [] ==> Deduped(s) != [] && Deduped(s)[|Deduped(s)| - 1] == s[|s| - 1]
  {
    if s != [] {
      var init := s[..|s| - 1];
      DedupedFits(init);
      assert s == init + [s[|s| - 1]];
    }
  }

  ghost predicate Grouped(s: seq<string>) {
    forall i, j, k :: 0 <= i < j < k < |s| && s[i] == s[k] ==> s[j] == s[i]
  }

  // As sort.Strings leaves a list.
  ghost predicate SortedStrings(s: seq<string>) {
    forall i, j :: 0 <= i < j < |s| ==> s[i] == s[j] || Texts.Less(s[i], s[j])
  }

  // In a sorted list equal elements stand together.
  lemma SortedIsGrouped(s: seq<string>)
    requires SortedStrings(s)
    ensures Grouped(s)
  {
    forall i, j, k | 0 <= i < j < k < |s| && s[i] == s[k] ensures s[j] == s[i] {
      if s[j] != s[i] {
        Texts.LessIrreflexive(s[i]);
        Texts.LessTransitive(s[i], s[j], s[k]);
      }
    }
  }

  ghost predicate Distinct(s: seq<string>) {
    forall i, j :: 0 <= i < j < |s| ==> s[i] != s[j]
  }

  lemma LastIsNew(s: seq<string>)
    requires Grouped(s) && |s| >= 2 && s[|s| - 2] != s[|s| - 1]
    ensures s[|s| - 1] !in s[..|s| - 1]
  {
    forall i | 0 <= i < |s| - 1 ensures s[i] != s[|s| - 1] {
    }
  }

  // On a sorted list, where equal elements stand together, no repetition is left.
  lemma {:induction false} DedupedDistinct(s: seq<string>)
    requires Grouped(s)
    ensures Distinct(Deduped(s))
  {
    if s != [] {
      DedupedDistinct(s[..|s| - 1]);
      DedupedFits(s[..|s| - 1]);
      if |s| >= 2 && s[|s| - 2] != s[|s| - 1] {
        LastIsNew(s);
      }
    }
  }

  method DedupeStrings(a: array<string>) returns (n: nat)
    modifies a
    ensures n <= a.Length && a[..n] == Deduped(old(a[..]))
  {
    n := 0;
    var prev := "";
    ghost var was := a[..];
    for i := 0 to a.Length
      invariant n <= i && a[..n] == Deduped(was[..i])
      invariant forall k :: i <= k < a.Length ==> a[k] == was[k]
      invariant i > 0 ==> prev == was[i - 1]
    {
      var s := a[i];
      assert was[..i + 1][..i] == was[..i];
      if i == 0 || s != prev {
        a[n] := s;
        n := n + 1;
        prev := s;
      }
    }
    assert was[..a.Length] == was;
  }

  // --- registering ---

  predicate Listed(paths: seq<string>, p: string) {
    p in paths && Texts.TrimSpace(p) != ""
  }

  // What the table shows for a path after a call: a listed path its present hash, a path
  // found by the walk its hash if it was not there before, any other what it was.
  function Expected(before: Option<Rec>, listed: bool, walked: bool, there: Looked): Option<Rec> {
    if listed && there.Record? then
      if before.Some? && before.value.sha == there.rec.sha then before else Some(there.rec)
    else if walked && there.Record? && before.None? then Some(there.rec)
    else before
  }

  // --- a sequence of calls ---

  // One call of persistRunArtifacts: the run, the listed paths, what the walk finds, and
  // what looking at a path gives at the time.
  datatype Registration = Registration(runId: string, paths: seq<string>, walked: seq<string>, look: string -> Looked)

  predicate Lists(c: Registration, runId: string, p: string) {
    c.runId == runId && Listed(c.paths, p) && c.look(p).Record?
  }

  predicate Walks(c: Registration, runId: string, p: string) {
    c.runId == runId && p in c.walked && c.look(p).Record?
  }

  function ShownAfter(calls: seq<Registration>, runId: string, p: string, before: Option<Rec>): Option<Rec> {
    if calls == [] then before
    else
      var c, shown := calls[|calls| - 1], ShownAfter(calls[..|calls| - 1], runId, p, before);
      if c.runId == runId then Expected(shown, Listed(c.paths, p), p in c.walked, c.look(p)) else shown
  }

  ghost predicate LastLists(calls: seq<Registration>, runId: string, p: string, j: nat) {
    j < |calls| && Lists(calls[j], runId, p) && forall k :: j < k < |calls| ==> !Lists(calls[k], runId, p)
  }

  ghost predicate FirstWalks(calls: seq<Registration>, runId: string, p: string, j: nat) {
    j < |calls| && Walks(calls[j], runId, p) && forall k :: 0 <= k < j ==> !Walks(calls[k], runId, p)
  }

  ghost predicate NeverListed(calls: seq<Registration>, runId: string, p: string) {
    forall k :: 0 <= k < |calls| ==> !Lists(calls[k], runId, p)
  }

  // The hash of a path that was listed is that of the last call which listed it.
  lemma {:induction false} ListedShows(calls: seq<Registration>, runId: string, p: string, before: Option<Rec>, j: nat)
    requires LastLists(calls, runId, p, j)
    ensures ShownAfter(calls, runId, p, before).Some?
    ensures ShownAfter(calls, runId, p, before).value.sha == calls[j].look(p).rec.sha
  {
    hide Listed;
    var init := calls[..|calls| - 1];
    if j < |init| {
      ListedShows(init, runId, p, before, j);
    }
  }

  // A path that was never listed keeps what it showed first: what was there before, or else
  // what the first call found whose walk came by.
  lemma {:induction false} WalkedShows(calls: seq<Registration>, runId: string, p: string, before: Option<Rec>)
    requires NeverListed(calls, runId, p)
    ensures before.Some? ==> ShownAfter(calls, runId, p, before) == before
    ensures (forall k :: 0 <= k < |calls| ==> !Walks(calls[k], runId, p)) ==>
      ShownAfter(calls, runId, p, before) == before
    ensures forall j: nat :: before.None? && FirstWalks(calls, runId, p, j) ==>
      ShownAfter(calls, runId, p, before) == Some(calls[j].look(p).rec)
  {
    hide Listed;
    if calls != [] {
      var init := calls[..|calls| - 1];
      WalkedShows(init, runId, p, before);
      forall j: nat | before.None? && FirstWalks(calls, runId, p, j)
        ensures ShownAfter(calls, runId, p, before) == Some(calls[j].look(p).rec)
      {
        if j < |init| {
          assert FirstWalks(init, runId, p, j);
        }
      }
    }
  }

  // After any calls on an empty table: a path shows the hash that it had at the last call
  // which listed it, or, never listed, at the first whose walk came by; otherwise nothing.
  lemma ShownIs(calls: seq<Registration>, runId: string, p: string)
    ensures var shown := ShownAfter(calls, runId, p, None);
      (forall j: nat :: LastLists(calls, runId, p, j) ==> shown.Some? && shown.value.sha == calls[j].look(p).rec.sha) &&
      (NeverListed(calls, runId, p) ==>
        forall j: nat :: FirstWalks(calls, runId, p, j) ==> shown == Some(calls[j].look(p).rec)) &&
      (shown.Some? <==> exists k :: 0 <= k < |calls| && (Lists(calls[k], runId, p) || Walks(calls[k], runId, p)))
  {
    hide Listed, ShownAfter;
    forall j: nat | LastLists(calls, runId, p, j)
      ensures ShownAfter(calls, runId, p, None).Some? &&
        ShownAfter(calls, runId, p, None).value.sha == calls[j].look(p).rec.sha
    {
      ListedShows(calls, runId, p, None, j);
    }
    if k :| 0 <= k < |calls| && Lists(calls[k], runId, p) {
      var j := LastLister(calls, runId, p, k);
    } else {
      WalkedShows(calls, runId, p, None);
      if k :| 0 <= k < |calls| && Walks(calls[k], runId, p) {
        var j := FirstWalker(calls, runId, p, k);
      }
    }
  }

  lemma {:induction false} LastLister(calls: seq<Registration>, runId: string, p: string, k: nat) returns (j: nat)
    requires k < |calls| && Lists(calls[k], runId, p)
    ensures LastLists(calls, runId, p, j)
    decreases |calls| - k
  {
    hide Lists;
    if l :| k < l < |calls| && Lists(calls[l], runId, p) {
      j := LastLister(calls, runId, p, l);
    } else {
      j := k;
    }
  }

  lemma {:induction false} FirstWalker(calls: seq<Registration>, runId: string, p: string, k: nat) returns (j: nat)
    requires k < |calls| && Walks(calls[k], runId, p)
    ensures FirstWalks(calls, runId, p, j)
    decreases k
  {
    hide Walks;
    if l :| 0 <= l < k && Walks(calls[l], runId, p) {
      j := FirstWalker(calls, runId, p, l);
    } else {
      j := k;
    }
  }

  lemma NoneOrOneListed(p: string)
    requires Texts.TrimSpace(p) != ""
    ensures !Listed([], p) && Listed([p], p)
  {
  }

  // A file that only the walk finds, and that changes between two calls, keeps showing its
  // old hash; listed by the second call it shows the new one.
  lemma ChangedFileKeepsHash(runId: string, p: string, was: Rec, now: Rec)
    requires was.sha != now.sha && Texts.TrimSpace(p) != ""
    ensures var first := Registration(runId, [], [p], q => if q == p then Record(was) else Absent);
      var second := Registration(runId, [], [p], q => if q == p then Record(now) else Absent);
      ShownAfter([first, second], runId, p, None) == Some(was) &&
      ShownAfter([first, second.(paths := [p])], runId, p, None) == Some(now)
  {
    hide Listed;
    var first := Registration(runId, [], [p], q => if q == p then Record(was) else Absent);
    var second := Registration(runId, [], [p], q => if q == p then Record(now) else Absent);
    var third := second.(paths := [p]);
    NoneOrOneListed(p);
    assert [first, second][..1] == [first] && [first, third][..1] == [first] && [first][..0] == [];
    assert ShownAfter([first], runId, p, None) == Some(was);
  }
}
