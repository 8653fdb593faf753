// Registering the artifacts of a run in the table.
module RegistryRuntime {
  import opened Wrappers
  import opened Registry
  import Texts

  class ArtifactTable {
    var rows: seq<ArtifactRow>

    ghost predicate Valid()
      reads this
    {
      Unique(rows)
    }

    constructor ()
      ensures Valid() && rows == []
    {
      rows := [];
    }

    ghost function Shows(runID: string, p: string): Option<Rec>
      reads this
    {
      Lookup(rows, runID, p)
    }

    // seen tells the hashes that the table has for the run.
    ghost predicate Tells(seen: map<string, string>, runID: string)
      reads this
    {
      forall p :: (p in seen <==> Shows(runID, p).Some?) && (p in seen ==> seen[p] == Shows(runID, p).value.sha)
    }

    method Existing(runID: string) returns (seen: map<string, string>)
      ensures Tells(seen, runID)
    {
      seen := map[];
      for i := 0 to |rows|
        invariant forall p :: p in seen <==> Lookup(rows[..i], runID, p).Some?
        invariant forall p :: p in seen ==> seen[p] == Lookup(rows[..i], runID, p).value.sha
      {
        assert rows[..i + 1][..i] == rows[..i];
        if rows[i].runId == runID {
          seen := seen[rows[i].path := rows[i].rec.sha];
        }
      }
      assert rows[..|rows|] == rows;
    }

    // Only the row for this run and path is new, deleted or changed.
    twostate predicate OnlyAt(runID: string, path: string)
      reads this
    {
      forall r, p :: !(r == runID && p == path) ==> Shows(r, p) == old(Shows(r, p))
    }

    method InsertArtifact(runID: string, path: string, rec: Rec)
      requires Valid() && Shows(runID, path).None?
      modifies this
      ensures Valid() && Shows(runID, path) == Some(rec) && OnlyAt(runID, path)
    {
      var row := ArtifactRow(runID, path, rec);
      InsertUnique(rows, row);
      forall r, p
        ensures Lookup(rows + [row], r, p) == if Matches(row, r, p) then Some(row.rec) else Lookup(rows, r, p)
      {
        InsertLookup(rows, row, r, p);
      }
      rows := rows + [row];
    }

    method DeleteArtifact(runID: string, path: string)
      requires Valid()
      modifies this
      ensures Valid() && Shows(runID, path).None? && OnlyAt(runID, path)
    {
      DeleteUnique(rows, runID, path);
      forall r, p
        ensures Lookup(Delete(rows, runID, path), r, p) == if r == runID && p == path then None else Lookup(rows, r, p)
      {
        DeleteLookup(rows, runID, path, r, p);
      }
      rows := Delete(rows, runID, path);
    }

    // One listed path that is there.
    method Register(runID: string, p: string, rec: Rec, seen: map<string, string>) returns (next: map<string, string>)
      requires Valid() && Tells(seen, runID)
      modifies this
      ensures Valid() && Tells(next, runID) && OnlyAt(runID, p)
      ensures Shows(runID, p) == Expected(old(Shows(runID, p)), true, false, Record(rec))
    {
      next := seen;
      if p in seen {
        if seen[p] == rec.sha {
          return;
        }
        DeleteArtifact(runID, p);
      }
      next := seen[p := rec.sha];
      InsertArtifact(runID, p, rec);
    }

    // What the table shows for the run once the first k listed paths are registered.
    twostate predicate ListedDone(runID: string, paths: seq<string>, look: string -> Looked)
      reads this
    {
      (forall p :: Shows(runID, p) == Expected(old(Shows(runID, p)), Listed(paths, p), false, look(p))) &&
      (forall r, p :: r != runID ==> Shows(r, p) == old(Shows(r, p)))
    }

    twostate predicate AllDone(runID: string, paths: seq<string>, walked: seq<string>, look: string -> Looked)
      reads this
    {
      (forall p :: Shows(runID, p) == Expected(old(Shows(runID, p)), Listed(paths, p), p in walked, look(p))) &&
      (forall r, p :: r != runID ==> Shows(r, p) == old(Shows(r, p)))
    }

    method PersistListed(runID: string, paths: seq<string>, look: string -> Looked)
      returns (ok: bool, seen: map<string, string>)
      requires Valid()
      modifies this
      ensures Valid()
      ensures ok ==> Tells(seen, runID) && ListedDone(runID, paths, look)
      ensures ok ==> forall p :: p in paths && Texts.TrimSpace(p) != "" && look(p).Record? ==>
        Shows(runID, p).Some? && Shows(runID, p).value.sha == look(p).rec.sha
      ensures ok ==> forall p :: p !in paths || Texts.TrimSpace(p) == "" || look(p).Absent? ==>
        Shows(runID, p) == old(Shows(runID, p))
      ensures !ok ==> exists k: nat :: k < |paths| && look(paths[k]).Broken? && ListedDone(runID, paths[..k], look)
    {
      hide Expected, Unique;
      seen := Existing(runID);
      NothingExpected(look);
      for k := 0 to |paths|
        invariant Valid() && Tells(seen, runID) && ListedDone(runID, paths[..k], look)
      {
        var p := paths[k];
        ListedMore(paths, k);
        if Texts.TrimSpace(p) == "" {
          continue;
        }
        var there := look(p);
        if there.Broken? {
          return false, seen;
        }
        ListedTwice(look(p));
        if there.Absent? {
          continue;
        }
        seen := Register(runID, p, there.rec, seen);
      }
      assert paths[..|paths|] == paths;
      ListedMeans(paths, look);
      return true, seen;
    }

    // The paths of the walk, without those already seen.
    method PersistWalked(runID: string, walked: seq<string>, look: string -> Looked, seen: map<string, string>)
      returns (ok: bool)
      requires Valid() && Tells(seen, runID) && Distinct(walked)
      modifies this
      ensures Valid()
      ensures ok ==> AllDone(runID, [], walked, look)
      ensures !ok ==> exists k: nat :: k < |walked| && look(walked[k]).Broken? && AllDone(runID, [], walked[..k], look)
    {
      for k := 0 to |walked|
        invariant Valid() && AllDone(runID, [], walked[..k], look)
      {
        var p := walked[k];
        assert walked[..k + 1] == walked[..k] + [p];
        assert p !in walked[..k];
        if p in seen {
          continue;
        }
        var there := look(p);
        if there.Broken? {
          return false;
        }
        if there.Absent? {
          continue;
        }
        InsertArtifact(runID, p, there.rec);
      }
      assert walked[..|walked|] == walked;
      return true;
    }

    // The listed paths, and then whatever the walk of the run directories found, sorted.
    method PersistRunArtifacts(runID: string, paths: seq<string>, found: array<string>, look: string -> Looked)
      returns (ok: bool)
      requires Valid() && SortedStrings(found[..])
      modifies this, found
      ensures Valid()
      ensures ok ==> AllDone(runID, paths, old(found[..]), look)
      ensures !ok ==> exists p :: (p in paths || p in old(found[..])) && look(p).Broken?
    {
      hide Expected, Unique, Deduped, Grouped, Distinct, SortedStrings;
      ghost var walk := found[..];
      SortedIsGrouped(walk);
      DedupedDistinct(walk);
      DedupedFits(walk);
      var listed, seen := PersistListed(runID, paths, look);
      if !listed {
        return false;
      }
      var n := DedupeStrings(found);
      assert found[..n] == Deduped(walk);
      ok := PersistWalked(runID, found[..n], look, seen);
      if ok {
        forall p ensures Shows(runID, p) == Expected(old(Shows(runID, p)), Listed(paths, p), p in walk, look(p)) {
          ListedThenWalked(old(Shows(runID, p)), Listed(paths, p), p in walk, look(p));
        }
      }
    }

    // Any number of calls, for any runs, up to the first that fails.
    method PersistAll(calls: seq<Registration>) returns (ok: bool)
      requires Valid() && forall k :: 0 <= k < |calls| ==> SortedStrings(calls[k].walked)
      modifies this
      ensures Valid()
      ensures ok ==> forall r, p :: Shows(r, p) == ShownAfter(calls, r, p, old(Shows(r, p)))
      ensures !ok ==> exists k, p ::
        0 <= k < |calls| && (p in calls[k].paths || p in calls[k].walked) && calls[k].look(p).Broken?
    {
      hide Expected, Unique, SortedStrings;
      for k := 0 to |calls|
        invariant Valid()
        invariant forall r, p :: Shows(r, p) == ShownAfter(calls[..k], r, p, old(Shows(r, p)))
      {
        var c := calls[k];
        var found := new string[|c.walked|](i requires 0 <= i < |c.walked| => c.walked[i]);
        assert found[..] == c.walked;
        ok := PersistRunArtifacts(c.runId, c.paths, found, c.look);
        if !ok {
          return;
        }
        assert calls[..k + 1][..k] == calls[..k] && calls[..k + 1][k] == c;
      }
      assert calls[..|calls|] == calls;
      ok := true;
    }
  }

  lemma ListedThenWalked(before: Option<Rec>, listed: bool, walked: bool, there: Looked)
    ensures Expected(Expected(before, listed, false, there), false, walked, there) ==
      Expected(before, listed, walked, there)
  {
  }

  // What the table shows for a run and a path stands in exactly one row.
  lemma OneRow(rows: seq<ArtifactRow>, runId: string, path: string) returns (i: nat)
    requires Unique(rows) && Lookup(rows, runId, path).Some?
    ensures i < |rows| && rows[i] == ArtifactRow(runId, path, Lookup(rows, runId, path).value)
    ensures forall j :: 0 <= j < |rows| && Matches(rows[j], runId, path) ==> j == i
  {
    LookupFinds(rows, runId, path);
    i :| 0 <= i < |rows| && Matches(rows[i], runId, path);
    LookupIs(rows, i);
  }

  lemma ListedMeans(paths: seq<string>, look: string -> Looked)
    ensures forall p: string, before: Option<Rec> :: p in paths && Texts.TrimSpace(p) != "" && look(p).Record? ==>
      Expected(before, Listed(paths, p), false, look(p)).Some? &&
      Expected(before, Listed(paths, p), false, look(p)).value.sha == look(p).rec.sha
    ensures forall p: string, before: Option<Rec> :: p !in paths || Texts.TrimSpace(p) == "" || look(p).Absent? ==>
      Expected(before, Listed(paths, p), false, look(p)) == before
  {
  }

  lemma NothingExpected(look: string -> Looked)
    ensures forall p: string, before: Option<Rec> :: Expected(before, Listed([], p), false, look(p)) == before
  {
  }

  lemma ListedMore(paths: seq<string>, k: nat)
    requires k < |paths|
    ensures forall p :: Listed(paths[..k + 1], p) <==>
      Listed(paths[..k], p) || (p == paths[k] && Texts.TrimSpace(p) != "")
  {
    assert paths[..k + 1] == paths[..k] + [paths[k]];
  }

  // Registering a path once more changes nothing.
  lemma ListedTwice(there: Looked)
    ensures forall before: Option<Rec>, listed: bool :: there.Record? ==>
      Expected(Expected(before, listed, false, there), true, false, there) == Expected(before, true, false, there)
    ensures forall before: Option<Rec>, listed: bool :: there.Absent? ==>
      Expected(before, listed, false, there) == before
  {
  }
}
