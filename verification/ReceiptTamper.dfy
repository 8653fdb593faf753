// What the verifier notices when one of the three records is changed afterwards.
module ReceiptTamper {
  import opened Wrappers
  import opened Frames
  import opened Receipts
  import opened Sorting

  // What is hashed below one name: both files, without one trailing newline.
  function Hashed(files: map<ToolFile, Bytes>, base: string): Option<(Bytes, Bytes)> {
    if ReqFile(base) in files && ResFile(base) in files
    then Some((TrimNewline(files[ReqFile(base)]), TrimNewline(files[ResFile(base)])))
    else None
  }

  // The two directories hold the same requests and responses, name by name in sorted order.
  predicate SameListing(a: map<ToolFile, Bytes>, basesA: seq<string>, b: map<ToolFile, Bytes>, basesB: seq<string>) {
    |basesA| == |basesB| &&
    forall i :: 0 <= i < |basesA| ==> Hashed(b, basesB[i]).Some? && Hashed(a, basesA[i]) == Hashed(b, basesB[i])
  }

  ghost predicate SameContents(a: map<ToolFile, Bytes>, b: map<ToolFile, Bytes>) {
    exists basesA, basesB :: IsGlob(a, basesA) && IsGlob(b, basesB) && SameListing(a, basesA, b, basesB)
  }

  // A row tells the bytes it was hashed from.
  lemma RowTellsBytes(env: Env, a: map<ToolFile, Bytes>, baseA: string, b: map<ToolFile, Bytes>, baseB: string)
    requires CollisionFree(env) && LoadFile(env, a, baseA).Some?
    ensures Hashed(b, baseB) == Hashed(a, baseA) ==> LoadFile(env, b, baseB) == LoadFile(env, a, baseA)
    ensures (LoadFile(env, b, baseB).Some? && SameRow(LoadFile(env, a, baseA).value, LoadFile(env, b, baseB).value)) ==>
      Hashed(b, baseB) == Hashed(a, baseA)
  {
  }

  lemma ListingTold(env: Env, a: map<ToolFile, Bytes>, basesA: seq<string>, b: map<ToolFile, Bytes>,
                    basesB: seq<string>)
    requires CollisionFree(env) && LoadBases(env, a, basesA).Some?
    ensures SameListing(a, basesA, b, basesB) <==>
      (LoadBases(env, b, basesB).Some? && SameRows(LoadBases(env, a, basesA).value, LoadBases(env, b, basesB).value))
  {
    hide LoadFile, Hashed, CollisionFree, LoadBases;
    LoadBasesRows(env, a, basesA);
    LoadBasesRows(env, b, basesB);
    forall i | 0 <= i < |basesA| && i < |basesB|
      ensures (Hashed(b, basesB[i]) == Hashed(a, basesA[i])) ==>
        LoadFile(env, b, basesB[i]) == LoadFile(env, a, basesA[i])
      ensures (LoadFile(env, b, basesB[i]).Some? &&
        SameRow(LoadFile(env, a, basesA[i]).value, LoadFile(env, b, basesB[i]).value)) ==>
        Hashed(b, basesB[i]) == Hashed(a, basesA[i])
      ensures LoadFile(env, b, basesB[i]).Some? ==> Hashed(b, basesB[i]).Some?
    {
      RowTellsBytes(env, a, basesA[i], b, basesB[i]);
      LoadedIsHashed(env, b, basesB[i]);
    }
  }

  lemma LoadedIsHashed(env: Env, files: map<ToolFile, Bytes>, base: string)
    ensures LoadFile(env, files, base).Some? ==> Hashed(files, base).Some?
  {
  }

  // Files changed after an accepted run are reported, unless every name still holds the
  // same bytes but for one trailing newline.
  lemma FileEdit(env: Env, rec: Record, files: map<ToolFile, Bytes>)
    requires CollisionFree(env) && Verifies(env, rec)
    ensures Verifies(env, rec.(files := files)) <==> SameContents(rec.files, files)
  {
    hide IsGlob, LoadBases, OrderBySeq, LoadTrace, CollisionFree, SameListing;
    var edited := rec.(files := files);
    var basesA :| IsGlob(rec.files, basesA) && VerifiesWith(env, rec, basesA);
    if Verifies(env, edited) {
      var basesB :| IsGlob(edited.files, basesB) && VerifiesWith(env, edited, basesB);
      ListingTold(env, rec.files, basesA, files, basesB);
    }
    if SameContents(rec.files, files) {
      var b0, basesB :| IsGlob(rec.files, b0) && IsGlob(files, basesB) && SameListing(rec.files, b0, files, basesB);
      OneGlob(rec.files, b0, basesA);
      ListingTold(env, rec.files, basesA, files, basesB);
      assert VerifiesWith(env, edited, basesB);
    }
  }

  lemma OneGlob(files: map<ToolFile, Bytes>, a: seq<string>, b: seq<string>)
    requires IsGlob(files, a) && IsGlob(files, b)
    ensures a == b
  {
    GlobUnique(a, b);
  }

  // A listing with one file changed.
  lemma OneFile(a: map<ToolFile, Bytes>, bases: seq<string>, name: ToolFile, bytes: Bytes)
    requires (name.ReqFile? || name.ResFile?) && name in a && name.base in bases
    requires forall i :: 0 <= i < |bases| ==> Hashed(a, bases[i]).Some?
    ensures SameListing(a, bases, a[name := bytes], bases) <==> TrimNewline(bytes) == TrimNewline(a[name])
  {
    hide TrimNewline;
    var k :| 0 <= k < |bases| && bases[k] == name.base;
    if TrimNewline(bytes) != TrimNewline(a[name]) {
      assert Hashed(a, bases[k]) != Hashed(a[name := bytes], bases[k]);
    }
  }

  // A file that loses, gains or changes a byte before its trailing newline is reported.
  lemma ByteEdit(env: Env, rec: Record, name: ToolFile, bytes: Bytes)
    requires CollisionFree(env) && Verifies(env, rec)
    requires (name.ReqFile? || name.ResFile?) && name.base in Bases(rec.files) && name in rec.files
    ensures Verifies(env, rec.(files := rec.files[name := bytes])) <==>
      TrimNewline(bytes) == TrimNewline(rec.files[name])
  {
    hide Ascending, OrderBySeq, LoadTrace, CollisionFree, LoadBases, LoadFile, Hashed, SameRows, SameListing;
    var files := rec.files[name := bytes];
    FileEdit(env, rec, files);
    assert Bases(files) == Bases(rec.files);
    var bases :| IsGlob(rec.files, bases) && VerifiesWith(env, rec, bases);
    LoadBasesRows(env, rec.files, bases);
    forall i | 0 <= i < |bases| ensures Hashed(rec.files, bases[i]).Some? {
      LoadedIsHashed(env, rec.files, bases[i]);
    }
    assert name.base in NameSet(bases);
    SameNames(rec.files, files, bases);
    OneFile(rec.files, bases, name, bytes);
  }

  lemma SameNames(a: map<ToolFile, Bytes>, b: map<ToolFile, Bytes>, bases: seq<string>)
    requires IsGlob(a, bases) && Bases(a) == Bases(b)
    ensures IsGlob(b, bases)
    ensures SameContents(a, b) <==> SameListing(a, bases, b, bases)
  {
    hide Ascending, SameListing;
    if SameContents(a, b) {
      var x, y :| IsGlob(a, x) && IsGlob(b, y) && SameListing(a, x, b, y);
      OneGlob(a, x, bases);
      OneGlob(b, y, bases);
    }
  }

  lemma LoadTraceIs(trace: seq<Entry>)
    ensures LoadTrace(trace) ==
      if forall k :: 0 <= k < |trace| ==> trace[k].size < 65536 then Some(TraceRows(trace)) else None
  {
    if AllScannable(trace) {
      forall k | 0 <= k < |trace| ensures trace[k].size < 65536 {
        assert Scannable(trace[k]);
      }
    }
  }

  // A trace line added, removed or changed after an accepted run is reported, unless every
  // line is still short enough and the receipts among the lines still read the same.
  lemma TraceEdit(env: Env, rec: Record, trace: seq<Entry>)
    requires Verifies(env, rec)
    ensures LoadTrace(rec.trace).Some?
    ensures Verifies(env, rec.(trace := trace)) <==>
      LoadTrace(trace).Some? && SameRows(LoadTrace(trace).value, LoadTrace(rec.trace).value)
    ensures Verifies(env, rec.(trace := trace)) <==>
      (forall k :: 0 <= k < |trace| ==> trace[k].size < 65536) &&
      |TraceRows(trace)| == |TraceRows(rec.trace)| && forall i :: 0 <= i < |TraceRows(trace)| ==>
        TraceRows(trace)[i].no == TraceRows(rec.trace)[i].no &&
        TraceRows(trace)[i].tool == TraceRows(rec.trace)[i].tool &&
        TraceRows(trace)[i].inputHash == TraceRows(rec.trace)[i].inputHash &&
        TraceRows(trace)[i].outputHash == TraceRows(rec.trace)[i].outputHash
  {
    LoadTraceIs(trace);
    LoadTraceIs(rec.trace);
    hide IsGlob, LoadBases, OrderBySeq, LoadTrace;
    var edited := rec.(trace := trace);
    var bases :| IsGlob(rec.files, bases) && VerifiesWith(env, rec, bases);
    if Verifies(env, edited) {
      var other :| IsGlob(edited.files, other) && VerifiesWith(env, edited, other);
    }
    if LoadTrace(trace).Some? && SameRows(LoadTrace(trace).value, LoadTrace(rec.trace).value) {
      assert VerifiesWith(env, edited, bases);
    }
  }

  // A table row added, removed or changed after an accepted run is reported, unless only
  // error codes, or the order of insertion of different numbers, have changed.
  lemma TableEdit(env: Env, rec: Record, db: seq<Row>)
    requires Verifies(env, rec)
    ensures Verifies(env, rec.(db := db)) <==> SameRows(OrderBySeq(db), OrderBySeq(rec.db))
    ensures |db| != |rec.db| ==> !Verifies(env, rec.(db := db))
    ensures var a, b := OrderBySeq(db), OrderBySeq(rec.db);
      Verifies(env, rec.(db := db)) <==>
        |a| == |b| && forall i :: 0 <= i < |a| ==>
          a[i].no == b[i].no && a[i].tool == b[i].tool && a[i].inputHash == b[i].inputHash &&
          a[i].outputHash == b[i].outputHash
  {
    hide IsGlob, LoadBases, OrderBySeq, LoadTrace;
    var edited := rec.(db := db);
    OrderIsSorted(db);
    OrderIsSorted(rec.db);
    var bases :| IsGlob(rec.files, bases) && VerifiesWith(env, rec, bases);
    if Verifies(env, edited) {
      var other :| IsGlob(edited.files, other) && VerifiesWith(env, edited, other);
      OneGlob(rec.files, other, bases);
    }
    if SameRows(OrderBySeq(db), OrderBySeq(rec.db)) {
      assert VerifiesWith(env, edited, bases);
    }
  }

  // The error code is loaded but never compared.
  lemma {:induction false} ErrorCodesUnseen(rows: seq<Row>, other: seq<Row>)
    requires SameRows(rows, other)
    ensures SameRows(OrderBySeq(rows), OrderBySeq(other))
  {
    if rows != [] {
      var r, o := rows[|rows| - 1], other[|other| - 1];
      ErrorCodesUnseen(rows[..|rows| - 1], other[..|other| - 1]);
      InsertSame(SortBy(ByNo, rows[..|rows| - 1]), SortBy(ByNo, other[..|other| - 1]), r, o);
    }
  }

  lemma {:induction false} InsertSame(rows: seq<Row>, other: seq<Row>, r: Row, o: Row)
    requires SameRows(rows, other) && SameRow(r, o)
    ensures SameRows(InsertBy(ByNo, rows, r), InsertBy(ByNo, other, o))
  {
    if rows != [] && ByNo(rows[|rows| - 1]) > ByNo(r) {
      InsertSame(rows[..|rows| - 1], other[..|other| - 1], r, o);
    }
  }
}
