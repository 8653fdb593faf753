// When the verifier accepts what a run left behind, and what it notices afterwards.
module ReceiptTheorems {
  import opened Wrappers
  import opened Frames
  import opened FileNames
  import opened Texts
  import opened Receipts

  // --- what a run leaves ---

  predicate Named(e: Emission) {
    e.Call? && e.req.tool != ""
  }

  // The positions of the calls that get a receipt.
  function Positions(es: seq<Emission>): seq<nat> {
    if es == [] then []
    else Positions(es[..|es| - 1]) + (if Named(es[|es| - 1]) then [|es| - 1] else [])
  }

  lemma {:induction false} PositionsAre(es: seq<Emission>)
    ensures forall k: nat :: k in Positions(es) <==> k < |es| && Named(es[k])
    ensures forall i, j :: 0 <= i < j < |Positions(es)| ==> Positions(es)[i] < Positions(es)[j]
  {
    if es != [] {
      var init := es[..|es| - 1];
      PositionsAre(init);
      forall i | 0 <= i < |Positions(init)| ensures Positions(init)[i] < |init| {
        assert Positions(init)[i] in Positions(init);
      }
    }
  }

  // The table row and the trace row of one call.
  predicate RowOf(env: Env, e: Emission, r: Row) {
    e.Call? && r.tool == e.req.tool && r.inputHash == HashOf(env, env.marshalReq(e.req)) &&
    r.outputHash == HashOf(env, env.marshalRes(e.res)) && (e.req.reqId > 0 ==> r.no == e.req.reqId)
  }

  ghost predicate Rows(env: Env, es: seq<Emission>, at: seq<nat>, rows: seq<Row>) {
    |rows| == |at| && forall i :: 0 <= i < |at| ==> at[i] < |es| && RowOf(env, es[at[i]], rows[i])
  }

  // A named call adds one row to the table and one receipt to the trace, anything else none.
  lemma StepRows(env: Env, rec: Record, e: Emission)
    ensures var after := Step(env, rec, e);
      after.trace != [] && after.trace[..|after.trace| - 1] == rec.trace &&
      if Named(e) then
        |after.db| == |rec.db| + 1 && after.db[..|rec.db|] == rec.db && RowOf(env, e, after.db[|rec.db|]) &&
        after.db[|rec.db|].no >= 1 && after.trace[|rec.trace|].isTool &&
          RowOf(env, e, TraceRow(after.trace[|rec.trace|]))
      else after.db == rec.db && !after.trace[|rec.trace|].isTool
  {
    hide WriteToolIO;
  }

  lemma RowsSnoc(env: Env, es: seq<Emission>, rows: seq<Row>, more: seq<Row>)
    requires es != [] && Rows(env, es[..|es| - 1], Positions(es[..|es| - 1]), rows)
    requires if Named(es[|es| - 1])
      then |more| == |rows| + 1 && more[..|rows|] == rows && RowOf(env, es[|es| - 1], more[|rows|])
      else more == rows
    ensures Rows(env, es, Positions(es), more)
  {
    var init, at, all := es[..|es| - 1], Positions(es[..|es| - 1]), Positions(es);
    assert all == at + if Named(es[|es| - 1]) then [|es| - 1] else [];
    hide RowOf, Named, Positions;
    forall i | 0 <= i < |all| ensures all[i] < |es| && RowOf(env, es[all[i]], more[i]) {
      if i < |at| {
        assert all[i] == at[i] && more[i] == rows[i] && es[at[i]] == init[at[i]];
        assert RowOf(env, init[at[i]], rows[i]);
      } else {
        assert all[i] == |es| - 1 && i == |rows|;
      }
    }
  }

  lemma TraceRowsLast(trace: seq<Entry>)
    requires trace != []
    ensures TraceRows(trace) ==
      TraceRows(trace[..|trace| - 1]) + if trace[|trace| - 1].isTool then [TraceRow(trace[|trace| - 1])] else []
  {
  }

  lemma {:induction false} RowsLeft(env: Env, es: seq<Emission>)
    ensures Rows(env, es, Positions(es), After(env, es).db)
    ensures Rows(env, es, Positions(es), TraceRows(After(env, es).trace))
    ensures forall i :: 0 <= i < |After(env, es).db| ==> After(env, es).db[i].no >= 1
  {
    if es != [] {
      var init, last := es[..|es| - 1], es[|es| - 1];
      RowsLeft(env, init);
      var before, after := After(env, init), After(env, es);
      StepRows(env, before, last);
      TraceRowsLast(after.trace);
      hide Step, RowOf, Rows, Named, Positions, TraceRow, TraceRows;
      RowsSnoc(env, es, before.db, after.db);
      RowsSnoc(env, es, TraceRows(before.trace), TraceRows(after.trace));
    }
  }

  // The last call with the base is at k.
  predicate LastWith(es: seq<Emission>, base: string, k: nat) {
    k < |es| && es[k].Call? && Base(es[k].req.reqId) == base &&
    forall j :: k < j < |es| && es[j].Call? ==> Base(es[j].req.reqId) != base
  }

  predicate Written(env: Env, files: map<ToolFile, Bytes>, e: Emission) {
    e.Call? &&
    ReqFile(Base(e.req.reqId)) in files && files[ReqFile(Base(e.req.reqId))] == env.marshalReq(e.req) + [NEWLINE] &&
    ResFile(Base(e.req.reqId)) in files && files[ResFile(Base(e.req.reqId))] == env.marshalRes(e.res) + [NEWLINE]
  }

  ghost predicate CalledWith(es: seq<Emission>, base: string) {
    exists k :: 0 <= k < |es| && es[k].Call? && Base(es[k].req.reqId) == base
  }

  lemma {:induction false} BasesLeft(env: Env, es: seq<Emission>, base: string)
    ensures base in Bases(After(env, es).files) <==> CalledWith(es, base)
  {
    hide Base, Step;
    if es != [] {
      var init, last := es[..|es| - 1], es[|es| - 1];
      BasesLeft(env, init, base);
      BasesGrow(env, es);
      if CalledWith(init, base) {
        var k :| 0 <= k < |init| && init[k].Call? && Base(init[k].req.reqId) == base;
        assert es[k] == init[k];
      }
      if CalledWith(es, base) {
        var k :| 0 <= k < |es| && es[k].Call? && Base(es[k].req.reqId) == base;
        assert k < |init| ==> init[k] == es[k];
      }
    }
  }

  // The files under a base are those of the last call with it.
  lemma {:induction false} FilesLeft(env: Env, es: seq<Emission>, base: string, k: nat)
    requires LastWith(es, base, k)
    ensures var files, call := After(env, es).files, es[k];
      ReqFile(base) in files && files[ReqFile(base)] == env.marshalReq(call.req) + [10] &&
      ResFile(base) in files && files[ResFile(base)] == env.marshalRes(call.res) + [10] &&
      ReceiptFile(base) in files && files[ReceiptFile(base)] == call.receipt
    ensures Written(env, After(env, es).files, es[k])
  {
    hide Base;
    var init, last := es[..|es| - 1], es[|es| - 1];
    if k < |init| {
      assert LastWith(init, base, k);
      FilesLeft(env, init, base, k);
    }
  }

  lemma BasesGrow(env: Env, es: seq<Emission>)
    requires es != []
    ensures var before, after, last := After(env, es[..|es| - 1]).files, After(env, es).files, es[|es| - 1];
      Bases(after) == Bases(before) + if last.Call? then {Base(last.req.reqId)} else {}
  {
    var before, after, last := After(env, es[..|es| - 1]).files, After(env, es).files, es[|es| - 1];
    forall b ensures b in Bases(after) <==> b in Bases(before) || (last.Call? && b == Base(last.req.reqId)) {
      assert b in Bases(after) <==> ReqFile(b) in after;
      assert b in Bases(before) <==> ReqFile(b) in before;
    }
  }

  lemma {:induction false} LastExists(es: seq<Emission>, base: string, k: nat) returns (last: nat)
    requires k < |es| && es[k].Call? && Base(es[k].req.reqId) == base
    ensures k <= last && LastWith(es, base, last)
    decreases |es| - k
  {
    if j :| k < j < |es| && es[j].Call? && Base(es[j].req.reqId) == base {
      last := LastExists(es, base, j);
    } else {
      last := k;
    }
  }

  lemma TrimWritten(b: Bytes)
    ensures TrimNewline(b + [NEWLINE]) == b
  {
  }

  // What the verifier reads under a base: the last call with it.
  lemma LoadedIs(env: Env, es: seq<Emission>, k: nat)
    requires Faithful(env) && k < |es| && es[k].Call? && LastWith(es, Base(es[k].req.reqId), k)
    ensures LoadFile(env, After(env, es).files, Base(es[k].req.reqId)) ==
      Some(Row(es[k].req.reqId, es[k].req.tool, HashOf(env, env.marshalReq(es[k].req)),
        HashOf(env, env.marshalRes(es[k].res)), ""))
  {
    FilesLeft(env, es, Base(es[k].req.reqId), k);
    TrimWritten(env.marshalReq(es[k].req));
    TrimWritten(env.marshalRes(es[k].res));
  }

  // --- completeness ---

  // Every call without a tool name is made good by a later named call with its id.
  ghost predicate NamelessCovered(es: seq<Emission>) {
    forall k :: 0 <= k < |es| && es[k].Call? && es[k].req.tool == "" ==>
      exists j :: k < j < |es| && Named(es[j]) && es[j].req.reqId == es[k].req.reqId
  }

  function IdAt(es: seq<Emission>, at: seq<nat>, i: nat): int
    requires i < |at| && at[i] < |es| && es[at[i]].Call?
  {
    es[at[i]].req.reqId
  }

  // Every line of the trace fits the scanner.
  ghost predicate ShortLines(es: seq<Emission>) {
    forall k :: 0 <= k < |es| ==> es[k].size < 65536
  }

  // One line for each emission, of its size, numbered from 1.
  ghost predicate LinesOf(es: seq<Emission>, trace: seq<Entry>) {
    |trace| == |es| && forall k :: 0 <= k < |es| ==> trace[k].size == es[k].size && trace[k].no == k + 1
  }

  lemma LinesSnoc(es: seq<Emission>, before: seq<Entry>, after: seq<Entry>)
    requires es != [] && LinesOf(es[..|es| - 1], before)
    requires |after| == |es| && after[..|before|] == before
    requires after[|before|].size == es[|es| - 1].size && after[|before|].no == |es|
    ensures LinesOf(es, after)
  {
    forall k | 0 <= k < |es| ensures after[k].size == es[k].size && after[k].no == k + 1 {
      if k < |before| {
        assert after[k] == before[k] && es[k] == es[..|es| - 1][k];
      }
    }
  }

  lemma {:induction false} LinesLeft(env: Env, es: seq<Emission>)
    ensures LinesOf(es, After(env, es).trace) && After(env, es).lastSeq == |es|
  {
    if es != [] {
      LinesLeft(env, es[..|es| - 1]);
      StepLine(env, After(env, es[..|es| - 1]), es[|es| - 1]);
      hide Step, LinesOf;
      LinesSnoc(es, After(env, es[..|es| - 1]).trace, After(env, es).trace);
    }
  }

  lemma StepLine(env: Env, rec: Record, e: Emission)
    ensures var after := Step(env, rec, e);
      after.lastSeq == rec.lastSeq + 1 && |after.trace| == |rec.trace| + 1 && after.trace[..|rec.trace|] == rec.trace &&
      after.trace[|rec.trace|].size == e.size && after.trace[|rec.trace|].no == rec.lastSeq + 1
  {
    hide WriteToolIO, PayloadOf, ExtractToolReceipt;
  }

  lemma ScannableIffShort(env: Env, es: seq<Emission>)
    ensures AllScannable(After(env, es).trace) <==> ShortLines(es)
  {
    hide After;
    LinesLeft(env, es);
    var trace := After(env, es).trace;
    if AllScannable(trace) {
      forall k | 0 <= k < |es| ensures es[k].size < 65536 {
        assert Scannable(trace[k]);
      }
    }
  }

  // The lines of the trace are short, the ids of the named calls are positive and rise,
  // and so do their file names.
  ghost predicate Regular(es: seq<Emission>) {
    var at := Positions(es);
    ShortLines(es) && NamelessCovered(es) &&
    (forall i :: 0 <= i < |at| ==> at[i] < |es| && Named(es[at[i]]) && IdAt(es, at, i) >= 1) &&
    (forall i, j :: 0 <= i < j < |at| ==>
      at[i] < |es| && at[j] < |es| && Named(es[at[i]]) && Named(es[at[j]]) &&
      IdAt(es, at, i) < IdAt(es, at, j) && NameLess(IdAt(es, at, i), IdAt(es, at, j)))
  }

  lemma NamedUnique(es: seq<Emission>, i: nat, j: nat)
    requires Regular(es) && i < |Positions(es)| && j < |Positions(es)|
    requires IdAt(es, Positions(es), i) == IdAt(es, Positions(es), j)
    ensures i == j
  {
  }

  // Among regular calls the last one with an id is the named one.
  lemma NamedIsLast(es: seq<Emission>, i: nat)
    requires Regular(es) && i < |Positions(es)|
    ensures LastWith(es, Base(IdAt(es, Positions(es), i)), Positions(es)[i])
  {
    hide Base;
    var at := Positions(es);
    PositionsAre(es);
    var last := LastExists(es, Base(es[at[i]].req.reqId), at[i]);
    BaseInjective(es[last].req.reqId, es[at[i]].req.reqId);
    assert Named(es[last]);
    var j :| 0 <= j < |at| && at[j] == last;
    NamedUnique(es, i, j);
  }

  function BasesOf(es: seq<Emission>, at: seq<nat>): (bases: seq<string>)
    requires forall i :: 0 <= i < |at| ==> at[i] < |es| && es[at[i]].Call?
    ensures |bases| == |at|
  {
    seq(|at|, (i: nat) requires i < |at| => Base(IdAt(es, at, i)))
  }

  lemma RegularGlob(env: Env, es: seq<Emission>)
    requires Regular(es)
    ensures IsGlob(After(env, es).files, BasesOf(es, Positions(es)))
  {
    var at := Positions(es);
    var bases := BasesOf(es, at);
    PositionsAre(es);
    forall i, j | 0 <= i < j < |bases| ensures BaseLess(bases[i], bases[j]) {
      assert NameLess(IdAt(es, at, i), IdAt(es, at, j));
    }
    forall b ensures b in NameSet(bases) <==> b in Bases(After(env, es).files) {
      BasesLeft(env, es, b);
      if b in NameSet(bases) {
        var i :| 0 <= i < |bases| && bases[i] == b;
        assert es[at[i]].Call?;
      }
      if CalledWith(es, b) {
        NamedWithBase(es, b);
      }
    }
  }

  lemma NamedWithBase(es: seq<Emission>, b: string)
    requires Regular(es) && CalledWith(es, b)
    ensures b in NameSet(BasesOf(es, Positions(es)))
  {
    var at := Positions(es);
    PositionsAre(es);
    var k :| 0 <= k < |es| && es[k].Call? && Base(es[k].req.reqId) == b;
    var j := k;
    if !Named(es[k]) {
      j :| k < j < |es| && Named(es[j]) && es[j].req.reqId == es[k].req.reqId;
    }
    assert j in at;
    var i :| 0 <= i < |at| && at[i] == j;
    assert BasesOf(es, at)[i] == b;
  }

  lemma RegularSorted(env: Env, es: seq<Emission>)
    requires Regular(es)
    ensures OrderBySeq(After(env, es).db) == After(env, es).db
  {
    hide After, TraceRows, Base, OrderBySeq;
    var rows, at := After(env, es).db, Positions(es);
    RowsLeft(env, es);
    forall i, j | 0 <= i < j < |rows| ensures rows[i].no <= rows[j].no {
      assert IdAt(es, at, i) < IdAt(es, at, j);
    }
    OrderOfSorted(rows);
  }

  // The i-th rows of the three records of a regular run.
  lemma RegularRow(env: Env, es: seq<Emission>, i: nat)
    requires Faithful(env) && Regular(es) && i < |Positions(es)|
    ensures |After(env, es).db| == |Positions(es)| == |TraceRows(After(env, es).trace)|
    ensures var file := LoadFile(env, After(env, es).files, Base(IdAt(es, Positions(es), i)));
      file.Some? && SameRow(After(env, es).db[i], file.value) &&
        SameRow(TraceRows(After(env, es).trace)[i], After(env, es).db[i])
  {
    hide After, TraceRows, LoadFile, Base;
    RowsLeft(env, es);
    NamedIsLast(es, i);
    LoadedIs(env, es, Positions(es)[i]);
  }

  lemma RegularVerifies(env: Env, es: seq<Emission>)
    requires Faithful(env) && Regular(es)
    ensures Verifies(env, After(env, es))
  {
    hide After, TraceRows, LoadFile, LoadBases, Base, IsGlob, SameRow, OrderBySeq, AllScannable;
    ScannableIffShort(env, es);
    var rec, at := After(env, es), Positions(es);
    var bases := BasesOf(es, at);
    RowsLeft(env, es);
    RegularGlob(env, es);
    RegularSorted(env, es);
    LoadBasesRows(env, rec.files, bases);
    forall i | 0 <= i < |bases|
      ensures LoadFile(env, rec.files, bases[i]).Some? && SameRow(rec.db[i], LoadFile(env, rec.files, bases[i]).value)
      ensures SameRow(TraceRows(rec.trace)[i], rec.db[i])
    {
      RegularRow(env, es, i);
    }
    assert VerifiesWith(env, rec, bases);
  }

  // --- necessity ---

  // The call whose files the verifier reads under the i-th name.
  lemma LoadedAt(env: Env, es: seq<Emission>, bases: seq<string>, i: nat) returns (k: nat)
    requires Faithful(env) && IsGlob(After(env, es).files, bases) && i < |bases|
    ensures LastWith(es, bases[i], k)
    ensures LoadFile(env, After(env, es).files, bases[i]) ==
      Some(Row(es[k].req.reqId, es[k].req.tool, HashOf(env, env.marshalReq(es[k].req)),
        HashOf(env, env.marshalRes(es[k].res)), ""))
  {
    hide Base, LoadFile;
    assert bases[i] in NameSet(bases);
    BasesLeft(env, es, bases[i]);
    var first :| 0 <= first < |es| && es[first].Call? && Base(es[first].req.reqId) == bases[i];
    k := LastExists(es, bases[i], first);
    LoadedIs(env, es, k);
  }

  // Every call left files under some name of the listing.
  lemma ListedAt(env: Env, es: seq<Emission>, bases: seq<string>, k: nat) returns (i: nat)
    requires IsGlob(After(env, es).files, bases) && k < |es| && es[k].Call?
    ensures i < |bases| && bases[i] == Base(es[k].req.reqId)
  {
    hide Base;
    var b := Base(es[k].req.reqId);
    BasesLeft(env, es, b);
    assert CalledWith(es, b);
    assert b in NameSet(bases);
    i :| 0 <= i < |bases| && bases[i] == b;
  }

  // The i-th row of an accepted record: its file row is that of the last call with its
  // id, and it tells the same as the i-th call with a receipt.
  ghost predicate RowAgrees(es: seq<Emission>, bases: seq<string>, i: nat, k: nat, no: int) {
    var at := Positions(es);
    i < |bases| && i < |at| && at[i] < |es| && es[at[i]].Call? &&
    LastWith(es, bases[i], k) && es[k].req.reqId == no && no >= 1 && Named(es[k]) &&
    (es[at[i]].req.reqId > 0 ==> es[at[i]].req.reqId == no)
  }

  lemma AcceptedRow(env: Env, es: seq<Emission>, bases: seq<string>, i: nat) returns (k: nat)
    requires Faithful(env) && IsGlob(After(env, es).files, bases) && VerifiesWith(env, After(env, es), bases) &&
      i < |bases|
    ensures |OrderBySeq(After(env, es).db)| == |bases| == |Positions(es)|
    ensures RowAgrees(es, bases, i, k, OrderBySeq(After(env, es).db)[i].no)
  {
    hide Base, LoadFile, IsGlob, After;
    var rec := After(env, es);
    k := LoadedAt(env, es, bases, i);
    LoadBasesRows(env, rec.files, bases);
    RowsLeft(env, es);
    OrderIsSorted(rec.db);
    PositionsAre(es);
    assert Positions(es)[i] in Positions(es);
    assert OrderBySeq(rec.db)[i] in multiset(OrderBySeq(rec.db));
    assert OrderBySeq(rec.db)[i] in rec.db;
  }

  lemma AllPositive(env: Env, es: seq<Emission>, bases: seq<string>, k: nat)
    requires Faithful(env) && IsGlob(After(env, es).files, bases) && VerifiesWith(env, After(env, es), bases)
    requires k < |es| && es[k].Call?
    ensures es[k].req.reqId >= 1
    ensures es[k].req.tool == "" ==> exists j :: k < j < |es| && Named(es[j]) && es[j].req.reqId == es[k].req.reqId
  {
    hide Base, VerifiesWith, After, IsGlob;
    var i := ListedAt(env, es, bases, k);
    var last := AcceptedRow(env, es, bases, i);
    BaseInjective(es[last].req.reqId, es[k].req.reqId);
  }

  lemma AcceptedRises(env: Env, es: seq<Emission>, bases: seq<string>, i: nat, j: nat)
    requires Faithful(env) && IsGlob(After(env, es).files, bases) && VerifiesWith(env, After(env, es), bases)
    requires i < j < |Positions(es)|
    ensures Positions(es)[i] < |es| && Named(es[Positions(es)[i]]) && Positions(es)[j] < |es| &&
      Named(es[Positions(es)[j]])
    ensures IdAt(es, Positions(es), i) < IdAt(es, Positions(es), j)
    ensures NameLess(IdAt(es, Positions(es), i), IdAt(es, Positions(es), j))
  {
    hide Base, VerifiesWith, After, Less;
    var at := Positions(es);
    AcceptedCount(env, es, bases);
    var k := AcceptedRow(env, es, bases, i);
    var l := AcceptedRow(env, es, bases, j);
    PositionsAre(es);
    assert at[i] in at && at[j] in at;
    AllPositive(env, es, bases, at[i]);
    AllPositive(env, es, bases, at[j]);
    OrderIsSorted(After(env, es).db);
    if IdAt(es, at, i) == IdAt(es, at, j) {
      AscendingDistinct(bases, i, j);
    }
  }

  lemma AcceptedCount(env: Env, es: seq<Emission>, bases: seq<string>)
    requires Faithful(env) && VerifiesWith(env, After(env, es), bases)
    ensures |bases| == |Positions(es)|
  {
    LoadBasesRows(env, After(env, es).files, bases);
    RowsLeft(env, es);
    OrderIsSorted(After(env, es).db);
  }

  lemma AcceptedScans(env: Env, rec: Record, bases: seq<string>)
    requires VerifiesWith(env, rec, bases)
    ensures AllScannable(rec.trace)
  {
  }

  lemma VerifiesRegular(env: Env, es: seq<Emission>)
    requires Faithful(env) && Verifies(env, After(env, es))
    ensures Regular(es)
  {
    hide Base, VerifiesWith, After, Less, IsGlob;
    var at := Positions(es);
    PositionsAre(es);
    var bases :| IsGlob(After(env, es).files, bases) && VerifiesWith(env, After(env, es), bases);
    AcceptedScans(env, After(env, es), bases);
    ScannableIffShort(env, es);
    forall k | 0 <= k < |es| && es[k].Call? && es[k].req.tool == ""
      ensures exists j :: k < j < |es| && Named(es[j]) && es[j].req.reqId == es[k].req.reqId
    {
      AllPositive(env, es, bases, k);
    }
    forall i | 0 <= i < |at| ensures at[i] < |es| && Named(es[at[i]]) && IdAt(es, at, i) >= 1 {
      assert at[i] in at;
      AllPositive(env, es, bases, at[i]);
    }
    forall i, j | 0 <= i < j < |at|
      ensures IdAt(es, at, i) < IdAt(es, at, j) && NameLess(IdAt(es, at, i), IdAt(es, at, j))
    {
      AcceptedRises(env, es, bases, i, j);
    }
  }

  // The verifier accepts what a run left exactly when its calls are regular.
  lemma VerifiesIffRegular(env: Env, es: seq<Emission>)
    requires Faithful(env)
    ensures Verifies(env, After(env, es)) <==> Regular(es)
  {
    if Regular(es) {
      RegularVerifies(env, es);
    }
    if Verifies(env, After(env, es)) {
      VerifiesRegular(env, es);
    }
  }

  // Named calls with rising ids of at most six digits are accepted, as long as no line of
  // the trace is too long for the scanner.
  lemma SixDigitRunsVerify(env: Env, es: seq<Emission>)
    requires Faithful(env) && ShortLines(es)
    requires forall k :: 0 <= k < |es| && es[k].Call? ==> es[k].req.tool != "" && 1 <= es[k].req.reqId <= 999999
    requires forall k, l :: 0 <= k < l < |es| && es[k].Call? && es[l].Call? ==> es[k].req.reqId < es[l].req.reqId
    ensures Verifies(env, After(env, es))
  {
    hide Base, Less;
    var at := Positions(es);
    PositionsAre(es);
    forall i | 0 <= i < |at| ensures at[i] < |es| && Named(es[at[i]]) {
      assert at[i] in at;
    }
    forall i, j | 0 <= i < j < |at| ensures NameLess(IdAt(es, at, i), IdAt(es, at, j)) {
      SixDigitsSort(IdAt(es, at, i), IdAt(es, at, j));
    }
    VerifiesIffRegular(env, es);
  }

  // The bound is sharp: the two ids around it make an honest run fail.
  lemma SeventhDigitFails(env: Env, a: Request, b: Request, res: Response, receipt: Bytes, size: nat)
    requires Faithful(env) && a.tool != "" && b.tool != "" && a.reqId == 999999 && b.reqId == 1000000
    ensures !Verifies(env, After(env, [Call(a, res, receipt, size), Call(b, res, receipt, size)]))
  {
    hide Base, Less, After;
    var es := [Call(a, res, receipt, size), Call(b, res, receipt, size)];
    PositionsAre(es);
    assert 0 in Positions(es) && 1 in Positions(es);
    VerifiesIffRegular(env, es);
    SevenDigitsSortFirst();
    var i :| 0 <= i < |Positions(es)| && Positions(es)[i] == 0;
    var j :| 0 <= j < |Positions(es)| && Positions(es)[j] == 1;
    assert i < j || j < i;
  }

  // One line too long, of a call or of any other event, and the whole record is refused.
  lemma LongLineFails(env: Env, es: seq<Emission>, k: nat)
    requires Faithful(env) && k < |es| && es[k].size >= 65536
    ensures !Verifies(env, After(env, es))
  {
    VerifiesIffRegular(env, es);
  }

  // For instance one honest call whose tool name alone fills the scanner's buffer: a line
  // is longer than the name that it spells out.
  lemma LongNameFails(env: Env, req: Request, res: Response, receipt: Bytes, size: nat)
    requires Faithful(env) && req.reqId == 1 && |req.tool| == 70000 && size >= |req.tool|
    ensures !Verifies(env, After(env, [Call(req, res, receipt, size)]))
    ensures Verifies(env, After(env, [Call(req.(tool := "t"), res, receipt, 300)]))
  {
    LongLineFails(env, [Call(req, res, receipt, size)], 0);
    SixDigitRunsVerify(env, [Call(req.(tool := "t"), res, receipt, 300)]);
  }

  // --- the rows in full ---

  // What one step adds, field by field.
  lemma StepInFull(env: Env, rec: Record, e: Emission)
    requires Named(e)
    ensures var after, no := Step(env, rec, e), e.req.reqId;
      var inHash, outHash := Sha256(env.digest(env.marshalReq(e.req))), Sha256(env.digest(env.marshalRes(e.res)));
      after.trace[..|after.trace| - 1] == rec.trace && |after.trace| == |rec.trace| + 1 &&
      after.db == rec.db + [Row(if no > 0 then no else 1, e.req.tool, inHash, outHash, e.res.errorCode)] &&
      TraceRows(after.trace) ==
        TraceRows(rec.trace) + [Row(if no > 0 then no else rec.lastSeq + 1, e.req.tool, inHash, outHash, "")]
  {
    var after := Step(env, rec, e);
    hide WriteToolIO;
    assert after.trace[..|after.trace| - 1] == rec.trace;
    TraceRowsLast(after.trace);
  }

  // The table row of a named call holds its number, or 1 if it has none, its tool, both
  // hashes and its error code; its receipt in the trace is the same but for the error code,
  // and is numbered by its line if the call has no number.
  lemma {:induction false} TableLeft(env: Env, es: seq<Emission>, i: nat)
    requires i < |Positions(es)|
    ensures Positions(es)[i] < |es| && Named(es[Positions(es)[i]])
    ensures i < |After(env, es).db| && i < |TraceRows(After(env, es).trace)|
    ensures var k := Positions(es)[i];
      var e := es[k];
      var inHash, outHash := Sha256(env.digest(env.marshalReq(e.req))), Sha256(env.digest(env.marshalRes(e.res)));
      After(env, es).db[i] ==
        Row(if e.req.reqId > 0 then e.req.reqId else 1, e.req.tool, inHash, outHash, e.res.errorCode) &&
      TraceRows(After(env, es).trace)[i] ==
        Row(if e.req.reqId > 0 then e.req.reqId else k + 1, e.req.tool, inHash, outHash, "")
  {
    var init, last := es[..|es| - 1], es[|es| - 1];
    var before, after := After(env, init), After(env, es);
    LinesLeft(env, init);
    RowCounts(env, init);
    assert after == Step(env, before, last);
    assert Positions(es) == Positions(init) + if Named(last) then [|es| - 1] else [];
    hide Step, LinesOf, After, Positions, TraceRows, RowOf;
    if Named(last) {
      StepInFull(env, before, last);
    } else {
      StepQuiet(env, before, last);
    }
    if i < |Positions(init)| {
      TableLeft(env, init, i);
    }
  }

  lemma StepQuiet(env: Env, rec: Record, e: Emission)
    requires !Named(e)
    ensures Step(env, rec, e).db == rec.db && TraceRows(Step(env, rec, e).trace) == TraceRows(rec.trace)
  {
    StepRows(env, rec, e);
    hide Step;
    TraceRowsLast(Step(env, rec, e).trace);
  }

  lemma RowCounts(env: Env, es: seq<Emission>)
    ensures |Positions(es)| == |After(env, es).db| == |TraceRows(After(env, es).trace)|
  {
    RowsLeft(env, es);
  }
}
