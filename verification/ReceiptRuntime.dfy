// The record of one run as the program keeps it, and the verifier that reads it back.
module ReceiptRuntime {
  import opened Wrappers
  import opened Frames
  import opened FileNames
  import opened Receipts

  datatype Report =
    | Verified(rows: seq<Row>)
    | LineTooLong(line: nat)
    | Unreadable(base: string)
    | FileCount(db: nat, file: nat)
    | TraceCount(db: nat, trace: nat)
    | FileDiffers(at: nat)
    | TraceDiffers(at: nat)

  class RunRecord {
    var files: map<ToolFile, Bytes>
    var trace: seq<Entry>
    var lastSeq: nat
    var db: seq<Row>

    function Abs(): Record
      reads this
    {
      Record(files, trace, lastSeq, db)
    }

    constructor ()
      ensures Numbered() && forall env :: Abs() == After(env, [])
    {
      files, trace, lastSeq, db := map[], [], 0, [];
    }

    // The lines of the trace are numbered from 1.
    ghost predicate Numbered()
      reads this
    {
      lastSeq == |trace| && forall k :: 0 <= k < |trace| ==> trace[k].no == k + 1
    }

    // The next line of the trace: a receipt exactly if the payload has one.
    method EmitTrace(event: string, p: Payload, size: nat)
      requires Numbered()
      modifies `trace, `lastSeq
      ensures Numbered() && |trace| == old(|trace|) + 1 && trace[..old(|trace|)] == old(trace)
      ensures trace == Receipts.Emit(old(Abs()), event, p, size).trace
      ensures TraceRows(trace) == TraceRows(old(trace)) + TraceReceipt(event, p, lastSeq)
    {
      hide FirstNonEmpty;
      lastSeq := lastSeq + 1;
      var entry := Entry(lastSeq, false, "", NoHash, NoHash, p, size);
      var receipt := ExtractToolReceipt(event, p);
      if receipt.Some? {
        var tr := receipt.value;
        entry := entry.(isTool := true, tool := tr.tool, argsHash := tr.inputHash, outputHash := tr.outputHash);
      }
      LastTraceRow(event, p, entry);
      assert (trace + [entry])[..|trace|] == trace;
      trace := trace + [entry];
    }

    // The line of the trace and, for a receipt, the row of the table. The two tell the same
    // exactly if the payload numbers the call, or the line is the first.
    method Emit(event: string, p: Payload, size: nat)
      requires Numbered()
      modifies `trace, `lastSeq, `db
      ensures Numbered() && Abs() == Receipts.Emit(old(Abs()), event, p, size)
      ensures ExtractToolReceipt(event, p).None? ==> db == old(db) && TraceRows(trace) == TraceRows(old(trace))
      ensures var receipt := ExtractToolReceipt(event, p);
        receipt.Some? ==>
          (|db| == old(|db|) + 1 && db[..old(|db|)] == old(db) && db[old(|db|)].no >= 1 &&
           exists r :: TraceRows(trace) == TraceRows(old(trace)) + [r] &&
             (SameRow(r, db[old(|db|)]) <==> receipt.value.no > 0 || old(lastSeq) == 0))
    {
      EmitTrace(event, p, size);
      var receipt := ExtractToolReceipt(event, p);
      if receipt.Some? {
        var tr := receipt.value;
        var no := tr.no;
        if no <= 0 {
          no := 1;
        }
        var row := Row(no, tr.tool, tr.inputHash, tr.outputHash, tr.errorCode);
        db := db + [row];
        ReceiptsAgree(event, p, lastSeq, row);
      }
    }

    // The three files of a call and its payload: what is read back under the call's name is
    // the call, with the hashes of the payload, and no other name is touched.
    method BuildToolResultPayload(env: Env, req: Request, res: Response, receipt: Bytes) returns (p: Payload)
      modifies `files
      ensures files == WriteToolIO(env, old(files), req, res, receipt)
      ensures p == PayloadOf(env, req, res)
      ensures Faithful(env) ==>
        LoadFile(env, files, Base(req.reqId)) == Some(Row(req.reqId, req.tool, p.inputHash, p.outputHash, ""))
      ensures forall base :: base != Base(req.reqId) ==> LoadFile(env, files, base) == LoadFile(env, old(files), base)
    {
      hide Base;
      var reqBytes, resBytes := env.marshalReq(req), env.marshalRes(res);
      var base := Base(req.reqId);
      files := files[ReqFile(base) := reqBytes + [NEWLINE]];
      files := files[ResFile(base) := resBytes + [NEWLINE]];
      files := files[ReceiptFile(base) := receipt];
      p := ToolResult(req.reqId, req.tool, HashOf(env, reqBytes), HashOf(env, reqBytes), HashOf(env, resBytes),
        res.errorCode);
    }

    // One tool call: files, then trace, then table.
    method RecordCall(env: Env, req: Request, res: Response, receipt: Bytes, size: nat, ghost es: seq<Emission>)
      requires Abs() == After(env, es) && Numbered()
      modifies this
      ensures Abs() == After(env, es + [Call(req, res, receipt, size)]) && Numbered()
    {
      hide LoadFile, TraceRows, SameRow, Faithful;
      assert (es + [Call(req, res, receipt, size)])[..|es|] == es;
      var p := BuildToolResultPayload(env, req, res, receipt);
      Emit("vm.tool.result", p, size);
    }

    // The rows of the receipts, or the first line that is too long.
    method LoadTraceToolHashes() returns (rows: seq<Row>, failed: Option<nat>)
      ensures LoadTrace(trace) == if failed.None? then Some(rows) else None
      ensures failed.Some? ==> FirstTooLong(trace, failed.value)
    {
      rows, failed := [], None;
      for i := 0 to |trace|
        invariant rows == TraceRows(trace[..i])
        invariant AllScannable(trace[..i])
      {
        assert trace[..i + 1][..i] == trace[..i];
        if !Scannable(trace[i]) {
          assert FirstTooLong(trace, i);
          return [], Some(i);
        }
        if trace[i].isTool {
          rows := rows + [TraceRow(trace[i])];
        }
      }
      assert trace[..|trace|] == trace;
    }

    // The rows below toolio/ in the order of the sorted listing, or the first name that
    // cannot be read.
    method LoadToolIOHashes(env: Env, bases: seq<string>) returns (rows: seq<Row>, failed: Option<string>)
      ensures LoadBases(env, files, bases) == if failed.None? then Some(rows) else None
      ensures failed.Some? ==> exists i: nat :: FirstUnreadable(env, files, bases, i) && bases[i] == failed.value
    {
      rows, failed := [], None;
      for i := 0 to |bases|
        invariant LoadBases(env, files, bases[..i]) == Some(rows)
      {
        assert bases[..i + 1][..i] == bases[..i];
        var row := LoadFile(env, files, bases[i]);
        LoadBasesRows(env, files, bases[..i]);
        if row.None? {
          LoadBasesRows(env, files, bases);
          assert FirstUnreadable(env, files, bases, i);
          return [], Some(bases[i]);
        }
        rows := rows + [row.value];
      }
      assert bases[..|bases|] == bases;
    }

    // VerifyReplayHashes on the sorted listing of toolio/*.req.json.
    method VerifyReplayHashes(env: Env, bases: seq<string>) returns (report: Report)
      requires IsGlob(files, bases)
      ensures report.Verified? <==> Verifies(env, Abs())
      ensures report.Verified? ==> report.rows == OrderBySeq(db)
      ensures report.LineTooLong? ==> FirstTooLong(trace, report.line)
      ensures report.Unreadable? ==> exists i: nat :: FirstUnreadable(env, files, bases, i) && bases[i] == report.base
      ensures report.FileCount? ==> report.db == |db| && report.file == |bases| && report.db != report.file
      ensures report.TraceCount? ==>
        report.db == |db| && report.trace == |TraceRows(trace)| && report.db != report.trace
      ensures report.LineTooLong? <==> LoadTrace(trace).None?
      ensures report.Unreadable? <==> LoadTrace(trace).Some? && LoadBases(env, files, bases).None?
      ensures report.FileCount? <==>
        LoadTrace(trace).Some? && LoadBases(env, files, bases).Some? && |db| != |bases|
      ensures report.TraceCount? <==>
        LoadTrace(trace).Some? && LoadBases(env, files, bases).Some? && |db| == |bases| && |db| != |TraceRows(trace)|
      ensures report.FileDiffers? || report.TraceDiffers? ==>
        FirstDifference(env, bases, report.at, report.FileDiffers?)
    {
      OneListing(env, bases);
      OrderIsSorted(db);
      LoadBasesRows(env, files, bases);
      var traceRows, tooLong := LoadTraceToolHashes();
      if tooLong.Some? {
        return LineTooLong(tooLong.value);
      }
      var fileRows, failed := LoadToolIOHashes(env, bases);
      if failed.Some? {
        return Unreadable(failed.value);
      }
      var dbRows := OrderBySeq(db);
      if |dbRows| != |fileRows| {
        return FileCount(|dbRows|, |fileRows|);
      }
      if |dbRows| != |traceRows| {
        return TraceCount(|dbRows|, |traceRows|);
      }
      report := CompareRows(dbRows, fileRows, traceRows);
    }

    // Row by row, the file before the trace; the first difference is reported.
    ghost predicate FirstDifference(env: Env, bases: seq<string>, at: nat, inFile: bool)
      reads this
    {
      var rows := LoadBases(env, files, bases);
      rows.Some? && FirstDiffers(OrderBySeq(db), rows.value, TraceRows(trace), at, inFile)
    }

    lemma OneListing(env: Env, bases: seq<string>)
      requires IsGlob(files, bases)
      ensures Verifies(env, Abs()) <==> VerifiesWith(env, Abs(), bases)
    {
      hide VerifiesWith;
      if Verifies(env, Abs()) {
        var other :| IsGlob(files, other) && VerifiesWith(env, Abs(), other);
        GlobUnique(bases, other);
      }
    }
  }

  // What a line with this payload adds to the receipts read from the trace.
  function TraceReceipt(event: string, p: Payload, line: int): seq<Row> {
    match ExtractToolReceipt(event, p)
    case None => []
    case Some(tr) => [Row(if tr.no > 0 then tr.no else line, tr.tool, tr.inputHash, tr.outputHash, "")]
  }

  lemma LastTraceRow(event: string, p: Payload, e: Entry)
    requires e.payload == p
    requires match ExtractToolReceipt(event, p)
      case None => !e.isTool
      case Some(tr) => e.isTool && e.tool == tr.tool && e.argsHash == tr.inputHash && e.outputHash == tr.outputHash
    ensures (if e.isTool then [TraceRow(e)] else []) == TraceReceipt(event, p, e.no)
  {
  }

  lemma ReceiptsAgree(event: string, p: Payload, line: int, row: Row)
    requires ExtractToolReceipt(event, p).Some?
    requires var tr := ExtractToolReceipt(event, p).value;
      row == Row(if tr.no <= 0 then 1 else tr.no, tr.tool, tr.inputHash, tr.outputHash, tr.errorCode)
    ensures |TraceReceipt(event, p, line)| == 1
    ensures SameRow(TraceReceipt(event, p, line)[0], row) <==> ExtractToolReceipt(event, p).value.no > 0 || line == 1
  {
  }

  ghost predicate FirstTooLong(trace: seq<Entry>, i: nat) {
    i < |trace| && !Scannable(trace[i]) && forall j :: 0 <= j < i ==> Scannable(trace[j])
  }

  predicate FirstUnreadable(env: Env, files: map<ToolFile, Bytes>, bases: seq<string>, i: nat) {
    i < |bases| && LoadFile(env, files, bases[i]).None? &&
    forall j :: 0 <= j < i ==> LoadFile(env, files, bases[j]).Some?
  }

  predicate FirstDiffers(dbRows: seq<Row>, fileRows: seq<Row>, traceRows: seq<Row>, at: nat, inFile: bool) {
    at < |dbRows| == |fileRows| == |traceRows| && SameRows(dbRows[..at], fileRows[..at]) &&
      SameRows(traceRows[..at], dbRows[..at]) &&
    if inFile then !SameRow(dbRows[at], fileRows[at])
    else SameRow(dbRows[at], fileRows[at]) && !SameRow(traceRows[at], dbRows[at])
  }

  method CompareRows(dbRows: seq<Row>, fileRows: seq<Row>, traceRows: seq<Row>) returns (report: Report)
    requires |dbRows| == |fileRows| == |traceRows|
    ensures report.Verified? || report.FileDiffers? || report.TraceDiffers?
    ensures report.Verified? <==> SameRows(dbRows, fileRows) && SameRows(traceRows, dbRows)
    ensures report.Verified? <==> forall i :: 0 <= i < |dbRows| ==>
      dbRows[i].no == fileRows[i].no == traceRows[i].no && dbRows[i].tool == fileRows[i].tool == traceRows[i].tool &&
      dbRows[i].inputHash == fileRows[i].inputHash == traceRows[i].inputHash &&
      dbRows[i].outputHash == fileRows[i].outputHash == traceRows[i].outputHash
    ensures report.Verified? ==> report.rows == dbRows
    ensures !report.Verified? ==> FirstDiffers(dbRows, fileRows, traceRows, report.at, report.FileDiffers?)
  {
    for i := 0 to |dbRows|
      invariant forall j :: 0 <= j < i ==> SameRow(dbRows[j], fileRows[j]) && SameRow(traceRows[j], dbRows[j])
    {
      if !SameRow(dbRows[i], fileRows[i]) {
        return FileDiffers(i);
      }
      if !SameRow(traceRows[i], dbRows[i]) {
        return TraceDiffers(i);
      }
    }
    report := Verified(dbRows);
  }
}
