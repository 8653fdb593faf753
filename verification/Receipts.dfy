// One tool call leaves three records: its request and response files, a line of the
// trace, and a row of the tool_calls table. This module says what a sequence of calls
// leaves and what the verifier reads back.
module Receipts {
  import opened Wrappers
  import opened Frames
  import opened FileNames
  import opened Texts
  import opened Sorting

  datatype Hash = NoHash | Sha256(digest: nat)

  datatype Request = Request(reqId: int, tool: string, args: Bytes)

  datatype Response = Response(errorCode: string, data: Bytes)

  // JSON and SHA-256, as far as the records depend on them.
  datatype Env = Env(
    marshalReq: Request -> Bytes,
    marshalRes: Response -> Bytes,
    parseReq: Bytes -> Option<(int, string)>,
    digest: Bytes -> nat)

  ghost predicate Faithful(env: Env) {
    forall r :: env.parseReq(env.marshalReq(r)) == Some((r.reqId, r.tool))
  }

  ghost predicate CollisionFree(env: Env) {
    forall a, b :: env.digest(a) == env.digest(b) ==> a == b
  }

  function HashOf(env: Env, b: Bytes): Hash {
    Sha256(env.digest(b))
  }

  // --- the records ---

  // A name below toolio/, by its ending: .req.json, .res.json or .receipt.json.
  datatype ToolFile = ReqFile(base: string) | ResFile(base: string) | ReceiptFile(base: string)

  datatype Payload =
    | ToolResult(toolSeq: int, tool: string, argsHash: Hash, inputHash: Hash, outputHash: Hash, errorCode: string)
    | OtherPayload

  datatype ToolReceipt = ToolReceipt(no: int, tool: string, inputHash: Hash, outputHash: Hash, errorCode: string)

  // size is the length of the line in the file, without its line break.
  datatype Entry = Entry(no: int, isTool: bool, tool: string, argsHash: Hash, outputHash: Hash, payload: Payload,
    size: nat)

  datatype Row = Row(no: int, tool: string, inputHash: Hash, outputHash: Hash, errorCode: string)

  datatype Record = Record(files: map<ToolFile, Bytes>, trace: seq<Entry>, lastSeq: nat, db: seq<Row>)

  const NEWLINE: byte := 10

  function FirstNonEmpty(a: Hash, b: Hash): Hash {
    if a != NoHash then a else b
  }

  function ExtractToolReceipt(event: string, p: Payload): Option<ToolReceipt> {
    if event != "vm.tool.result" || p.OtherPayload? then None
    else
      var inHash := FirstNonEmpty(p.inputHash, p.argsHash);
      if p.tool == "" || inHash == NoHash || p.outputHash == NoHash then None
      else Some(ToolReceipt(p.toolSeq, p.tool, inHash, p.outputHash, p.errorCode))
  }

  // trace.Writer.Emit and then the insert into tool_calls. Nothing bounds the line.
  function Emit(rec: Record, event: string, p: Payload, size: nat): Record {
    var seqNo := rec.lastSeq + 1;
    match ExtractToolReceipt(event, p)
    case None =>
      rec.(trace := rec.trace + [Entry(seqNo, false, "", NoHash, NoHash, p, size)], lastSeq := seqNo)
    case Some(tr) =>
      rec.(trace := rec.trace + [Entry(seqNo, true, tr.tool, tr.inputHash, tr.outputHash, p, size)], lastSeq := seqNo,
           db := rec.db + [Row(if tr.no <= 0 then 1 else tr.no, tr.tool, tr.inputHash, tr.outputHash, tr.errorCode)])
  }

  function PayloadOf(env: Env, req: Request, res: Response): Payload {
    var inHash, outHash := HashOf(env, env.marshalReq(req)), HashOf(env, env.marshalRes(res));
    ToolResult(req.reqId, req.tool, inHash, inHash, outHash, res.errorCode)
  }

  // The three files of one call; the receipt file is never read back.
  function WriteToolIO(env: Env, files: map<ToolFile, Bytes>, req: Request, res: Response,
                       receipt: Bytes): map<ToolFile, Bytes>
  {
    files[ReqFile(Base(req.reqId)) := env.marshalReq(req) + [NEWLINE]]
         [ResFile(Base(req.reqId)) := env.marshalRes(res) + [NEWLINE]]
         [ReceiptFile(Base(req.reqId)) := receipt]
  }

  // What a run emits: tool results, and other events in between, each with the size of its
  // line in the trace.
  datatype Emission = Call(req: Request, res: Response, receipt: Bytes, size: nat) | Event(name: string, size: nat)

  function Step(env: Env, rec: Record, e: Emission): Record {
    match e
    case Call(req, res, receipt, size) =>
      Emit(rec.(files := WriteToolIO(env, rec.files, req, res, receipt)), "vm.tool.result", PayloadOf(env, req, res),
        size)
    case Event(name, size) => Emit(rec, name, OtherPayload, size)
  }

  function After(env: Env, es: seq<Emission>): Record {
    if es == [] then Record(map[], [], 0, [])
    else Step(env, After(env, es[..|es| - 1]), es[|es| - 1])
  }

  // --- reading the records back ---

  // The tool_seq of the payload if positive, else the number of the line.
  function ToolSeqFromTrace(e: Entry): int {
    if e.payload.ToolResult? && e.payload.toolSeq > 0 then e.payload.toolSeq else e.no
  }

  function TraceRow(e: Entry): Row {
    Row(ToolSeqFromTrace(e), e.tool, e.argsHash,
        FirstNonEmpty(e.outputHash, if e.payload.ToolResult? then e.payload.outputHash else NoHash), "")
  }

  function TraceRows(trace: seq<Entry>): seq<Row> {
    if trace == [] then []
    else TraceRows(trace[..|trace| - 1]) + (if trace[|trace| - 1].isTool then [TraceRow(trace[|trace| - 1])] else [])
  }

  // bufio.MaxScanTokenSize: the scanner's buffer has to hold a line and its line break.
  const MAX_TOKEN := 0x1_0000

  predicate Scannable(e: Entry) {
    e.size < MAX_TOKEN
  }

  predicate AllScannable(trace: seq<Entry>) {
    forall i :: 0 <= i < |trace| ==> Scannable(trace[i])
  }

  // The scanner gives up on a trace with a line that is too long.
  function LoadTrace(trace: seq<Entry>): Option<seq<Row>> {
    if AllScannable(trace) then Some(TraceRows(trace)) else None
  }

  function TrimNewline(b: Bytes): Bytes {
    if b != [] && b[|b| - 1] == NEWLINE then b[..|b| - 1] else b
  }

  function LoadFile(env: Env, files: map<ToolFile, Bytes>, base: string): Option<Row> {
    if ReqFile(base) !in files || ResFile(base) !in files then None
    else
      var reqBytes, resBytes := TrimNewline(files[ReqFile(base)]), TrimNewline(files[ResFile(base)]);
      match env.parseReq(reqBytes)
      case None => None
      case Some((id, tool)) => Some(Row(id, tool, HashOf(env, reqBytes), HashOf(env, resBytes), ""))
  }

  function LoadBases(env: Env, files: map<ToolFile, Bytes>, bases: seq<string>): Option<seq<Row>> {
    if bases == [] then Some([])
    else
      match LoadBases(env, files, bases[..|bases| - 1])
      case None => None
      case Some(rows) =>
        match LoadFile(env, files, bases[|bases| - 1])
        case None => None
        case Some(row) => Some(rows + [row])
  }

  // sort.Strings on the request files.
  predicate BaseLess(a: string, b: string) {
    Less(a + ".req.json", b + ".req.json")
  }

  function Bases(files: map<ToolFile, Bytes>): set<string> {
    set n | n in files && n.ReqFile? :: n.base
  }

  predicate Ascending(bases: seq<string>) {
    forall i, j :: 0 <= i < j < |bases| ==> BaseLess(bases[i], bases[j])
  }

  function NameSet(bases: seq<string>): set<string> {
    set b | b in bases
  }

  predicate IsGlob(files: map<ToolFile, Bytes>, bases: seq<string>) {
    Ascending(bases) && NameSet(bases) == Bases(files)
  }

  function ByNo(r: Row): real {
    r.no as real
  }

  // ORDER BY seq, rows with the same seq in the order of their insertion.
  function OrderBySeq(rows: seq<Row>): seq<Row> {
    SortBy(ByNo, rows)
  }

  // The fields that the verifier compares; the error code is not among them.
  predicate SameRow(a: Row, b: Row) {
    a.no == b.no && a.tool == b.tool && a.inputHash == b.inputHash && a.outputHash == b.outputHash
  }

  predicate SameRows(a: seq<Row>, b: seq<Row>) {
    |a| == |b| && forall i :: 0 <= i < |a| ==> SameRow(a[i], b[i])
  }

  // VerifyReplayHashes returns Verified.
  ghost predicate Verifies(env: Env, rec: Record) {
    exists bases :: IsGlob(rec.files, bases) && VerifiesWith(env, rec, bases)
  }

  predicate VerifiesWith(env: Env, rec: Record, bases: seq<string>) {
    var files := LoadBases(env, rec.files, bases);
    files.Some? && SameRows(OrderBySeq(rec.db), files.value) &&
    LoadTrace(rec.trace).Some? && SameRows(LoadTrace(rec.trace).value, OrderBySeq(rec.db))
  }

  // --- facts about the readers ---

  lemma OrderIsSorted(rows: seq<Row>)
    ensures var out := OrderBySeq(rows);
      |out| == |rows| && multiset(out) == multiset(rows) &&
      forall i, j :: 0 <= i < j < |out| ==> out[i].no <= out[j].no
  {
    SortSorts(ByNo, rows);
    var out := OrderBySeq(rows);
    forall i, j | 0 <= i < j < |out| ensures out[i].no <= out[j].no {
      assert ByNo(out[i]) <= ByNo(out[j]);
    }
  }

  lemma OrderOfSorted(rows: seq<Row>)
    requires forall i, j :: 0 <= i < j < |rows| ==> rows[i].no <= rows[j].no
    ensures OrderBySeq(rows) == rows
  {
    SortOfSorted(ByNo, rows);
  }

  lemma {:induction false} LoadBasesRows(env: Env, files: map<ToolFile, Bytes>, bases: seq<string>)
    ensures var rows := LoadBases(env, files, bases);
      (rows.Some? <==> forall i :: 0 <= i < |bases| ==> LoadFile(env, files, bases[i]).Some?) &&
      (rows.Some? ==> |rows.value| == |bases|) &&
      (rows.Some? ==> forall i :: 0 <= i < |bases| ==> LoadFile(env, files, bases[i]) == Some(rows.value[i]))
  {
    if bases != [] {
      LoadBasesRows(env, files, bases[..|bases| - 1]);
    }
  }

  lemma AscendingDistinct(bases: seq<string>, i: nat, j: nat)
    requires Ascending(bases) && i < |bases| && j < |bases| && bases[i] == bases[j]
    ensures i == j
  {
    LessIrreflexive(bases[i] + ".req.json");
  }

  lemma BaseLessAsym(a: string, b: string)
    requires BaseLess(a, b)
    ensures !BaseLess(b, a)
  {
    LessIrreflexive(a + ".req.json");
    if BaseLess(b, a) {
      LessTransitive(a + ".req.json", b + ".req.json", a + ".req.json");
    }
  }

  // A directory has one sorted listing.
  lemma {:induction false} GlobUnique(a: seq<string>, b: seq<string>)
    requires Ascending(a) && Ascending(b) && NameSet(a) == NameSet(b)
    ensures a == b
  {
    assert (a != [] ==> a[0] in NameSet(a)) && (b != [] ==> b[0] in NameSet(b));
    if a != [] && b != [] {
      assert a[0] in NameSet(b) && b[0] in NameSet(a);
      var i :| 0 <= i < |b| && b[i] == a[0];
      var j :| 0 <= j < |a| && a[j] == b[0];
      if i > 0 && j > 0 {
        BaseLessAsym(a[0], b[0]);
      }
      if i > 0 { AscendingDistinct(a, 0, j); }
      assert a[0] == b[0];
      TailSet(a);
      TailSet(b);
      GlobUnique(a[1..], b[1..]);
      assert a == [a[0]] + a[1..] && b == [b[0]] + b[1..];
    }
  }

  lemma TailSet(a: seq<string>)
    requires Ascending(a) && a != []
    ensures Ascending(a[1..]) && NameSet(a[1..]) == NameSet(a) - {a[0]}
  {
    forall x | x in a[1..] ensures x != a[0] {
      var i :| 0 <= i < |a[1..]| && a[1..][i] == x;
      if x == a[0] { AscendingDistinct(a, 0, i + 1); }
    }
    assert a == [a[0]] + a[1..];
  }

  lemma FirstBase(bases: set<string>) returns (m: string)
    requires bases != {}
    ensures m in bases && forall x :: x in bases && x != m ==> BaseLess(m, x)
    decreases |bases|
  {
    var b :| b in bases;
    if bases == {b} {
      m := b;
    } else {
      var rest := FirstBase(bases - {b});
      LessTotal(b + ".req.json", rest + ".req.json");
      AppendInjective(b, rest, ".req.json");
      if BaseLess(b, rest) {
        m := b;
        forall x | x in bases && x != m ensures BaseLess(m, x) {
          if x != rest {
            assert x in bases - {b};
            LessTransitive(b + ".req.json", rest + ".req.json", x + ".req.json");
          }
        }
      } else {
        m := rest;
      }
    }
  }

  lemma AppendInjective(a: string, b: string, tail: string)
    ensures a + tail == b + tail ==> a == b
  {
    if a + tail == b + tail {
      assert (a + tail)[..|a|] == a && (b + tail)[..|b|] == b;
    }
  }

  // Every directory has a sorted listing.
  lemma GlobExists(bases: set<string>) returns (sorted: seq<string>)
    ensures Ascending(sorted) && NameSet(sorted) == bases
    decreases |bases|
  {
    if bases == {} {
      sorted := [];
    } else {
      var m := FirstBase(bases);
      var rest := GlobExists(bases - {m});
      sorted := [m] + rest;
      assert NameSet(sorted) == {m} + NameSet(rest);
      forall i, j | 0 <= i < j < |sorted| ensures BaseLess(sorted[i], sorted[j]) {
        if i == 0 {
          assert sorted[j] in NameSet(rest);
        }
      }
    }
  }

  // A payload is a receipt exactly if it is a tool's result with a tool, an output and an
  // input, which may stand under the older name of the arguments.
  lemma ReceiptIs(event: string, p: Payload)
    ensures ExtractToolReceipt(event, p).Some? <==>
      event == "vm.tool.result" && p.ToolResult? && p.tool != "" && p.outputHash.Sha256? &&
      (p.inputHash.Sha256? || p.argsHash.Sha256?)
    ensures ExtractToolReceipt(event, p).Some? ==>
      var r := ExtractToolReceipt(event, p).value;
      r.no == p.toolSeq && r.tool == p.tool && r.outputHash == p.outputHash && r.errorCode == p.errorCode &&
      (p.inputHash.Sha256? ==> r.inputHash == p.inputHash) && (p.inputHash.NoHash? ==> r.inputHash == p.argsHash)
  {
  }

  // A line of the trace is read back with the number of its payload, else of the line, and
  // with the output of its payload if it has none itself.
  lemma TraceRowIs(e: Entry)
    ensures var r := TraceRow(e);
      r.tool == e.tool && r.inputHash == e.argsHash && r.errorCode == "" &&
      (e.outputHash.Sha256? ==> r.outputHash == e.outputHash) &&
      (e.outputHash.NoHash? && e.payload.ToolResult? ==> r.outputHash == e.payload.outputHash) &&
      (e.payload.ToolResult? && e.payload.toolSeq > 0 ==> r.no == e.payload.toolSeq) &&
      (e.payload.ToolResult? && e.payload.toolSeq <= 0 ==> r.no == e.no) && (e.payload.OtherPayload? ==> r.no == e.no)
  {
  }

  // One newline at the end is taken off, and nothing else.
  lemma TrimsOne(b: Bytes)
    ensures TrimNewline(b + [10]) == b
    ensures b == [] || b[|b| - 1] != 10 ==> TrimNewline(b) == b
  {
  }

  // The listing is that of the request files, in the byte order of their names.
  lemma GlobIs(files: map<ToolFile, Bytes>, bases: seq<string>)
    ensures IsGlob(files, bases) <==>
      (forall i, j :: 0 <= i < j < |bases| ==> Less(bases[i] + ".req.json", bases[j] + ".req.json")) &&
      (forall b :: b in bases <==> ReqFile(b) in files)
  {
    if IsGlob(files, bases) {
      forall b ensures b in bases <==> ReqFile(b) in files {
        assert b in NameSet(bases) <==> b in Bases(files);
        if ReqFile(b) in files { assert ReqFile(b).base in Bases(files); }
      }
    }
    if (forall i, j :: 0 <= i < j < |bases| ==> Less(bases[i] + ".req.json", bases[j] + ".req.json")) &&
       forall b :: b in bases <==> ReqFile(b) in files
    {
      forall b ensures b in NameSet(bases) <==> b in Bases(files) {
        if ReqFile(b) in files { assert ReqFile(b).base in Bases(files); }
      }
    }
  }
}
