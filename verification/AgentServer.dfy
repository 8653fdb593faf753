// The agent's side of a connection: one request frame in, one response frame out.
module AgentServer {
  import opened Wrappers
  import opened Frames

  datatype Request = Request(reqId: int, tool: string, args: Bytes, allow: seq<string>)

  datatype Response = Response(reqId: int, ok: bool, body: Bytes)

  datatype ServeResult = Closed | FrameTooLarge | BadRequest

  // JSON as two pairs of functions between values and bytes.
  datatype Codec = Codec(
    marshalReq: Request -> Bytes, parseReq: Bytes -> Option<Request>,
    marshalRes: Response -> Bytes, parseRes: Bytes -> Option<Response>)

  ghost predicate Faithful(c: Codec) {
    (forall r :: c.parseReq(c.marshalReq(r)) == Some(r)) &&
    (forall r :: c.parseRes(c.marshalRes(r)) == Some(r))
  }

  // The tools of the registry: the known names, and what running one answers.
  datatype Registry = Registry(known: set<string>, run: Request -> Response, denied: (int, string) -> Bytes)

  // Every runner of the program answers under the id of the call.
  ghost predicate AnswersOwnId(reg: Registry) {
    forall r :: reg.run(r).reqId == r.reqId
  }

  function ErrResp(reg: Registry, req: Request, msg: string): Response {
    Response(req.reqId, false, reg.denied(req.reqId, msg))
  }

  function Handle(reg: Registry, req: Request): Response {
    if req.tool !in req.allow then ErrResp(reg, req, "tool not allowlisted")
    else if req.tool !in reg.known then ErrResp(reg, req, "unknown tool")
    else reg.run(req)
  }

  // What the loop answers to the bytes s, and how it ends.
  function Serve(c: Codec, reg: Registry, s: Bytes): (Bytes, ServeResult)
    decreases |s|
  {
    match DecodeAt(s).0
    case Failed(err) => ([], if err == TooLarge then FrameTooLarge else Closed)
    case Frame(payload) =>
      match c.parseReq(payload)
      case None => ([], BadRequest)
      case Some(req) =>
        var body := c.marshalRes(Handle(reg, req));
        if !Accepts(body) then ([], FrameTooLarge)
        else
          var rest := Serve(c, reg, s[DecodeAt(s).1..]);
          (Encode(body) + rest.0, rest.1)
  }

  // The tool is on the request's allowlist and in the registry.
  predicate Permitted(reg: Registry, req: Request) {
    req.tool in req.allow && req.tool in reg.known
  }

  // The requests among the bytes s whose tools are run, in order.
  function Runs(c: Codec, reg: Registry, s: Bytes): seq<Request>
    decreases |s|
  {
    match DecodeAt(s).0
    case Failed(err) => []
    case Frame(payload) =>
      match c.parseReq(payload)
      case None => []
      case Some(req) =>
        var first := if Permitted(reg, req) then [req] else [];
        if !Accepts(c.marshalRes(Handle(reg, req))) then first else first + Runs(c, reg, s[DecodeAt(s).1..])
  }

  // The runners behind the registry: what has been run.
  class Runners {
    const reg: Registry
    var ran: seq<Request>

    constructor (reg: Registry)
      ensures this.reg == reg && ran == []
    {
      this.reg, ran := reg, [];
    }

    method Run(req: Request) returns (res: Response)
      modifies this
      ensures ran == old(ran) + [req] && res == reg.run(req)
    {
      ran := ran + [req];
      res := reg.run(req);
    }
  }

  method BuildAllow(names: seq<string>) returns (allow: set<string>)
    ensures forall name :: name in allow <==> name in names
  {
    allow := {};
    for i := 0 to |names|
      invariant forall name :: name in allow <==> name in names[..i]
    {
      assert names[..i + 1] == names[..i] + [names[i]];
      allow := allow + {names[i]};
    }
    assert names[..|names|] == names;
  }

  // A tool that is not allowed, or not known, is not run, and the request is refused under
  // its own id; any other is run once, and its answer returned.
  method HandleCall(runners: Runners, req: Request, allow: set<string>) returns (res: Response)
    requires forall name :: name in allow <==> name in req.allow
    modifies runners
    ensures req.tool !in req.allow || req.tool !in runners.reg.known ==>
      runners.ran == old(runners.ran) && !res.ok && res.reqId == req.reqId
    ensures req.tool in req.allow && req.tool in runners.reg.known ==>
      runners.ran == old(runners.ran) + [req] && res == runners.reg.run(req)
    ensures req.tool !in req.allow ==> res.body == runners.reg.denied(req.reqId, "tool not allowlisted")
    ensures req.tool in req.allow && req.tool !in runners.reg.known ==>
      res.body == runners.reg.denied(req.reqId, "unknown tool")
    ensures AnswersOwnId(runners.reg) ==> res.reqId == req.reqId
    ensures res == Handle(runners.reg, req)
  {
    if req.tool !in allow {
      return ErrResp(runners.reg, req, "tool not allowlisted");
    }
    if req.tool !in runners.reg.known {
      return ErrResp(runners.reg, req, "unknown tool");
    }
    res := runners.Run(req);
  }

  // Every request frame that can be read is answered and run if it is permitted, in order,
  // until the loop ends.
  method ServeConn(c: Codec, runners: Runners, banner: Bytes, input: Stream, output: Stream)
    returns (result: ServeResult)
    requires input != output
    modifies input, output, runners
    ensures output.data == old(output.data) + banner + Serve(c, runners.reg, old(input.data)).0
    ensures result == Serve(c, runners.reg, old(input.data)).1
    ensures runners.ran == old(runners.ran) + Runs(c, runners.reg, old(input.data))
  {
    hide Serve, Runs, Encode;
    var reg := runners.reg;
    output.data := output.data + banner;
    ghost var sent: Bytes, done: seq<Request> := [], [];
    assert sent + Serve(c, reg, input.data).0 == Serve(c, reg, input.data).0;
    assert done + Runs(c, reg, input.data) == Runs(c, reg, input.data);
    while true
      invariant output.data == old(output.data) + banner + sent && runners.ran == old(runners.ran) + done
      invariant Serve(c, reg, old(input.data)) ==
        (sent + Serve(c, reg, input.data).0, Serve(c, reg, input.data).1)
      invariant Runs(c, reg, old(input.data)) == done + Runs(c, reg, input.data)
      decreases |input.data|
    {
      var end, chunk, more := ServeOne(c, runners, input, output);
      if end.Some? {
        assert sent + [] == sent;
        return end.value;
      }
      assert sent + (chunk + Serve(c, reg, input.data).0) == (sent + chunk) + Serve(c, reg, input.data).0;
      assert done + (more + Runs(c, reg, input.data)) == (done + more) + Runs(c, reg, input.data);
      sent, done := sent + chunk, done + more;
    }
  }

  // One round of the loop: either it ends here, or one answer has been written.
  method ServeOne(c: Codec, runners: Runners, input: Stream, output: Stream)
    returns (end: Option<ServeResult>, ghost chunk: Bytes, ghost more: seq<Request>)
    requires input != output
    modifies input, output, runners
    ensures output.data == old(output.data) + chunk && runners.ran == old(runners.ran) + more
    ensures end.Some? ==> Serve(c, runners.reg, old(input.data)) == ([], end.value) && chunk == []
    ensures end.Some? ==> Runs(c, runners.reg, old(input.data)) == more
    ensures end.None? ==> |input.data| < |old(input.data)|
    ensures end.None? ==>
      Serve(c, runners.reg, old(input.data)) ==
        (chunk + Serve(c, runners.reg, input.data).0, Serve(c, runners.reg, input.data).1)
    ensures end.None? ==> Runs(c, runners.reg, old(input.data)) == more + Runs(c, runners.reg, input.data)
  {
    hide Handle, EncodeU32, DecodeU32;
    chunk, more := [], [];
    var frame := input.ReadFrame();
    if frame.Failed? {
      return Some(if frame.err == TooLarge then FrameTooLarge else Closed), [], [];
    }
    var req := c.parseReq(frame.payload);
    if req.None? {
      return Some(BadRequest), [], [];
    }
    var allow := BuildAllow(req.value.allow);
    var res := HandleCall(runners, req.value, allow);
    more := if Permitted(runners.reg, req.value) then [req.value] else [];
    var body := c.marshalRes(res);
    var ok := output.WriteFrame(body);
    if !ok {
      return Some(FrameTooLarge), [], more;
    }
    return None, Encode(body), more;
  }

  // --- end to end ---

  function Requests(c: Codec, reqs: seq<Request>): (ps: seq<Bytes>)
    ensures |ps| == |reqs|
  {
    seq(|reqs|, (i: nat) requires i < |reqs| => c.marshalReq(reqs[i]))
  }

  function Responses(c: Codec, reg: Registry, reqs: seq<Request>): (ps: seq<Bytes>)
    ensures |ps| == |reqs|
  {
    seq(|reqs|, (i: nat) requires i < |reqs| => c.marshalRes(Handle(reg, reqs[i])))
  }

  ghost predicate Fits(c: Codec, reg: Registry, reqs: seq<Request>) {
    forall r :: r in reqs ==> |c.marshalReq(r)| <= MAX_FRAME_BYTES && |c.marshalRes(Handle(reg, r))| <= MAX_FRAME_BYTES
  }

  // The first request of a stream and the rest of it.
  lemma ServesFirst(c: Codec, reg: Registry, req: Request, rest: Bytes)
    requires Faithful(c) && |c.marshalReq(req)| <= MAX_FRAME_BYTES && Accepts(c.marshalRes(Handle(reg, req)))
    ensures Serve(c, reg, Encode(c.marshalReq(req)) + rest) ==
      (Encode(c.marshalRes(Handle(reg, req))) + Serve(c, reg, rest).0, Serve(c, reg, rest).1)
  {
    hide Encode, DecodeAt, Handle, Accepts;
    var p := c.marshalReq(req);
    DecodeEncode(p, rest);
    var s := Encode(p) + rest;
    assert s[|Encode(p)|..] == rest;
  }

  // Complete requests in front of a stream are answered in order, one frame each.
  lemma {:induction false} ServesInOrder(c: Codec, reg: Registry, reqs: seq<Request>, rest: Bytes)
    requires Faithful(c) && Fits(c, reg, reqs)
    ensures Serve(c, reg, EncodeAll(Requests(c, reqs)) + rest) ==
      (EncodeAll(Responses(c, reg, reqs)) + Serve(c, reg, rest).0, Serve(c, reg, rest).1)
  {
    hide Encode, DecodeAt, Handle;
    if reqs == [] {
      assert EncodeAll(Requests(c, reqs)) + rest == rest;
      assert EncodeAll(Responses(c, reg, reqs)) + Serve(c, reg, rest).0 == Serve(c, reg, rest).0;
    } else {
      var tail := reqs[1..];
      assert Requests(c, reqs)[1..] == Requests(c, tail) && Responses(c, reg, reqs)[1..] == Responses(c, reg, tail);
      assert reqs[0] in reqs;
      ServesInOrder(c, reg, tail, rest);
      var p, more := c.marshalReq(reqs[0]), EncodeAll(Requests(c, tail)) + rest;
      var body := c.marshalRes(Handle(reg, reqs[0]));
      DecodeEncode(p, more);
      var s := EncodeAll(Requests(c, reqs)) + rest;
      assert s == Encode(p) + more && s[|Encode(p)|..] == more;
      assert Encode(body) + (EncodeAll(Responses(c, reg, tail)) + Serve(c, reg, rest).0) ==
        EncodeAll(Responses(c, reg, reqs)) + Serve(c, reg, rest).0;
    }
  }

  function PermittedOf(reg: Registry, reqs: seq<Request>): seq<Request> {
    if reqs == [] then [] else (if Permitted(reg, reqs[0]) then [reqs[0]] else []) + PermittedOf(reg, reqs[1..])
  }

  // Exactly the permitted ones among them are run, in order and once each.
  lemma {:induction false} RunsInOrder(c: Codec, reg: Registry, reqs: seq<Request>, rest: Bytes)
    requires Faithful(c) && Fits(c, reg, reqs)
    ensures Runs(c, reg, EncodeAll(Requests(c, reqs)) + rest) == PermittedOf(reg, reqs) + Runs(c, reg, rest)
  {
    hide Encode, DecodeAt, Handle, Permitted;
    if reqs == [] {
      assert EncodeAll(Requests(c, reqs)) + rest == rest;
    } else {
      var tail := reqs[1..];
      assert Requests(c, reqs)[1..] == Requests(c, tail);
      assert reqs[0] in reqs;
      RunsInOrder(c, reg, tail, rest);
      var p, more := c.marshalReq(reqs[0]), EncodeAll(Requests(c, tail)) + rest;
      DecodeEncode(p, more);
      var s := EncodeAll(Requests(c, reqs)) + rest;
      assert s == Encode(p) + more && s[|Encode(p)|..] == more;
    }
  }

  // Whatever comes in, a tool that is not permitted is never run.
  lemma {:induction false} OnlyPermittedRun(c: Codec, reg: Registry, s: Bytes, r: Request)
    requires r in Runs(c, reg, s)
    ensures Permitted(reg, r)
    decreases |s|
  {
    hide Handle, Permitted;
    var payload := DecodeAt(s).0.payload;
    var req := c.parseReq(payload).value;
    if !(Permitted(reg, req) && r == req) {
      OnlyPermittedRun(c, reg, s[DecodeAt(s).1..], r);
    }
  }

  // What the client reads back: for every request, in order, the answer to it, under
  // its own id.
  lemma EndToEnd(c: Codec, reg: Registry, reqs: seq<Request>)
    requires Faithful(c) && AnswersOwnId(reg) && Fits(c, reg, reqs)
    ensures var answer := Serve(c, reg, EncodeAll(Requests(c, reqs)));
      var read := ReadAll(answer.0);
      answer.1 == Closed && read.1 == EOF && |read.0| == |reqs| &&
      forall i :: 0 <= i < |reqs| ==>
        c.parseRes(read.0[i]) == Some(Handle(reg, reqs[i])) && Handle(reg, reqs[i]).reqId == reqs[i].reqId
  {
    ServesAll(c, reg, reqs);
    ResponsesFit(c, reg, reqs);
    StreamRoundTrip(Responses(c, reg, reqs));
    hide Serve, ReadAll, EncodeAll, Encode, Handle;
    forall i | 0 <= i < |reqs|
      ensures c.parseRes(Responses(c, reg, reqs)[i]) == Some(Handle(reg, reqs[i])) &&
        Handle(reg, reqs[i]).reqId == reqs[i].reqId
    {
      assert reqs[i] in reqs;
    }
  }

  lemma ServesAll(c: Codec, reg: Registry, reqs: seq<Request>)
    requires Faithful(c) && Fits(c, reg, reqs)
    ensures Serve(c, reg, EncodeAll(Requests(c, reqs))) == (EncodeAll(Responses(c, reg, reqs)), Closed)
  {
    ServesInOrder(c, reg, reqs, []);
    var out := EncodeAll(Responses(c, reg, reqs));
    hide EncodeAll, Handle;
    assert EncodeAll(Requests(c, reqs)) + [] == EncodeAll(Requests(c, reqs));
    assert out + [] == out;
  }

  lemma ResponsesFit(c: Codec, reg: Registry, reqs: seq<Request>)
    requires Fits(c, reg, reqs)
    ensures WithinLimit(Responses(c, reg, reqs))
  {
    hide Handle;
    forall p | p in Responses(c, reg, reqs) ensures |p| <= MAX_FRAME_BYTES {
      var i :| 0 <= i < |reqs| && Responses(c, reg, reqs)[i] == p;
      assert reqs[i] in reqs;
    }
  }

  // A request stream that breaks off is answered up to the last complete request.
  lemma CutRequests(c: Codec, reg: Registry, reqs: seq<Request>, s: Bytes) returns (m: nat)
    requires Faithful(c) && Fits(c, reg, reqs) && s < EncodeAll(Requests(c, reqs))
    ensures m < |reqs| && |EncodeAll(Requests(c, reqs[..m]))| <= |s| < |EncodeAll(Requests(c, reqs[..m + 1]))|
    ensures Serve(c, reg, s) == (EncodeAll(Responses(c, reg, reqs[..m])), Closed)
    decreases |reqs|
  {
    hide Encode, DecodeAt, Handle;
    var tail := reqs[1..];
    assert Requests(c, reqs)[1..] == Requests(c, tail) && Responses(c, reg, reqs)[1..] == Responses(c, reg, tail);
    var p, rest := c.marshalReq(reqs[0]), EncodeAll(Requests(c, tail));
    assert reqs[0] in reqs && EncodeAll(Requests(c, reqs)) == Encode(p) + rest;
    FirstRequest(c, reqs);
    if |s| < |Encode(p)| {
      m := 0;
      assert s == Encode(p)[..|s|];
      CutFrame(p, |s|);
      ReadNothing(c, reg, s);
    } else {
      var s1 := s[|Encode(p)|..];
      assert s == Encode(p) + s1;
      m := CutRequests(c, reg, tail, s1);
      ServesFirst(c, reg, reqs[0], s1);
      hide Serve;
      PrefixRequests(c, reg, reqs, m);
      PrefixRequests(c, reg, reqs, m + 1);
      m := m + 1;
    }
  }

  lemma FirstRequest(c: Codec, reqs: seq<Request>)
    requires reqs != []
    ensures EncodeAll(Requests(c, reqs[..1])) == Encode(c.marshalReq(reqs[0]))
  {
    assert Requests(c, reqs[..1]) == [c.marshalReq(reqs[0])];
    assert EncodeAll([c.marshalReq(reqs[0])]) == Encode(c.marshalReq(reqs[0])) + EncodeAll([]);
  }

  lemma ReadNothing(c: Codec, reg: Registry, s: Bytes)
    requires ReadAll(s).0 == [] && ReadAll(s).1 != TooLarge
    ensures Serve(c, reg, s) == ([], Closed)
  {
  }

  lemma PrefixRequests(c: Codec, reg: Registry, reqs: seq<Request>, m: nat)
    requires m < |reqs|
    ensures EncodeAll(Requests(c, reqs[..m + 1])) ==
      Encode(c.marshalReq(reqs[0])) + EncodeAll(Requests(c, reqs[1..][..m]))
    ensures EncodeAll(Responses(c, reg, reqs[..m + 1])) ==
      Encode(c.marshalRes(Handle(reg, reqs[0]))) + EncodeAll(Responses(c, reg, reqs[1..][..m]))
  {
    assert Requests(c, reqs[..m + 1])[1..] == Requests(c, reqs[1..][..m]);
    assert Responses(c, reg, reqs[..m + 1])[1..] == Responses(c, reg, reqs[1..][..m]);
  }

  // How the loop ends behind complete requests, by what comes next: the end of the stream
  // closes it, a frame that is announced too long or an answer that is too long ends it as
  // such, and so does a frame that holds no request.
  lemma EndsBy(c: Codec, reg: Registry, reqs: seq<Request>, rest: Bytes)
    requires Faithful(c) && Fits(c, reg, reqs)
    ensures var next, served := DecodeAt(rest).0, Serve(c, reg, EncodeAll(Requests(c, reqs)) + rest);
      (next == Failed(EOF) || next == Failed(UnexpectedEOF) ==>
         served == (EncodeAll(Responses(c, reg, reqs)), Closed)) &&
      (next == Failed(TooLarge) ==> served == (EncodeAll(Responses(c, reg, reqs)), FrameTooLarge)) &&
      (next.Frame? && c.parseReq(next.payload).None? ==> served == (EncodeAll(Responses(c, reg, reqs)), BadRequest)) &&
      (next.Frame? && c.parseReq(next.payload).Some? &&
       !Accepts(c.marshalRes(Handle(reg, c.parseReq(next.payload).value))) ==>
         served == (EncodeAll(Responses(c, reg, reqs)), FrameTooLarge))
  {
    hide Handle, DecodeAt, EncodeAll, Requests, Responses, Accepts;
    ServesInOrder(c, reg, reqs, rest);
    assert EncodeAll(Responses(c, reg, reqs)) + [] == EncodeAll(Responses(c, reg, reqs));
  }
}
