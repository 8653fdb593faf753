// The client side of a connection: concurrent calls, a map from request ids to
// one-slot channels, and one reader. The peer answers each request once, in order.
module Mux {
  import opened Wrappers

  datatype Request = Request(reqId: int, body: Message)

  datatype Response = Response(reqId: int, body: Message)

  // reqs[c] is the request of call c; answer is what the peer does with a request.
  datatype Config = Config(reqs: seq<Request>, answer: Request -> Response)

  datatype Outcome =
    | Got(res: Response)
    | IdInUse
    | WriteError
    | Canceled
    | ReadError
    | EndOfStream

  // Calling: registered, before the write. Waiting: in the select. Leaving: the outcome
  // is chosen and the deferred delete is still to come.
  datatype Phase =
    | NotStarted
    | Calling
    | Waiting
    | Leaving(outcome: Outcome)
    | Ended(outcome: Outcome)

  // Sending: between the lookup of a channel and the end of `ch <- res`.
  datatype Reader = Reading | Sending(res: Response, call: nat) | Gone

  // `received` counts what each channel has been sent so far.
  datatype State = State(
    pending: map<int, nat>,
    phases: seq<Phase>,
    slots: seq<Option<Response>>,
    toPeer: seq<Request>,
    toClient: seq<Response>,
    reader: Reader,
    stopped: bool,
    readErr: bool,
    received: seq<nat>)

  datatype Label =
    | Begin(c: nat)
    | Write(c: nat)
    | WriteFail(c: nat)
    | Take(c: nat)
    | Cancel(c: nat)
    | Stop(c: nat)
    | Leave(c: nat)
    | Answer
    | Lookup
    | Send
    | ReadFail
    | ReaderStop
    | Close

  ghost predicate KeepsId(cfg: Config) {
    forall r :: cfg.answer(r).reqId == r.reqId
  }

  predicate FreshIds(cfg: Config) {
    forall c, d :: 0 <= c < d < |cfg.reqs| ==> cfg.reqs[c].reqId != cfg.reqs[d].reqId
  }

  ghost function Init(cfg: Config): State {
    State(map[], seq(|cfg.reqs|, _ => NotStarted), seq(|cfg.reqs|, _ => None), [], [], Reading, false, false,
          seq(|cfg.reqs|, _ => 0))
  }

  ghost predicate Shape(cfg: Config, s: State) {
    |s.phases| == |s.slots| == |s.received| == |cfg.reqs|
  }

  ghost predicate Enabled(cfg: Config, s: State, l: Label) {
    Shape(cfg, s) &&
    match l
    case Begin(c) => c < |cfg.reqs| && s.phases[c].NotStarted?
    case Write(c) => c < |cfg.reqs| && s.phases[c].Calling?
    case WriteFail(c) => c < |cfg.reqs| && s.phases[c].Calling?
    case Take(c) => c < |cfg.reqs| && s.phases[c].Waiting? && s.slots[c].Some?
    case Cancel(c) => c < |cfg.reqs| && s.phases[c].Waiting?
    case Stop(c) => c < |cfg.reqs| && s.phases[c].Waiting? && s.stopped
    case Leave(c) => c < |cfg.reqs| && s.phases[c].Leaving?
    case Answer => s.toPeer != []
    case Lookup => s.reader.Reading? && s.toClient != []
    case Send => s.reader.Sending? && s.reader.call < |cfg.reqs| && s.slots[s.reader.call].None?
    case ReadFail => s.reader.Reading?
    case ReaderStop => s.reader.Reading? && s.stopped
    case Close => !s.stopped
  }

  // The critical section at the start of Call.
  ghost function NextBegin(cfg: Config, s: State, c: nat): State
    requires Enabled(cfg, s, Begin(c))
  {
    var id := cfg.reqs[c].reqId;
    if id in s.pending then s.(phases := s.phases[c := Ended(IdInUse)])
    else s.(pending := s.pending[id := c], phases := s.phases[c := Calling])
  }

  ghost function NextLookup(s: State): State
    requires s.toClient != []
  {
    var res := s.toClient[0];
    s.(toClient := s.toClient[1..],
       reader := if res.reqId in s.pending then Sending(res, s.pending[res.reqId]) else Reading)
  }

  ghost function NextSend(s: State): State
    requires s.reader.Sending? && s.reader.call < |s.slots| && s.reader.call < |s.received|
  {
    var c := s.reader.call;
    s.(slots := s.slots[c := Some(s.reader.res)], received := s.received[c := s.received[c] + 1], reader := Reading)
  }

  ghost function Next(cfg: Config, s: State, l: Label): State
    requires Enabled(cfg, s, l)
  {
    match l
    case Begin(c) => NextBegin(cfg, s, c)
    case Write(c) => s.(phases := s.phases[c := Waiting], toPeer := s.toPeer + [cfg.reqs[c]])
    case WriteFail(c) => s.(phases := s.phases[c := Leaving(WriteError)])
    case Take(c) => s.(phases := s.phases[c := Leaving(Got(s.slots[c].value))], slots := s.slots[c := None])
    case Cancel(c) => s.(phases := s.phases[c := Leaving(Canceled)])
    case Stop(c) => s.(phases := s.phases[c := Leaving(if s.readErr then ReadError else EndOfStream)])
    case Leave(c) => s.(phases := s.phases[c := Ended(s.phases[c].outcome)], pending := s.pending - {cfg.reqs[c].reqId})
    case Answer => s.(toPeer := s.toPeer[1..], toClient := s.toClient + [cfg.answer(s.toPeer[0])])
    case Lookup => NextLookup(s)
    case Send => NextSend(s)
    case ReadFail => s.(reader := Gone, readErr := true, stopped := true)
    case ReaderStop => s.(reader := Gone)
    case Close => s.(stopped := true)
  }

  // States reachable by a run, with the run as a witness.
  ghost predicate IsRun(cfg: Config, ss: seq<State>, ls: seq<Label>) {
    |ss| == |ls| + 1 && ss[0] == Init(cfg) &&
    forall i :: 0 <= i < |ls| ==> Enabled(cfg, ss[i], ls[i]) && ss[i + 1] == Next(cfg, ss[i], ls[i])
  }

  // --- invariants of every run ---

  function PhaseOf(s: State, c: nat): Phase {
    if c < |s.phases| then s.phases[c] else NotStarted
  }

  function SlotOf(s: State, c: nat): Option<Response> {
    if c < |s.slots| then s.slots[c] else None
  }

  predicate IsOpen(p: Phase) {
    p.Calling? || p.Waiting? || p.Leaving?
  }

  predicate Pends(s: State, id: int, c: nat) {
    id in s.pending && s.pending[id] == c
  }

  // An id is pending exactly for the open call that registered it.
  ghost predicate Registered(cfg: Config, s: State) {
    (forall id, c: nat :: Pends(s, id, c) ==>
      c < |cfg.reqs| && cfg.reqs[c].reqId == id && IsOpen(PhaseOf(s, c))) &&
    (forall c: nat :: c < |cfg.reqs| && IsOpen(PhaseOf(s, c)) ==> Pends(s, cfg.reqs[c].reqId, c))
  }

  // res is the answer to the request of some call with this id.
  ghost predicate Answers(cfg: Config, res: Response, id: int) {
    res.reqId == id && exists c :: 0 <= c < |cfg.reqs| && cfg.reqs[c].reqId == id && res == cfg.answer(cfg.reqs[c])
  }

  predicate HasGot(p: Phase, res: Response) {
    (p.Leaving? || p.Ended?) && p.outcome == Got(res)
  }

  ghost predicate WireSourced(cfg: Config, s: State) {
    (forall r :: r in s.toPeer ==> r in cfg.reqs) &&
    (forall r :: r in s.toClient ==> Answers(cfg, r, r.reqId))
  }

  ghost predicate ReaderSourced(cfg: Config, s: State) {
    s.reader.Sending? ==>
      s.reader.call < |cfg.reqs| && Answers(cfg, s.reader.res, cfg.reqs[s.reader.call].reqId)
  }

  ghost predicate CallsSourced(cfg: Config, s: State) {
    (forall c: nat :: c < |cfg.reqs| && SlotOf(s, c).Some? ==> Answers(cfg, SlotOf(s, c).value, cfg.reqs[c].reqId)) &&
    (forall c: nat, res :: c < |cfg.reqs| && HasGot(PhaseOf(s, c), res) ==> Answers(cfg, res, cfg.reqs[c].reqId))
  }

  ghost predicate Inv(cfg: Config, s: State) {
    Shape(cfg, s) && Registered(cfg, s) && WireSourced(cfg, s) && ReaderSourced(cfg, s) && CallsSourced(cfg, s)
  }

  lemma RegisteredBegin(cfg: Config, s: State, c: nat)
    requires Registered(cfg, s) && Enabled(cfg, s, Begin(c))
    ensures Registered(cfg, NextBegin(cfg, s, c))
  {
    var s', id := NextBegin(cfg, s, c), cfg.reqs[c].reqId;
    assert forall d: nat :: d != c ==> PhaseOf(s', d) == PhaseOf(s, d);
    assert id in s.pending ==> Pends(s, id, s.pending[id]);
    assert forall i, d: nat :: Pends(s', i, d) ==> Pends(s, i, d) || (i == id && d == c);
    forall d: nat | d < |cfg.reqs| && IsOpen(PhaseOf(s', d)) ensures Pends(s', cfg.reqs[d].reqId, d) {
      if d != c {
        assert Pends(s, cfg.reqs[d].reqId, d);
      }
    }
  }

  lemma RegisteredLeave(cfg: Config, s: State, c: nat)
    requires Registered(cfg, s) && Enabled(cfg, s, Leave(c))
    ensures Registered(cfg, Next(cfg, s, Leave(c)))
  {
    var s', id := Next(cfg, s, Leave(c)), cfg.reqs[c].reqId;
    assert Pends(s, id, c) by { assert IsOpen(PhaseOf(s, c)); }
    assert forall d: nat :: d != c ==> PhaseOf(s', d) == PhaseOf(s, d);
    assert forall i, d: nat :: Pends(s', i, d) ==> Pends(s, i, d) && i != id;
    forall d: nat | d < |cfg.reqs| && IsOpen(PhaseOf(s', d)) ensures Pends(s', cfg.reqs[d].reqId, d) {
      assert Pends(s, cfg.reqs[d].reqId, d);
    }
  }

  // A step that opens and closes no call.
  lemma RegisteredKept(cfg: Config, s: State, s': State)
    requires Registered(cfg, s) && s'.pending == s.pending
    requires forall c: nat :: IsOpen(PhaseOf(s', c)) <==> IsOpen(PhaseOf(s, c))
    ensures Registered(cfg, s')
  {
    assert forall i, d: nat :: Pends(s', i, d) <==> Pends(s, i, d);
  }

  lemma RegisteredStep(cfg: Config, s: State, l: Label)
    requires Registered(cfg, s) && Enabled(cfg, s, l)
    ensures Registered(cfg, Next(cfg, s, l))
  {
    match l
    case Begin(c) => RegisteredBegin(cfg, s, c);
    case Leave(c) => RegisteredLeave(cfg, s, c);
    case _ => RegisteredKept(cfg, s, Next(cfg, s, l));
  }

  lemma WireStep(cfg: Config, s: State, l: Label)
    requires KeepsId(cfg) && WireSourced(cfg, s) && Enabled(cfg, s, l)
    ensures WireSourced(cfg, Next(cfg, s, l))
  {
    if l.Answer? {
      assert s.toPeer[0] in s.toPeer;
      assert Answers(cfg, cfg.answer(s.toPeer[0]), s.toPeer[0].reqId) by {
        var c :| 0 <= c < |cfg.reqs| && cfg.reqs[c] == s.toPeer[0];
      }
    }
  }

  lemma ReaderStep(cfg: Config, s: State, l: Label)
    requires Inv(cfg, s) && Enabled(cfg, s, l)
    ensures ReaderSourced(cfg, Next(cfg, s, l))
  {
    if l.Lookup? {
      var res := s.toClient[0];
      assert res in s.toClient;
      if res.reqId in s.pending {
        assert Pends(s, res.reqId, s.pending[res.reqId]);
      }
    }
  }

  lemma CallsStep(cfg: Config, s: State, l: Label)
    requires Inv(cfg, s) && Enabled(cfg, s, l)
    ensures CallsSourced(cfg, Next(cfg, s, l))
  {
    var s' := Next(cfg, s, l);
    forall c: nat | c < |cfg.reqs| && SlotOf(s', c).Some? ensures Answers(cfg, SlotOf(s', c).value, cfg.reqs[c].reqId) {
      assert SlotOf(s', c) == SlotOf(s, c) || (l.Send? && c == s.reader.call);
    }
    forall c: nat, res | c < |cfg.reqs| && HasGot(PhaseOf(s', c), res) ensures Answers(cfg, res, cfg.reqs[c].reqId) {
      assert HasGot(PhaseOf(s, c), res) || (l == Take(c) && SlotOf(s, c) == Some(res));
    }
  }

  lemma StepInv(cfg: Config, s: State, l: Label)
    requires KeepsId(cfg) && Inv(cfg, s) && Enabled(cfg, s, l)
    ensures Inv(cfg, Next(cfg, s, l))
  {
    RegisteredStep(cfg, s, l);
    WireStep(cfg, s, l);
    ReaderStep(cfg, s, l);
    CallsStep(cfg, s, l);
  }

  lemma {:induction false} RunInv(cfg: Config, ss: seq<State>, ls: seq<Label>, i: nat)
    requires KeepsId(cfg) && IsRun(cfg, ss, ls) && i <= |ls|
    ensures Inv(cfg, ss[i])
  {
    if i == 0 {
      assert forall c: nat :: PhaseOf(ss[0], c) == NotStarted && SlotOf(ss[0], c) == None;
    } else {
      RunInv(cfg, ss, ls, i - 1);
      StepInv(cfg, ss[i - 1], ls[i - 1]);
    }
  }
}
