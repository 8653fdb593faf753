// The client object: its pending map, its channels and its reader, and the code that
// updates them. Call and ReadLoop are put together from their critical sections; between
// two sections of a call the other goroutines and the peer take any steps.
module MuxRuntime {
  import opened Wrappers
  import opened Mux
  import opened MuxTheorems

  // What the select of Call picks when several of its cases are ready.
  datatype Choice = CtxDone | StopClosed | Received

  // What holds of the client between any two critical sections.
  ghost predicate Fine(cfg: Config, s: State) {
    Inv(cfg, s) && (FreshIds(cfg) ==> forall c: nat :: c < |cfg.reqs| ==> Single(cfg, s, c))
  }

  lemma FineInit(cfg: Config)
    ensures Fine(cfg, Init(cfg))
  {
    var s := Init(cfg);
    assert forall c: nat :: PhaseOf(s, c) == NotStarted && SlotOf(s, c) == None;
    assert forall id, c: nat :: !Pends(s, id, c);
  }

  lemma FineStep(cfg: Config, s: State, l: Label)
    requires KeepsId(cfg) && Fine(cfg, s) && Enabled(cfg, s, l)
    ensures Fine(cfg, Next(cfg, s, l))
  {
    hide Single, Inv, Next, Enabled, FreshIds;
    StepInv(cfg, s, l);
    if FreshIds(cfg) {
      forall c: nat | c < |cfg.reqs| ensures Single(cfg, Next(cfg, s, l), c) {
        SingleStep(cfg, s, l, c);
      }
    }
  }

  // The call that a step belongs to.
  function Caller(l: Label): Option<nat> {
    match l
    case Begin(c) => Some(c)
    case Write(c) => Some(c)
    case WriteFail(c) => Some(c)
    case Take(c) => Some(c)
    case Cancel(c) => Some(c)
    case Stop(c) => Some(c)
    case Leave(c) => Some(c)
    case _ => None
  }

  // A call that has ended is not registered any more, and one that waits for nobody else's
  // response finds its own.
  lemma OwnAnswer(cfg: Config, s: State, c: nat, res: Response)
    requires Inv(cfg, s) && c < |cfg.reqs| && HasGot(PhaseOf(s, c), res)
    ensures Answers(cfg, res, cfg.reqs[c].reqId)
    ensures FreshIds(cfg) ==> res == cfg.answer(cfg.reqs[c])
  {
  }

  // With distinct ids the channel before which the reader stands is empty.
  lemma SlotIsFree(cfg: Config, s: State)
    requires Fine(cfg, s) && FreshIds(cfg) && s.reader.Sending?
    ensures s.reader.call < |cfg.reqs| && SlotOf(s, s.reader.call) == None
  {
    assert Single(cfg, s, s.reader.call);
  }

  // --- the others' steps ---

  // A step that cannot be taken is none.
  ghost function StepOrNot(cfg: Config, s: State, l: Label): State {
    if Enabled(cfg, s, l) then Next(cfg, s, l) else s
  }

  // Where these steps lead, without those of call c.
  ghost function Without(cfg: Config, s: State, c: nat, turns: seq<Label>): State {
    if turns == [] then s
    else
      var before, l := Without(cfg, s, c, turns[..|turns| - 1]), turns[|turns| - 1];
      if Caller(l) == Some(c) then before else StepOrNot(cfg, before, l)
  }

  // Where call c stands at its select: it has begun and written, with the steps of the
  // others after either.
  ghost function AtSelect(cfg: Config, s: State, c: nat, first: seq<Label>, second: seq<Label>): State {
    var begun := Without(cfg, StepOrNot(cfg, s, Begin(c)), c, first);
    Without(cfg, StepOrNot(cfg, begun, Write(c)), c, second)
  }

  // A call on a quiet connection: if the peer answers, and the reader takes the answer and
  // sends it, the answer to the call's request is in its channel when the select runs.
  lemma AnswerArrives(cfg: Config, s: State, c: nat)
    requires Shape(cfg, s) && c < |cfg.reqs| && KeepsId(cfg) && s.phases[c].NotStarted? && s.slots[c].None?
    requires cfg.reqs[c].reqId !in s.pending && s.toPeer == [] && s.toClient == [] && s.reader.Reading?
    ensures SlotOf(AtSelect(cfg, s, c, [], [Answer, Lookup, Send]), c) == Some(cfg.answer(cfg.reqs[c]))
  {
    var s1 := Next(cfg, s, Begin(c));
    var s2 := Next(cfg, s1, Write(c));
    assert s2.toPeer == [cfg.reqs[c]];
    var s3 := Next(cfg, s2, Answer);
    assert s3.toClient == [cfg.answer(cfg.reqs[c])];
    var s4 := Next(cfg, s3, Lookup);
    var s5 := Next(cfg, s4, Send);
    assert SlotOf(s5, c) == Some(cfg.answer(cfg.reqs[c]));
    assert StepOrNot(cfg, s, Begin(c)) == s1 && StepOrNot(cfg, s1, Write(c)) == s2 && StepOrNot(cfg, s2, Answer) == s3;
    assert StepOrNot(cfg, s3, Lookup) == s4 && StepOrNot(cfg, s4, Send) == s5;
    hide Next, Enabled, StepOrNot;
    WithoutThree(cfg, s2, c, Answer, Lookup, Send);
  }

  lemma WithoutThree(cfg: Config, s: State, c: nat, l1: Label, l2: Label, l3: Label)
    requires Caller(l1) != Some(c) && Caller(l2) != Some(c) && Caller(l3) != Some(c)
    ensures Without(cfg, s, c, []) == s
    ensures Without(cfg, s, c, [l1, l2, l3]) == StepOrNot(cfg, StepOrNot(cfg, StepOrNot(cfg, s, l1), l2), l3)
  {
    hide StepOrNot, Caller;
    var one, two, three := [l1], [l1, l2], [l1, l2, l3];
    assert one[..0] == [] && two[..1] == one && three[..2] == two;
    assert Without(cfg, s, c, one) == StepOrNot(cfg, s, l1);
    assert Without(cfg, s, c, two) == StepOrNot(cfg, StepOrNot(cfg, s, l1), l2);
  }

  // --- the reader's round ---

  // One response taken from the connection, and its channel served if a call has its id.
  ghost function Deliver(cfg: Config, s: State): State
    requires Fine(cfg, s) && FreshIds(cfg) && KeepsId(cfg) && s.reader.Reading? && s.toClient != []
  {
    FineStep(cfg, s, Lookup);
    var s1 := NextLookup(s);
    if s1.reader.Sending? then
      SlotIsFree(cfg, s1);
      NextSend(s1)
    else s1
  }

  lemma DeliverFine(cfg: Config, s: State)
    requires Fine(cfg, s) && FreshIds(cfg) && KeepsId(cfg) && s.reader.Reading? && s.toClient != []
    ensures Fine(cfg, Deliver(cfg, s)) && Deliver(cfg, s).reader.Reading?
  {
    assert Enabled(cfg, s, Lookup);
    var s1 := NextLookup(s);
    hide Fine, FreshIds, KeepsId;
    FineStep(cfg, s, Lookup);
    if s1.reader.Sending? {
      SlotIsFree(cfg, s1);
      FineStep(cfg, s1, Send);
    }
  }

  // A round moves no call and forgets none: the response of a waiting call is in its
  // channel or still to come.
  lemma DeliverServes(cfg: Config, s: State, c: nat)
    requires Fine(cfg, s) && FreshIds(cfg) && KeepsId(cfg) && s.reader.Reading? && s.toClient != [] && c < |cfg.reqs|
    ensures var s' := Deliver(cfg, s);
      s'.phases == s.phases && s'.pending == s.pending && s'.toClient == s.toClient[1..] && s'.stopped == s.stopped &&
      (SlotOf(s, c).Some? ==> SlotOf(s', c).Some?) &&
      (PhaseOf(s, c).Waiting? && CountRes(s.toClient, cfg.reqs[c].reqId) > 0 ==>
         SlotOf(s', c).Some? || CountRes(s'.toClient, cfg.reqs[c].reqId) > 0)
  {
    hide Single, WireSourced, ReaderSourced, CallsSourced, CountRes;
    CountResFirst(s.toClient, cfg.reqs[c].reqId);
    FineStep(cfg, s, Lookup);
    if PhaseOf(s, c).Waiting? {
      assert Pends(s, cfg.reqs[c].reqId, c);
    }
    if NextLookup(s).reader.Sending? {
      SlotIsFree(cfg, NextLookup(s));
    }
  }

  // What a channel holds is the answer to its call.
  lemma SlotIsAnswer(cfg: Config, s: State, c: nat)
    requires Fine(cfg, s) && FreshIds(cfg) && c < |cfg.reqs| && SlotOf(s, c).Some?
    ensures SlotOf(s, c) == Some(cfg.answer(cfg.reqs[c]))
  {
    hide Single;
  }

  // What the select of call c picks: the response in its channel, the end of the client
  // with the reader's error or without, or else the end of the call's context.
  ghost function Picked(s: State, c: nat, want: Choice): Outcome {
    if want.Received? && SlotOf(s, c).Some? then Got(SlotOf(s, c).value)
    else if want.StopClosed? && s.stopped then (if s.readErr then ReadError else EndOfStream)
    else Canceled
  }

  // --- the client ---

  class Client {
    const cfg: Config

    var pending: map<int, nat>
    var channels: seq<Option<Response>>
    var stopped: bool
    var readErr: bool
    var reader: Reader

    // Where each call stands, and the frames on the connection, either way.
    var phases: seq<Phase>
    var toPeer: seq<Request>
    var toClient: seq<Response>
    ghost var received: seq<nat>

    ghost function Abs(): State
      reads this
    {
      State(pending, phases, channels, toPeer, toClient, reader, stopped, readErr, received)
    }

    ghost predicate Valid()
      reads this
    {
      KeepsId(cfg) && Fine(cfg, Abs())
    }

    constructor (cfg: Config)
      requires KeepsId(cfg)
      ensures this.cfg == cfg && Abs() == Init(cfg) && Valid()
    {
      this.cfg := cfg;
      pending, channels, stopped, readErr := map[], seq(|cfg.reqs|, _ => None), false, false;
      reader, phases := Reading, seq(|cfg.reqs|, _ => NotStarted);
      toPeer, toClient, received := [], [], seq(|cfg.reqs|, _ => 0);
      new;
      FineInit(cfg);
    }

    // mux.go:55-61: register under the id, or refuse an id in flight.
    method BeginCall(c: nat)
      requires Enabled(cfg, Abs(), Begin(c))
      modifies `pending, `phases
      ensures Abs() == Next(cfg, old(Abs()), Begin(c))
    {
      var reqId := cfg.reqs[c].reqId;
      if reqId in pending {
        phases := phases[c := Ended(IdInUse)];
      } else {
        pending := pending[reqId := c];
        phases := phases[c := Calling];
      }
    }

    // mux.go:69-75: the request frame goes out whole, or the call fails.
    method WriteRequest(c: nat, ok: bool)
      requires Enabled(cfg, Abs(), Write(c))
      modifies `phases, `toPeer
      ensures Abs() == Next(cfg, old(Abs()), if ok then Write(c) else WriteFail(c))
    {
      if ok {
        phases := phases[c := Waiting];
        toPeer := toPeer + [cfg.reqs[c]];
      } else {
        phases := phases[c := Leaving(WriteError)];
      }
    }

    // mux.go:77-87: one case of the select.
    method Select(c: nat, choice: Choice)
      requires Enabled(cfg, Abs(), Cancel(c))
      requires choice.StopClosed? ==> stopped
      requires choice.Received? ==> channels[c].Some?
      modifies `phases, `channels
      ensures Abs() == Next(cfg, old(Abs()), match choice
        case CtxDone => Cancel(c)
        case StopClosed => Stop(c)
        case Received => Take(c))
    {
      match choice
      case CtxDone => phases := phases[c := Leaving(Canceled)];
      case StopClosed => phases := phases[c := Leaving(if readErr then ReadError else EndOfStream)];
      case Received =>
        phases := phases[c := Leaving(Got(channels[c].value))];
        channels := channels[c := None];
    }

    // mux.go:63-67: the deferred delete.
    method EndCall(c: nat)
      requires Enabled(cfg, Abs(), Leave(c))
      modifies `pending, `phases
      ensures Abs() == Next(cfg, old(Abs()), Leave(c))
    {
      pending := pending - {cfg.reqs[c].reqId};
      phases := phases[c := Ended(phases[c].outcome)];
    }

    // mux.go:109-111: a response has been read; find its channel.
    method LookUpChannel()
      requires Enabled(cfg, Abs(), Lookup)
      modifies `reader, `toClient
      ensures Abs() == Next(cfg, old(Abs()), Lookup)
    {
      var res := toClient[0];
      toClient := toClient[1..];
      reader := if res.reqId in pending then Sending(res, pending[res.reqId]) else Reading;
    }

    // mux.go:112-114: the send, possible only into an empty slot.
    method SendToChannel()
      requires Enabled(cfg, Abs(), Send)
      modifies `channels, `received, `reader
      ensures Abs() == Next(cfg, old(Abs()), Send)
    {
      channels := channels[reader.call := Some(reader.res)];
      received := received[reader.call := received[reader.call] + 1];
      reader := Reading;
    }

    // mux.go:97-108: a frame that cannot be read or parsed ends the reader.
    method FailRead()
      requires Enabled(cfg, Abs(), ReadFail)
      modifies `readErr, `stopped, `reader
      ensures Abs() == Next(cfg, old(Abs()), ReadFail)
    {
      readErr := true;
      CloseClient();
      reader := Gone;
    }

    // mux.go:48-51: closing twice is closing once.
    method CloseClient()
      modifies `stopped
      ensures Abs() == old(Abs()).(stopped := true)
    {
      if !stopped {
        stopped := true;
      }
    }

    // The peer answers the oldest request that it has not answered yet.
    method PeerAnswers()
      requires Enabled(cfg, Abs(), Answer)
      modifies `toPeer, `toClient
      ensures Abs() == Next(cfg, old(Abs()), Answer)
    {
      toClient := toClient + [cfg.answer(toPeer[0])];
      toPeer := toPeer[1..];
    }

    predicate Able(l: Label)
      requires |phases| == |channels| == |cfg.reqs|
      reads this
    {
      match l
      case Begin(c) => c < |phases| && phases[c].NotStarted?
      case Write(c) => c < |phases| && phases[c].Calling?
      case WriteFail(c) => c < |phases| && phases[c].Calling?
      case Take(c) => c < |phases| && phases[c].Waiting? && channels[c].Some?
      case Cancel(c) => c < |phases| && phases[c].Waiting?
      case Stop(c) => c < |phases| && phases[c].Waiting? && stopped
      case Leave(c) => c < |phases| && phases[c].Leaving?
      case Answer => toPeer != []
      case Lookup => reader.Reading? && toClient != []
      case Send => reader.Sending? && reader.call < |channels| && channels[reader.call].None?
      case ReadFail => reader.Reading?
      case ReaderStop => reader.Reading? && stopped
      case Close => !stopped
    }

    // One step of anyone, if it can be taken.
    method TakeStep(l: Label)
      requires Valid()
      modifies this
      ensures Valid()
      ensures old(Enabled(cfg, Abs(), l)) ==> Abs() == Next(cfg, old(Abs()), l)
      ensures !old(Enabled(cfg, Abs(), l)) ==> Abs() == old(Abs())
    {
      ghost var before := Abs();
      if !Able(l) {
        return;
      }
      assert Enabled(cfg, before, l);
      FineStep(cfg, before, l);
      hide Fine, KeepsId;
      match l {
        case Begin(c) => BeginCall(c);
        case Write(c) => WriteRequest(c, true);
        case WriteFail(c) => WriteRequest(c, false);
        case Take(c) => Select(c, Received);
        case Cancel(c) => Select(c, CtxDone);
        case Stop(c) => Select(c, StopClosed);
        case Leave(c) => EndCall(c);
        case Answer => PeerAnswers();
        case Lookup => LookUpChannel();
        case Send => SendToChannel();
        case ReadFail => FailRead();
        case ReaderStop => reader := Gone;
        case Close => CloseClient();
      }
    }

    // What the other goroutines and the peer do while call c stands still.
    method Others(c: nat, turns: seq<Label>)
      requires Valid() && c < |cfg.reqs|
      modifies this
      ensures Valid() && PhaseOf(Abs(), c) == old(PhaseOf(Abs(), c))
      ensures old(stopped) ==> stopped
      ensures Abs() == Without(cfg, old(Abs()), c, turns)
    {
      hide Fine, Enabled, Next;
      for k := 0 to |turns|
        invariant Valid() && PhaseOf(Abs(), c) == old(PhaseOf(Abs(), c))
        invariant old(stopped) ==> stopped
        invariant Abs() == Without(cfg, old(Abs()), c, turns[..k])
      {
        assert turns[..k + 1][..k] == turns[..k];
        if Caller(turns[k]) != Some(c) {
          ghost var before := Abs();
          TakeStep(turns[k]);
          StandsStill(cfg, before, turns[k], c);
        }
      }
      assert turns[..|turns|] == turns;
    }

    // The select: blocked until one of its cases is ready. If the wanted one is not, the
    // call waits until its context ends.
    method Pick(c: nat, want: Choice)
      requires Valid() && c < |cfg.reqs| && PhaseOf(Abs(), c).Waiting?
      modifies `phases, `channels
      ensures Valid() && PhaseOf(Abs(), c) == Leaving(old(Picked(Abs(), c, want)))
    {
      ghost var before := Abs();
      assert Enabled(cfg, before, Cancel(c));
      assert stopped ==> Enabled(cfg, before, Stop(c));
      assert channels[c].Some? ==> Enabled(cfg, before, Take(c));
      if want.Received? && channels[c].Some? {
        FineStep(cfg, before, Take(c));
        hide Fine, KeepsId;
        Select(c, Received);
      } else if want.StopClosed? && stopped {
        FineStep(cfg, before, Stop(c));
        hide Fine, KeepsId;
        Select(c, StopClosed);
      } else {
        FineStep(cfg, before, Cancel(c));
        hide Fine, KeepsId;
        Select(c, CtxDone);
      }
    }

    // A whole call, with anything that others may do between its critical sections: it
    // returns an answer to a request with its id, its own if the ids are distinct, or an
    // error, and its id is free again. It is refused exactly if the id was in flight, and
    // then the other call keeps it.
    method Call(c: nat, writes: bool, want: Choice, turns: seq<seq<Label>>) returns (out: Outcome)
      requires Valid() && c < |cfg.reqs| && PhaseOf(Abs(), c).NotStarted? && |turns| == 3
      modifies this
      ensures Valid() && PhaseOf(Abs(), c) == Ended(out)
      ensures out.IdInUse? <==> cfg.reqs[c].reqId in old(pending)
      ensures out.IdInUse? ==> pending == old(pending)
      ensures !out.IdInUse? ==> cfg.reqs[c].reqId !in pending
      ensures out.Got? ==> writes && want.Received? && Answers(cfg, out.res, cfg.reqs[c].reqId)
      ensures out.Got? && FreshIds(cfg) ==> out.res == cfg.answer(cfg.reqs[c])
      ensures !writes && !out.IdInUse? ==> out == WriteError
      ensures var s := AtSelect(cfg, old(Abs()), c, turns[0], turns[1]);
        writes && !out.IdInUse? ==>
          (want.Received? && SlotOf(s, c).Some? ==> out == Got(SlotOf(s, c).value)) &&
          (want.Received? && SlotOf(s, c).Some? && FreshIds(cfg) ==> out == Got(cfg.answer(cfg.reqs[c]))) &&
          (want.StopClosed? && s.stopped ==> out == if s.readErr then ReadError else EndOfStream) &&
          (want.CtxDone? ==> out == Canceled) &&
          ((want.StopClosed? && !s.stopped) || (want.Received? && SlotOf(s, c).None?) ==> out == Canceled)
      ensures old(stopped) ==> stopped
    {
      hide Fine, KeepsId, FreshIds, Answers, Next, Enabled, Without;
      var refused := StartCall(c);
      if refused {
        return IdInUse;
      }
      Others(c, turns[0]);
      SendRequest(c, writes);
      if writes {
        Others(c, turns[1]);
        assert Abs() == AtSelect(cfg, old(Abs()), c, turns[0], turns[1]);
        Pick(c, want);
      }
      Others(c, turns[2]);
      out := LeaveCall(c);
    }

    method StartCall(c: nat) returns (refused: bool)
      requires Valid() && c < |cfg.reqs| && PhaseOf(Abs(), c).NotStarted?
      modifies `pending, `phases
      ensures Valid() && PhaseOf(Abs(), c) == if refused then Ended(IdInUse) else Calling
      ensures refused <==> cfg.reqs[c].reqId in old(pending)
      ensures refused ==> pending == old(pending)
      ensures Abs() == StepOrNot(cfg, old(Abs()), Begin(c))
    {
      FineStep(cfg, Abs(), Begin(c));
      BeginCall(c);
      refused := phases[c].Ended?;
    }

    method SendRequest(c: nat, writes: bool)
      requires Valid() && c < |cfg.reqs| && PhaseOf(Abs(), c).Calling?
      modifies `phases, `toPeer
      ensures Valid() && PhaseOf(Abs(), c) == if writes then Waiting else Leaving(WriteError)
      ensures Abs() == StepOrNot(cfg, old(Abs()), if writes then Write(c) else WriteFail(c))
    {
      FineStep(cfg, Abs(), if writes then Write(c) else WriteFail(c));
      WriteRequest(c, writes);
    }

    method LeaveCall(c: nat) returns (out: Outcome)
      requires Valid() && c < |cfg.reqs| && PhaseOf(Abs(), c).Leaving?
      modifies `pending, `phases
      ensures Valid() && PhaseOf(Abs(), c) == Ended(out) && out == old(PhaseOf(Abs(), c)).outcome
      ensures cfg.reqs[c].reqId !in pending
      ensures out.Got? ==> Answers(cfg, out.res, cfg.reqs[c].reqId)
      ensures out.Got? && FreshIds(cfg) ==> out.res == cfg.answer(cfg.reqs[c])
    {
      out := phases[c].outcome;
      if out.Got? {
        OwnAnswer(cfg, Abs(), c, out.res);
      }
      FineStep(cfg, Abs(), Leave(c));
      EndCall(c);
    }

    // The call waits, and a response with its id has come in.
    ghost predicate Awaits(c: nat)
      reads this
    {
      c < |cfg.reqs| && PhaseOf(Abs(), c).Waiting? && CountRes(toClient, cfg.reqs[c].reqId) > 0
    }

    // The reader's loop over the frames that have come in, with distinct ids: it is never
    // stuck, it takes them all, and every call that waited for one of them finds the answer
    // to its own request in its channel. A frame that cannot be read then ends it.
    method ReadLoop(fails: bool)
      requires Valid() && FreshIds(cfg) && reader.Reading?
      modifies `toClient, `reader, `channels, `received, `readErr, `stopped
      ensures Valid() && reader == if old(stopped) || fails then Gone else Reading
      ensures !old(stopped) ==> toClient == []
      ensures !old(stopped) ==> stopped == fails
      ensures forall c: nat :: !old(stopped) && old(Awaits(c)) ==> SlotOf(Abs(), c) == Some(cfg.answer(cfg.reqs[c]))
    {
      hide Fine, KeepsId, FreshIds;
      while toClient != [] && !stopped
        invariant Valid() && reader.Reading? && stopped == old(stopped)
        invariant forall c: nat :: old(Awaits(c)) ==> SlotOf(Abs(), c).Some? || Awaits(c)
        decreases |toClient|
      {
        ReadOne();
      }
      forall c: nat | c < |cfg.reqs| && SlotOf(Abs(), c).Some?
        ensures SlotOf(Abs(), c) == Some(cfg.answer(cfg.reqs[c]))
      {
        SlotIsAnswer(cfg, Abs(), c);
      }
      if stopped {
        ReaderLeaves();
      } else if fails {
        ReaderFails();
      }
    }

    method ReadOne()
      requires Valid() && FreshIds(cfg) && reader.Reading? && toClient != []
      modifies `toClient, `reader, `channels, `received
      ensures Valid() && reader.Reading? && |toClient| < |old(toClient)|
      ensures forall c: nat :: c < |cfg.reqs| && old(SlotOf(Abs(), c)).Some? ==> SlotOf(Abs(), c).Some?
      ensures forall c: nat :: old(Awaits(c)) ==> SlotOf(Abs(), c).Some? || Awaits(c)
    {
      ghost var s := Abs();
      assert Enabled(cfg, s, Lookup);
      DeliverFine(cfg, s);
      forall c: nat | c < |cfg.reqs|
        ensures SlotOf(s, c).Some? ==> SlotOf(Deliver(cfg, s), c).Some?
        ensures PhaseOf(s, c).Waiting? && CountRes(s.toClient, cfg.reqs[c].reqId) > 0 ==>
          SlotOf(Deliver(cfg, s), c).Some? || CountRes(Deliver(cfg, s).toClient, cfg.reqs[c].reqId) > 0
      {
        DeliverServes(cfg, s, c);
      }
      FineStep(cfg, s, Lookup);
      LookUpChannel();
      if reader.Sending? {
        SlotIsFree(cfg, Abs());
        SendToChannel();
      }
      assert Abs() == Deliver(cfg, s);
    }

    method ReaderLeaves()
      requires Valid() && reader.Reading? && stopped
      modifies `reader
      ensures Valid() && reader == Gone
    {
      FineStep(cfg, Abs(), ReaderStop);
      reader := Gone;
    }

    method ReaderFails()
      requires Valid() && reader.Reading?
      modifies `readErr, `stopped, `reader
      ensures Valid() && reader == Gone && stopped && readErr
    {
      FineStep(cfg, Abs(), ReadFail);
      FailRead();
    }
  }

  lemma StandsStill(cfg: Config, s: State, l: Label, c: nat)
    requires Caller(l) != Some(c)
    ensures Enabled(cfg, s, l) ==> PhaseOf(Next(cfg, s, l), c) == PhaseOf(s, c)
    ensures Enabled(cfg, s, l) && s.stopped ==> Next(cfg, s, l).stopped
  {
  }
}
