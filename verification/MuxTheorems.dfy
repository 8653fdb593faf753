// Who gets which response, when the reader can hang, and how calls end.
module MuxTheorems {
  import opened Wrappers
  import opened Mux

  // --- correlation ---

  // Every response a call returns carries the id of its request, and answers a request
  // with that id: in every run, also when ids are used again.
  lemma ReturnsOwnId(cfg: Config, ss: seq<State>, ls: seq<Label>, i: nat, c: nat, res: Response)
    requires KeepsId(cfg) && IsRun(cfg, ss, ls) && i <= |ls| && c < |cfg.reqs|
    requires HasGot(PhaseOf(ss[i], c), res)
    ensures Answers(cfg, res, cfg.reqs[c].reqId)
  {
    RunInv(cfg, ss, ls, i);
  }

  ghost predicate Correlated(cfg: Config) {
    forall ss: seq<State>, ls: seq<Label>, c: nat, res ::
      IsRun(cfg, ss, ls) && c < |cfg.reqs| && HasGot(PhaseOf(ss[|ls|], c), res) ==> res == cfg.answer(cfg.reqs[c])
  }

  ghost predicate SameIdSameAnswer(cfg: Config) {
    forall c, d :: 0 <= c < |cfg.reqs| && 0 <= d < |cfg.reqs| && cfg.reqs[c].reqId == cfg.reqs[d].reqId ==>
      cfg.answer(cfg.reqs[c]) == cfg.answer(cfg.reqs[d])
  }

  lemma Extend(cfg: Config, ss: seq<State>, ls: seq<Label>, l: Label) returns (ss': seq<State>, ls': seq<Label>)
    requires IsRun(cfg, ss, ls) && Enabled(cfg, ss[|ls|], l)
    ensures IsRun(cfg, ss', ls') && ls' == ls + [l] && ss'[|ls'|] == Next(cfg, ss[|ls|], l)
  {
    ss', ls' := ss + [Next(cfg, ss[|ls|], l)], ls + [l];
  }

  // The answer to c is on its way, c has given up, and d waits under the same id.
  ghost predicate Stale(cfg: Config, s: State, c: nat, d: nat) {
    Shape(cfg, s) && c < |cfg.reqs| && d < |cfg.reqs| &&
    Pends(s, cfg.reqs[c].reqId, d) && s.phases[d] == Waiting && s.slots[d] == None &&
    s.toPeer == [cfg.reqs[d]] && s.toClient == [cfg.answer(cfg.reqs[c])] && s.reader.Reading? && !s.stopped
  }

  // c has written its request, given up and left.
  ghost predicate Abandoned(cfg: Config, s: State, c: nat, d: nat) {
    Shape(cfg, s) && c < |cfg.reqs| && d < |cfg.reqs| &&
    s.pending == map[] && s.phases[d] == NotStarted && s.slots[d] == None &&
    s.toPeer == [cfg.reqs[c]] && s.toClient == [] && s.reader.Reading? && !s.stopped
  }

  lemma AbandonRun(cfg: Config, c: nat, d: nat) returns (ss: seq<State>, ls: seq<Label>)
    requires c < |cfg.reqs| && d < |cfg.reqs| && c != d
    ensures IsRun(cfg, ss, ls) && Abandoned(cfg, ss[|ls|], c, d)
  {
    ss, ls := [Init(cfg)], [];
    ss, ls := Extend(cfg, ss, ls, Begin(c));
    ss, ls := Extend(cfg, ss, ls, Write(c));
    ss, ls := Extend(cfg, ss, ls, Cancel(c));
    ss, ls := Extend(cfg, ss, ls, Leave(c));
  }

  lemma StaleRun(cfg: Config, c: nat, d: nat) returns (ss: seq<State>, ls: seq<Label>)
    requires c < |cfg.reqs| && d < |cfg.reqs| && c != d && cfg.reqs[c].reqId == cfg.reqs[d].reqId
    ensures IsRun(cfg, ss, ls) && Stale(cfg, ss[|ls|], c, d)
  {
    ss, ls := AbandonRun(cfg, c, d);
    ss, ls := Extend(cfg, ss, ls, Begin(d));
    ss, ls := Extend(cfg, ss, ls, Write(d));
    ss, ls := Extend(cfg, ss, ls, Answer);
  }

  // d then returns the answer that was meant for c.
  lemma WrongAnswerRun(cfg: Config, c: nat, d: nat) returns (ss: seq<State>, ls: seq<Label>)
    requires KeepsId(cfg)
    requires c < |cfg.reqs| && d < |cfg.reqs| && c != d && cfg.reqs[c].reqId == cfg.reqs[d].reqId
    ensures IsRun(cfg, ss, ls) && HasGot(PhaseOf(ss[|ls|], d), cfg.answer(cfg.reqs[c]))
  {
    ss, ls := StaleRun(cfg, c, d);
    ss, ls := Extend(cfg, ss, ls, Lookup);
    ss, ls := Extend(cfg, ss, ls, Send);
    ss, ls := Extend(cfg, ss, ls, Take(d));
  }

  // Every call that returns a response returns the answer to its own request, in every
  // run, exactly if requests with the same id have the same answer; so always when the
  // ids are distinct.
  lemma CorrelatedIff(cfg: Config)
    requires KeepsId(cfg)
    ensures Correlated(cfg) <==> SameIdSameAnswer(cfg)
    ensures FreshIds(cfg) ==> Correlated(cfg)
  {
    if SameIdSameAnswer(cfg) {
      forall ss: seq<State>, ls: seq<Label>, c: nat, res |
        IsRun(cfg, ss, ls) && c < |cfg.reqs| && HasGot(PhaseOf(ss[|ls|], c), res)
        ensures res == cfg.answer(cfg.reqs[c])
      {
        ReturnsOwnId(cfg, ss, ls, |ls|, c, res);
      }
    } else {
      var c, d :| 0 <= c < |cfg.reqs| && 0 <= d < |cfg.reqs| && cfg.reqs[c].reqId == cfg.reqs[d].reqId &&
        cfg.answer(cfg.reqs[c]) != cfg.answer(cfg.reqs[d]);
      var ss, ls := WrongAnswerRun(cfg, c, d);
      assert !Correlated(cfg);
    }
  }

  // --- the reader never hangs ---

  // The reader stands before a channel that is full.
  predicate Blocked(s: State) {
    s.reader.Sending? && SlotOf(s, s.reader.call).Some?
  }

  function CountReqs(xs: seq<Request>, id: int): nat {
    if xs == [] then 0 else CountReqs(xs[..|xs| - 1], id) + if xs[|xs| - 1].reqId == id then 1 else 0
  }

  function CountRes(xs: seq<Response>, id: int): nat {
    if xs == [] then 0 else CountRes(xs[..|xs| - 1], id) + if xs[|xs| - 1].reqId == id then 1 else 0
  }

  lemma {:induction false} CountReqsFirst(xs: seq<Request>, id: int)
    requires xs != []
    ensures CountReqs(xs, id) == CountReqs(xs[1..], id) + if xs[0].reqId == id then 1 else 0
  {
    if |xs| > 1 {
      CountReqsFirst(xs[..|xs| - 1], id);
      assert xs[..|xs| - 1][1..] == xs[1..][..|xs| - 2];
    }
  }

  lemma {:induction false} CountResFirst(xs: seq<Response>, id: int)
    requires xs != []
    ensures CountRes(xs, id) == CountRes(xs[1..], id) + if xs[0].reqId == id then 1 else 0
  {
    if |xs| > 1 {
      CountResFirst(xs[..|xs| - 1], id);
      assert xs[..|xs| - 1][1..] == xs[1..][..|xs| - 2];
    }
  }

  function ReceivedOf(s: State, c: nat): nat {
    if c < |s.received| then s.received[c] else 0
  }

  // The copies of call c's exchange: on the wire, in the reader's hand, or sent.
  function Copies(cfg: Config, s: State, c: nat): nat
    requires c < |cfg.reqs|
  {
    var id := cfg.reqs[c].reqId;
    CountReqs(s.toPeer, id) + CountRes(s.toClient, id) +
    (if s.reader.Sending? && s.reader.res.reqId == id then 1 else 0) + ReceivedOf(s, c)
  }

  predicate Written(p: Phase) {
    p.Waiting? || ((p.Leaving? || p.Ended?) && !p.outcome.WriteError? && !p.outcome.IdInUse?)
  }

  ghost predicate Single(cfg: Config, s: State, c: nat)
    requires c < |cfg.reqs|
  {
    Copies(cfg, s, c) <= (if Written(PhaseOf(s, c)) then 1 else 0) &&
    (SlotOf(s, c).Some? ==> ReceivedOf(s, c) > 0) &&
    PhaseOf(s, c) != Leaving(IdInUse) && PhaseOf(s, c) != Ended(IdInUse)
  }

  lemma SingleBegin(cfg: Config, s: State, c: nat, d: nat)
    requires FreshIds(cfg) && Inv(cfg, s) && Enabled(cfg, s, Begin(d)) && c < |cfg.reqs| && Single(cfg, s, c)
    ensures Single(cfg, NextBegin(cfg, s, d), c)
  {
    var id := cfg.reqs[d].reqId;
    if id in s.pending {
      assert Pends(s, id, s.pending[id]);
    }
  }

  lemma SingleWrite(cfg: Config, s: State, c: nat, d: nat)
    requires FreshIds(cfg) && Enabled(cfg, s, Write(d)) && c < |cfg.reqs| && Single(cfg, s, c)
    ensures Single(cfg, Next(cfg, s, Write(d)), c)
  {
    var wire := s.toPeer + [cfg.reqs[d]];
    assert wire[..|wire| - 1] == s.toPeer;
  }

  lemma SingleAnswer(cfg: Config, s: State, c: nat)
    requires KeepsId(cfg) && Enabled(cfg, s, Answer) && c < |cfg.reqs| && Single(cfg, s, c)
    ensures Single(cfg, Next(cfg, s, Answer), c)
  {
    var wire := s.toClient + [cfg.answer(s.toPeer[0])];
    assert wire[..|wire| - 1] == s.toClient;
    CountReqsFirst(s.toPeer, cfg.reqs[c].reqId);
  }

  lemma SingleLookup(cfg: Config, s: State, c: nat)
    requires Enabled(cfg, s, Lookup) && c < |cfg.reqs| && Single(cfg, s, c)
    ensures Single(cfg, NextLookup(s), c)
  {
    CountResFirst(s.toClient, cfg.reqs[c].reqId);
  }

  lemma SingleSend(cfg: Config, s: State, c: nat)
    requires FreshIds(cfg) && Inv(cfg, s) && Enabled(cfg, s, Send) && c < |cfg.reqs| && Single(cfg, s, c)
    ensures Single(cfg, NextSend(s), c)
  {
    assert cfg.reqs[s.reader.call].reqId == s.reader.res.reqId;
  }

  lemma SingleQuiet(cfg: Config, s: State, l: Label, c: nat)
    requires Enabled(cfg, s, l) && c < |cfg.reqs| && Single(cfg, s, c)
    requires !l.Begin? && !l.Write? && !l.Answer? && !l.Lookup? && !l.Send?
    ensures Single(cfg, Next(cfg, s, l), c)
  {
  }

  lemma SingleStep(cfg: Config, s: State, l: Label, c: nat)
    requires KeepsId(cfg) && FreshIds(cfg) && Inv(cfg, s) && Enabled(cfg, s, l)
    requires c < |cfg.reqs| && Single(cfg, s, c)
    ensures Single(cfg, Next(cfg, s, l), c)
  {
    hide Inv, Single;
    match l
    case Begin(d) => SingleBegin(cfg, s, c, d);
    case Write(d) => SingleWrite(cfg, s, c, d);
    case Answer => SingleAnswer(cfg, s, c);
    case Lookup => SingleLookup(cfg, s, c);
    case Send => SingleSend(cfg, s, c);
    case _ => SingleQuiet(cfg, s, l, c);
  }

  // With distinct ids a channel is sent at most one response, the id is never found in
  // use, and the reader never stands before a full channel.
  lemma {:induction false} ReaderNeverBlocks(cfg: Config, ss: seq<State>, ls: seq<Label>, i: nat, c: nat)
    requires KeepsId(cfg) && FreshIds(cfg) && IsRun(cfg, ss, ls) && i <= |ls| && c < |cfg.reqs|
    ensures Single(cfg, ss[i], c) && ReceivedOf(ss[i], c) <= 1 && !Blocked(ss[i])
  {
    SingleAlong(cfg, ss, ls, i, c);
    RunInv(cfg, ss, ls, i);
    if ss[i].reader.Sending? {
      SingleAlong(cfg, ss, ls, i, ss[i].reader.call);
    }
  }

  lemma {:induction false} SingleAlong(cfg: Config, ss: seq<State>, ls: seq<Label>, i: nat, c: nat)
    requires KeepsId(cfg) && FreshIds(cfg) && IsRun(cfg, ss, ls) && i <= |ls| && c < |cfg.reqs|
    ensures Single(cfg, ss[i], c)
  {
    hide Inv, Next, Enabled;
    if i > 0 {
      SingleAlong(cfg, ss, ls, i - 1, c);
      RunInv(cfg, ss, ls, i - 1);
      SingleStep(cfg, ss[i - 1], ls[i - 1], c);
    }
  }

  // With a reused id the reader can stand before a full channel whose call has ended, so
  // that nobody will ever empty it.
  lemma BlockedRun(cfg: Config, c: nat, d: nat) returns (ss: seq<State>, ls: seq<Label>)
    requires KeepsId(cfg)
    requires c < |cfg.reqs| && d < |cfg.reqs| && c != d && cfg.reqs[c].reqId == cfg.reqs[d].reqId
    ensures IsRun(cfg, ss, ls) && Blocked(ss[|ls|]) && ss[|ls|].reader.call == d
    ensures PhaseOf(ss[|ls|], d).Ended?
  {
    ss, ls := StaleRun(cfg, c, d);
    ss, ls := Extend(cfg, ss, ls, Answer);
    ss, ls := Extend(cfg, ss, ls, Lookup);
    ss, ls := Extend(cfg, ss, ls, Send);
    ss, ls := Extend(cfg, ss, ls, Lookup);
    ss, ls := Extend(cfg, ss, ls, Cancel(d));
    ss, ls := Extend(cfg, ss, ls, Leave(d));
  }

  // Such a reader never moves again.
  lemma BlockedForGood(cfg: Config, s: State, l: Label)
    requires Enabled(cfg, s, l) && Blocked(s) && PhaseOf(s, s.reader.call).Ended?
    ensures Blocked(Next(cfg, s, l)) && Next(cfg, s, l).reader == s.reader
    ensures PhaseOf(Next(cfg, s, l), s.reader.call).Ended?
  {
  }

  ghost predicate NeverBlocks(cfg: Config) {
    forall ss: seq<State>, ls: seq<Label> :: IsRun(cfg, ss, ls) ==> !Blocked(ss[|ls|])
  }

  lemma NeverBlocksIffDistinct(cfg: Config)
    requires KeepsId(cfg)
    ensures NeverBlocks(cfg) <==> FreshIds(cfg)
  {
    if FreshIds(cfg) {
      forall ss: seq<State>, ls: seq<Label> | IsRun(cfg, ss, ls) ensures !Blocked(ss[|ls|]) {
        RunInv(cfg, ss, ls, |ls|);
        if ss[|ls|].reader.Sending? {
          ReaderNeverBlocks(cfg, ss, ls, |ls|, ss[|ls|].reader.call);
        }
      }
    } else {
      var c, d :| 0 <= c < d < |cfg.reqs| && cfg.reqs[c].reqId == cfg.reqs[d].reqId;
      var ss, ls := BlockedRun(cfg, c, d);
      assert !NeverBlocks(cfg);
    }
  }

  // --- stopping ---

  function Rank(p: Phase): nat {
    match p
    case NotStarted => 4
    case Calling => 3
    case Waiting => 2
    case Leaving(_) => 1
    case Ended(_) => 0
  }

  // A step of call c itself.
  predicate IsOwn(l: Label, c: nat) {
    (l.Begin? || l.Write? || l.WriteFail? || l.Take? || l.Cancel? || l.Stop? || l.Leave?) && l.c == c
  }

  function OwnSteps(ls: seq<Label>, c: nat): nat {
    if ls == [] then 0
    else OwnSteps(ls[..|ls| - 1], c) + if IsOwn(ls[|ls| - 1], c) then 1 else 0
  }

  // Steps of anyone, from any state.
  ghost predicate IsPath(cfg: Config, ss: seq<State>, ls: seq<Label>) {
    |ss| == |ls| + 1 &&
    forall i :: 0 <= i < |ls| ==> Enabled(cfg, ss[i], ls[i]) && ss[i + 1] == Next(cfg, ss[i], ls[i])
  }

  // Once stopCh is closed every open call has a step of its own that brings it nearer to
  // its end, whatever the reader and the peer do; only a call that is writing depends on
  // the connection for it.
  lemma StoppedCallsCanMove(cfg: Config, s: State, c: nat) returns (l: Label)
    requires Shape(cfg, s) && s.stopped && c < |cfg.reqs| && IsOpen(PhaseOf(s, c))
    ensures Enabled(cfg, s, l) && (l == Write(c) || l == Stop(c) || l == Leave(c))
    ensures l == Write(c) ==> PhaseOf(s, c).Calling?
    ensures Rank(PhaseOf(Next(cfg, s, l), c)) < Rank(PhaseOf(s, c))
  {
    l := if s.phases[c].Calling? then Write(c) else if s.phases[c].Waiting? then Stop(c) else Leave(c);
  }

  // No step of anyone takes a call back, its own ones take it on, and stopCh stays closed.
  lemma StoppedStays(cfg: Config, s: State, l: Label, c: nat)
    requires Enabled(cfg, s, l) && c < |cfg.reqs|
    ensures Shape(cfg, Next(cfg, s, l))
    ensures Rank(PhaseOf(Next(cfg, s, l), c)) + (if IsOwn(l, c) then 1 else 0) <= Rank(PhaseOf(s, c))
    ensures s.stopped ==> Next(cfg, s, l).stopped
  {
  }

  lemma {:induction false} OwnStepsCount(cfg: Config, ss: seq<State>, ls: seq<Label>, c: nat)
    requires IsPath(cfg, ss, ls) && Shape(cfg, ss[0]) && c < |cfg.reqs|
    ensures Shape(cfg, ss[|ls|]) && (ss[0].stopped ==> ss[|ls|].stopped)
    ensures OwnSteps(ls, c) + Rank(PhaseOf(ss[|ls|], c)) <= Rank(PhaseOf(ss[0], c))
  {
    hide Enabled, Next, Shape, IsOwn, Rank;
    if ls != [] {
      var n := |ls| - 1;
      OwnStepsCount(cfg, ss[..n + 1], ls[..n], c);
      StoppedStays(cfg, ss[n], ls[n], c);
    }
  }

  // From a state in which stopCh is closed, whatever steps of others come between: a call
  // in progress has ended after at most as many steps of its own as its rank, and until
  // then it has one that can be taken.
  lemma StoppedCallEnds(cfg: Config, ss: seq<State>, ls: seq<Label>, c: nat)
    requires IsPath(cfg, ss, ls) && Shape(cfg, ss[0]) && ss[0].stopped
    requires c < |cfg.reqs| && IsOpen(PhaseOf(ss[0], c))
    ensures OwnSteps(ls, c) <= Rank(PhaseOf(ss[0], c)) <= 3
    ensures OwnSteps(ls, c) == Rank(PhaseOf(ss[0], c)) ==> PhaseOf(ss[|ls|], c).Ended?
    ensures PhaseOf(ss[|ls|], c).Ended? || exists l :: IsOwn(l, c) && Enabled(cfg, ss[|ls|], l)
  {
    OwnStepsCount(cfg, ss, ls, c);
    hide Enabled, Next, Shape;
    if !PhaseOf(ss[|ls|], c).Ended? {
      var l := StoppedCallsCanMove(cfg, ss[|ls|], c);
      assert IsOwn(l, c);
    }
  }
}
