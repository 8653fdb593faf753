// When a reading of a growing transcript is final, and that it is the right one.
module TranscriptTheorems {
  import opened Wrappers
  import opened Texts
  import opened Transcript

  // --- growth ---

  predicate EndsReturn(s: string) {
    s != "" && s[|s| - 1] == '\r'
  }

  predicate StartsBreak(s: string) {
    s != "" && s[0] == '\n'
  }

  lemma {:induction false} DropAppend(s: string, t: string)
    requires !(EndsReturn(s) && StartsBreak(t))
    ensures DropReturns(s + t) == DropReturns(s) + DropReturns(t)
  {
    if s == "" {
      assert s + t == t;
    } else if |s| >= 2 && s[0] == '\r' && s[1] == '\n' {
      DropPair(s, t);
      hide DropReturns;
      DropAppend(s[2..], t);
      Assoc("\n", DropReturns(s[2..]), DropReturns(t));
    } else {
      DropOne(s, t);
      hide DropReturns;
      DropAppend(s[1..], t);
      Assoc([s[0]], DropReturns(s[1..]), DropReturns(t));
    }
  }

  lemma Assoc(a: string, b: string, c: string)
    ensures a + (b + c) == a + b + c
  {
  }

  lemma DropPair(s: string, t: string)
    requires |s| >= 2 && s[0] == '\r' && s[1] == '\n'
    ensures DropReturns(s) == "\n" + DropReturns(s[2..]) && DropReturns(s + t) == "\n" + DropReturns(s[2..] + t)
  {
    assert (s + t)[2..] == s[2..] + t;
  }

  lemma DropOne(s: string, t: string)
    requires s != "" && !(EndsReturn(s) && StartsBreak(t)) && !(|s| >= 2 && s[0] == '\r' && s[1] == '\n')
    ensures DropReturns(s) == [s[0]] + DropReturns(s[1..])
    ensures DropReturns(s + t) == [s[0]] + DropReturns(s[1..] + t)
  {
    assert (s + t)[1..] == s[1..] + t;
    if |s| == 1 {
      assert s[1..] == "" && s == [s[0]];
      if t == "" { assert (s + t)[1..] == ""; }
    }
  }

  // The last line of r goes on with the first of u.
  function Graft(r: seq<string>, u: seq<string>): (lines: seq<string>)
    requires |r| > 0 && |u| > 0
    ensures |lines| == |r| + |u| - 1
  {
    r[..|r| - 1] + [r[|r| - 1] + u[0]] + u[1..]
  }

  lemma GraftLine(c: char, r: seq<string>, u: seq<string>)
    requires |r| > 0 && |u| > 0
    ensures Graft([""] + r, u) == [""] + Graft(r, u)
    ensures Graft([[c] + r[0]] + r[1..], u) == [[c] + Graft(r, u)[0]] + Graft(r, u)[1..]
  {
    if |r| == 1 {
      assert [c] + r[0] + u[0] == [c] + (r[0] + u[0]);
    }
  }

  lemma {:induction false} SplitAppend(s: string, t: string)
    ensures Split(s + t) == Graft(Split(s), Split(t))
  {
    if s == "" {
      assert s + t == t;
      assert "" + Split(t)[0] == Split(t)[0];
    } else {
      assert (s + t)[1..] == s[1..] + t;
      SplitAppend(s[1..], t);
      GraftLine(s[0], Split(s[1..]), Split(t));
    }
  }

  // All lines but the last are there to stay.
  lemma LinesGrow(s: string, t: string)
    ensures |Lines(s + t)| >= |Lines(s)| && Lines(s + t)[..|Lines(s)| - 1] == Lines(s)[..|Lines(s)| - 1]
  {
    if EndsReturn(s) && StartsBreak(t) {
      var s0 := s[..|s| - 1];
      assert s == s0 + "\r" && s + t == s0 + ("\r" + t);
      DropAppend(s0, "\r");
      DropAppend(s0, "\r" + t);
      SplitAppend(DropReturns(s0), "\r");
      SplitAppend(DropReturns(s0), DropReturns("\r" + t));
      NoBreak("\r");
    } else {
      DropAppend(s, t);
      SplitAppend(DropReturns(s), DropReturns(t));
    }
  }

  lemma {:induction false} NoBreak(s: string)
    requires '\n' !in s
    ensures Split(s) == [s]
  {
    if s != "" {
      NoBreak(s[1..]);
      assert s == [s[0]] + s[1..];
    }
  }

  // --- finality ---

  // The exit-code line has ended, so a reading exists that later bytes cannot change.
  ghost predicate Ended(serial: string) {
    exists start: nat, at: nat :: Marked(Lines(serial), start, at) && at < |Lines(serial)| - 1
  }

  ghost predicate Stable(serial: string) {
    forall t :: Extracted(Lines(serial + t)) == Extracted(Lines(serial))
  }

  lemma EndedIsStable(serial: string, t: string)
    requires Ended(serial)
    ensures Extracted(Lines(serial + t)) == Extracted(Lines(serial)) && Ended(serial + t)
  {
    hide TrimShellPromptPrefix, Lines, Extracted, HasPrefix, Atoi;
    var lines, grown := Lines(serial), Lines(serial + t);
    var start: nat, at: nat :| Marked(lines, start, at) && at < |lines| - 1;
    LinesGrow(serial, t);
    var n := |lines| - 1;
    forall i | 0 <= i < n ensures grown[i] == lines[i] {
      assert grown[..n][i] == lines[..n][i];
    }
    assert Marked(grown, start, at);
    MarkedIs(lines, start, at);
    MarkedIs(grown, start, at);
    assert grown[start + 1..at] == lines[start + 1..at];
  }

  lemma {:induction false} StripKeepsEnd(s: string)
    requires s != "" && s[|s| - 1] == 'x'
    ensures StripPrompts(s) != "" && StripPrompts(s)[|StripPrompts(s)| - 1] == 'x'
    decreases |s|
  {
    if HasPrefix(s, "# ") {
      TrimKeepsEnd(s[2..]);
      TrimShorter(s[2..]);
      StripKeepsEnd(TrimSpace(s[2..]));
    }
  }

  lemma TrimKeepsEnd(s: string)
    requires s != "" && s[|s| - 1] == 'x'
    ensures TrimSpace(s) != "" && TrimSpace(s)[|TrimSpace(s)| - 1] == 'x'
  {
    var pre, post := TrimParts(s);
    assert post == "" || IsSpace(s[|s| - 1]);
    assert TrimSpace(s) != "" || IsSpace(s[|s| - 1]);
  }

  lemma EndsInX(line: string)
    ensures var s := TrimShellPromptPrefix(line + "x"); s != "" && s[|s| - 1] == 'x'
  {
    hide TrimSpace;
    TrimKeepsEnd(line + "x");
    StripKeepsEnd(TrimSpace(line + "x"));
  }

  lemma NotANumber(line: string)
    requires IsRc(line + "x")
    ensures RcOf(line + "x") == None
  {
    hide TrimShellPromptPrefix;
    EndsInX(line);
    var s := TrimShellPromptPrefix(line + "x");
    XIsNoCode(s, s[|RC_PREFIX|..]);
  }

  lemma XIsNoCode(s: string, code: string)
    requires s != "" && s[|s| - 1] == 'x' && HasPrefix(s, RC_PREFIX) && code == s[|RC_PREFIX|..]
    ensures Atoi(code) == None
  {
    assert s == RC_PREFIX + code;
    var digits := if code != "" && code[0] in "+-" then code[1..] else code;
    assert code == "" || code[|code| - 1] == 'x';
    assert digits == "" || digits[|digits| - 1] == 'x';
  }

  lemma OneMore(serial: string)
    ensures Lines(serial + "x") == Lines(serial)[..|Lines(serial)| - 1] + [Lines(serial)[|Lines(serial)| - 1] + "x"]
  {
    DropAppend(serial, "x");
    SplitAppend(DropReturns(serial), "x");
    NoBreak("x");
  }

  // While the exit-code line is the last one, one byte can still spoil it.
  lemma LastLineSpoils(serial: string)
    requires Extracted(Lines(serial)).Some? && !Ended(serial)
    ensures Extracted(Lines(serial + "x")) == None
  {
    hide TrimShellPromptPrefix, Lines, HasPrefix, Atoi, Join;
    var lines, grown := Lines(serial), Lines(serial + "x");
    OneMore(serial);
    var start: nat, at: nat :| Marked(lines, start, at);
    assert at == |lines| - 1;
    if exists s: nat, a: nat :: Marked(grown, s, a) {
      var s: nat, a: nat :| Marked(grown, s, a);
      LastIsMark(lines, grown, start, at, s, a);
      NotANumber(lines[at]);
      MarkedIs(grown, s, a);
    }
  }

  lemma LastIsMark(lines: seq<string>, grown: seq<string>, start: nat, at: nat, s: nat, a: nat)
    requires Marked(lines, start, at) && at == |lines| - 1 && Marked(grown, s, a)
    requires grown == lines[..at] + [lines[at] + "x"]
    ensures a == at && s == start
  {
    hide TrimShellPromptPrefix, HasPrefix, IsRc, IsStart;
    assert forall i :: 0 <= i < at ==> grown[i] == lines[i];
  }

  // A reading is final, whatever follows, exactly when the exit-code line has ended.
  lemma StableIffEnded(serial: string)
    requires Extracted(Lines(serial)).Some?
    ensures Stable(serial) <==> Ended(serial)
  {
    hide Lines, Extracted;
    if Ended(serial) {
      forall t ensures Extracted(Lines(serial + t)) == Extracted(Lines(serial)) {
        EndedIsStable(serial, t);
      }
    } else {
      LastLineSpoils(serial);
    }
  }

  // In particular once the transcript ends in a newline.
  lemma NewlineIsFinal(serial: string)
    requires Extracted(Lines(serial)).Some? && serial != "" && serial[|serial| - 1] == '\n'
    ensures Ended(serial) && Stable(serial)
  {
    hide Lines, IsRc, RcOf, Join;
    var lines := Lines(serial);
    LastIsEmpty(serial);
    var start: nat, at: nat :| Marked(lines, start, at);
    EmptyIsNoCode();
    StableIffEnded(serial);
  }

  lemma EmptyIsNoCode()
    ensures !IsRc("")
  {
    assert TrimSpace("") == "";
  }

  lemma LastIsEmpty(serial: string)
    requires serial != "" && serial[|serial| - 1] == '\n'
    ensures Lines(serial)[|Lines(serial)| - 1] == ""
  {
    var s0 := serial[..|serial| - 1];
    BreakEnds();
    if EndsReturn(s0) {
      var s1 := s0[..|s0| - 1];
      assert serial == s1 + "\r\n";
      hide DropReturns, Split;
      DropAppend(s1, "\r\n");
      SplitAppend(DropReturns(s1), "\n");
    } else {
      assert serial == s0 + "\n";
      hide DropReturns, Split;
      DropAppend(s0, "\n");
      SplitAppend(DropReturns(s0), "\n");
    }
  }

  lemma BreakEnds()
    ensures DropReturns("\r\n") == "\n" && DropReturns("\n") == "\n" && Split("\n") == ["", ""]
  {
    assert "\r\n"[2..] == "" && "\n"[1..] == "";
  }

  // --- what was sent is what is read ---

  // A line as the guest sends it, ended by "\r\n" or by "\n" alone.
  datatype Sent = Sent(text: string, withReturn: bool)

  predicate IsLine(l: Sent) {
    '\n' !in l.text && (!l.withReturn ==> !EndsReturn(l.text))
  }

  function Wire(sent: seq<Sent>): string {
    if sent == [] then "" else sent[0].text + (if sent[0].withReturn then "\r\n" else "\n") + Wire(sent[1..])
  }

  function SentTexts(sent: seq<Sent>): (lines: seq<string>)
    ensures |lines| == |sent|
  {
    seq(|sent|, i requires 0 <= i < |sent| => sent[i].text)
  }

  lemma {:induction false} DropNone(s: string)
    requires '\n' !in s
    ensures DropReturns(s) == s
  {
    if |s| >= 2 {
      assert s[1] in s;
      DropNone(s[1..]);
      assert s == [s[0]] + s[1..];
    }
  }

  lemma DropLine(l: Sent, rest: string)
    requires IsLine(l)
    ensures DropReturns(l.text + (if l.withReturn then "\r\n" else "\n") + rest) == l.text + "\n" + DropReturns(rest)
  {
    var term := if l.withReturn then "\r\n" else "\n";
    TermEnds(l);
    BreakEnds();
    hide DropReturns, EndsReturn, StartsBreak;
    DropAppend(l.text + term, rest);
    DropAppend(l.text, term);
    DropNone(l.text);
  }

  lemma GraftBreak(text: string, u: seq<string>)
    requires |u| > 0
    ensures Graft([text], ["", ""]) == [text, ""] && Graft([text, ""], u) == [text] + u
  {
    assert text + "" == text && "" + u[0] == u[0];
  }

  lemma SplitLine(text: string, rest: string)
    requires '\n' !in text
    ensures Split(text + "\n" + rest) == [text] + Split(rest)
  {
    BreakEnds();
    NoBreak(text);
    hide Split;
    SplitAppend(text, "\n");
    GraftBreak(text, Split(rest));
    hide Graft;
    SplitAppend(text + "\n", rest);
  }

  lemma OneLine(l: Sent, rest: string)
    requires IsLine(l)
    ensures Lines(l.text + (if l.withReturn then "\r\n" else "\n") + rest) == [l.text] + Lines(rest)
  {
    hide DropReturns, Split;
    DropLine(l, rest);
    SplitLine(l.text, DropReturns(rest));
  }

  lemma TermEnds(l: Sent)
    requires IsLine(l)
    ensures var term := if l.withReturn then "\r\n" else "\n";
      !EndsReturn(l.text + term) && !(EndsReturn(l.text) && StartsBreak(term))
  {
  }

  lemma {:induction false} LinesOfWire(sent: seq<Sent>)
    requires forall i :: 0 <= i < |sent| ==> IsLine(sent[i])
    ensures Lines(Wire(sent)) == SentTexts(sent) + [""]
  {
    if sent == [] {
      assert DropReturns("") == "";
    } else {
      hide Lines, IsLine;
      LinesOfWire(sent[1..]);
      OneLine(sent[0], Wire(sent[1..]));
      assert SentTexts(sent) == [sent[0].text] + SentTexts(sent[1..]);
    }
  }

  // Of lines sent as: no start line, a start line, no exit-code line, an exit-code line,
  // anything, exactly those between the two are read, and the number behind the second.
  lemma ReadsWhatWasSent(sent: seq<Sent>, start: nat, at: nat)
    requires forall i :: 0 <= i < |sent| ==> IsLine(sent[i])
    requires start < at < |sent| && IsStart(sent[start].text) && IsRc(sent[at].text)
    requires forall i :: 0 <= i < start ==> !IsStart(sent[i].text)
    requires forall i :: start < i < at ==> !IsRc(sent[i].text)
    ensures Extracted(Lines(Wire(sent))) ==
      match RcOf(sent[at].text)
      case None => None
      case Some(rc) => Some(Output(Join(SentTexts(sent)[start + 1..at]), rc))
    ensures Ended(Wire(sent))
  {
    hide Extracted, IsLine, Lines, IsStart, IsRc, RcOf, Wire, Join;
    LinesOfWire(sent);
    SentMarked(SentTexts(sent), start, at);
    MarkedIs(SentTexts(sent) + [""], start, at);
  }

  lemma SentMarked(texts: seq<string>, start: nat, at: nat)
    requires Marked(texts, start, at)
    ensures Marked(texts + [""], start, at) && (texts + [""])[start + 1..at] == texts[start + 1..at]
  {
    hide IsStart, IsRc;
  }

  // Without such lines nothing is read.
  lemma ReadsNothing(sent: seq<Sent>)
    requires forall i :: 0 <= i < |sent| ==> IsLine(sent[i])
    requires !exists start: nat, at: nat :: start < at < |sent| && IsStart(sent[start].text) && IsRc(sent[at].text)
    ensures Extracted(Lines(Wire(sent))) == None
  {
    hide Extracted, IsLine, Lines, IsStart, IsRc, Wire, Join;
    LinesOfWire(sent);
    EmptyIsNoCode();
    var lines := SentTexts(sent) + [""];
    assert forall i :: 0 <= i < |sent| ==> lines[i] == sent[i].text;
    Unmarked(lines);
  }

  // --- waiting ---

  // What one turn of the waiting loop meets.
  datatype Turn = Tick(serial: string) | Deadline | Canceled

  datatype Wait = Completed(serial: string) | TimedOut | WasCanceled | BadTimeout | StillWaiting

  // The first k turns are looks that find nothing.
  ghost predicate Silent(turns: seq<Turn>, k: nat) {
    k <= |turns| && forall j :: 0 <= j < k ==> turns[j].Tick? && Extracted(Lines(turns[j].serial)).None?
  }

  ghost predicate EndsWith(turns: seq<Turn>, turn: Turn) {
    exists k: nat :: k < |turns| && Silent(turns, k) && turns[k] == turn
  }

  // The first look and then one for every tick, until a reading, the deadline or the end
  // of the context.
  method WaitForExecCompletionLine(now: string, timeout: int, turns: seq<Turn>) returns (r: Wait)
    ensures timeout <= 0 <==> r == BadTimeout
    ensures r.Completed? ==> Extracted(Lines(r.serial)).Some?
    ensures timeout > 0 && Extracted(Lines(now)).Some? ==> r == Completed(now)
    ensures timeout > 0 && Extracted(Lines(now)).None? ==> match r
      case Completed(serial) => EndsWith(turns, Tick(serial))
      case TimedOut => EndsWith(turns, Deadline)
      case WasCanceled => EndsWith(turns, Canceled)
      case BadTimeout => false
      case StillWaiting => Silent(turns, |turns|)
  {
    hide Extracted, Lines;
    if timeout <= 0 {
      return BadTimeout;
    }
    var out := ExtractCommandOutput(now);
    if out.Some? {
      return Completed(now);
    }
    for k := 0 to |turns|
      invariant Silent(turns, k)
    {
      match turns[k] {
        case Canceled =>
          return WasCanceled;
        case Deadline =>
          return TimedOut;
        case Tick(serial) =>
          out := ExtractCommandOutput(serial);
          if out.Some? {
            return Completed(serial);
          }
      }
    }
    return StillWaiting;
  }

  datatype Verdict = Accepted | NoCompletion | ExitCode(rc: int) | NoMarker(marker: string)

  ghost predicate Fits(serial: string, required: seq<string>) {
    var out := Extracted(Lines(serial));
    out.Some? && out.value.rc == 0 && forall m :: m in required ==> Index(out.value.text, m) >= 0
  }

  method ValidateSerialMarkers(serial: string, required: seq<string>) returns (v: Verdict)
    ensures v.Accepted? <==> Fits(serial, required)
    ensures v.NoCompletion? <==> Extracted(Lines(serial)).None?
    ensures v.ExitCode? <==> Extracted(Lines(serial)).Some? && Extracted(Lines(serial)).value.rc != 0
    ensures v.ExitCode? ==> v.rc == Extracted(Lines(serial)).value.rc
    ensures v.Accepted? ==> forall m :: m in required ==> exists j :: At(Extracted(Lines(serial)).value.text, m, j)
    ensures v.NoMarker? ==>
      v.marker in required && Extracted(Lines(serial)).Some? && forall j ::
        !At(Extracted(Lines(serial)).value.text, v.marker, j)
  {
    hide Extracted, Lines, Index;
    var out := ExtractCommandOutput(serial);
    forall m: string | out.Some? ensures Index(out.value.text, m) < 0 <==> forall j :: !At(out.value.text, m, j) {
      IndexIs(out.value.text, m);
    }
    if out.None? {
      return NoCompletion;
    }
    if out.value.rc != 0 {
      return ExitCode(out.value.rc);
    }
    for k := 0 to |required|
      invariant forall j :: 0 <= j < k ==> Index(out.value.text, required[j]) >= 0
    {
      if Index(out.value.text, required[k]) >= 0 {
        continue;
      }
      return NoMarker(required[k]);
    }
    return Accepted;
  }

  // The verdict on the whole transcript is the verdict on what the waiting loop saw, if
  // the exit-code line had ended then.
  lemma VerdictIsSettled(seen: string, more: string, required: seq<string>)
    requires Ended(seen)
    ensures Fits(seen + more, required) <==> Fits(seen, required)
  {
    hide Extracted, Lines, Index;
    EndedIsStable(seen, more);
  }

  // Without that, what the loop took for the end can turn into no reading at all.
  lemma VerdictCanTurn(seen: string)
    requires Fits(seen, []) && !Ended(seen)
    ensures exists more :: !Fits(seen + more, [])
  {
    hide Extracted, Lines;
    LastLineSpoils(seen);
    assert !Fits(seen + "x", []);
  }

  // --- a reading inside the digits ---

  lemma PlainLine(s: string)
    requires s != "" && s[0] == '_' && !IsSpace(s[|s| - 1])
    ensures TrimShellPromptPrefix(s) == s
  {
    hide TrimSpace;
    TrimUnique("", s, "");
    assert "" + s + "" == s;
  }

  function Torn(digits: string): string {
    START_LINE + "\n" + (RC_PREFIX + digits)
  }

  lemma TornLines(digits: string)
    requires '\n' !in digits
    ensures Lines(Torn(digits)) == [START_LINE, RC_PREFIX + digits]
  {
    hide DropReturns, Split;
    OneLine(Sent(START_LINE, false), RC_PREFIX + digits);
    assert '\n' !in RC_PREFIX + digits;
    DropNone(RC_PREFIX + digits);
    NoBreak(RC_PREFIX + digits);
  }

  lemma DigitsCode(digits: string)
    requires digits != "" && AllDigits(digits) && Number(digits) < 0x8000_0000_0000_0000
    ensures Atoi(digits) == Some(Number(digits))
  {
    NumberNotNegative(digits);
    assert '0' <= digits[0] <= '9';
  }

  lemma TornMarks(line: string, digits: string)
    requires digits != "" && AllDigits(digits) && line == RC_PREFIX + digits
    ensures IsStart(START_LINE) && IsRc(line) && !IsStart(line)
    ensures TrimShellPromptPrefix(line)[|RC_PREFIX|..] == digits
  {
    assert line[|line| - 1] == digits[|digits| - 1];
    PlainLine(START_LINE);
    PlainLine(line);
    hide TrimShellPromptPrefix;
    assert line[|RC_PREFIX|..] == digits && line[..|RC_PREFIX|] == RC_PREFIX;
    assert line[15] == RC_PREFIX[15] == 'c' && START_LINE[15] == 't';
  }

  lemma TornReading(digits: string)
    requires digits != "" && AllDigits(digits) && Number(digits) < 0x8000_0000_0000_0000
    ensures Extracted(Lines(Torn(digits))) == Some(Output("", Number(digits)))
  {
    TornLines(digits);
    TornMarks(RC_PREFIX + digits, digits);
    DigitsCode(digits);
    hide TrimShellPromptPrefix, Number, Extracted, Lines, IsStart, IsRc, Atoi, AllDigits, Torn;
    OneMark(START_LINE, RC_PREFIX + digits);
  }

  lemma OneMark(start: string, line: string)
    requires IsStart(start) && IsRc(line)
    ensures Extracted([start, line]) == match RcOf(line) case None => None case Some(rc) => Some(Output("", rc))
  {
    hide IsStart, IsRc, RcOf;
    assert [start, line][1..1] == [];
    MarkedIs([start, line], 0, 1);
  }

  lemma {:induction false} NumberNotNegative(digits: string)
    requires AllDigits(digits)
    ensures Number(digits) >= 0
  {
    if digits != "" {
      NumberNotNegative(digits[..|digits| - 1]);
    }
  }

  // A transcript that was cut inside the digits of the exit code reads as another code than
  // the one that was sent, unless both are zero.
  lemma TornCode(digits: string, last: char)
    requires digits != "" && AllDigits(digits) && '0' <= last <= '9' && Number(digits) < 0xCCC_CCCC_CCCC_CCCC
    ensures Torn(digits) + [last] == Torn(digits + [last])
    ensures Extracted(Lines(Torn(digits))) == Some(Output("", Number(digits)))
    ensures Extracted(Lines(Torn(digits) + [last])) ==
      Some(Output("", 10 * Number(digits) + (last as int - '0' as int)))
    ensures Extracted(Lines(Torn(digits))) == Extracted(Lines(Torn(digits) + [last])) <==>
      Number(digits) == 0 && last == '0'
  {
    hide Extracted, Lines, Number, AllDigits, Torn;
    TornSnoc(digits, last);
    TornMore(digits, last);
    TornFirst(digits);
    OtherCode(Number(digits), last as int - '0' as int);
  }

  lemma TornFirst(digits: string)
    requires digits != "" && AllDigits(digits) && Number(digits) < 0xCCC_CCCC_CCCC_CCCC
    ensures Extracted(Lines(Torn(digits))) == Some(Output("", Number(digits)))
  {
    hide Extracted, Lines, Number, AllDigits, Torn;
    TornReading(digits);
  }

  lemma OtherCode(code: int, digit: int)
    requires code >= 0 && 0 <= digit <= 9
    ensures Output("", code) == Output("", 10 * code + digit) <==> code == 0 && digit == 0
  {
  }

  lemma TornMore(digits: string, last: char)
    requires digits != "" && AllDigits(digits) && '0' <= last <= '9' && Number(digits) < 0xCCC_CCCC_CCCC_CCCC
    ensures Number(digits) >= 0
    ensures Extracted(Lines(Torn(digits + [last]))) ==
      Some(Output("", 10 * Number(digits) + (last as int - '0' as int)))
  {
    MoreDigits(digits, last);
    hide Extracted, Lines, Number, AllDigits, Torn;
    TornReading(digits + [last]);
  }

  lemma TornSnoc(digits: string, last: char)
    ensures Torn(digits) + [last] == Torn(digits + [last])
  {
  }

  lemma MoreDigits(digits: string, last: char)
    requires AllDigits(digits) && '0' <= last <= '9'
    ensures AllDigits(digits + [last]) && Number(digits) >= 0
    ensures Number(digits + [last]) == 10 * Number(digits) + (last as int - '0' as int)
  {
    var more := digits + [last];
    assert more[..|more| - 1] == digits;
    NumberNotNegative(digits);
  }

  // --- the words of the transcript ---

  // The lines of an output are separated by one line break each.
  lemma {:induction false} JoinSplits(lines: seq<string>)
    requires lines != [] && forall i :: 0 <= i < |lines| ==> '\n' !in lines[i]
    ensures Split(Join(lines)) == lines
  {
    hide Split;
    if |lines| == 1 {
      NoBreak(lines[0]);
    } else {
      JoinSplits(lines[1..]);
      SplitLine(lines[0], Join(lines[1..]));
    }
  }

  // A number is digits behind one sign or none, within 64 bits, and nothing else.
  lemma AtoiPlain(s: string)
    requires s == "" || s[0] !in "+-"
    ensures Atoi(s) ==
      if s != "" && AllDigits(s) && Number(s) <= 0x7FFF_FFFF_FFFF_FFFF then Some(Number(s)) else None
  {
    if s != "" && AllDigits(s) {
      NumberNotNegative(s);
    }
    hide Number, AllDigits;
  }

  lemma AtoiSigned(s: string)
    requires s != "" && s[0] in "+-"
    ensures AllDigits(s[1..]) ==> Number(s[1..]) >= 0
    ensures var v := if s[0] == '-' then -Number(s[1..]) else Number(s[1..]);
      Atoi(s) ==
        if |s| >= 2 && AllDigits(s[1..]) && -0x8000_0000_0000_0000 <= v <= 0x7FFF_FFFF_FFFF_FFFF then Some(v) else None
  {
    if AllDigits(s[1..]) {
      NumberNotNegative(s[1..]);
    }
    hide Number, AllDigits;
  }

  // White space around a line does not count, and prompts in front of it do not; nothing
  // else is taken off.
  lemma PromptsGo(line: string)
    ensures TrimShellPromptPrefix(line) == TrimShellPromptPrefix(TrimSpace(line))
    ensures Trimmed(line) && !HasPrefix(line, "# ") ==> TrimShellPromptPrefix(line) == if line == "#" then "" else line
    ensures Trimmed(line) && HasPrefix(line, "# ") ==> TrimShellPromptPrefix(line) == TrimShellPromptPrefix(line[2..])
    ensures TrimShellPromptPrefix(line) != "#" && !HasPrefix(TrimShellPromptPrefix(line), "# ")
  {
    hide TrimSpace, IsSpace;
    TrimIdle(line);
    StripEnds(TrimSpace(line));
  }

  lemma TrimIdle(line: string)
    ensures TrimSpace(TrimSpace(line)) == TrimSpace(line)
    ensures Trimmed(line) ==> TrimSpace(line) == line
  {
    var pre, post := TrimParts(line);
    TrimUnique("", TrimSpace(line), "");
    assert "" + TrimSpace(line) + "" == TrimSpace(line) && "" + line + "" == line;
    if Trimmed(line) {
      TrimUnique("", line, "");
    }
  }

  lemma {:induction false} StripEnds(s: string)
    ensures !HasPrefix(StripPrompts(s), "# ")
    decreases |s|
  {
    if HasPrefix(s, "# ") {
      TrimShorter(s[2..]);
      StripEnds(TrimSpace(s[2..]));
    }
  }

  // The two marks as they are sent, behind any prompts.
  lemma MarksAre(line: string, digits: string)
    requires digits != "" && AllDigits(digits) && Number(digits) < 0x8000_0000_0000_0000
    ensures TrimShellPromptPrefix(line) == "__virmux_exec_start__" <==> IsStart(line)
    ensures TrimShellPromptPrefix(line) == "__virmux_exec_rc__=" + digits ==>
      IsRc(line) && RcOf(line) == Some(Number(digits))
    ensures IsRc(line) ==> RcOf(line) == Atoi(TrimShellPromptPrefix(line)[19..])
    ensures IsRc(line) ==>
      |TrimShellPromptPrefix(line)| >= 19 && TrimShellPromptPrefix(line)[..19] == "__virmux_exec_rc__="
  {
    hide TrimShellPromptPrefix, Number, AllDigits;
    DigitsCode(digits);
    assert |RC_PREFIX| == 19;
    if TrimShellPromptPrefix(line) == "__virmux_exec_rc__=" + digits {
      assert TrimShellPromptPrefix(line)[..19] == RC_PREFIX && TrimShellPromptPrefix(line)[19..] == digits;
    }
  }
}
