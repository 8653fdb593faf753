// Reading a command's output and exit code from the serial transcript of a guest, while
// the transcript still grows.
module Transcript {
  import opened Wrappers
  import opened Texts

  const START_LINE := "__virmux_exec_start__"
  const RC_PREFIX := "__virmux_exec_rc__="

  // --- lines ---

  // strings.ReplaceAll(s, "\r\n", "\n")
  function DropReturns(s: string): string {
    if |s| < 2 then s
    else if s[0] == '\r' && s[1] == '\n' then "\n" + DropReturns(s[2..])
    else [s[0]] + DropReturns(s[1..])
  }

  // strings.Split(s, "\n")
  function Split(s: string): (lines: seq<string>)
    ensures |lines| > 0
  {
    if s == "" then [""]
    else if s[0] == '\n' then [""] + Split(s[1..])
    else [[s[0]] + Split(s[1..])[0]] + Split(s[1..])[1..]
  }

  function Lines(serial: string): (lines: seq<string>)
    ensures |lines| > 0
  {
    Split(DropReturns(serial))
  }

  function Join(lines: seq<string>): string {
    if |lines| == 0 then "" else if |lines| == 1 then lines[0] else lines[0] + "\n" + Join(lines[1..])
  }

  // --- one line ---

  predicate HasPrefix(s: string, p: string) {
    |p| <= |s| && s[..|p|] == p
  }

  lemma TrimShorter(s: string)
    ensures |TrimSpace(s)| <= |s|
  {
    var pre, post := TrimParts(s);
  }

  function StripPrompts(s: string): string
    decreases |s|
  {
    if HasPrefix(s, "# ") then
      TrimShorter(s[2..]);
      StripPrompts(TrimSpace(s[2..]))
    else s
  }

  function TrimShellPromptPrefix(line: string): string {
    var s := StripPrompts(TrimSpace(line));
    if s == "#" then "" else s
  }

  predicate AllDigits(s: string) {
    forall i :: 0 <= i < |s| ==> '0' <= s[i] <= '9'
  }

  // strconv.Atoi: a sign or none, then decimal digits, within 64 bits.
  function Atoi(s: string): Option<int> {
    var digits := if s != "" && s[0] in "+-" then s[1..] else s;
    if digits == "" || !AllDigits(digits) then None
    else
      var v := if s[0] == '-' then -Number(digits) else Number(digits);
      if -0x8000_0000_0000_0000 <= v < 0x8000_0000_0000_0000 then Some(v) else None
  }

  predicate IsStart(line: string) {
    TrimShellPromptPrefix(line) == START_LINE
  }

  predicate IsRc(line: string) {
    HasPrefix(TrimShellPromptPrefix(line), RC_PREFIX)
  }

  function RcOf(line: string): Option<int>
    requires IsRc(line)
  {
    Atoi(TrimShellPromptPrefix(line)[|RC_PREFIX|..])
  }

  method TrimPrompt(line: string) returns (s: string)
    ensures s == TrimShellPromptPrefix(line)
  {
    s := TrimSpace(line);
    while HasPrefix(s, "# ")
      invariant StripPrompts(s) == StripPrompts(TrimSpace(line))
      decreases |s|
    {
      TrimShorter(s[2..]);
      s := TrimSpace(s[2..]);
    }
    if s == "#" {
      return "";
    }
  }

  // --- the transcript ---

  datatype Output = Output(text: string, rc: int)

  // The first start line, and the first exit-code line behind it.
  ghost predicate Marked(lines: seq<string>, start: nat, at: nat) {
    start < at < |lines| && IsStart(lines[start]) && IsRc(lines[at]) &&
    (forall i :: 0 <= i < start ==> !IsStart(lines[i])) && (forall i :: start < i < at ==> !IsRc(lines[i]))
  }

  lemma MarkedOnce(lines: seq<string>, s1: nat, a1: nat, s2: nat, a2: nat)
    requires Marked(lines, s1, a1) && Marked(lines, s2, a2)
    ensures s1 == s2 && a1 == a2
  {
  }

  // The output between the marks and the code behind the second, if both are there and
  // the code is a number.
  ghost function Extracted(lines: seq<string>): Option<Output> {
    if exists start: nat, at: nat :: Marked(lines, start, at)
    then
      var start: nat, at: nat :| Marked(lines, start, at);
      match RcOf(lines[at])
      case None => None
      case Some(rc) => Some(Output(Join(lines[start + 1..at]), rc))
    else None
  }

  method ExtractCommandOutput(serial: string) returns (out: Option<Output>)
    ensures out == Extracted(Lines(serial))
  {
    hide Extracted, TrimShellPromptPrefix, Join, Lines, Atoi;
    var lines := Lines(serial);
    var start := -1;
    for i := 0 to |lines|
      invariant start == -1
      invariant forall j :: 0 <= j < i ==> !IsStart(lines[j])
    {
      var line := TrimPrompt(lines[i]);
      if line == START_LINE {
        start := i;
        break;
      }
    }
    if start < 0 {
      Unmarked(lines);
      return None;
    }
    for i := start + 1 to |lines|
      invariant forall j :: start < j < i ==> !IsRc(lines[j])
    {
      var line := TrimPrompt(lines[i]);
      if !HasPrefix(line, RC_PREFIX) {
        continue;
      }
      MarkedIs(lines, start, i);
      var rc := Atoi(line[|RC_PREFIX|..]);
      if rc.None? {
        return None;
      }
      return Some(Output(Join(lines[start + 1..i]), rc.value));
    }
    Unmarked(lines);
    return None;
  }

  lemma Unmarked(lines: seq<string>)
    requires forall start: nat, at: nat :: !Marked(lines, start, at)
    ensures Extracted(lines) == None
  {
  }

  lemma MarkedIs(lines: seq<string>, start: nat, at: nat)
    requires Marked(lines, start, at)
    ensures Extracted(lines) ==
      match RcOf(lines[at]) case None => None case Some(rc) => Some(Output(Join(lines[start + 1..at]), rc))
  {
    var s: nat, a: nat :| Marked(lines, s, a) && Extracted(lines) ==
      match RcOf(lines[a]) case None => None case Some(rc) => Some(Output(Join(lines[s + 1..a]), rc));
    MarkedOnce(lines, start, at, s, a);
  }
}
