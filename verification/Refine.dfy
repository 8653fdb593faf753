// Rewriting the refinement block of a skill file, through its frontmatter.
module Refine {
  import opened Wrappers
  import opened Texts

  const START := "<!-- virmux-refine:start -->"
  const END := "<!-- virmux-refine:end -->"

  function Block(line: string): string {
    START + "\n## Refinement Notes\n" + line + "\n" + END
  }

  // The text in front of the block, set off by an empty line.
  function Head(text: string): string {
    if text == "" then "" else text + "\n\n"
  }

  function ReplaceRefineBlock(body: string, line: string): string {
    var b := TrimSpace(body);
    var i := Index(b, START);
    if i >= 0 && Index(b[i..], END) >= 0 then Head(TrimSpace(b[..i])) + Block(line) + "\n"
    else Head(b) + Block(line) + "\n"
  }

  // The first start marker has no end marker after it.
  predicate Dangling(body: string) {
    var b := TrimSpace(body);
    var i := Index(b, START);
    i >= 0 && Index(b[i..], END) < 0
  }

  // --- frontmatter ---

  datatype Meta = Scalar(text: string) | Sequence(items: seq<Meta>) | Mapping(fields: seq<(string, Meta)>)

  datatype Yaml = Yaml(marshal: Meta -> string, parse: string -> Option<Meta>)

  datatype Error = MissingStart | MissingEnd | BadYaml | NotMapping | EmptyPatch

  datatype Split = Front(meta: Meta, body: string) | NoFront(error: Error)

  datatype Outcome = File(text: string) | Failed(error: Error)

  const FENCE := "---\n"
  const END_FENCE := "\n---\n"

  function SplitFrontmatter(y: Yaml, src: string): Split {
    if !At(src, FENCE, 0) then NoFront(MissingStart)
    else
      var rest := src[|FENCE|..];
      var idx := Index(rest, END_FENCE);
      if idx < 0 then NoFront(MissingEnd)
      else
        match y.parse(rest[..idx])
        case None => NoFront(BadYaml)
        case Some(meta) => if meta.Mapping? then Front(meta, rest[idx + |END_FENCE|..]) else NoFront(NotMapping)
  }

  predicate EndsLine(s: string) {
    s != "" && s[|s| - 1] == '\n'
  }

  // A blank body is not written, any other ends in a newline.
  function Written(body: string): string {
    if TrimSpace(body) == "" then "" else if EndsLine(body) then body else body + "\n"
  }

  function ComposeFrontmatter(y: Yaml, meta: Meta, body: string): string {
    FENCE + y.marshal(meta) + FENCE + Written(body)
  }

  // The text ends its last line and has no line of three dashes after its first.
  ghost predicate Clean(yaml: string) {
    EndsLine(yaml) && forall j :: !At(yaml, END_FENCE, j)
  }

  // What the split hands to the YAML parser of a text that was just written: all but the
  // line break in front of the closing fence.
  function Cut(yaml: string): string {
    if yaml == "" then "" else yaml[..|yaml| - 1]
  }

  function Rewrite(y: Yaml, src: string, line: string): Outcome {
    match SplitFrontmatter(y, src)
    case NoFront(error) => Failed(error)
    case Front(meta, body) => File(ComposeFrontmatter(y, meta, ReplaceRefineBlock(body, line)))
  }

  function Line(runID: string, focus: string): string {
    "- run `" + runID + "`: tighten `" + focus +
      "` by adding one explicit acceptance bullet and one concrete output check."
  }

  // What is suggested for a run whose weakest criterion is named so.
  function Suggest(y: Yaml, src: string, runID: string, weakest: string): Outcome {
    var next := Rewrite(y, src, Line(runID, if weakest == "" then "completeness" else weakest));
    if next == File(src) then Failed(EmptyPatch) else next
  }

  datatype Criterion = Criterion(id: string, value: real)

  predicate Counts(cs: seq<Criterion>, i: nat)
    requires i < |cs|
  {
    i == 0 || TrimSpace(cs[i].id) != ""
  }

  // Of the first n criteria that have a name (the first one needs none), the one at k is
  // the weakest, and the first such.
  predicate Weakest(cs: seq<Criterion>, n: nat, k: nat) {
    k < n <= |cs| && Counts(cs, k) &&
    (forall i :: 0 <= i < n && Counts(cs, i) ==> cs[k].value <= cs[i].value && (i < k ==> cs[k].value < cs[i].value))
  }

  method WeakestCriterion(cs: seq<Criterion>) returns (best: string)
    ensures cs == [] ==> best == ""
    ensures cs != [] ==> exists k: nat :: Weakest(cs, |cs|, k) && best == TrimSpace(cs[k].id)
    ensures cs != [] ==> exists k ::
      0 <= k < |cs| && best == TrimSpace(cs[k].id) && (k == 0 || best != "") &&
      forall i :: 0 <= i < |cs| && (i == 0 || TrimSpace(cs[i].id) != "") ==>
        cs[k].value <= cs[i].value && (i < k ==> cs[k].value < cs[i].value)
  {
    hide TrimSpace;
    if cs == [] {
      return "";
    }
    best := TrimSpace(cs[0].id);
    var minv := cs[0].value;
    ghost var at: nat := 0;
    for n := 1 to |cs|
      invariant Weakest(cs, n, at) && best == TrimSpace(cs[at].id) && minv == cs[at].value
    {
      var id := TrimSpace(cs[n].id);
      if id == "" {
        continue;
      }
      if cs[n].value < minv {
        minv := cs[n].value;
        best := id;
        at := n;
      }
    }
  }

  // --- the block ---

  // What stays of a body: all of it, or what is in front of a complete block.
  function Kept(body: string): string {
    var b := TrimSpace(body);
    var i := Index(b, START);
    if i >= 0 && Index(b[i..], END) >= 0 then TrimSpace(b[..i]) else b
  }

  function Shown(text: string, line: string): string {
    Head(text) + Block(line) + "\n"
  }

  lemma TrimIsTrimmed(s: string)
    ensures Trimmed(TrimSpace(s))
  {
    var pre, post := TrimParts(s);
  }

  lemma TrimShown(text: string, line: string)
    requires Trimmed(text)
    ensures TrimSpace(Shown(text, line)) == Head(text) + Block(line)
    ensures TrimSpace(Head(text)) == text
  {
    var s := Head(text) + Block(line);
    assert s[|s| - 1] == '>' && s[0] == if text == "" then '<' else text[0];
    TrimUnique("", s, "\n");
    assert "" + s + "\n" == Shown(text, line);
    if text == "" {
      TrimUnique("", "", "");
    } else {
      TrimUnique("", text, "\n\n");
      assert "" + text + "\n\n" == Head(text);
    }
  }

  lemma Markers(line: string)
    ensures At(Block(line), START, 0) && START != "" && '\n' !in START
    ensures |Block(line)| >= |START| + |END| && Block(line)[|Block(line)| - |END|..] == END
  {
  }

  lemma StartAcross(text: string, block: string, start: string)
    requires At(block, start, 0) && start != "" && '\n' !in start
    ensures Index(Head(text) + block, start) == if Index(text, start) >= 0 then Index(text, start) else |Head(text)|
  {
    hide Index;
    if text == "" {
      assert Head(text) + block == block;
      IndexIs(block, start);
      IndexIs("", start);
    } else {
      hide At;
      IndexAcrossGap(text, block, start);
    }
  }

  lemma StopAcross(text: string, block: string, i: nat, stop: string)
    requires i <= |Head(text)| && |block| >= |stop| && block[|block| - |stop|..] == stop
    ensures Index((Head(text) + block)[i..], stop) >= 0
  {
    hide Index, Head;
    var s := Head(text) + block;
    assert s[|s| - |stop|..] == stop;
    IndexOfLast(s, stop, i);
  }

  lemma HeadFits(text: string, word: string)
    ensures Index(text, word) <= |text| <= |Head(text)|
  {
    hide Index;
  }

  lemma FirstMarker(text: string, line: string)
    ensures Index(Head(text) + Block(line), START) ==
      if Index(text, START) >= 0 then Index(text, START) else |Head(text)|
    ensures Index((Head(text) + Block(line))[Index(Head(text) + Block(line), START)..], END) >= 0
  {
    Markers(line);
    HeadFits(text, START);
    hide Block, Index, Head, At;
    StartAcross(text, Block(line), START);
    StopAcross(text, Block(line), Index(Head(text) + Block(line), START), END);
  }

  // Rewriting a text that was just written.
  lemma RewriteShown(text: string, l1: string, l2: string)
    requires Trimmed(text)
    ensures ReplaceRefineBlock(Shown(text, l1), l2) ==
      Shown(if Index(text, START) >= 0 then TrimSpace(text[..Index(text, START)]) else text, l2)
  {
    hide Block, Index, TrimSpace, IsSpace;
    TrimShown(text, l1);
    FirstMarker(text, l1);
    var s, i := Head(text) + Block(l1), Index(Head(text) + Block(l1), START);
    if Index(text, START) >= 0 {
      assert s[..i] == text[..i];
    } else {
      assert s[..i] == Head(text);
    }
  }

  lemma KeptHasNoMarker(body: string)
    requires !Dangling(body)
    ensures Index(Kept(body), START) == -1 && Trimmed(Kept(body))
  {
    hide TrimSpace, IsSpace, Index;
    var b := TrimSpace(body);
    TrimIsTrimmed(body);
    IndexIs(b, START);
    var i := Index(b, START);
    if i >= 0 {
      TrimIsTrimmed(b[..i]);
      TrimKeepsAbsent(b, i, START);
    }
  }

  lemma ShorterKept(body: string)
    requires Dangling(body)
    ensures var i := Index(Kept(body), START); 0 <= i <= |Kept(body)| && |TrimSpace(Kept(body)[..i])| < |Kept(body)|
  {
    var b := TrimSpace(body);
    IndexIs(b, START);
    var pre, post := TrimParts(b[..Index(b, START)]);
  }

  lemma ShownIs(body: string, line: string)
    ensures ReplaceRefineBlock(body, line) == Shown(Kept(body), line)
  {
  }

  lemma ShownLength(text: string, line: string)
    ensures |Shown(text, line)| == |Head(text)| + |Block(line)| + 1
  {
  }

  lemma WritesAround(body: string, line: string)
    ensures ReplaceRefineBlock(body, line) ==
      Head(Kept(body)) + "<!-- virmux-refine:start -->\n## Refinement Notes\n" + line + "\n<!-- virmux-refine:end -->\n"
  {
    hide TrimSpace, IsSpace, Index, Kept, ReplaceRefineBlock;
    ShownIs(body, line);
    BlockIs(line);
    hide Head, Block;
    var intro, outro := "<!-- virmux-refine:start -->\n## Refinement Notes\n", "\n<!-- virmux-refine:end -->\n";
    Around(Head(Kept(body)), intro, line, outro);
    assert Shown(Kept(body), line) == Head(Kept(body)) + (Block(line) + "\n");
  }

  lemma BlockIs(line: string)
    ensures Block(line) + "\n" ==
      "<!-- virmux-refine:start -->\n## Refinement Notes\n" + line + "\n<!-- virmux-refine:end -->\n"
  {
    IntroIs();
    OutroIs();
    var intro, outro := START + "\n## Refinement Notes\n", "\n" + END + "\n";
    assert Block(line) + "\n" == intro + line + outro;
  }

  lemma IntroIs()
    ensures START + "\n## Refinement Notes\n" == "<!-- virmux-refine:start -->\n## Refinement Notes\n"
  {
  }

  lemma OutroIs()
    ensures "\n" + END + "\n" == "\n<!-- virmux-refine:end -->\n"
  {
  }

  lemma Around(a: string, b: string, c: string, d: string)
    ensures a + (b + c + d) == a + b + c + d
  {
  }

  // The whole of what is written: what stood in front of a complete old block, or all of
  // the body, trimmed and set off by an empty line, and the new block with its line.
  lemma WritesLine(body: string, line: string)
    ensures var b := TrimSpace(body);
      var i := Index(b, "<!-- virmux-refine:start -->");
      var kept := if i >= 0 && Index(b[i..], "<!-- virmux-refine:end -->") >= 0 then TrimSpace(b[..i]) else b;
      ReplaceRefineBlock(body, line) ==
        (if kept == "" then "" else kept + "\n\n") + "<!-- virmux-refine:start -->\n## Refinement Notes\n" + line +
        "\n<!-- virmux-refine:end -->\n"
  {
    hide TrimSpace, IsSpace, Index, ReplaceRefineBlock;
    WritesAround(body, line);
  }

  // Different lines give different texts.
  lemma LineTells(body: string, l1: string, l2: string)
    ensures ReplaceRefineBlock(body, l1) == ReplaceRefineBlock(body, l2) <==> l1 == l2
  {
    WritesAround(body, l1);
    WritesAround(body, l2);
    hide ReplaceRefineBlock, Head, Kept;
    MiddleTells(Head(Kept(body)) + "<!-- virmux-refine:start -->\n## Refinement Notes\n",
      "\n<!-- virmux-refine:end -->\n",
      l1, l2, ReplaceRefineBlock(body, l1), ReplaceRefineBlock(body, l2));
  }

  lemma MiddleTells(before: string, after: string, l1: string, l2: string, t1: string, t2: string)
    requires t1 == before + l1 + after && t2 == before + l2 + after
    ensures t1 == t2 <==> l1 == l2
  {
    if t1 == t2 {
      assert |l1| == |l2|;
      assert t1[|before|..|before| + |l1|] == l1 && t2[|before|..|before| + |l2|] == l2;
    }
  }

  // A later refinement replaces an earlier one exactly when the body has no start marker
  // without an end; there everything from that marker on is lost.
  lemma LastWriteWins(body: string, l1: string, l2: string)
    ensures ReplaceRefineBlock(ReplaceRefineBlock(body, l1), l2) == ReplaceRefineBlock(body, l2) <==> !Dangling(body)
  {
    hide IsSpace, TrimLeft, TrimRight, ReplaceRefineBlock, Index, Block, At;
    TrimIsTrimmed(body);
    ShownIs(body, l1);
    ShownIs(body, l2);
    if Dangling(body) {
      ShorterKept(body);
      RewriteShown(Kept(body), l1, l2);
      ShownLength(Kept(body), l2);
      ShownLength(TrimSpace(Kept(body)[..Index(Kept(body), START)]), l2);
    } else {
      KeptHasNoMarker(body);
      RewriteShown(Kept(body), l1, l2);
    }
  }

  // --- through the file ---

  lemma FenceAt(yaml: string, w: string, j: int)
    requires j < |yaml|
    ensures At(yaml + FENCE + w, END_FENCE, j) <==> (At(yaml, END_FENCE, j) || (j == |yaml| - 1 >= 0 && EndsLine(yaml)))
  {
    var s := yaml + FENCE + w;
    if 0 <= j && j + |END_FENCE| <= |yaml| {
      assert s[j..j + |END_FENCE|] == yaml[j..j + |END_FENCE|];
    } else if 0 <= j {
      if At(s, END_FENCE, j) {
        assert s[j + 4] == END_FENCE[4] && s[j] == END_FENCE[0] by { AtChars(s, END_FENCE, j); }
      }
      if j == |yaml| - 1 && EndsLine(yaml) {
        assert s[j..j + |END_FENCE|] == END_FENCE;
      }
    }
  }

  lemma FirstFence(yaml: string, w: string)
    ensures yaml != "" && Index(yaml + FENCE + w, END_FENCE) == |yaml| - 1 <==> Clean(yaml)
  {
    hide At;
    var s := yaml + FENCE + w;
    IndexIs(s, END_FENCE);
    forall j | j < |yaml|
      ensures At(s, END_FENCE, j) <==> (At(yaml, END_FENCE, j) || (j == |yaml| - 1 >= 0 && EndsLine(yaml)))
    {
      FenceAt(yaml, w, j);
    }
    assert forall j :: At(yaml, END_FENCE, j) ==> 0 <= j < |yaml| - 1 by {
      forall j | At(yaml, END_FENCE, j) ensures 0 <= j < |yaml| - 1 { AtFits(yaml, END_FENCE, j); }
    }
    var last := |yaml| - 1;
    if Clean(yaml) {
      assert At(s, END_FENCE, last);
    }
  }

  lemma AtFits(s: string, p: string, j: int)
    requires At(s, p, j)
    ensures 0 <= j <= |s| - |p|
  {
  }

  // What the split finds behind a clean text: the text without its last line break, and
  // what follows the closing fence.
  lemma SplitText(y: Yaml, text: string, w: string)
    requires Clean(text)
    ensures SplitFrontmatter(y, FENCE + text + FENCE + w) ==
      match y.parse(Cut(text))
      case None => NoFront(BadYaml)
      case Some(meta) => if meta.Mapping? then Front(meta, w) else NoFront(NotMapping)
  {
    hide Index;
    var src := FENCE + text + FENCE + w;
    FirstFence(text, w);
    assert src[|FENCE|..] == text + FENCE + w;
    assert src[..|FENCE|] == FENCE;
    var rest, idx := text + FENCE + w, Index(text + FENCE + w, END_FENCE);
    assert rest[..idx] == Cut(text);
    assert rest[idx + |END_FENCE|..] == w;
  }

  // Splitting what was composed gives the same metadata and the body as written, exactly
  // when the YAML text ends its last line, has no line of three dashes after its first, and
  // still parses to the same metadata without its last line break.
  lemma FrontmatterRoundTrip(y: Yaml, meta: Meta, body: string)
    requires meta.Mapping?
    ensures SplitFrontmatter(y, ComposeFrontmatter(y, meta, body)) == Front(meta, Written(body)) <==>
      Clean(y.marshal(meta)) && y.parse(Cut(y.marshal(meta))) == Some(meta)
  {
    hide Written, Index;
    var yaml, w := y.marshal(meta), Written(body);
    var src := ComposeFrontmatter(y, meta, body);
    FirstFence(yaml, w);
    if Clean(yaml) {
      SplitText(y, yaml, w);
    } else {
      assert src[|FENCE|..] == yaml + FENCE + w;
      assert src[..|FENCE|] == FENCE;
      EndOfSplit(y, src, yaml + FENCE + w, w);
    }
  }

  lemma EndOfSplit(y: Yaml, src: string, rest: string, w: string)
    requires At(src, FENCE, 0) && src[|FENCE|..] == rest && |rest| >= |FENCE| + |w|
    requires |rest| == |FENCE| + |w| || Index(rest, END_FENCE) != |rest| - |FENCE| - |w| - 1
    ensures SplitFrontmatter(y, src).Front? ==> |SplitFrontmatter(y, src).body| != |w|
  {
    hide Index;
  }

  lemma ShownIsWritten(text: string, line: string)
    requires Trimmed(text)
    ensures Written(Shown(text, line)) == Shown(text, line)
  {
    hide TrimSpace, IsSpace;
    TrimShown(text, line);
  }

  // The file that one refinement writes.
  lemma RewriteText(y: Yaml, src: string, meta: Meta, body: string, line: string)
    requires SplitFrontmatter(y, src) == Front(meta, body)
    ensures Rewrite(y, src, line) == File(FENCE + y.marshal(meta) + FENCE + ReplaceRefineBlock(body, line))
    ensures Rewrite(y, src, line) == File(ComposeFrontmatter(y, meta, ReplaceRefineBlock(body, line)))
    ensures Written(ReplaceRefineBlock(body, line)) == ReplaceRefineBlock(body, line)
  {
    hide Written, TrimSpace, IsSpace, ReplaceRefineBlock, Shown, SplitFrontmatter;
    KeptIsTrimmed(body);
    ShownIs(body, line);
    ShownIsWritten(Kept(body), line);
  }

  lemma KeptIsTrimmed(body: string)
    ensures Trimmed(Kept(body))
  {
    hide TrimSpace, IsSpace;
    TrimIsTrimmed(body);
    var b := TrimSpace(body);
    if Index(b, START) >= 0 { TrimIsTrimmed(b[..Index(b, START)]); }
  }

  // The text of the metadata, without its last line break, is read as a mapping that is
  // written with the same text again.
  predicate SettledText(y: Yaml, meta: Meta) {
    var again := y.parse(Cut(y.marshal(meta)));
    again.Some? && again.value.Mapping? && y.marshal(again.value) == y.marshal(meta)
  }

  // The texts written for the metadata, and for what is read back of them, are clean.
  ghost predicate CleanTexts(y: Yaml, meta: Meta) {
    Clean(y.marshal(meta)) &&
    match y.parse(Cut(y.marshal(meta)))
    case None => true
    case Some(again) => again.Mapping? ==> Clean(y.marshal(again))
  }

  lemma SameFront(a: string, u: string, b: string, v: string)
    requires Clean(a) && Clean(b)
    ensures FENCE + a + FENCE + u == FENCE + b + FENCE + v <==> a == b && u == v
  {
    FirstFence(a, u);
    FirstFence(b, v);
    hide Clean, Index;
    var s, t := FENCE + a + FENCE + u, FENCE + b + FENCE + v;
    if s == t {
      assert s[|FENCE|..] == a + FENCE + u && t[|FENCE|..] == b + FENCE + v;
      assert |a| == |b|;
      assert (a + FENCE + u)[..|a|] == a && (b + FENCE + v)[..|b|] == b;
      assert (a + FENCE + u)[|a| + |FENCE|..] == u && (b + FENCE + v)[|b| + |FENCE|..] == v;
    }
  }

  // Refining a file and then the file so written is refining once, exactly when the body
  // has no start marker without an end and the text of the metadata is settled.
  lemma RefineTwice(y: Yaml, src: string, meta: Meta, body: string, l1: string, l2: string)
    requires SplitFrontmatter(y, src) == Front(meta, body) && CleanTexts(y, meta)
    ensures Rewrite(y, src, l1).File?
    ensures Rewrite(y, Rewrite(y, src, l1).text, l2) == Rewrite(y, src, l2) <==> !Dangling(body) && SettledText(y, meta)
  {
    hide Rewrite, SplitFrontmatter, ReplaceRefineBlock, Clean, Dangling, ComposeFrontmatter;
    RewriteText(y, src, meta, body, l1);
    RewriteText(y, src, meta, body, l2);
    var next := ReplaceRefineBlock(body, l1);
    var file := FENCE + y.marshal(meta) + FENCE + next;
    SplitText(y, y.marshal(meta), next);
    match y.parse(Cut(y.marshal(meta))) {
      case None =>
        RewriteFails(y, file, l2);
      case Some(again) =>
        if again.Mapping? {
          RewriteText(y, file, again, next, l2);
          LastWriteWins(body, l1, l2);
          SameFront(y.marshal(again), ReplaceRefineBlock(next, l2), y.marshal(meta), ReplaceRefineBlock(body, l2));
        } else {
          RewriteFails(y, file, l2);
        }
    }
  }

  // What is written is what was there with the new block in its body, and, split again, has
  // that body.
  lemma FileHasLine(y: Yaml, src: string, meta: Meta, body: string, line: string)
    requires SplitFrontmatter(y, src) == Front(meta, body)
    ensures Rewrite(y, src, line) == File("---\n" + y.marshal(meta) + "---\n" + ReplaceRefineBlock(body, line))
    ensures var again := y.parse(Cut(y.marshal(meta)));
      Clean(y.marshal(meta)) && again.Some? && again.value.Mapping? ==>
        SplitFrontmatter(y, Rewrite(y, src, line).text) == Front(again.value, ReplaceRefineBlock(body, line))
  {
    hide Rewrite, SplitFrontmatter, ReplaceRefineBlock, Clean;
    RewriteText(y, src, meta, body, line);
    if Clean(y.marshal(meta)) {
      SplitText(y, y.marshal(meta), ReplaceRefineBlock(body, line));
    }
  }

  // The suggestion for a run names the run and its weakest criterion, or completeness if
  // that has no name.
  lemma SuggestsLine(y: Yaml, src: string, meta: Meta, body: string, runID: string, weakest: string)
    requires SplitFrontmatter(y, src) == Front(meta, body)
    ensures var focus := if weakest == "" then "completeness" else weakest;
      var line := "- run `" + runID + "`: tighten `" + focus +
        "` by adding one explicit acceptance bullet and one concrete output check.";
      var next := "---\n" + y.marshal(meta) + "---\n" + ReplaceRefineBlock(body, line);
      Suggest(y, src, runID, weakest) == if next == src then Failed(EmptyPatch) else File(next)
  {
    hide SplitFrontmatter, ReplaceRefineBlock;
    FileHasLine(y, src, meta, body, Line(runID, if weakest == "" then "completeness" else weakest));
    hide Rewrite;
  }

  // A file that cannot be split is refused, with the reason.
  lemma Refuses(y: Yaml, src: string, line: string)
    ensures Rewrite(y, src, line) == Failed(MissingStart) <==> !At(src, "---\n", 0)
    ensures At(src, "---\n", 0) ==>
      (Rewrite(y, src, line) == Failed(MissingEnd) <==> forall j :: !At(src[4..], "\n---\n", j))
    ensures At(src, "---\n", 0) ==>
      var idx := Index(src[4..], "\n---\n");
      idx >= 0 ==>
        (Rewrite(y, src, line) == Failed(BadYaml) <==> y.parse(src[4..][..idx]).None?) &&
        (Rewrite(y, src, line) == Failed(NotMapping) <==>
           y.parse(src[4..][..idx]).Some? && !y.parse(src[4..][..idx]).value.Mapping?)
  {
    hide ReplaceRefineBlock, Written, Index;
    if At(src, "---\n", 0) {
      IndexIs(src[4..], "\n---\n");
    }
  }

  lemma RewriteFails(y: Yaml, src: string, line: string)
    requires SplitFrontmatter(y, src).NoFront?
    ensures Rewrite(y, src, line).Failed?
  {
  }

  function RewriteAll(y: Yaml, src: string, lines: seq<string>): Outcome {
    if lines == [] then File(src)
    else
      match RewriteAll(y, src, lines[..|lines| - 1])
      case Failed(error) => Failed(error)
      case File(text) => Rewrite(y, text, lines[|lines| - 1])
  }

  ghost predicate LastLineStays(y: Yaml, src: string) {
    forall lines: seq<string> :: lines != [] ==> RewriteAll(y, src, lines) == Rewrite(y, src, lines[|lines| - 1])
  }

  lemma {:induction false} RefineAll(y: Yaml, src: string, meta: Meta, body: string, lines: seq<string>)
    requires SplitFrontmatter(y, src) == Front(meta, body) && CleanTexts(y, meta) && SettledText(y, meta) &&
      !Dangling(body)
    requires lines != []
    ensures RewriteAll(y, src, lines) == Rewrite(y, src, lines[|lines| - 1])
  {
    hide Rewrite, SplitFrontmatter, Clean, Dangling, CleanTexts, SettledText;
    var init := lines[..|lines| - 1];
    if |lines| > 1 {
      RefineAll(y, src, meta, body, init);
      RefineTwice(y, src, meta, body, init[|init| - 1], lines[|lines| - 1]);
    } else {
      assert RewriteAll(y, src, init) == File(src);
    }
  }

  // However often a file is refined, only the last line stays: under the same condition,
  // and under no weaker one.
  lemma RefineMany(y: Yaml, src: string, meta: Meta, body: string)
    requires SplitFrontmatter(y, src) == Front(meta, body) && CleanTexts(y, meta)
    ensures LastLineStays(y, src) <==> !Dangling(body) && SettledText(y, meta)
  {
    hide Rewrite, SplitFrontmatter, Dangling, CleanTexts, SettledText;
    RefineTwice(y, src, meta, body, "", "");
    if !Dangling(body) && SettledText(y, meta) {
      forall lines: seq<string> | lines != [] ensures RewriteAll(y, src, lines) == Rewrite(y, src, lines[|lines| - 1]) {
        RefineAll(y, src, meta, body, lines);
      }
    }
    if LastLineStays(y, src) {
      assert RewriteAll(y, src, []) == File(src);
      assert ["", ""][..1] == [""] && [""][..0] == [];
      assert RewriteAll(y, src, [""]) == Rewrite(y, src, "");
      assert RewriteAll(y, src, ["", ""]) == Rewrite(y, src, "");
    }
  }

  // A second suggestion from the same run and score is refused as empty, but for a body
  // with a dangling start marker or metadata whose text is not settled.
  lemma SuggestTwice(y: Yaml, src: string, meta: Meta, body: string, runID: string, weakest: string)
    requires SplitFrontmatter(y, src) == Front(meta, body) && CleanTexts(y, meta)
    requires Suggest(y, src, runID, weakest).File?
    ensures Suggest(y, Suggest(y, src, runID, weakest).text, runID, weakest) == Failed(EmptyPatch) <==>
      !Dangling(body) && SettledText(y, meta)
  {
    hide Rewrite, SplitFrontmatter, Dangling, Line, CleanTexts, SettledText;
    var line := Line(runID, if weakest == "" then "completeness" else weakest);
    RefineTwice(y, src, meta, body, line, line);
    NeverEmpty(y, Rewrite(y, src, line).text, line);
  }

  lemma NeverEmpty(y: Yaml, src: string, line: string)
    ensures Rewrite(y, src, line) != Failed(EmptyPatch)
  {
  }

  // --- a text that is not settled ---

  // A literal block at the end of the frontmatter: its value ends in a line break, which
  // the split cuts off. The three texts are those of the library for these values.
  const KEPT := Mapping([("b", Scalar("1")), ("z", Scalar("x\ny\n"))])
  const LOST := Mapping([("b", Scalar("1")), ("z", Scalar("x\ny"))])
  const KEPT_TEXT := "b: 1\nz: |\n  x\n  y\n"
  const LOST_TEXT := "b: 1\nz: |-\n  x\n  y\n"
  const FIRST_TEXT := "z: |\n  x\n  y\nb: 1\n"

  function LiteralBlocks(): Yaml {
    Yaml(m => if m == KEPT then KEPT_TEXT else LOST_TEXT,
         s => Some(if s == KEPT_TEXT || s == FIRST_TEXT || s == Cut(FIRST_TEXT) then KEPT else LOST))
  }

  lemma NoDashes(text: string)
    requires EndsLine(text) && forall i :: 0 <= i < |text| - 1 ==> !(text[i] == '-' && text[i + 1] == '-')
    ensures Clean(text)
  {
    forall j ensures !At(text, END_FENCE, j) {
      if At(text, END_FENCE, j) {
        AtChars(text, END_FENCE, j);
        DashesAt(text, j);
      }
    }
  }

  lemma DashesAt(text: string, j: int)
    requires 0 <= j && j + |END_FENCE| <= |text| && forall k :: 0 <= k < |END_FENCE| ==> text[j + k] == END_FENCE[k]
    ensures text[j + 1] == '-' && text[j + 2] == '-'
  {
    assert END_FENCE[1] == '-' && END_FENCE[2] == '-';
  }

  lemma ShortIsWhole(body: string)
    requires |body| < |START|
    ensures !Dangling(body)
  {
    var pre, post := TrimParts(body);
    hide TrimSpace, IsSpace, Index;
  }

  lemma LiteralTexts()
    ensures Clean(KEPT_TEXT) && Clean(LOST_TEXT) && Clean(FIRST_TEXT)
    ensures KEPT_TEXT != LOST_TEXT && Cut(KEPT_TEXT) != KEPT_TEXT
    ensures Cut(KEPT_TEXT) != FIRST_TEXT && Cut(KEPT_TEXT) != Cut(FIRST_TEXT) && LOST_TEXT != FIRST_TEXT &&
      LOST_TEXT != Cut(FIRST_TEXT)
    ensures KEPT != LOST
  {
    NoDashes(KEPT_TEXT);
    NoDashes(LOST_TEXT);
    NoDashes(FIRST_TEXT);
    assert KEPT_TEXT[7] == ' ' && LOST_TEXT[9] == '-' && KEPT_TEXT[0] == 'b' && FIRST_TEXT[0] == 'z' &&
      LOST_TEXT[0] == 'b';
    assert |KEPT_TEXT| == 18 && |LOST_TEXT| == 19;
    assert KEPT.fields[1].1.text != LOST.fields[1].1.text;
  }

  const STEPS := "# Steps\n"

  function LiteralSource(): string {
    FENCE + FIRST_TEXT + FENCE + STEPS
  }

  lemma LiteralFile()
    ensures var y := LiteralBlocks();
      y.parse(y.marshal(KEPT)) == Some(KEPT) && y.parse(y.marshal(LOST)) == Some(LOST) &&
      SplitFrontmatter(y, LiteralSource()) == Front(KEPT, STEPS) && CleanTexts(y, KEPT) && !Dangling(STEPS) &&
      !SettledText(y, KEPT)
  {
    var y := LiteralBlocks();
    LiteralTexts();
    hide Clean, SplitFrontmatter, Dangling;
    SplitText(y, FIRST_TEXT, STEPS);
    ShortIsWhole(STEPS);
    assert y.parse(Cut(y.marshal(KEPT))) == Some(LOST);
  }

  lemma LiteralSuggested(runID: string, weakest: string)
    ensures Suggest(LiteralBlocks(), LiteralSource(), runID, weakest).File?
  {
    var y, line := LiteralBlocks(), Line(runID, if weakest == "" then "completeness" else weakest);
    LiteralFile();
    hide Rewrite, SplitFrontmatter, CleanTexts, SettledText, Dangling, Line, ReplaceRefineBlock;
    RewriteText(y, LiteralSource(), KEPT, STEPS, line);
    assert LiteralSource()[4] == 'z';
    assert (FENCE + KEPT_TEXT + FENCE + ReplaceRefineBlock(STEPS, line))[4] == 'b';
  }

  // Marshalling and parsing undo each other, the texts are clean and no marker dangles, and
  // still the second refinement differs from a single one, and is suggested once more.
  lemma LiteralBlockLosesBreak(runID: string, weakest: string)
    ensures var y, src := LiteralBlocks(), LiteralSource();
      y.parse(y.marshal(KEPT)) == Some(KEPT) && y.parse(y.marshal(LOST)) == Some(LOST) &&
      SplitFrontmatter(y, src) == Front(KEPT, STEPS) && CleanTexts(y, KEPT) && !Dangling(STEPS) &&
      !LastLineStays(y, src) && Suggest(y, src, runID, weakest).File? &&
      Suggest(y, Suggest(y, src, runID, weakest).text, runID, weakest) != Failed(EmptyPatch)
  {
    LiteralFile();
    LiteralSuggested(runID, weakest);
    hide LiteralBlocks, LiteralSource, SplitFrontmatter, CleanTexts, SettledText, Dangling, Suggest, LastLineStays;
    RefineMany(LiteralBlocks(), LiteralSource(), KEPT, STEPS);
    SuggestTwice(LiteralBlocks(), LiteralSource(), KEPT, STEPS, runID, weakest);
  }
}
