// Filling the grid of a wide track up to its coverage threshold, through a cache.
module WideTrack {
  import opened Wrappers

  // --- grid and threshold ---

  datatype Cell = Cell(target: string, attr: string)

  datatype WideTask = WideTask(id: string, query: string, targets: seq<string>, attrs: seq<string>, stopRule: string)

  function RowOf(target: string, attrs: seq<string>): (cells: seq<Cell>)
    ensures |cells| == |attrs|
  {
    seq(|attrs|, i requires 0 <= i < |attrs| => Cell(target, attrs[i]))
  }

  // Row by row: all attributes of the first target, then of the next.
  function Grid(targets: seq<string>, attrs: seq<string>): seq<Cell> {
    if targets == [] then [] else Grid(targets[..|targets| - 1], attrs) + RowOf(targets[|targets| - 1], attrs)
  }

  // Targets change slowest, attributes fastest.
  lemma {:induction false} GridAt(targets: seq<string>, attrs: seq<string>, i: nat, j: nat)
    requires i < |targets| && j < |attrs|
    ensures |Grid(targets, attrs)| == |targets| * |attrs|
    ensures i * |attrs| + j < |targets| * |attrs|
    ensures Grid(targets, attrs)[i * |attrs| + j] == Cell(targets[i], attrs[j])
  {
    GridSize(targets, attrs);
    var init := targets[..|targets| - 1];
    GridSize(init, attrs);
    if i < |init| {
      GridAt(init, attrs, i, j);
    }
  }

  lemma {:induction false} GridSize(targets: seq<string>, attrs: seq<string>)
    ensures |Grid(targets, attrs)| == |targets| * |attrs|
  {
    if targets != [] {
      var n := |targets| - 1;
      GridSize(targets[..n], attrs);
      assert (n + 1) * |attrs| == n * |attrs| + |attrs|;
    }
  }

  const RULE := "coverage>="

  // The number behind "coverage>=", or 0.8.
  function Threshold(stopRule: string, parseFloat: string -> Option<real>): real {
    if |RULE| <= |stopRule| && stopRule[..|RULE|] == RULE && parseFloat(stopRule[|RULE|..]).Some?
    then parseFloat(stopRule[|RULE|..]).value
    else 0.8
  }

  function Ratio(completed: nat, total: nat): real {
    if total == 0 then 0.0 else completed as real / total as real
  }

  function Ceil(x: real): int {
    -((-x).Floor)
  }

  // How many cells a threshold asks for.
  function Wanted(total: nat, threshold: real): nat {
    if threshold <= 0.0 || total == 0 then 0
    else
      var k := Ceil(threshold * total as real);
      if k < 0 then 0 else if k > total then total else k
  }

  // The ledger is full from the wanted number of cells on, and not before.
  lemma RatioReached(completed: nat, total: nat, threshold: real)
    requires completed < total
    ensures Ratio(completed, total) >= threshold <==> completed >= Wanted(total, threshold)
    ensures Ratio(completed, 0) == 0.0
  {
    var n, c := total as real, completed as real;
    assert Ratio(completed, total) * n == c;
    if threshold > 0.0 {
      Scale(Ratio(completed, total), threshold, n);
      assert Ratio(completed, total) >= threshold <==> c >= threshold * n;
      CeilIs(completed, threshold * n);
      CeilIs(total, threshold * n);
      Scale(threshold, 0.0, n);
    }
  }

  lemma CeilIs(k: int, x: real)
    ensures k >= Ceil(x) <==> k as real >= x
  {
  }

  lemma Scale(a: real, b: real, n: real)
    requires n > 0.0
    ensures a >= b <==> a * n >= b * n
  {
    if a >= b {
      assert (a - b) * n >= 0.0;
    } else {
      assert (b - a) * n > 0.0;
    }
  }

  // So many of n cells reach the threshold.
  predicate Reaches(k: nat, n: nat, threshold: real) {
    k as real >= threshold * n as real
  }

  // The least number of n cells that reaches the threshold, or all of them if none does.
  ghost predicate LeastEnough(k: nat, n: nat, threshold: real) {
    k <= n && (k < n ==> Reaches(k, n, threshold)) && forall j: nat :: j < k ==> !Reaches(j, n, threshold)
  }

  lemma WantedIsLeast(n: nat, threshold: real)
    ensures LeastEnough(Wanted(n, threshold), n, threshold)
  {
    var k, x := Wanted(n, threshold), threshold * n as real;
    if threshold <= 0.0 {
      Scale0(threshold, n as real);
    }
    forall j: nat | j < k ensures !Reaches(j, n, threshold) {
      CeilIs(j, x);
    }
    if k < n && threshold > 0.0 {
      CeilIs(k, x);
    }
  }

  lemma Scale0(a: real, n: real)
    requires a <= 0.0 && n >= 0.0
    ensures a * n <= 0.0
  {
  }

  // The threshold is what stands behind "coverage>=", and 0.8 without that or if it cannot
  // be read.
  lemma RuleIsRead(stopRule: string, parseFloat: string -> Option<real>, rest: string)
    ensures stopRule == "coverage>=" + rest ==>
      Threshold(stopRule, parseFloat) == if parseFloat(rest).Some? then parseFloat(rest).value else 0.8
    ensures |stopRule| < 10 || stopRule[..10] != "coverage>=" ==> Threshold(stopRule, parseFloat) == 0.8
  {
    assert |RULE| == 10;
    if stopRule == "coverage>=" + rest {
      assert stopRule[..10] == RULE && stopRule[10..] == rest;
    }
  }

  // --- keys ---

  datatype Env = Env(hash: string -> string, parseFloat: string -> Option<real>)

  ghost predicate CollisionFree(env: Env) {
    forall a, b :: env.hash(a) == env.hash(b) ==> a == b
  }

  predicate Plain(c: Cell) {
    ':' !in c.target && '\n' !in c.target && '\n' !in c.attr
  }

  function CellId(c: Cell): string {
    c.target + ":" + c.attr
  }

  function Key(env: Env, query: string, c: Cell): string {
    env.hash(query + "\n" + CellId(c))
  }

  lemma LastSeparator(a: string, x: string, sep: char)
    requires sep !in x
    ensures var s := a + [sep] + x;
      s[|a|] == sep && s[..|a|] == a && s[|a| + 1..] == x && forall i :: |a| < i < |s| ==> s[i] != sep
  {
    var s := a + [sep] + x;
    assert s[|a| + 1..] == x;
    forall i | |a| < i < |s| ensures s[i] != sep {
      assert s[i] == x[i - |a| - 1];
    }
  }

  lemma SameSplit(a: string, b: string, x: string, y: string, sep: char)
    requires a + [sep] + x == b + [sep] + y && sep !in x && sep !in y
    ensures a == b && x == y
  {
    LastSeparator(a, x, sep);
    LastSeparator(b, y, sep);
    assert |a| == |b|;
  }

  lemma FirstColon(c: Cell)
    requires ':' !in c.target
    ensures var s, n := CellId(c), |c.target|;
      n < |s| && s[n] == ':' && s[..n] == c.target && s[n + 1..] == c.attr && forall i :: 0 <= i < n ==> s[i] != ':'
  {
  }

  lemma SameCell(c: Cell, d: Cell)
    requires ':' !in c.target && ':' !in d.target && CellId(c) == CellId(d)
    ensures c == d
  {
    FirstColon(c);
    FirstColon(d);
    hide CellId;
    assert |c.target| == |d.target|;
  }

  // Without collisions a key tells the text that was hashed, and no more.
  lemma KeyIff(env: Env, q: string, c: Cell, r: string, d: Cell)
    requires CollisionFree(env)
    ensures Key(env, q, c) == Key(env, r, d) <==> q + "\n" + CellId(c) == r + "\n" + CellId(d)
    ensures Key(env, q, c) == Key(env, q, d) <==> CellId(c) == CellId(d)
  {
    if q + "\n" + CellId(c) == q + "\n" + CellId(d) {
      assert (q + "\n" + CellId(c))[|q| + 1..] == CellId(c) && (q + "\n" + CellId(d))[|q| + 1..] == CellId(d);
    }
  }

  // Of plain names it tells the query and the cell.
  lemma KeyTells(env: Env, q: string, c: Cell, r: string, d: Cell)
    requires CollisionFree(env) && Plain(c) && Plain(d) && Key(env, q, c) == Key(env, r, d)
    ensures q == r && c == d
  {
    SameSplit(q, r, CellId(c), CellId(d), '\n');
    SameCell(c, d);
  }
}
