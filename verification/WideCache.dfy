// What the rows of a wide track are when some of its cells come from the cache, and when
// they are the rows of a run without one.
module WideCache {
  import opened WideTrack

  type Fields = map<string, string>

  function Fresh(c: Cell): Fields {
    map["target" := c.target, "attr" := c.attr, "result" := "result for " + CellId(c)]
  }

  function Link(c: Cell): string {
    "https://example.com/source/" + CellId(c)
  }

  // A row by value.
  datatype Shown = Shown(trackId: string, ok: bool, fields: Fields, evidence: seq<string>)

  // What a cache entry was saved for.
  datatype Source = Source(query: string, cell: Cell)

  // Every key of the cache is that of the query and the cell it was saved for.
  ghost predicate WellKeyed(env: Env, known: map<string, Source>) {
    forall k :: k in known ==> k == Key(env, known[k].query, known[k].cell)
  }

  // The cell that a lookup gives: under a known key that of its entry, else the cell itself.
  function Found(env: Env, query: string, c: Cell, known: map<string, Source>): Cell {
    var key := Key(env, query, c);
    if key in known then known[key].cell else c
  }

  function Learned(env: Env, query: string, c: Cell, known: map<string, Source>): map<string, Source> {
    var key := Key(env, query, c);
    if key in known then known else known[key := Source(query, c)]
  }

  // The row for a cell when so many cells are completed.
  function RowFrom(env: Env, task: WideTask, c: Cell, completed: nat, known: map<string, Source>): Shown {
    if Key(env, task.query, c) in known
    then Shown(task.id, true, Fresh(Found(env, task.query, c, known))["cache" := "hit"], [])
    else Shown(task.id, true, Fresh(c), if completed % 3 != 0 then [Link(c)] else [])
  }

  // The cache after the first n cells.
  function KnownAfter(env: Env, query: string, cells: seq<Cell>, known: map<string, Source>,
                      n: nat): map<string, Source>
    requires n <= |cells|
  {
    if n == 0 then known else Learned(env, query, cells[n - 1], KnownAfter(env, query, cells, known, n - 1))
  }

  // The i-th row of a run that starts with this cache.
  function RowAt(env: Env, task: WideTask, cells: seq<Cell>, known: map<string, Source>, i: nat): Shown
    requires i < |cells|
  {
    RowFrom(env, task, cells[i], i, KnownAfter(env, task.query, cells, known, i))
  }

  // A row in full. A new one has evidence unless its place is divisible by three; a cached one
  // has a marker and none.
  lemma RowIs(env: Env, task: WideTask, cells: seq<Cell>, known: map<string, Source>, i: nat)
    requires i < |cells|
    ensures var before, key := KnownAfter(env, task.query, cells, known, i), Key(env, task.query, cells[i]);
      var c := if key in before then before[key].cell else cells[i];
      var id := c.target + ":" + c.attr;
      var fields := map["target" := c.target, "attr" := c.attr, "result" := "result for " + id];
      RowAt(env, task, cells, known, i) ==
        if key in before then Shown(task.id, true, fields["cache" := "hit"], [])
        else Shown(task.id, true, fields, if i % 3 != 0 then ["https://example.com/source/" + id] else [])
  {
    hide KnownAfter, Key;
  }

  // --- what the cache gives ---

  lemma {:induction false} KnownGrows(env: Env, query: string, cells: seq<Cell>, known: map<string, Source>, n: nat,
                                      key: string)
    requires n <= |cells|
    ensures key in known ==>
      key in KnownAfter(env, query, cells, known, n) && KnownAfter(env, query, cells, known, n)[key] == known[key]
    ensures key in KnownAfter(env, query, cells, known, n) <==>
      key in known || exists j :: 0 <= j < n && Key(env, query, cells[j]) == key
  {
    hide Key;
    if n > 0 {
      KnownGrows(env, query, cells, known, n - 1, key);
    }
  }

  // The first cell with a new key is the one that is saved under it.
  lemma {:induction false} FirstIsKept(env: Env, query: string, cells: seq<Cell>, known: map<string, Source>, n: nat,
                                       j: nat)
    requires j < n <= |cells| && Key(env, query, cells[j]) !in known
    requires forall i :: 0 <= i < j ==> Key(env, query, cells[i]) != Key(env, query, cells[j])
    ensures var key := Key(env, query, cells[j]);
      key in KnownAfter(env, query, cells, known, n) &&
        KnownAfter(env, query, cells, known, n)[key] == Source(query, cells[j])
  {
    hide Key;
    KnownGrows(env, query, cells, known, n - 1, Key(env, query, cells[j]));
    if j < n - 1 {
      FirstIsKept(env, query, cells, known, n - 1, j);
    }
  }

  // The first cell that has the key of the i-th is at j.
  ghost predicate FirstAt(env: Env, query: string, cells: seq<Cell>, i: nat, j: nat) {
    j <= i < |cells| && Key(env, query, cells[j]) == Key(env, query, cells[i]) &&
    forall k :: 0 <= k < j ==> Key(env, query, cells[k]) != Key(env, query, cells[i])
  }

  lemma FirstWithKey(env: Env, query: string, cells: seq<Cell>, i: nat) returns (j: nat)
    requires i < |cells|
    ensures FirstAt(env, query, cells, i, j)
  {
    hide Key;
    j := 0;
    while Key(env, query, cells[j]) != Key(env, query, cells[i])
      invariant j <= i && forall k :: 0 <= k < j ==> Key(env, query, cells[k]) != Key(env, query, cells[i])
      decreases i - j
    {
      j := j + 1;
    }
  }

  // The i-th row shows the cell of the cache entry with its key, or else the first cell of
  // the grid that has its key.
  lemma FoundAt(env: Env, query: string, cells: seq<Cell>, known: map<string, Source>, i: nat)
    requires i < |cells|
    ensures var key := Key(env, query, cells[i]);
      var shown := Found(env, query, cells[i], KnownAfter(env, query, cells, known, i));
      if key in known then shown == known[key].cell
      else exists j: nat :: FirstAt(env, query, cells, i, j) && shown == cells[j]
  {
    hide Key;
    KnownGrows(env, query, cells, known, i, Key(env, query, cells[i]));
    if Key(env, query, cells[i]) !in known {
      var j := FirstWithKey(env, query, cells, i);
      if j < i {
        FirstIsKept(env, query, cells, known, i, j);
      }
    }
  }

  lemma {:induction false} StaysWellKeyed(env: Env, query: string, cells: seq<Cell>, known: map<string, Source>, n: nat)
    requires WellKeyed(env, known) && n <= |cells|
    ensures WellKeyed(env, KnownAfter(env, query, cells, known, n))
  {
    hide Key;
    if n > 0 {
      StaysWellKeyed(env, query, cells, known, n - 1);
    }
  }

  function WantedOf(env: Env, task: WideTask): (n: nat)
    ensures n <= |Grid(task.targets, task.attrs)|
  {
    Wanted(|Grid(task.targets, task.attrs)|, Threshold(task.stopRule, env.parseFloat))
  }

  // The cache after one run.
  function LearnedBy(env: Env, task: WideTask, known: map<string, Source>): map<string, Source> {
    KnownAfter(env, task.query, Grid(task.targets, task.attrs), known, WantedOf(env, task))
  }

  // The cache after these runs.
  function LearnedFrom(env: Env, tasks: seq<WideTask>, known: map<string, Source>): map<string, Source> {
    if tasks == [] then known
    else LearnedBy(env, tasks[|tasks| - 1], LearnedFrom(env, tasks[..|tasks| - 1], known))
  }

  // One of these runs wants the cell for this query.
  ghost predicate Visited(env: Env, tasks: seq<WideTask>, s: Source) {
    exists k :: 0 <= k < |tasks| && VisitedBy(env, tasks[k], s)
  }

  predicate VisitedBy(env: Env, task: WideTask, s: Source) {
    task.query == s.query && s.cell in Grid(task.targets, task.attrs)[..WantedOf(env, task)]
  }

  // Whatever the runs, every entry has its own key.
  lemma {:induction false} RunsAreWellKeyed(env: Env, tasks: seq<WideTask>, known: map<string, Source>)
    requires WellKeyed(env, known)
    ensures WellKeyed(env, LearnedFrom(env, tasks, known))
  {
    hide WellKeyed, KnownAfter, WantedOf, Grid;
    if tasks != [] {
      var n, task := |tasks| - 1, tasks[|tasks| - 1];
      RunsAreWellKeyed(env, tasks[..n], known);
      StaysWellKeyed(env, task.query, Grid(task.targets, task.attrs), LearnedFrom(env, tasks[..n], known),
        WantedOf(env, task));
    }
  }

  lemma {:induction false} LearnedIsVisited(env: Env, query: string, cells: seq<Cell>, known: map<string, Source>,
                                            n: nat, k: string)
    requires n <= |cells| && k in KnownAfter(env, query, cells, known, n)
    ensures (k in known && KnownAfter(env, query, cells, known, n)[k] == known[k]) ||
      (KnownAfter(env, query, cells, known, n)[k].query == query &&
        KnownAfter(env, query, cells, known, n)[k].cell in cells[..n])
  {
    hide Key;
    if n > 0 {
      assert cells[..n] == cells[..n - 1] + [cells[n - 1]];
      if k in KnownAfter(env, query, cells, known, n - 1) {
        LearnedIsVisited(env, query, cells, known, n - 1, k);
      }
    }
  }

  // From an empty cache: every entry was saved for a query and a cell that a run wanted.
  lemma {:induction false} EntriesAreVisited(env: Env, tasks: seq<WideTask>, k: string)
    requires k in LearnedFrom(env, tasks, map[])
    ensures Visited(env, tasks, LearnedFrom(env, tasks, map[])[k])
  {
    hide KnownAfter, WantedOf, Grid;
    var n := |tasks| - 1;
    var task, before := tasks[n], LearnedFrom(env, tasks[..n], map[]);
    LearnedIsVisited(env, task.query, Grid(task.targets, task.attrs), before, WantedOf(env, task), k);
    if k in before && before[k] == LearnedFrom(env, tasks, map[])[k] {
      EntriesAreVisited(env, tasks[..n], k);
      var j :| 0 <= j < n && VisitedBy(env, tasks[..n][j], before[k]);
      assert tasks[j] == tasks[..n][j];
    } else {
      assert VisitedBy(env, task, LearnedFrom(env, tasks, map[])[k]);
    }
  }

  // --- when the rows are those of a run without a cache ---

  // A row tells of this cell: its target, its attribute and its result.
  predicate Tells(fields: Fields, c: Cell) {
    "target" in fields && fields["target"] == c.target && "attr" in fields && fields["attr"] == c.attr &&
    "result" in fields && fields["result"] == "result for " + CellId(c)
  }

  // The row of an uncached run tells of its cell, and any row of the cell that it shows.
  lemma RowTells(env: Env, task: WideTask, cells: seq<Cell>, known: map<string, Source>, i: nat)
    requires i < |cells|
    ensures var shown := Found(env, task.query, cells[i], KnownAfter(env, task.query, cells, known, i));
      Tells(RowAt(env, task, cells, known, i).fields, shown) &&
      (Tells(RowAt(env, task, cells, known, i).fields, cells[i]) <==> shown == cells[i])
  {
    hide Key, KnownAfter;
  }

  ghost predicate AllTell(env: Env, task: WideTask, cells: seq<Cell>, known: map<string, Source>, n: nat)
    requires n <= |cells|
  {
    forall i :: 0 <= i < n ==> Tells(RowAt(env, task, cells, known, i).fields, cells[i])
  }

  // No two different cells among the first n are written alike.
  ghost predicate CellsApart(cells: seq<Cell>, n: nat)
    requires n <= |cells|
  {
    forall i, j :: 0 <= i < j < n && CellId(cells[i]) == CellId(cells[j]) ==> cells[i] == cells[j]
  }

  // The entry's query and cell are written like these.
  predicate Alike(s: Source, query: string, c: Cell) {
    s.query + "\n" + CellId(s.cell) == query + "\n" + CellId(c)
  }

  // No cached query and cell are written like the query and another one of these cells.
  ghost predicate CacheApart(query: string, cells: seq<Cell>, known: map<string, Source>, n: nat)
    requires n <= |cells|
  {
    forall k, i :: k in known && 0 <= i < n && Alike(known[k], query, cells[i]) ==> known[k].cell == cells[i]
  }

  lemma ApartTells(env: Env, task: WideTask, cells: seq<Cell>, known: map<string, Source>, n: nat, i: nat)
    requires CollisionFree(env) && WellKeyed(env, known) && i < n <= |cells|
    requires CellsApart(cells, n) && CacheApart(task.query, cells, known, n)
    ensures Tells(RowAt(env, task, cells, known, i).fields, cells[i])
  {
    FoundAt(env, task.query, cells, known, i);
    RowTells(env, task, cells, known, i);
    var key := Key(env, task.query, cells[i]);
    if key in known {
      KeyIff(env, known[key].query, known[key].cell, task.query, cells[i]);
    } else {
      var j: nat :| FirstAt(env, task.query, cells, i, j) &&
        Found(env, task.query, cells[i], KnownAfter(env, task.query, cells, known, i)) == cells[j];
      KeyIff(env, task.query, cells[j], task.query, cells[i]);
    }
  }

  // If both rows tell of their own cells, and the cells are written alike, they are equal.
  lemma TellsApart(env: Env, task: WideTask, cells: seq<Cell>, known: map<string, Source>, i: nat, j: nat)
    requires CollisionFree(env) && i < j < |cells| && CellId(cells[i]) == CellId(cells[j])
    requires Tells(RowAt(env, task, cells, known, i).fields, cells[i])
    requires Tells(RowAt(env, task, cells, known, j).fields, cells[j])
    ensures cells[i] == cells[j]
  {
    hide Tells, RowAt, Found, KnownAfter;
    KeyIff(env, task.query, cells[i], task.query, cells[j]);
    FoundAt(env, task.query, cells, known, i);
    FoundAt(env, task.query, cells, known, j);
    RowTells(env, task, cells, known, i);
    RowTells(env, task, cells, known, j);
  }

  lemma TellsCacheApart(env: Env, task: WideTask, cells: seq<Cell>, known: map<string, Source>, k: string, i: nat)
    requires CollisionFree(env) && WellKeyed(env, known) && k in known && i < |cells|
    requires Alike(known[k], task.query, cells[i])
    requires Tells(RowAt(env, task, cells, known, i).fields, cells[i])
    ensures known[k].cell == cells[i]
  {
    hide Tells, RowAt, Found, KnownAfter;
    KeyIff(env, known[k].query, known[k].cell, task.query, cells[i]);
    FoundAt(env, task.query, cells, known, i);
    RowTells(env, task, cells, known, i);
  }

  // The first n rows have the target, attribute and result of the uncached run, exactly if
  // no two different ones of these cells are written alike and none is written like the
  // query and cell of an entry for another cell.
  lemma AllTellIff(env: Env, task: WideTask, cells: seq<Cell>, known: map<string, Source>, n: nat)
    requires CollisionFree(env) && WellKeyed(env, known) && n <= |cells|
    ensures AllTell(env, task, cells, known, n) <==> CellsApart(cells, n) && CacheApart(task.query, cells, known, n)
  {
    hide Tells, RowAt, CollisionFree, WellKeyed;
    if CellsApart(cells, n) && CacheApart(task.query, cells, known, n) {
      forall i | 0 <= i < n ensures Tells(RowAt(env, task, cells, known, i).fields, cells[i]) {
        ApartTells(env, task, cells, known, n, i);
      }
    }
    if AllTell(env, task, cells, known, n) {
      forall i, j | 0 <= i < j < n && CellId(cells[i]) == CellId(cells[j]) ensures cells[i] == cells[j] {
        TellsApart(env, task, cells, known, i, j);
      }
      forall k, i | k in known && 0 <= i < n && Alike(known[k], task.query, cells[i])
        ensures known[k].cell == cells[i]
      {
        TellsCacheApart(env, task, cells, known, k, i);
      }
    }
  }

  // From an empty cache, exactly if no two different ones of these cells are written alike.
  lemma EmptyCacheIff(env: Env, task: WideTask, cells: seq<Cell>, n: nat)
    requires CollisionFree(env) && n <= |cells|
    ensures AllTell(env, task, cells, map[], n) <==> CellsApart(cells, n)
  {
    AllTellIff(env, task, cells, map[], n);
  }

  // The i-th row of the k-th of these runs.
  function RowIn(env: Env, tasks: seq<WideTask>, known: map<string, Source>, k: nat, i: nat): Shown
    requires k < |tasks| && i < WantedOf(env, tasks[k])
  {
    var task := tasks[k];
    RowAt(env, task, Grid(task.targets, task.attrs), LearnedFrom(env, tasks[..k], known), i)
  }

  // The rows of the k-th of these runs, which starts with what the earlier ones learned.
  ghost predicate RunTells(env: Env, tasks: seq<WideTask>, k: nat)
    requires k < |tasks|
  {
    var task := tasks[k];
    AllTell(env, task, Grid(task.targets, task.attrs), LearnedFrom(env, tasks[..k], map[]), WantedOf(env, task))
  }

  // No two of the visited queries and cells are written alike, unless the cells are equal.
  ghost predicate VisitedApart(env: Env, tasks: seq<WideTask>) {
    forall s, s2 :: Visited(env, tasks, s) && Visited(env, tasks, s2) && Alike(s, s2.query, s2.cell) ==>
      s.cell == s2.cell
  }

  lemma {:induction false} LearnedStays(env: Env, tasks: seq<WideTask>, m: nat, n: nat, key: string)
    requires m <= n <= |tasks| && key in LearnedFrom(env, tasks[..m], map[])
    ensures key in LearnedFrom(env, tasks[..n], map[])
    ensures LearnedFrom(env, tasks[..n], map[])[key] == LearnedFrom(env, tasks[..m], map[])[key]
  {
    hide KnownAfter, WantedOf, Grid;
    if m < n {
      LearnedStays(env, tasks, m, n - 1, key);
      assert tasks[..n][..n - 1] == tasks[..n - 1];
      var task := tasks[n - 1];
      KnownGrows(env, task.query, Grid(task.targets, task.attrs), LearnedFrom(env, tasks[..n - 1], map[]),
        WantedOf(env, task), key);
    }
  }

  // If the rows of a run tell of their cells, it leaves an entry for each of them.
  lemma ToldIsKept(env: Env, task: WideTask, cells: seq<Cell>, known: map<string, Source>, n: nat, i: nat)
    requires CollisionFree(env) && WellKeyed(env, known) && i < n <= |cells| && AllTell(env, task, cells, known, n)
    ensures KeepsCell(KnownAfter(env, task.query, cells, known, n), Key(env, task.query, cells[i]), cells[i])
  {
    hide AllTell, KnownAfter, CollisionFree, Key, WellKeyed, CellsApart, CacheApart;
    AllTellIff(env, task, cells, known, n);
    var key := Key(env, task.query, cells[i]);
    if key in known {
      KnownGrows(env, task.query, cells, known, n, key);
      OldIsKept(env, task.query, cells, known, n, i);
    } else {
      var j := FirstWithKey(env, task.query, cells, i);
      FirstIsKept(env, task.query, cells, known, n, j);
      FirstIsSame(env, task.query, cells, n, j, i);
    }
  }

  predicate KeepsCell(known: map<string, Source>, key: string, c: Cell) {
    key in known && known[key].cell == c
  }

  lemma OldIsKept(env: Env, query: string, cells: seq<Cell>, known: map<string, Source>, n: nat, i: nat)
    requires CollisionFree(env) && WellKeyed(env, known) && i < n <= |cells| && CacheApart(query, cells, known, n)
    requires Key(env, query, cells[i]) in known
    ensures known[Key(env, query, cells[i])].cell == cells[i]
  {
    hide CollisionFree, WellKeyed, Key, Alike;
    SameKeyAlike(env, known, Key(env, query, cells[i]), query, cells[i]);
  }

  lemma FirstIsSame(env: Env, query: string, cells: seq<Cell>, n: nat, j: nat, i: nat)
    requires CollisionFree(env) && j <= i < n <= |cells| && CellsApart(cells, n)
    requires Key(env, query, cells[j]) == Key(env, query, cells[i])
    ensures cells[j] == cells[i]
  {
    hide CollisionFree, Key, CellId;
    SameKeySameId(env, query, cells[j], cells[i]);
  }

  lemma SameKeySameId(env: Env, query: string, c: Cell, d: Cell)
    requires CollisionFree(env) && Key(env, query, c) == Key(env, query, d)
    ensures CellId(c) == CellId(d)
  {
    KeyIff(env, query, c, query, d);
    AlikeCells(Source(query, c), Source(query, d));
  }

  // A visited cell that was told keeps its entry for all later runs.
  lemma ToldStays(env: Env, tasks: seq<WideTask>, k: nat, n: nat, s: Source)
    requires CollisionFree(env) && k < n <= |tasks| && RunTells(env, tasks, k) && VisitedBy(env, tasks[k], s)
    ensures KeepsCell(LearnedFrom(env, tasks[..n], map[]), Key(env, s.query, s.cell), s.cell)
  {
    hide KnownAfter, WantedOf, Grid, AllTell, Key, CollisionFree;
    var task, before := tasks[k], LearnedFrom(env, tasks[..k], map[]);
    var cells, w := Grid(task.targets, task.attrs), WantedOf(env, task);
    RunsAreWellKeyed(env, tasks[..k], map[]);
    var i :| 0 <= i < w && cells[..w][i] == s.cell;
    ToldIsKept(env, task, cells, before, w, i);
    assert tasks[..k + 1][..k] == tasks[..k];
    LearnedStays(env, tasks, k + 1, n, Key(env, s.query, s.cell));
  }

  lemma ToldApart(env: Env, tasks: seq<WideTask>, k: nat, k2: nat, s: Source, s2: Source)
    requires CollisionFree(env) && k <= k2 < |tasks| && RunTells(env, tasks, k) && RunTells(env, tasks, k2)
    requires VisitedBy(env, tasks[k], s) && VisitedBy(env, tasks[k2], s2) && Alike(s, s2.query, s2.cell)
    ensures s.cell == s2.cell
  {
    hide WantedOf, Grid, CollisionFree, AllTell;
    var task := tasks[k2];
    var cells, w, known := Grid(task.targets, task.attrs), WantedOf(env, task), LearnedFrom(env, tasks[..k2], map[]);
    RunsAreWellKeyed(env, tasks[..k2], map[]);
    AllTellIff(env, task, cells, known, w);
    var j :| 0 <= j < w && cells[..w][j] == s2.cell;
    if k < k2 {
      ToldStays(env, tasks, k, k2, s);
      KeyIff(env, s.query, s.cell, s2.query, s2.cell);
      SameKeyAlike(env, known, Key(env, s.query, s.cell), s2.query, s2.cell);
    } else {
      var i :| 0 <= i < w && cells[..w][i] == s.cell;
      AlikeCells(s, s2);
      assert cells[i] == cells[j] by {
        if i < j {} else if j < i {}
      }
    }
  }

  lemma AlikeCells(s: Source, s2: Source)
    requires Alike(s, s2.query, s2.cell) && s.query == s2.query
    ensures CellId(s.cell) == CellId(s2.cell)
  {
    hide CellId;
    var a, b := s.query + "\n" + CellId(s.cell), s2.query + "\n" + CellId(s2.cell);
    assert a[|s.query| + 1..] == CellId(s.cell) && b[|s.query| + 1..] == CellId(s2.cell);
  }

  lemma SameIdAlike(query: string, c: Cell, d: Cell)
    requires CellId(c) == CellId(d)
    ensures Alike(Source(query, c), query, d)
  {
  }

  lemma SameKeyAlike(env: Env, known: map<string, Source>, key: string, query: string, c: Cell)
    requires CollisionFree(env) && WellKeyed(env, known) && key in known && key == Key(env, query, c)
    ensures Alike(known[key], query, c)
  {
    KeyIff(env, known[key].query, known[key].cell, query, c);
  }

  lemma ApartRunTells(env: Env, tasks: seq<WideTask>, k: nat)
    requires CollisionFree(env) && k < |tasks| && VisitedApart(env, tasks)
    ensures RunTells(env, tasks, k)
  {
    hide WantedOf, Grid, CollisionFree, AllTell, Alike, Key, CellId;
    var task := tasks[k];
    var cells, w, known := Grid(task.targets, task.attrs), WantedOf(env, task), LearnedFrom(env, tasks[..k], map[]);
    RunsAreWellKeyed(env, tasks[..k], map[]);
    AllTellIff(env, task, cells, known, w);
    forall i | 0 <= i < w ensures Visited(env, tasks, Source(task.query, cells[i])) {
      assert cells[..w][i] == cells[i];
      assert VisitedBy(env, task, Source(task.query, cells[i]));
    }
    forall i, j | 0 <= i < j < w && CellId(cells[i]) == CellId(cells[j]) ensures cells[i] == cells[j] {
      SameIdAlike(task.query, cells[i], cells[j]);
    }
    forall key, i | key in known && 0 <= i < w && Alike(known[key], task.query, cells[i])
      ensures known[key].cell == cells[i]
    {
      EntriesAreVisited(env, tasks[..k], key);
      VisitedMore(env, tasks, k, known[key]);
      assert Visited(env, tasks, Source(task.query, cells[i]));
    }
  }

  lemma VisitedMore(env: Env, tasks: seq<WideTask>, k: nat, s: Source)
    requires k <= |tasks| && Visited(env, tasks[..k], s)
    ensures Visited(env, tasks, s)
  {
    hide VisitedBy;
    var j :| 0 <= j < k && VisitedBy(env, tasks[..k][j], s);
    assert VisitedBy(env, tasks[j], s);
  }

  // Whatever runs follow one another on an empty cache: all rows of all of them have the
  // target, attribute and result of the uncached runs, exactly if no two different cells
  // that they want are written alike together with their queries.
  lemma RunsTellIff(env: Env, tasks: seq<WideTask>)
    requires CollisionFree(env)
    ensures (forall k :: 0 <= k < |tasks| ==> RunTells(env, tasks, k)) <==> VisitedApart(env, tasks)
  {
    hide RunTells, CollisionFree, VisitedBy, Alike;
    if VisitedApart(env, tasks) {
      forall k | 0 <= k < |tasks| ensures RunTells(env, tasks, k) {
        ApartRunTells(env, tasks, k);
      }
    }
    if forall k :: 0 <= k < |tasks| ==> RunTells(env, tasks, k) {
      forall s, s2 | Visited(env, tasks, s) && Visited(env, tasks, s2) && Alike(s, s2.query, s2.cell)
        ensures s.cell == s2.cell
      {
        var k :| 0 <= k < |tasks| && VisitedBy(env, tasks[k], s);
        var k2 :| 0 <= k2 < |tasks| && VisitedBy(env, tasks[k2], s2);
        if k <= k2 {
          ToldApart(env, tasks, k, k2, s, s2);
        } else {
          AlikeBack(s, s2);
          ToldApart(env, tasks, k2, k, s2, s);
        }
      }
    }
  }

  lemma AlikeBack(s: Source, s2: Source)
    requires Alike(s, s2.query, s2.cell)
    ensures Alike(s2, s.query, s.cell)
  {
  }

  // With plain names in the grid and in the cache that is so for every cache.
  lemma PlainTells(env: Env, task: WideTask, cells: seq<Cell>, known: map<string, Source>, n: nat)
    requires CollisionFree(env) && WellKeyed(env, known) && n <= |cells|
    requires (forall c :: c in cells ==> Plain(c)) && forall k :: k in known ==> Plain(known[k].cell)
    ensures AllTell(env, task, cells, known, n)
  {
    hide CellId, Plain, CollisionFree;
    forall i, j | 0 <= i < j < n && CellId(cells[i]) == CellId(cells[j]) ensures cells[i] == cells[j] {
      KeyIff(env, task.query, cells[i], task.query, cells[j]);
      KeyTells(env, task.query, cells[i], task.query, cells[j]);
    }
    forall k, i | k in known && 0 <= i < n && Alike(known[k], task.query, cells[i]) ensures known[k].cell == cells[i] {
      KeyIff(env, known[k].query, known[k].cell, task.query, cells[i]);
      KeyTells(env, known[k].query, known[k].cell, task.query, cells[i]);
    }
    AllTellIff(env, task, cells, known, n);
  }

  // A row is marked exactly when its key was cached before or a cell that stands earlier in
  // the grid is written like its cell.
  lemma MarkedIffSeen(env: Env, task: WideTask, cells: seq<Cell>, known: map<string, Source>, i: nat)
    requires i < |cells| && CollisionFree(env)
    ensures "cache" in RowAt(env, task, cells, known, i).fields <==>
      Key(env, task.query, cells[i]) in known || exists j :: 0 <= j < i && CellId(cells[j]) == CellId(cells[i])
  {
    KnownGrows(env, task.query, cells, known, i, Key(env, task.query, cells[i]));
    hide KnownAfter, CollisionFree, CellId, Key;
    forall j | 0 <= j < i
      ensures Key(env, task.query, cells[j]) == Key(env, task.query, cells[i]) <==> CellId(cells[j]) == CellId(cells[i])
    {
      KeyIff(env, task.query, cells[j], task.query, cells[i]);
    }
  }

  // The same run again takes every row from the cache, and shows the same cells.
  lemma AgainAllCached(env: Env, task: WideTask, cells: seq<Cell>, known: map<string, Source>, n: nat, i: nat)
    requires i < n <= |cells|
    ensures var row := RowAt(env, task, cells, known, i);
      RowAt(env, task, cells, KnownAfter(env, task.query, cells, known, n), i) ==
        Shown(task.id, true, row.fields["cache" := "hit"], [])
  {
    hide Key;
    var key, later := Key(env, task.query, cells[i]), KnownAfter(env, task.query, cells, known, n);
    KnownGrows(env, task.query, cells, known, i, key);
    KnownGrows(env, task.query, cells, known, n, key);
    KnownGrows(env, task.query, cells, later, i, key);
    KeptFrom(env, task.query, cells, known, i + 1, n, key);
  }

  lemma {:induction false} KeptFrom(env: Env, query: string, cells: seq<Cell>, known: map<string, Source>, m: nat,
                                    n: nat, key: string)
    requires m <= n <= |cells| && key in KnownAfter(env, query, cells, known, m)
    ensures key in KnownAfter(env, query, cells, known, n)
    ensures KnownAfter(env, query, cells, known, n)[key] == KnownAfter(env, query, cells, known, m)[key]
  {
    hide Key;
    if m < n {
      KeptFrom(env, query, cells, known, m, n - 1, key);
    }
  }

  // --- a run that shows the wrong cell ---

  lemma ColonGrid()
    ensures Grid(["a:b", "a"], ["c", "b:c"]) == [Cell("a:b", "c"), Cell("a:b", "b:c"), Cell("a", "c"), Cell("a", "b:c")]
  {
    var ts, at := ["a:b", "a"], ["c", "b:c"];
    assert ts[..1] == ["a:b"] && ts[..1][..0] == [];
    assert Grid(["a:b"], at) == RowOf("a:b", at);
  }

  // Two targets and two attributes, an empty cache, and full coverage as the stop rule: the
  // whole grid is wanted, and the fourth row is that of the first cell.
  lemma ColonRun(env: Env, task: WideTask)
    requires CollisionFree(env) && task.targets == ["a:b", "a"] && task.attrs == ["c", "b:c"]
    requires Threshold(task.stopRule, env.parseFloat) == 1.0
    ensures var cells := Grid(task.targets, task.attrs);
      |cells| == 4 == Wanted(|cells|, Threshold(task.stopRule, env.parseFloat)) &&
      cells[3] == Cell("a", "b:c") && !AllTell(env, task, cells, map[], 4) &&
      Tells(RowAt(env, task, cells, map[], 3).fields, Cell("a:b", "c"))
  {
    ColonGrid();
    var cells := Grid(task.targets, task.attrs);
    assert CellId(cells[0]) == "a:b:c" == CellId(cells[3]) && cells[0] != cells[3];
    EmptyCacheIff(env, task, cells, 4);
    KeyIff(env, task.query, cells[0], task.query, cells[3]);
    FoundAt(env, task.query, cells, map[], 3);
    RowTells(env, task, cells, map[], 3);
  }
}
