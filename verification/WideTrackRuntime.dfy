// The mapper's cache and its run over a wide track. The data of a row is an object: a row
// and the cache entry saved from it share one, a row from the cache gets a copy.
module WideTrackRuntime {
  import opened Wrappers
  import opened WideCache
  import opened WideTrack

  class Data {
    var fields: Fields

    constructor (fields: Fields)
      ensures this.fields == fields
    {
      this.fields := fields;
    }
  }

  datatype CacheEntry = CacheEntry(data: Data, evidence: seq<string>)

  // The same entry as a JSON file.
  datatype Stored = Stored(fields: Fields, evidence: seq<string>)

  datatype ResultRow = ResultRow(trackId: string, ok: bool, data: Data, evidence: seq<string>)

  datatype Ledger = Ledger(total: nat, completed: nat, found: set<string>)

  function View(row: ResultRow): Shown
    reads row.data
  {
    Shown(row.trackId, row.ok, row.data.fields, row.evidence)
  }

  function IdsOf(cells: seq<Cell>): set<string> {
    set c | c in cells :: CellId(c)
  }

  class Mapper {
    var mem: map<string, CacheEntry>
    var disk: map<string, Stored>
    const withDir: bool

    ghost function Held(): set<object>
      reads this
    {
      set k | k in mem :: mem[k].data
    }

    predicate Knows(key: string)
      reads this
    {
      key in mem || (withDir && key in disk)
    }

    // What a lookup of a known key finds: memory first.
    function Entry(key: string): Stored
      requires Knows(key)
      reads this, Held()
    {
      if key in mem then Stored(mem[key].data.fields, mem[key].evidence) else disk[key]
    }

    // The cache holds just these entries, each as a run saved it: without a marker.
    ghost predicate Holds(known: map<string, Source>)
      reads this, Held()
    {
      forall k :: (Knows(k) <==> k in known) && (k in known ==> Entry(k) == Stored(Fresh(known[k].cell), []))
    }

    constructor (withDir: bool, disk: map<string, Stored>, ghost known: map<string, Source>)
      requires known.Keys == if withDir then disk.Keys else {}
      requires forall k :: k in known ==> disk[k] == Stored(Fresh(known[k].cell), [])
      ensures Holds(known)
    {
      this.withDir, this.disk, this.mem := withDir, disk, map[];
    }

    // Entries only come in; those that are there stay as they are.
    twostate predicate Keeps()
      reads this, Held()
    {
      (forall k :: k in old(mem) ==>
        k in mem && mem[k] == old(mem[k]) && mem[k].data.fields == old(mem[k].data.fields)) &&
      (forall k :: k in old(disk) ==> k in disk && disk[k] == old(disk[k]))
    }

    method CheckCache(key: string, ghost known: map<string, Source>) returns (e: Option<CacheEntry>)
      requires Holds(known)
      modifies `mem
      ensures e.Some? <==> key in known
      ensures e.Some? ==> e.value.data.fields == Fresh(known[key].cell) && e.value.evidence == []
      ensures e.None? ==> mem == old(mem)
      ensures Holds(known) && Keeps()
    {
      hide Fresh;
      if key in mem {
        return Some(mem[key]);
      }
      if withDir && key in disk {
        var data := new Data(disk[key].fields);
        var entry := CacheEntry(data, disk[key].evidence);
        mem := mem[key := entry];
        return Some(entry);
      }
      return None;
    }

    lemma EntriesOf(known: map<string, Source>)
      requires Holds(known)
      ensures forall k :: Knows(k) <==> k in known
      ensures forall k :: k in known ==> Entry(k) == Stored(Fresh(known[k].cell), [])
    {
    }

    lemma HoldsIf(known: map<string, Source>)
      requires forall k :: Knows(k) <==> k in known
      requires forall k :: k in known ==> Entry(k) == Stored(Fresh(known[k].cell), [])
      ensures Holds(known)
    {
    }

    method SaveCache(key: string, e: CacheEntry, ghost known: map<string, Source>, ghost source: Source)
      requires Holds(known) && key !in known
      requires e.data.fields == Fresh(source.cell) && e.evidence == []
      modifies this
      ensures mem == old(mem)[key := e]
      ensures disk == if withDir then old(disk)[key := Stored(e.data.fields, e.evidence)] else old(disk)
      ensures Keeps() && Holds(known[key := source])
    {
      hide Fresh, Holds;
      EntriesOf(known);
      mem := mem[key := e];
      if withDir {
        disk := disk[key := Stored(e.data.fields, e.evidence)];
      }
      HoldsIf(known[key := source]);
    }

    // A copy of a cached row, marked as such; the entry itself stays unmarked.
    method FromCache(task: WideTask, cached: CacheEntry) returns (row: ResultRow)
      ensures fresh(row.data)
      ensures View(row) == Shown(task.id, true, cached.data.fields["cache" := "hit"], cached.evidence)
    {
      var data := new Data(cached.data.fields);
      data.fields := data.fields["cache" := "hit"];
      row := ResultRow(task.id, true, data, cached.evidence);
    }

    // A new row, whose data is also saved.
    method Search(env: Env, task: WideTask, c: Cell, completed: nat, ghost known: map<string, Source>)
      returns (row: ResultRow)
      requires Holds(known) && Key(env, task.query, c) !in known
      modifies this
      ensures fresh(row.data) && Keeps()
      ensures View(row) == RowFrom(env, task, c, completed, known)
      ensures Holds(known[Key(env, task.query, c) := Source(task.query, c)])
    {
      hide Key, Link, CellId, Fresh;
      var data := new Data(Fresh(c));
      row := ResultRow(task.id, true, data, []);
      if completed % 3 != 0 {
        row := row.(evidence := [Link(c)]);
      }
      SaveCache(Key(env, task.query, c), CacheEntry(data, []), known, Source(task.query, c));
    }

    // One cell of the grid.
    method Visit(env: Env, task: WideTask, c: Cell, completed: nat, ghost known: map<string, Source>)
      returns (row: ResultRow)
      requires Holds(known)
      modifies this
      ensures fresh(row.data) && Keeps()
      ensures View(row) == RowFrom(env, task, c, completed, known)
      ensures Holds(Learned(env, task.query, c, known))
    {
      hide Key, Fresh;
      var cached := CheckCache(Key(env, task.query, c), known);
      if cached.Some? {
        row := FromCache(task, cached.value);
      } else {
        row := Search(env, task, c, completed, known);
      }
    }

    // Rows for exactly as many cells as the threshold asks for, in the order of the grid,
    // whatever the names and whatever earlier runs have cached.
    method RunWideTrack(env: Env, task: WideTask, ghost known: map<string, Source>)
      returns (rows: seq<ResultRow>, ledger: Ledger)
      requires Holds(known)
      modifies this
      ensures Keeps()
      ensures var cells := Grid(task.targets, task.attrs);
        |rows| == Wanted(|cells|, Threshold(task.stopRule, env.parseFloat)) <= |cells| &&
        ledger == Ledger(|cells|, |rows|, IdsOf(cells[..|rows|])) &&
        (forall i :: 0 <= i < |rows| ==> View(rows[i]) == RowAt(env, task, cells, known, i)) &&
        Holds(KnownAfter(env, task.query, cells, known, |rows|))
      ensures var rule, n := task.stopRule, |Grid(task.targets, task.attrs)|;
        if |rule| >= 10 && rule[..10] == "coverage>=" && env.parseFloat(rule[10..]).Some?
        then LeastEnough(|rows|, n, env.parseFloat(rule[10..]).value)
        else LeastEnough(|rows|, n, 0.8)
    {
      RowsForRule(env, task);
      hide LeastEnough, Key, Holds, RowAt, RowFrom, Wanted, Threshold, Ratio, Knows, Learned, KnownAfter;
      hide Grid, CellId, IdsOf;
      var cells := Grid(task.targets, task.attrs);
      var threshold := Threshold(task.stopRule, env.parseFloat);
      rows, ledger := [], Ledger(|cells|, 0, {});
      NothingKnown(env, task.query, cells, known);
      WantedFits(|cells|, threshold);
      for i := 0 to |cells|
        invariant |rows| == i <= Wanted(|cells|, threshold)
        invariant ledger == Ledger(|cells|, i, IdsOf(cells[..i]))
        invariant forall j :: 0 <= j < i ==> View(rows[j]) == RowAt(env, task, cells, known, j)
        invariant Holds(KnownAfter(env, task.query, cells, known, i))
        invariant Keeps()
      {
        RatioReached(i, |cells|, threshold);
        if Ratio(ledger.completed, ledger.total) >= threshold {
          return;
        }
        var row := NextRow(env, task, cells, known, i);
        rows := rows + [row];
        IdsSnoc(cells, i);
        ledger := ledger.(completed := ledger.completed + 1, found := ledger.found + {CellId(cells[i])});
      }
    }

    // One wide track after another through the same cache: every run has the rows that the
    // runs before it determine, and no later run changes them.
    method RunAll(env: Env, tasks: seq<WideTask>, ghost known: map<string, Source>) returns (all: seq<seq<ResultRow>>)
      requires Holds(known)
      modifies this
      ensures |all| == |tasks| && Holds(LearnedFrom(env, tasks, known))
      ensures forall k :: 0 <= k < |tasks| ==> |all[k]| == WantedOf(env, tasks[k])
      ensures forall k, i :: 0 <= k < |tasks| && 0 <= i < |all[k]| ==> View(all[k][i]) == RowIn(env, tasks, known, k, i)
      ensures WellKeyed(env, known) ==> WellKeyed(env, LearnedFrom(env, tasks, known))
    {
      hide Key, Holds, WellKeyed, WantedOf, LearnedBy, RowIn;
      all := [];
      assert tasks[..0] == [];
      for k := 0 to |tasks|
        invariant |all| == k && Holds(LearnedFrom(env, tasks[..k], known))
        invariant forall j :: 0 <= j < k ==> |all[j]| == WantedOf(env, tasks[j])
        invariant forall j, i :: 0 <= j < k && 0 <= i < |all[j]| ==> View(all[j][i]) == RowIn(env, tasks, known, j, i)
        invariant WellKeyed(env, known) ==> WellKeyed(env, LearnedFrom(env, tasks[..k], known))
      {
        assert tasks[..k + 1][..k] == tasks[..k];
        var rows := RunNext(env, tasks, known, k);
        all := all + [rows];
      }
      assert tasks[..|tasks|] == tasks;
    }

    method RunNext(env: Env, tasks: seq<WideTask>, ghost known: map<string, Source>, k: nat)
      returns (rows: seq<ResultRow>)
      requires k < |tasks| && Holds(LearnedFrom(env, tasks[..k], known))
      modifies this
      ensures |rows| == WantedOf(env, tasks[k])
      ensures forall i :: 0 <= i < |rows| ==> View(rows[i]) == RowIn(env, tasks, known, k, i)
      ensures Holds(LearnedBy(env, tasks[k], LearnedFrom(env, tasks[..k], known)))
      ensures WellKeyed(env, LearnedFrom(env, tasks[..k], known)) ==>
        WellKeyed(env, LearnedBy(env, tasks[k], LearnedFrom(env, tasks[..k], known)))
    {
      hide Key, Holds, WellKeyed, RowAt, KnownAfter, Wanted;
      var ledger;
      ghost var before := LearnedFrom(env, tasks[..k], known);
      if WellKeyed(env, before) {
        StaysWellKeyed(env, tasks[k].query, Grid(tasks[k].targets, tasks[k].attrs), before, WantedOf(env, tasks[k]));
      }
      rows, ledger := RunWideTrack(env, tasks[k], before);
    }

    method NextRow(env: Env, task: WideTask, cells: seq<Cell>, ghost known: map<string, Source>, i: nat)
      returns (row: ResultRow)
      requires i < |cells| && Holds(KnownAfter(env, task.query, cells, known, i))
      modifies this
      ensures fresh(row.data) && Keeps()
      ensures View(row) == RowAt(env, task, cells, known, i)
      ensures Holds(KnownAfter(env, task.query, cells, known, i + 1))
    {
      hide Key, Holds, RowFrom, Knows, Learned;
      row := Visit(env, task, cells[i], i, KnownAfter(env, task.query, cells, known, i));
    }
  }

  lemma RowsForRule(env: Env, task: WideTask)
    ensures var rule, n := task.stopRule, |Grid(task.targets, task.attrs)|;
      var wanted := Wanted(n, Threshold(rule, env.parseFloat));
      if |rule| >= 10 && rule[..10] == "coverage>=" && env.parseFloat(rule[10..]).Some?
      then LeastEnough(wanted, n, env.parseFloat(rule[10..]).value)
      else LeastEnough(wanted, n, 0.8)
  {
    hide Wanted, LeastEnough, Threshold, Grid;
    var rule := task.stopRule;
    WantedIsLeast(|Grid(task.targets, task.attrs)|, Threshold(rule, env.parseFloat));
    if |rule| >= 10 && rule[..10] == "coverage>=" {
      assert rule == "coverage>=" + rule[10..];
      RuleIsRead(rule, env.parseFloat, rule[10..]);
    } else {
      RuleIsRead(rule, env.parseFloat, "");
    }
  }

  lemma NothingKnown(env: Env, query: string, cells: seq<Cell>, known: map<string, Source>)
    ensures KnownAfter(env, query, cells, known, 0) == known && IdsOf(cells[..0]) == {}
  {
  }

  lemma IdsSnoc(cells: seq<Cell>, i: nat)
    requires i < |cells|
    ensures IdsOf(cells[..i + 1]) == IdsOf(cells[..i]) + {CellId(cells[i])}
  {
    hide CellId;
    assert cells[..i + 1] == cells[..i] + [cells[i]];
  }

  lemma WantedFits(total: nat, threshold: real)
    ensures Wanted(total, threshold) <= total
  {
  }
}
