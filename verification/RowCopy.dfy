/** The copy of one range of rows: the column list, the statement, its text and what it does. */
module RowCopy {
  import opened Values
  import opened Strings
  import opened Quoting
  import opened Selection
  import opened Replay
  import opened Events
  import opened Sql
  import opened CopySql
  import opened CopyReading
  import opened Builders
  import opened Protocol
  import Chunks
  import ChunkCount
  import RangeFilters
  import Statements

  // ---- the shared columns ----

  /** The listed columns that are in the set, in their order. */
  function Intersection(columns: seq<string>, other: set<string>): (r: seq<string>)
    ensures forall c :: c in r <==> c in columns && c in other
  {
    if columns == [] then []
    else
      var n := |columns| - 1;
      assert columns == columns[..n] + [columns[n]];
      Intersection(columns[..n], other) + if columns[n] in other then [columns[n]] else []
  }

  /** The shared columns are the original's that the ghost has, each once, in the original's order. */
  lemma {:induction false} IntersectionOrder(columns: seq<string>, other: set<string>, i: nat, j: nat)
    requires Distinct(columns) && i < j < |Intersection(columns, other)|
    ensures var r := Intersection(columns, other);
      r[i] != r[j] && ColumnIndex(columns, r[i]) < ColumnIndex(columns, r[j])
  {
    var n := |columns| - 1;
    var front, r := Intersection(columns[..n], other), Intersection(columns, other);
    assert columns == columns[..n] + [columns[n]];
    IndexInFront(columns, r[i]);
    if j < |front| {
      IntersectionOrder(columns[..n], other, i, j);
      IndexInFront(columns, r[j]);
    } else {
      DistinctIndex(columns, n);
    }
  }

  lemma IndexInFront(columns: seq<string>, c: string)
    requires Distinct(columns) && columns != [] && c in columns[..|columns| - 1]
    ensures ColumnIndex(columns, c) == ColumnIndex(columns[..|columns| - 1], c) < |columns| - 1
  {
    DistinctIndex(columns, ColumnIndex(columns[..|columns| - 1], c));
  }

  // ---- what it does ----

  /** The model's parameters, as the statement's column list and the ghost's schema give them. */
  ghost predicate Describes(cfg: Config, d: Schema, columns: seq<string>) {
    && ValidSchema(d) && cfg.defaults == d.defaults
    && Shared(cfg) == ColumnSet(columns) <= d.columns
    && forall u :: u in d.uk ==> u in columns
  }

  /** The calculated list is the state machine's shared columns, when it has the two tables' lists. */
  lemma CalculatedAreShared(cfg: Config, originalListing: seq<string>, ghostListing: seq<string>)
    requires cfg.originalColumns == ColumnSet(originalListing) && cfg.ghostColumns == ColumnSet(ghostListing)
    ensures ColumnSet(Intersection(originalListing, ColumnSet(ghostListing))) == Shared(cfg)
  {
    var columns := Intersection(originalListing, ColumnSet(ghostListing));
    forall c
      ensures c in ColumnSet(columns) <==> c in Shared(cfg)
    {
      assert c in columns <==> c in originalListing && c in ghostListing;
    }
  }

  /** Rows of the original: its columns, each under its own non-null key. */
  ghost predicate Source(originalColumns: set<string>, uk: seq<string>, o: Table) {
    forall k :: k in o ==>
      o[k].Keys == originalColumns && (forall u :: u in uk ==> u in o[k]) && KeyOf(o[k], uk) == k && NonNull(k)
  }

  lemma CopyTwice(base: Row, part: Row)
    ensures (base + part) + part == base + part
  {
  }

  lemma CopyIntoAt(cfg: Config, g: Table, o: Table, keys: set<Key>, k: Key)
    ensures var h := CopyInto(cfg, g, o, keys);
      if k in keys && k in o
      then k in h && h[k] == (if k in g then g[k] else cfg.defaults) + Project(o[k], Shared(cfg))
      else SameAt(h, g, k)
  {
  }

  /** Copying again changes nothing; two copies are the copy of both sets. */
  lemma CopyMany(cfg: Config, g: Table, o: Table, a: set<Key>, b: set<Key>)
    ensures CopyInto(cfg, CopyInto(cfg, g, o, a), o, b) == CopyInto(cfg, g, o, a + b)
  {
    forall k
      ensures SameAt(CopyInto(cfg, CopyInto(cfg, g, o, a), o, b), CopyInto(cfg, g, o, a + b), k)
    {
      CopyManyAt(cfg, g, o, a, b, k);
    }
    SameEverywhere(CopyInto(cfg, CopyInto(cfg, g, o, a), o, b), CopyInto(cfg, g, o, a + b));
  }

  lemma CopyManyAt(cfg: Config, g: Table, o: Table, a: set<Key>, b: set<Key>, k: Key)
    ensures SameAt(CopyInto(cfg, CopyInto(cfg, g, o, a), o, b), CopyInto(cfg, g, o, a + b), k)
  {
    CopyIntoAt(cfg, g, o, a, k);
    CopyIntoAt(cfg, CopyInto(cfg, g, o, a), o, b, k);
    CopyIntoAt(cfg, g, o, a + b, k);
    if k in o {
      CopyTwice(if k in g then g[k] else cfg.defaults, Project(o[k], Shared(cfg)));
    }
  }

  lemma SameEverywhere(g: Table, h: Table)
    requires forall k :: SameAt(g, h, k)
    ensures g == h
  {
    forall k | k in g || k in h
      ensures k in g && k in h && g[k] == h[k]
    {
      assert SameAt(g, h, k);
    }
  }

  lemma CopyIntoOne(cfg: Config, g: Table, o: Table, k: Key)
    requires k in o
    ensures CopyInto(cfg, g, o, {k}) == g[k := (if k in g then g[k] else cfg.defaults) + Project(o[k], Shared(cfg))]
  {
  }

  lemma ProjectKeepsKey(columns: seq<string>, row: Row, uk: seq<string>)
    requires forall u :: u in uk ==> u in row && u in columns
    ensures forall u :: u in uk ==> u in Project(row, ColumnSet(columns))
    ensures KeyOf(Project(row, ColumnSet(columns)), uk) == KeyOf(row, uk)
  {
    Statements.SameKey(Project(row, ColumnSet(columns)), row, uk);
  }

  /** The upsert of one row copies it. */
  lemma UpsertCopies(cfg: Config, d: Schema, columns: seq<string>, g: Table, o: Table, k: Key)
    requires Describes(cfg, d, columns) && WellKeyed(d, g)
    requires Source(cfg.originalColumns, d.uk, o) && k in o
    ensures UpsertRow(d, Project(o[k], ColumnSet(columns)), NonKey(columns, d.uk), g) == Ok(CopyInto(cfg, g, o, {k}))
    ensures WellKeyed(d, CopyInto(cfg, g, o, {k}))
  {
    var row := Project(o[k], ColumnSet(columns));
    ProjectKeepsKey(columns, o[k], d.uk);
    CopyIntoOne(cfg, g, o, k);
    Statements.UpsertOne(d, row, columns, k, g);
    Statements.ApplyKeepsKeyed(d, Insert(k, row), g);
  }

  function KeySet(keys: seq<Key>): set<Key> {
    set k | k in keys
  }

  lemma KeySetSnoc(keys: seq<Key>)
    requires keys != []
    ensures KeySet(keys) == KeySet(keys[..|keys| - 1]) + {keys[|keys| - 1]}
  {
    assert keys == keys[..|keys| - 1] + [keys[|keys| - 1]];
  }

  lemma CopyNone(cfg: Config, g: Table, o: Table)
    ensures CopyInto(cfg, g, o, {}) == g
  {
  }

  /** Upserting selected rows one by one is copying the set of them. */
  lemma {:induction false} InsertAllCopies(cfg: Config, d: Schema, columns: seq<string>, g: Table, o: Table,
                                           keys: seq<Key>)
    requires Describes(cfg, d, columns) && WellKeyed(d, g)
    requires Source(cfg.originalColumns, d.uk, o) && forall k :: k in keys ==> k in o
    ensures InsertAll(d, g, o, columns, NonKey(columns, d.uk), keys) == Ok(CopyInto(cfg, g, o, KeySet(keys)))
    ensures WellKeyed(d, CopyInto(cfg, g, o, KeySet(keys)))
    decreases |keys|
  {
    if keys == [] {
      assert KeySet(keys) == {};
      CopyNone(cfg, g, o);
    } else {
      var n := |keys| - 1;
      InsertAllCopies(cfg, d, columns, g, o, keys[..n]);
      var front := KeySet(keys[..n]);
      UpsertCopies(cfg, d, columns, CopyInto(cfg, g, o, front), o, keys[n]);
      CopyMany(cfg, g, o, front, {keys[n]});
      KeySetSnoc(keys);
    }
  }

  lemma SourceArity(originalColumns: set<string>, uk: seq<string>, o: Table, s: CopyStmt)
    requires Source(originalColumns, uk, o) && |s.lo| == |s.hi| == |uk|
    ensures SameArity(o, s)
  {
  }

  /** The filter, the order and the limit take exactly the first rows of the closed range. */
  lemma SelectsRange(originalColumns: set<string>, uk: seq<string>, o: Table, s: CopyStmt)
    requires Source(originalColumns, uk, o) && |s.lo| == |s.hi| == |uk| && NonNull(s.lo) && NonNull(s.hi)
    ensures SameArity(o, s) && SelectedKeys(o, s) == CopyKeys(o.Keys, s.lo, s.hi, s.limit)
  {
    SourceArity(originalColumns, uk, o, s);
    RangeFilters.ComparisonSelectsInterval(o.Keys, s.lo, s.hi);
  }

  /** Run on the ghost table, the copy statement is the state machine's copy of the shared columns. */
  lemma CopyRuns(cfg: Config, d: Schema, columns: seq<string>, o: Table, s: CopyStmt, g: Table)
    requires Describes(cfg, d, columns) && WellKeyed(d, g) && Source(cfg.originalColumns, d.uk, o)
    requires |s.lo| == |s.hi| == |d.uk| && NonNull(s.lo) && NonNull(s.hi)
    requires s.columns == columns && s.key == d.uk && s.updates == NonKey(columns, d.uk)
    ensures SameArity(o, s)
    ensures ExecCopy(d, cfg.originalColumns, o, s, g)
         == Ok(CopyInto(cfg, g, o, KeySet(CopyKeys(o.Keys, s.lo, s.hi, s.limit))))
    ensures WellKeyed(d, CopyInto(cfg, g, o, KeySet(CopyKeys(o.Keys, s.lo, s.hi, s.limit))))
  {
    SelectsRange(cfg.originalColumns, d.uk, o, s);
    SelectedKeysExist(o, s);
    InsertAllCopies(cfg, d, columns, g, o, SelectedKeys(o, s));
  }

  /** The column list falls back to the original's when nothing is shared; then the statement fails,
      unless the original has no column either. */
  function CopyColumns(shared: seq<string>, originalColumns: seq<string>): seq<string> {
    if shared == [] then originalColumns else shared
  }

  lemma FallbackFails(d: Schema, originalColumns: seq<string>, o: Table, s: CopyStmt, g: Table)
    requires ValidSchema(d) && SameArity(o, s) && originalColumns != []
    requires s.columns == CopyColumns(Intersection(originalColumns, d.columns), originalColumns)
    requires s.key == d.uk
    ensures Intersection(originalColumns, d.columns) == [] ==>
      ExecCopy(d, ColumnSet(originalColumns), o, s, g) == Err("column does not exist")
  {
    if Intersection(originalColumns, d.columns) == [] {
      assert originalColumns[0] !in Intersection(originalColumns, d.columns);
      assert originalColumns[0] in ColumnSet(s.columns);
    }
  }

  /** Sent to the database, the copy statement's text is the state machine's copy of the shared columns. */
  lemma CopyTextRuns(cfg: Config, d: Schema, columns: seq<string>, o: Table, s: CopyStmt, g: Table)
    requires Describes(cfg, d, columns) && WellKeyed(d, g) && Source(cfg.originalColumns, d.uk, o)
    requires d.uk != [] && |s.lo| == |s.hi| == |d.uk| && NonNull(s.lo) && NonNull(s.hi) && PlainCopy(s)
    requires s.columns == columns && s.key == d.uk && s.updates == NonKey(columns, d.uk)
    ensures SameArity(o, s)
    ensures RunCopyText(d, cfg.originalColumns, o, s.target, s.source, RenderCopy(s), g)
         == Ok((CopyInto(cfg, g, o, KeySet(CopyKeys(o.Keys, s.lo, s.hi, s.limit))), AffectedBy(d, o, s, g)))
    ensures WellKeyed(d, CopyInto(cfg, g, o, KeySet(CopyKeys(o.Keys, s.lo, s.hi, s.limit))))
  {
    CopyRuns(cfg, d, columns, o, s, g);
    SentIsExec(d, cfg.originalColumns, o, s, g);
  }

  lemma {:induction false} AffectedAll(cfg: Config, d: Schema, columns: seq<string>, g: Table, o: Table, keys: seq<Key>)
    requires Describes(cfg, d, columns) && WellKeyed(d, g) && NonKey(columns, d.uk) != []
    requires Source(cfg.originalColumns, d.uk, o) && forall k :: k in keys ==> k in o
    ensures Affected(d, g, o, columns, NonKey(columns, d.uk), keys) == |keys|
    decreases |keys|
  {
    if keys != [] {
      InsertAllCopies(cfg, d, columns, g, o, keys[..|keys| - 1]);
      AffectedAll(cfg, d, columns, g, o, keys[..|keys| - 1]);
    }
  }

  /** Unless it can only do nothing, the statement reports exactly the rows that it copies. */
  lemma ReportsCopied(cfg: Config, d: Schema, columns: seq<string>, o: Table, s: CopyStmt, g: Table)
    requires Describes(cfg, d, columns) && WellKeyed(d, g) && Source(cfg.originalColumns, d.uk, o)
    requires |s.lo| == |s.hi| == |d.uk| && NonNull(s.lo) && NonNull(s.hi)
    requires s.columns == columns && s.key == d.uk && s.updates == NonKey(columns, d.uk) != []
    ensures SameArity(o, s) && AffectedBy(d, o, s, g) == |CopyKeys(o.Keys, s.lo, s.hi, s.limit)|
  {
    SelectsRange(cfg.originalColumns, d.uk, o, s);
    SelectedKeysExist(o, s);
    AffectedAll(cfg, d, columns, g, o, SelectedKeys(o, s));
  }

  // ---- covering an unchanging table by copies alone ----

  function CopyAll(cfg: Config, g: Table, o: Table, chunks: seq<Chunks.Range>, limit: nat): Table
    decreases |chunks|
  {
    if chunks == [] then g
    else
      var n := |chunks| - 1;
      CopyInto(cfg, CopyAll(cfg, g, o, chunks[..n], limit), o,
               KeySet(CopyKeys(o.Keys, chunks[n].lo, chunks[n].hi, limit)))
  }

  /** CopyAll takes the first range first. */
  lemma {:induction false} CopyAllFirst(cfg: Config, g: Table, o: Table, chunks: seq<Chunks.Range>, limit: nat)
    requires chunks != []
    ensures CopyAll(cfg, g, o, chunks, limit) == CopyAll(cfg,
      CopyInto(cfg, g, o, KeySet(CopyKeys(o.Keys, chunks[0].lo, chunks[0].hi, limit))), o, chunks[1..], limit)
    decreases |chunks|
  {
    var n := |chunks| - 1;
    if n == 0 {
      assert chunks[..n] == [] && chunks[1..] == [];
    } else {
      assert chunks[..n][1..] == chunks[1..][..n - 1];
      CopyAllFirst(cfg, g, o, chunks[..n], limit);
    }
  }

  lemma {:induction false} CopyAllKeys(cfg: Config, g: Table, o: Table, chunks: seq<Chunks.Range>, limit: nat)
    ensures CopyAll(cfg, g, o, chunks, limit) == CopyInto(cfg, g, o, KeySet(ChunkCount.Copied(o.Keys, chunks, limit)))
    decreases |chunks|
  {
    if chunks == [] {
      assert KeySet(ChunkCount.Copied(o.Keys, chunks, limit)) == {};
      CopyNone(cfg, g, o);
    } else {
      var first := CopyKeys(o.Keys, chunks[0].lo, chunks[0].hi, limit);
      var rest := ChunkCount.Copied(o.Keys, chunks[1..], limit);
      CopyAllFirst(cfg, g, o, chunks, limit);
      CopyAllKeys(cfg, CopyInto(cfg, g, o, KeySet(first)), o, chunks[1..], limit);
      CopyMany(cfg, g, o, KeySet(first), KeySet(rest));
      assert KeySet(first + rest) == KeySet(first) + KeySet(rest);
    }
  }

  /** The ghost after the whole table has been copied into an empty ghost: the defaults, overwritten
      with the shared columns. */
  function Migrated(cfg: Config, o: Table): Table {
    map k | k in o :: cfg.defaults + Project(o[k], Shared(cfg))
  }

  lemma CopyWhole(cfg: Config, o: Table)
    ensures CopyInto(cfg, map[], o, o.Keys) == Migrated(cfg, o)
  {
  }

  lemma MigratedProjects(cfg: Config, row: Row)
    requires Shared(cfg) <= row.Keys
    ensures Project(cfg.defaults + Project(row, Shared(cfg)), Shared(cfg)) == Project(row, Shared(cfg))
  {
  }

  /** Where the loop is after n turns on an unchanging table. */
  function LoopOn(keys: set<Key>, c: nat, n: nat): Chunks.Progress {
    Chunks.Turns(Chunks.Progress(ChunkCount.RangeRead(keys), [], Chunks.Running), Chunks.Again(Chunks.Look(keys, c), n))
  }

  /** Row copy under ADD and DROP COLUMN: on an unchanging table, with any chunk size, the loop ends
      and its copies alone make the ghost the original, projected to the shared columns. */
  lemma CopiesMigrate(cfg: Config, o: Table, c: nat) returns (n: nat)
    requires c >= 1
    ensures LoopOn(o.Keys, c, n).status.Complete?
    ensures forall r :: r in LoopOn(o.Keys, c, n).chunks ==> r.lo in o && r.hi in o
    ensures CopyAll(cfg, map[], o, LoopOn(o.Keys, c, n).chunks, c) == Migrated(cfg, o)
    ensures forall k :: k in o && Shared(cfg) <= o[k].Keys ==>
      Project(Migrated(cfg, o)[k], Shared(cfg)) == Project(o[k], Shared(cfg))
  {
    n := ChunkCount.ExactChunks(o.Keys, c);
    var chunks := LoopOn(o.Keys, c, n).chunks;
    CopyAllKeys(cfg, map[], o, chunks, c);
    CopiedIsAll(o.Keys, chunks, c);
    CopyWhole(cfg, o);
    forall k | k in o && Shared(cfg) <= o[k].Keys
      ensures Project(Migrated(cfg, o)[k], Shared(cfg)) == Project(o[k], Shared(cfg))
    {
      MigratedProjects(cfg, o[k]);
    }
  }

  /** The copy statements of the ranges, sent one after the other. */
  function SendAll(d: Schema, originalColumns: set<string>, o: Table, target: TableName, source: TableName,
                   columns: seq<string>, chunks: seq<Chunks.Range>, limit: nat, g: Table): Result<Table>
    requires d.uk != [] && forall c :: c in d.uk ==> c in d.defaults
    requires forall r :: r in chunks ==> |r.lo| == |r.hi| == |d.uk|
    decreases |chunks|
  {
    if chunks == [] then Ok(g)
    else
      var n := |chunks| - 1;
      var before := SendAll(d, originalColumns, o, target, source, columns, chunks[..n], limit, g);
      if before.Err? then before
      else
        var query := RenderCopy(CopyOf(target, source, columns, d.uk, chunks[n], limit));
        var r := RunCopyText(d, originalColumns, o, target, source, query, before.value);
        if r.Err? then Err(r.error) else Ok(r.value.0)
  }

  lemma {:induction false} SendAllCopies(cfg: Config, d: Schema, columns: seq<string>, o: Table, target: TableName,
                                         source: TableName, chunks: seq<Chunks.Range>, limit: nat, g: Table)
    requires Describes(cfg, d, columns) && WellKeyed(d, g) && Source(cfg.originalColumns, d.uk, o) && d.uk != []
    requires PlainNaming(target, source, columns, d.uk) && forall k :: k in o ==> Listed(k)
    requires forall r :: r in chunks ==> r.lo in o && r.hi in o
    ensures forall r :: r in chunks ==> |r.lo| == |r.hi| == |d.uk|
    ensures SendAll(d, cfg.originalColumns, o, target, source, columns, chunks, limit, g)
         == Ok(CopyAll(cfg, g, o, chunks, limit))
    ensures WellKeyed(d, CopyAll(cfg, g, o, chunks, limit))
    decreases |chunks|
  {
    if chunks != [] {
      var n := |chunks| - 1;
      SendAllCopies(cfg, d, columns, o, target, source, chunks[..n], limit, g);
      assert chunks[n] in chunks && chunks[n].lo in o && chunks[n].hi in o;
      CopyOfPlain(target, source, columns, d.uk, chunks[n], limit);
      CopyTextRuns(cfg, d, columns, o, CopyOf(target, source, columns, d.uk, chunks[n], limit),
                   CopyAll(cfg, g, o, chunks[..n], limit));
    }
  }

  /** The same of the statements that are sent: their texts, run one after the other on an empty ghost,
      all succeed and make it the original, projected to the shared columns. */
  lemma StatementsMigrate(cfg: Config, d: Schema, columns: seq<string>, o: Table, target: TableName, source: TableName,
                          c: nat) returns (n: nat)
    requires c >= 1 && Describes(cfg, d, columns) && Source(cfg.originalColumns, d.uk, o) && d.uk != []
    requires PlainNaming(target, source, columns, d.uk) && forall k :: k in o ==> Listed(k)
    ensures LoopOn(o.Keys, c, n).status.Complete?
    ensures forall r :: r in LoopOn(o.Keys, c, n).chunks ==> |r.lo| == |r.hi| == |d.uk|
    ensures SendAll(d, cfg.originalColumns, o, target, source, columns, LoopOn(o.Keys, c, n).chunks, c, map[])
         == Ok(Migrated(cfg, o))
  {
    n := CopiesMigrate(cfg, o, c);
    SendAllCopies(cfg, d, columns, o, target, source, LoopOn(o.Keys, c, n).chunks, c, map[]);
  }

  lemma CopiedIsAll(keys: set<Key>, chunks: seq<Chunks.Range>, c: nat)
    requires c >= 1
    requires ChunkCount.Copied(keys, chunks, c)
          == Sorted(keys) + if keys == {} || (|keys| - 1) % c == 0 then [] else [Greatest(keys)]
    ensures KeySet(ChunkCount.Copied(keys, chunks, c)) == keys
  {
    SortedEnumerates(keys);
  }

  // ---- the applier's methods ----

  /** The part of the applier that copies rows, with the two tables it works on. */
  class Copier {
    const schemaName: string
    const originalTableName: string
    const ghostTableName: string
    const uniqueKeyColumns: seq<string>
    const originalTableColumns: seq<string>
    const ghostSchema: Schema
    var sharedTableColumns: seq<string>
    var chunkSize: nat
    var original: Table
    var gho: Table

    constructor (schemaName: string, originalTableName: string, ghostTableName: string, uniqueKeyColumns: seq<string>,
                 originalTableColumns: seq<string>, ghostSchema: Schema, chunkSize: nat, original: Table)
      ensures Source() == TableName(schemaName, originalTableName) && Target() == TableName(schemaName, ghostTableName)
      ensures this.uniqueKeyColumns == uniqueKeyColumns && this.originalTableColumns == originalTableColumns
      ensures this.ghostSchema == ghostSchema && this.chunkSize == chunkSize && this.original == original
      ensures sharedTableColumns == [] && gho == map[]
    {
      this.schemaName, this.originalTableName, this.ghostTableName := schemaName, originalTableName, ghostTableName;
      this.uniqueKeyColumns, this.originalTableColumns := uniqueKeyColumns, originalTableColumns;
      this.ghostSchema, this.chunkSize, this.original := ghostSchema, chunkSize, original;
      sharedTableColumns, gho := [], map[];
    }

    function Source(): TableName {
      TableName(schemaName, originalTableName)
    }

    function Target(): TableName {
      TableName(schemaName, ghostTableName)
    }

    function Columns(): seq<string>
      reads this`sharedTableColumns
    {
      CopyColumns(sharedTableColumns, originalTableColumns)
    }

    function Statement(r: Chunks.Range): CopyStmt
      reads this`sharedTableColumns, this`chunkSize
    {
      CopyOf(Target(), Source(), Columns(), uniqueKeyColumns, r, chunkSize)
    }

    method CalculateSharedColumns(ghostListing: seq<string>)
      modifies this`sharedTableColumns
      ensures sharedTableColumns == Intersection(originalTableColumns, ColumnSet(ghostListing))
    {
      var ghostColumns: set<string> := {};
      for i := 0 to |ghostListing|
        invariant ghostColumns == ColumnSet(ghostListing[..i])
      {
        ghostColumns := ghostColumns + {ghostListing[i]};
        assert ghostListing[..i + 1] == ghostListing[..i] + [ghostListing[i]];
      }
      assert ghostListing[..|ghostListing|] == ghostListing;
      var shared: seq<string> := [];
      for i := 0 to |originalTableColumns|
        invariant shared == Intersection(originalTableColumns[..i], ghostColumns)
      {
        assert originalTableColumns[..i + 1][..i] == originalTableColumns[..i];
        if originalTableColumns[i] in ghostColumns {
          shared := shared + [originalTableColumns[i]];
        }
      }
      assert originalTableColumns[..|originalTableColumns|] == originalTableColumns;
      sharedTableColumns := shared;
    }

    method CopyQuery(r: Chunks.Range) returns (query: string)
      requires uniqueKeyColumns != [] && |uniqueKeyColumns| == |r.lo| == |r.hi|
      ensures query == RenderCopy(Statement(r))
    {
      var columns := sharedTableColumns;
      if |columns| == 0 {
        columns := originalTableColumns;
      }
      var quotedColumns := QuoteColumns(columns);
      var columnList := List(quotedColumns);
      var quotedUK := QuoteColumns(uniqueKeyColumns);
      var ukList := List(quotedUK);
      var updateCols := UpdateColumns(columns, uniqueKeyColumns);
      var rangeWhere := RangeFilters.BuildRangeComparison(uniqueKeyColumns, r.lo, r.hi);
      var action := if |updateCols| > 0 then "DO UPDATE SET " + List(updateCols) else "DO NOTHING";
      query := CopyText(FullName(Target()), FullName(Source()), columnList, rangeWhere,
                        TailText(ukList, chunkSize, action));
    }

    /** What the database makes of the text. */
    function Sent(query: string): Result<(Table, nat)>
      requires forall c :: c in ghostSchema.uk ==> c in ghostSchema.defaults
      reads this`original, this`gho
    {
      RunCopyText(ghostSchema, ColumnSet(originalTableColumns), original, Target(), Source(), query, gho)
    }

    /** The statement runs alone in its own transaction; whatever fails leaves the ghost as it was. */
    method ExecContext(query: string, lost: bool) returns (done: Result<nat>)
      requires forall c :: c in ghostSchema.uk ==> c in ghostSchema.defaults
      modifies this`gho
      ensures done.Ok? <==> !lost && old(Sent(query)).Ok?
      ensures done.Ok? ==> (gho, done.value) == old(Sent(query)).value
      ensures done.Err? ==> gho == old(gho)
    {
      var result := Sent(query);
      if lost || result.Err? {
        return Err("failed to copy rows");
      }
      gho := result.value.0;
      done := Ok(result.value.1);
    }

    method ApplyIterationInsertQueryWithRange(r: Chunks.Range, lost: bool)
      returns (size: nat, rowsAffected: nat, done: Result<()>)
      requires uniqueKeyColumns != [] && |uniqueKeyColumns| == |r.lo| == |r.hi|
      requires forall c :: c in ghostSchema.uk ==> c in ghostSchema.defaults
      modifies this`gho
      ensures size == chunkSize
      ensures done.Ok? <==> !lost && old(Sent(RenderCopy(Statement(r)))).Ok?
      ensures done.Ok? ==> (gho, rowsAffected) == old(Sent(RenderCopy(Statement(r)))).value
      ensures done.Err? ==> gho == old(gho) && rowsAffected == 0
    {
      size := chunkSize;
      var query := CopyQuery(r);
      var result := ExecContext(query, lost);
      if result.Err? {
        return size, 0, Err(result.error);
      }
      return size, result.value, Ok(());
    }
  }
}
