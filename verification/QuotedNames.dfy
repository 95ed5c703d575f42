/** Names that start and end with a double quote, which the quoting takes for quoted already: what their
    text does, and for which inserts it is still the replay. */
module QuotedNames {
  import opened Values
  import opened Strings
  import opened Replay
  import opened Events
  import opened Conversion
  import opened Sql
  import opened Builders
  import opened Statements
  import opened Sending
  import Chunks
  import Quoting
  import SqlReading

  /** The name is plain, or has nothing but its outer double quotes. */
  predicate Simple(name: string) {
    Quoting.Quoted(name) ==> |name| >= 2 && '"' !in name[1..|name| - 1]
  }

  /** The name within the quotes. */
  function Bare(name: string): string {
    if Quoting.Quoted(name) && |name| >= 2 then name[1..|name| - 1] else name
  }

  lemma BareName(name: string)
    requires Simple(name)
    ensures Quoting.QuoteIdentifier(Bare(name)) == Quoting.QuoteIdentifier(name) && !Quoting.Quoted(Bare(name))
    ensures Bare(name) == name <==> !Quoting.Quoted(name)
  {
    if Quoting.Quoted(name) {
      var inner := name[1..|name| - 1];
      assert inner != "" ==> inner[0] in inner;
      Quoting.EscapeNothing(inner, '"');
      assert name == "\"" + inner + "\"";
    }
  }

  function BareTable(t: TableName): TableName {
    TableName(Bare(t.schemaName), Bare(t.name))
  }

  function BareAssigns(assigns: seq<Assign>): (r: seq<Assign>)
    ensures |r| == |assigns|
  {
    seq(|assigns|, i requires 0 <= i < |assigns| => Assign(Bare(assigns[i].column), assigns[i].param))
  }

  /** The statement over the names within the quotes. */
  function BareStatement(s: Stmt): Stmt {
    match s
    case NoQuery => NoQuery
    case UpsertStmt(t, columns, params, conflict, updates) =>
      UpsertStmt(BareTable(t), MapText(Bare, columns), params, MapText(Bare, conflict), MapText(Bare, updates))
    case UpdateStmt(t, sets, wheres) => UpdateStmt(BareTable(t), BareAssigns(sets), BareAssigns(wheres))
    case DeleteStmt(t, wheres) => DeleteStmt(BareTable(t), BareAssigns(wheres))
  }

  predicate SimpleNames(names: seq<string>) {
    forall n | n in names :: Simple(n)
  }

  predicate SimpleTable(t: TableName) {
    Simple(t.schemaName) && Simple(t.name)
  }

  predicate SimpleAssigns(assigns: seq<Assign>) {
    forall a | a in assigns :: Simple(a.column)
  }

  predicate SimpleStatement(s: Stmt) {
    match s
    case NoQuery => true
    case UpsertStmt(t, columns, _, conflict, updates) =>
      SimpleTable(t) && SimpleNames(columns) && SimpleNames(conflict) && SimpleNames(updates)
    case UpdateStmt(t, sets, wheres) => SimpleTable(t) && SimpleAssigns(sets) && SimpleAssigns(wheres)
    case DeleteStmt(t, wheres) => SimpleTable(t) && SimpleAssigns(wheres)
  }

  lemma BareNames(names: seq<string>)
    requires SimpleNames(names)
    ensures MapText(Quoting.QuoteIdentifier, MapText(Bare, names)) == MapText(Quoting.QuoteIdentifier, names)
    ensures MapText(ExcludedText, MapText(Bare, names)) == MapText(ExcludedText, names)
    ensures SqlReading.PlainNames(MapText(Bare, names))
  {
    var bare := MapText(Bare, names);
    forall i | 0 <= i < |names|
      ensures Quoting.QuoteIdentifier(bare[i]) == Quoting.QuoteIdentifier(names[i]) && !Quoting.Quoted(bare[i])
    {
      assert names[i] in names;
      BareName(names[i]);
    }
    hide Quoting.QuoteIdentifier, Quoting.Quoted, Bare;
  }

  lemma BareClauses(assigns: seq<Assign>)
    requires SimpleAssigns(assigns)
    ensures MapText(AssignText, BareAssigns(assigns)) == MapText(AssignText, assigns)
    ensures SqlReading.PlainAssigns(BareAssigns(assigns))
  {
    forall i | 0 <= i < |assigns|
      ensures AssignText(BareAssigns(assigns)[i]) == AssignText(assigns[i])
      ensures !Quoting.Quoted(BareAssigns(assigns)[i].column)
    {
      assert assigns[i] in assigns;
      BareName(assigns[i].column);
    }
    hide AssignText, Quoting.Quoted, Bare;
  }

  lemma BareText(s: Stmt)
    requires SimpleStatement(s)
    ensures Render(BareStatement(s)) == Render(s) && SqlReading.Plain(BareStatement(s))
  {
    if !s.NoQuery? {
      BareName(s.table.schemaName);
      BareName(s.table.name);
    }
    match s {
      case NoQuery =>
      case UpsertStmt(_, columns, _, conflict, updates) =>
        BareNames(columns);
        BareNames(conflict);
        BareNames(updates);
      case UpdateStmt(_, sets, wheres) =>
        BareClauses(sets);
        BareClauses(wheres);
      case DeleteStmt(_, wheres) => BareClauses(wheres);
    }
    hide Simple, Bare, Quoting.QuoteIdentifier, Quoting.Quoted, MapText, UpsertText, UpdateText, DeleteText, List, Join;
  }

  /** What the text of a statement does whose names are plain or simply quoted: exactly what the statement over
      the names within the quotes does. */
  lemma SimpleRuns(d: Schema, t: TableName, s: Stmt, args: seq<Value>, g: Table)
    requires SimpleStatement(s) && forall c :: c in d.uk ==> c in d.defaults
    ensures SqlReading.RunText(d, t, Render(s), args, g) == Perform(d, t, BareStatement(s), args, g)
  {
    BareText(s);
    SqlReading.StatementRead(BareStatement(s));
    hide Render, Perform, BareStatement, SimpleStatement;
  }

  // An insert whose text the database accepts although a name in it looks quoted.

  /** The database accepts the upsert over the names within the quotes. */
  ghost predicate Accepted(d: Schema, t: TableName, b: Stmt, args: seq<Value>) {
    && b.UpsertStmt? && b.table == t && b.conflict == d.uk && Bound(b, args) && |b.columns| == |b.params|
    && Distinct(b.columns) && (forall c :: c in b.columns + b.updates ==> c in d.columns)
    && Taken(d.types, b, args).Some?
  }

  lemma AcceptedIff(d: Schema, t: TableName, b: Stmt, args: seq<Value>, g: Table)
    requires ValidSchema(d) && b.UpsertStmt?
    ensures Perform(d, t, b, args, g).Ok? ==> Accepted(d, t, b, args)
    ensures Accepted(d, t, b, args) ==>
      |Taken(d.types, b, args).value| == |args| &&
      Perform(d, t, b, args, g) == UpsertRow(d, Incoming(b, Taken(d.types, b, args).value), b.updates, g)
  {
    hide TakenArg, UpsertRow, Incoming;
  }

  /** The column that is named within the quotes is not one of the event's. */
  lemma BareIsOther(columns: seq<string>, j: nat)
    requires SimpleNames(columns) && j < |columns| && Quoting.Quoted(columns[j]) && Distinct(MapText(Bare, columns))
    ensures Bare(columns[j]) !in columns
  {
    BareName(columns[j]);
    forall k | 0 <= k < |columns|
      ensures columns[k] != Bare(columns[j])
    {
      var bare := MapText(Bare, columns);
      assert k == j || bare[k] != bare[j];
    }
  }

  lemma TakenAt(types: Types, s: Stmt, args: seq<Value>, k: nat)
    requires Taken(types, s, args).Some? && k < |args| == |Params(s)| == |ColumnsOf(s)|
    requires forall j :: 0 <= j < |Params(s)| ==> Params(s)[j] == j + 1
    ensures |Taken(types, s, args).value| == |args|
    ensures Input(KindOf(types, ColumnsOf(s)[k]), args[k]) == Some(Taken(types, s, args).value[k])
  {
    TakenHere(types, s, k, args[k]);
    hide TakenArg, Input, Params, ColumnsOf;
  }

  lemma IncomingAt(b: Stmt, taken: seq<Value>, k: nat)
    requires b.UpsertStmt? && Distinct(b.columns) && b.params == UpTo(|b.columns|) && |taken| == |b.columns|
    requires k < |b.columns|
    ensures Bound(b, taken) && b.columns[k] in Incoming(b, taken) && Incoming(b, taken)[b.columns[k]] == taken[k]
  {
    DistinctIndex(b.columns, k);
  }

  /** The values of the plain columns are those of the event. */
  lemma PlainIncoming(d: Schema, t: TableName, cv: ColumnValues, b: Stmt, taken: seq<Value>, u: string)
    requires Paired(cv) && TupleDelivered(d.types, cv) && u in cv.columns && !Quoting.Quoted(u)
    requires Accepted(d, t, b, cv.values) && b.columns == MapText(Bare, cv.columns) && b.params == UpTo(|b.columns|)
    requires Taken(d.types, b, cv.values) == Some(taken)
    ensures |taken| == |cv.values| && Bound(b, taken) && u in Incoming(b, taken)
    ensures Incoming(b, taken)[u] == RowOf(Converted(d.types, cv))[u]
  {
    var k := ColumnIndex(cv.columns, u);
    assert b.columns[k] == Bare(u) == u;
    TakenAt(d.types, b, cv.values, k);
    ConvertedValue(d.types, cv, u);
    IncomingAt(b, taken, k);
    hide Taken, Input, Bare, Converted, Incoming;
  }

  /** A row of the ghost table with the key of the given one, and that value in one more column. */
  function WithColumn(d: Schema, row: Row, a: string, w: Value): Row
    requires forall u :: u in d.uk ==> u in row
  {
    (d.defaults + map u | u in d.uk :: row[u])[a := w]
  }

  lemma OneRowKeyed(d: Schema, row: Row, a: string, w: Value)
    requires ValidSchema(d) && (forall u :: u in d.uk ==> u in row) && a in d.columns && a !in d.uk
    ensures WellKeyed(d, map[KeyOf(row, d.uk) := WithColumn(d, row, a, w)])
  {
    SameKey(WithColumn(d, row, a, w), row, d.uk);
  }

  /** The upsert over other columns writes the other column, whatever is in it. */
  lemma UpsertWrites(d: Schema, incoming: Row, updates: seq<string>, row: Row, a: string, w: Value)
    requires ValidSchema(d) && (forall u :: u in d.uk ==> u in row && u in incoming && incoming[u] == row[u])
    requires NonNull(KeyOf(row, d.uk)) && a in updates && a in incoming
    ensures var key := KeyOf(row, d.uk);
      var h := UpsertRow(d, incoming, updates, map[key := WithColumn(d, row, a, w)]);
      h.Ok? && key in h.value && a in h.value[key] && h.value[key][a] == incoming[a]
  {
    SameKey(d.defaults + incoming, row, d.uk);
  }

  lemma UnquotedKey(uk: seq<string>)
    requires SimpleNames(uk) && MapText(Bare, uk) == uk
    ensures forall u :: u in uk ==> !Quoting.Quoted(u)
  {
    forall u | u in uk
      ensures !Quoting.Quoted(u)
    {
      var i :| 0 <= i < |uk| && uk[i] == u;
      assert MapText(Bare, uk)[i] == Bare(u);
      BareName(u);
    }
  }

  /** If the database accepts it and the names were not plain, one of the columns outside the key was not. */
  lemma QuotedColumn(t: TableName, columns: seq<string>, uk: seq<string>) returns (j: nat)
    requires var s := UpsertOf(t, columns, uk);
      && SimpleStatement(s) && !SqlReading.Plain(s) && BareStatement(s).table == t && BareStatement(s).conflict == uk
    ensures j < |columns| && Quoting.Quoted(columns[j]) && columns[j] !in uk
  {
    BareName(t.schemaName);
    BareName(t.name);
    UnquotedKey(uk);
    var c :| c in columns && Quoting.Quoted(c);
    j :| 0 <= j < |columns| && columns[j] == c;
  }

  /** The other column is outside the key, and the upsert sets it. */
  lemma OtherSet(columns: seq<string>, uk: seq<string>, j: nat)
    requires SimpleNames(columns) && j < |columns| && Quoting.Quoted(columns[j]) && columns[j] !in uk
    requires Distinct(MapText(Bare, columns)) && forall u :: u in uk ==> u in columns
    ensures var a := Bare(columns[j]); a !in columns && a !in uk && a in MapText(Bare, NonKey(columns, uk))
  {
    BareIsOther(columns, j);
    var updates := NonKey(columns, uk);
    var m :| 0 <= m < |updates| && updates[m] == columns[j];
    assert MapText(Bare, updates)[m] == Bare(columns[j]);
  }

  /** The upsert over the names within the quotes. */
  ghost predicate BareUpsert(b: Stmt, columns: seq<string>, uk: seq<string>) {
    && b.UpsertStmt? && b.columns == MapText(Bare, columns) && b.params == UpTo(|columns|)
    && b.updates == MapText(Bare, NonKey(columns, uk))
  }

  lemma KeyIncoming(d: Schema, t: TableName, cv: ColumnValues, b: Stmt, taken: seq<Value>, row: Row)
    requires Complete(cv, d.uk) && TupleDelivered(d.types, cv) && Bound(b, taken)
    requires BareUpsert(b, cv.columns, d.uk) && Accepted(d, t, b, cv.values)
    requires Taken(d.types, b, cv.values) == Some(taken)
    requires (forall u :: u in d.uk ==> !Quoting.Quoted(u) && u in row) && row == RowOf(Converted(d.types, cv))
    ensures forall u :: u in d.uk ==> u in Incoming(b, taken) && Incoming(b, taken)[u] == row[u]
  {
    hide Taken, Converted, Bare, TupleDelivered, NonKey, Incoming, RowOf, MapText;
    forall u | u in d.uk
      ensures u in Incoming(b, taken) && Incoming(b, taken)[u] == row[u]
    {
      KeyColumnIncoming(d, t, cv, b, taken, row, u);
    }
  }

  lemma KeyColumnIncoming(d: Schema, t: TableName, cv: ColumnValues, b: Stmt, taken: seq<Value>, row: Row, u: string)
    requires Complete(cv, d.uk) && TupleDelivered(d.types, cv) && Bound(b, taken)
    requires BareUpsert(b, cv.columns, d.uk) && Accepted(d, t, b, cv.values)
    requires Taken(d.types, b, cv.values) == Some(taken)
    requires u in d.uk && !Quoting.Quoted(u) && row == RowOf(Converted(d.types, cv))
    ensures u in row && u in Incoming(b, taken) && Incoming(b, taken)[u] == row[u]
  {
    PlainIncoming(d, t, cv, b, taken, u);
  }

  /** What the two upserts write of the other column. */
  lemma OtherIncoming(d: Schema, t: TableName, cv: ColumnValues, b: Stmt, taken: seq<Value>, j: nat)
    requires Complete(cv, d.uk) && SimpleNames(cv.columns)
    requires BareUpsert(b, cv.columns, d.uk) && Accepted(d, t, b, cv.values)
    requires Taken(d.types, b, cv.values) == Some(taken)
    requires j < |cv.columns| && Quoting.Quoted(cv.columns[j]) && cv.columns[j] !in d.uk
    ensures var a := Bare(cv.columns[j]);
      && Bound(b, taken) && a in d.columns && a !in d.uk && a !in cv.columns
      && a in b.updates && a in Incoming(b, taken)
  {
    OtherSet(cv.columns, d.uk, j);
    TakenAt(d.types, b, cv.values, j);
    IncomingAt(b, taken, j);
    hide Taken, Incoming;
    assert Bare(cv.columns[j]) in b.columns + b.updates;
  }

  /** A ghost table that tells the two upserts apart. */
  lemma Apart(d: Schema, incoming: Row, updates: seq<string>, row: Row, a: string) returns (g: Table)
    requires ValidSchema(d) && (forall u :: u in d.uk ==> u in row && u in incoming && incoming[u] == row[u])
    requires NonNull(KeyOf(row, d.uk)) && a in updates && a in incoming && a !in row && a in d.columns && a !in d.uk
    ensures WellKeyed(d, g)
    ensures UpsertRow(d, incoming, updates, g) != Ok(Upsert(g, KeyOf(row, d.uk), row, d.defaults))
  {
    var w, key := if incoming[a].Null? then Values.Text("") else Null, KeyOf(row, d.uk);
    g := map[key := WithColumn(d, row, a, w)];
    OneRowKeyed(d, row, a, w);
    UpsertWrites(d, incoming, updates, row, a, w);
    WithColumnHas(d, row, a, w);
    hide UpsertRow, WithColumn, KeyOf;
    assert Upsert(g, key, row, d.defaults)[key] == g[key] + row;
  }

  lemma OtherColumn(d: Schema, t: TableName, cv: ColumnValues, b: Stmt, j: nat, row: Row) returns (g: Table)
    requires ValidSchema(d) && Complete(cv, d.uk) && TupleDelivered(d.types, cv) && SimpleNames(cv.columns)
    requires b == BareStatement(UpsertOf(t, cv.columns, d.uk)) && Accepted(d, t, b, cv.values)
    requires (forall u :: u in d.uk ==> !Quoting.Quoted(u)) && j < |cv.columns|
    requires Quoting.Quoted(cv.columns[j]) && cv.columns[j] !in d.uk
    requires row == RowOf(Converted(d.types, cv)) && NonNull(KeyOf(row, d.uk))
    ensures WellKeyed(d, g) && Perform(d, t, b, cv.values, g) != Ok(Upsert(g, KeyOf(row, d.uk), row, d.defaults))
  {
    var taken := Taken(d.types, b, cv.values).value;
    OtherIncoming(d, t, cv, b, taken, j);
    KeyIncoming(d, t, cv, b, taken, row);
    hide Perform, Taken, UpsertRow, Incoming, Converted, RowOf, Bare, BareStatement, TupleDelivered, Upsert;
    g := Apart(d, Incoming(b, taken), b.updates, row, Bare(cv.columns[j]));
    AcceptedIff(d, t, b, cv.values, g);
  }

  lemma WithColumnHas(d: Schema, row: Row, a: string, w: Value)
    requires forall u :: u in d.uk ==> u in row
    ensures a in WithColumn(d, row, a, w) && WithColumn(d, row, a, w)[a] == w
  {
  }

  /** An insert that names a column by a name that looks quoted, on a table that has every column of the
      event: some ghost table tells its text from its replay. */
  lemma QuotedInsertDiffers(d: Schema, ctx: Context, e: DmlEvent) returns (g: Table)
    requires ValidSchema(d) && Replayable(d, ctx, e) && e.dml.InsertDML? && Fits(d.columns, MeaningOf(d, e))
    requires SimpleStatement(QueryFor(ctx, e).stmt) && !SqlReading.Plain(QueryFor(ctx, e).stmt)
    ensures WellKeyed(d, g) && Sent(d, ctx, e, g) != Replayed(d, MeaningOf(d, e), g)
  {
    g := map[];
    var cv, t := e.newValues.value, Ghost(ctx);
    var stmt := UpsertOf(t, cv.columns, d.uk);
    var b, row := BareStatement(stmt), RowOf(Converted(d.types, cv));
    ReplayableConforms(d, ctx, e);
    TypedNonNull(KeyKinds(d), KeyOf(row, d.uk));
    assert MeaningOf(d, e) == Insert(KeyOf(row, d.uk), row);
    SimpleRuns(d, t, stmt, cv.values, g);
    AcceptedIff(d, t, b, cv.values, g);
    hide Perform, Converted, RowOf, Taken, Render, SqlReading.RunText;
    if Accepted(d, t, b, cv.values) {
      var j := QuotedColumn(t, cv.columns, d.uk);
      UnquotedKey(d.uk);
      g := OtherColumn(d, t, cv, b, j, row);
      SimpleRuns(d, t, stmt, cv.values, g);
    }
  }

  /** Exactly: for an insert over names that are plain or simply quoted, on a table with every column of the
      event, the text does the event's replay on every ghost table if and only if the names are plain. */
  lemma InsertTextIff(d: Schema, ctx: Context, e: DmlEvent)
    requires ValidSchema(d) && d.uk != [] && Replayable(d, ctx, e) && e.dml.InsertDML?
    requires Fits(d.columns, MeaningOf(d, e)) && SimpleStatement(QueryFor(ctx, e).stmt)
    ensures (forall g :: WellKeyed(d, g) ==> Sent(d, ctx, e, g) == Replayed(d, MeaningOf(d, e), g))
       <==> SqlReading.Plain(QueryFor(ctx, e).stmt)
  {
    assert Tuples(e) && WellFormed(e, d.uk);
    hide Sent, MeaningOf, SqlReading.Plain, Replayable, QueryFor;
    if SqlReading.Plain(QueryFor(ctx, e).stmt) {
      forall g | WellKeyed(d, g)
        ensures Sent(d, ctx, e, g) == Replayed(d, MeaningOf(d, e), g)
      {
        EventTextReplays(d, ctx, e, g);
      }
    } else {
      var g := QuotedInsertDiffers(d, ctx, e);
    }
  }

  const QUOTED_A := "\"a\""

  /** An inserted row with a column whose name has its double quotes in it. */
  function QuotedInsert(): DmlEvent {
    DmlEvent("public", "t", InsertDML, None,
             Some(ColumnValues(["id", QUOTED_A], [Values.Text("1"), Values.Text("2")])), 0, 0)
  }

  /** A table of texts. */
  function QuotedSchema(others: set<string>): Schema {
    var columns := {"id", QUOTED_A} + others;
    Schema(columns, map c | c in columns :: Null, ["id"], map c | c in columns :: Chunks.TextKind)
  }

  function QuotedContext(): Context {
    Context("public", "_t_gho", ["id"])
  }

  lemma QuotedNames()
    ensures Bare(QUOTED_A) == "a" && Bare("id") == "id" && Bare("public") == "public" && Bare("_t_gho") == "_t_gho"
    ensures Simple(QUOTED_A) && Simple("id") && Simple("public") && Simple("_t_gho")
    ensures NonKey(["id", QUOTED_A], ["id"]) == [QUOTED_A] && NonKey(["id", "a"], ["id"]) == ["a"]
  {
    assert ["id", QUOTED_A][..1] == ["id"] == ["id", "a"][..1] && ["id"][..0] == [];
    assert "id"[0] == 'i' && "public"[0] == 'p' && "_t_gho"[0] == '_';
    assert QUOTED_A[1..2] == "a";
  }

  /** Within the quotes, the statement is the upsert of column a. */
  lemma QuotedStatement()
    ensures var s := QueryFor(QuotedContext(), QuotedInsert()).stmt;
      SimpleStatement(s) && BareStatement(s) == UpsertOf(Ghost(QuotedContext()), ["id", "a"], ["id"])
  {
    QuotedNames();
    hide Bare, Simple, NonKey;
    var columns := ["id", QUOTED_A];
    assert MapText(Bare, columns) == ["id", "a"];
    assert MapText(Bare, ["id"]) == ["id"] && MapText(Bare, [QUOTED_A]) == ["a"];
  }

  /** The event is one of the theorem's, and it fits. */
  lemma QuotedReplayable(others: set<string>)
    ensures var d, ctx, e := QuotedSchema(others), QuotedContext(), QuotedInsert();
      && ValidSchema(d) && WellKeyed(d, map[]) && Replayable(d, ctx, e)
      && MeaningOf(d, e) == Insert([Values.Text("1")], map["id" := Values.Text("1"), QUOTED_A := Values.Text("2")])
  {
    var cv := QuotedInsert().newValues.value;
    DistinctIndex(cv.columns, 0);
    DistinctIndex(cv.columns, 1);
    assert Converted(QuotedSchema(others).types, cv) == cv;
    assert KeyOf(RowOf(cv), ["id"]) == [Values.Text("1")];
    assert RowOf(cv) == map["id" := Values.Text("1"), QUOTED_A := Values.Text("2")];
  }

  /** What the database makes of the text: the upsert of column a. */
  lemma QuotedMeans(d: Schema)
    requires d.uk == ["id"] && "id" in d.defaults
    ensures Sent(d, QuotedContext(), QuotedInsert(), map[])
         == Perform(d, Ghost(QuotedContext()), UpsertOf(Ghost(QuotedContext()), ["id", "a"], ["id"]),
                    [Values.Text("1"), Values.Text("2")], map[])
  {
    var q := QueryFor(QuotedContext(), QuotedInsert());
    QuotedStatement();
    SimpleRuns(d, Ghost(QuotedContext()), q.stmt, q.args, map[]);
    hide Render, Perform, SqlReading.RunText, BareStatement, SimpleStatement;
  }

  lemma UpsertOfA(d: Schema, t: TableName)
    requires ValidSchema(d) && d.uk == ["id"] && (forall c :: c in d.types ==> d.types[c].TextKind?) && "id" in d.types
    ensures var r := Perform(d, t, UpsertOf(t, ["id", "a"], ["id"]), [Values.Text("1"), Values.Text("2")], map[]);
      if "a" !in d.columns then r.Err?
      else "a" in d.types ==>
        r == Ok(map[[Values.Text("1")] := d.defaults + map["id" := Values.Text("1"), "a" := Values.Text("2")]])
  {
    var columns, args := ["id", "a"], [Values.Text("1"), Values.Text("2")];
    var taken := [Values.Text("1"), if "a" in d.types then Values.Text("2") else Values.Unlisted("2")];
    UpsertOfTwo(columns, taken);
    hide RowOf, ColumnIndex;
    UpsertRuns(d, t, ColumnValues(columns, taken), map[]);
    PerformIsExec(d, t, Query(UpsertOf(t, columns, d.uk), args), taken, map[]);
  }

  lemma UpsertOfTwo(columns: seq<string>, values: seq<Value>)
    requires columns == ["id", "a"] && |values| == 2
    ensures Complete(ColumnValues(columns, values), ["id"])
    ensures RowOf(ColumnValues(columns, values)) == map["id" := values[0], "a" := values[1]]
    ensures KeyOf(RowOf(ColumnValues(columns, values)), ["id"]) == [values[0]]
  {
    assert "id"[0] != "a"[0];
    DistinctIndex(columns, 0);
    DistinctIndex(columns, 1);
  }

  /** A name that looks quoted already: the event fits the ghost table, and yet its text fails, because
      it names a column that the ghost does not have. */
  lemma QuotedColumnFails()
    ensures var d, ctx, e := QuotedSchema({}), QuotedContext(), QuotedInsert();
      && ValidSchema(d) && WellKeyed(d, map[]) && Replayable(d, ctx, e)
      && Fits(d.columns, MeaningOf(d, e)) && Sent(d, ctx, e, map[]).Err?
  {
    hide Sent, QueryFor;
    QuotedReplayable({});
    QuotedMeans(QuotedSchema({}));
    UpsertOfA(QuotedSchema({}), Ghost(QuotedContext()));
  }

  /** When the ghost has both columns, the text writes the wrong one. */
  lemma QuotedColumnMixedUp()
    ensures var d, ctx, e := QuotedSchema({"a"}), QuotedContext(), QuotedInsert();
      && ValidSchema(d) && WellKeyed(d, map[]) && Replayable(d, ctx, e) && Fits(d.columns, MeaningOf(d, e))
      && Sent(d, ctx, e, map[]).Ok? && Sent(d, ctx, e, map[]) != Replayed(d, MeaningOf(d, e), map[])
  {
    var d, key := QuotedSchema({"a"}), [Values.Text("1")];
    hide Sent, QueryFor, MeaningOf, Replayable, Perform;
    QuotedReplayable({"a"});
    QuotedMeans(d);
    UpsertOfA(d, Ghost(QuotedContext()));
    var sent := map[key := d.defaults + map["id" := Values.Text("1"), "a" := Values.Text("2")]];
    var meant := Replayed(d, MeaningOf(d, QuotedInsert()), map[]).value;
    assert sent[key]["a"] == Values.Text("2") && meant[key]["a"] == Null;
  }
}
