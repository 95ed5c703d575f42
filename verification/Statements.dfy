/** The built statements do to the ghost table exactly what replaying the event means. */
module Statements {
  import opened Values
  import opened Replay
  import opened Events
  import opened Sql
  import opened Builders
  import Chunks

  /** What running the query asks of it. */
  predicate Runnable(q: Query, uk: seq<string>) {
    && Bound(q.stmt, q.args) && KeepsKey(q.stmt, uk)
    && (q.stmt.UpsertStmt? ==> |q.stmt.columns| == |q.stmt.params|)
  }

  /** The tuples give non-null keys of the same column types. */
  predicate TypedKeys(kinds: seq<Chunks.Kind>, e: DmlEvent, uk: seq<string>)
    requires WellFormed(e, uk)
  {
    && (e.dml.InsertDML? || e.dml.UpdateDML? ==> Chunks.Typed(kinds, KeyOf(RowOf(e.newValues.value), uk)))
    && (e.dml.UpdateDML? || e.dml.DeleteDML? ==> Chunks.Typed(kinds, KeyOf(RowOf(e.oldValues.value), uk)))
  }

  /** Every column the statement would write exists in the ghost table. */
  predicate Fits(columns: set<string>, e: Event) {
    e.Delete? || e.row.Keys <= columns
  }

  // ---- placeholders ----

  lemma UpdateParams(t: TableName, sets: seq<string>, wheres: seq<string>)
    ensures Params(UpdateOf(t, sets, wheres)) == UpTo(|sets| + |wheres|)
    ensures Params(DeleteOf(t, wheres)) == UpTo(|wheres|)
  {
  }

  lemma PresentAll(uk: seq<string>, cv: ColumnValues)
    requires forall c :: c in uk ==> c in cv.columns
    ensures Present(uk, cv) == uk
  {
    if uk != [] {
      var n := |uk| - 1;
      assert uk == uk[..n] + [uk[n]];
      PresentAll(uk[..n], cv);
    }
  }

  /** Each argument is the value of the column its placeholder is attached to. */
  predicate Attached(assigns: seq<Assign>, args: seq<Value>, cv: ColumnValues)
    requires |cv.columns| == |cv.values|
  {
    forall i | 0 <= i < |assigns| ::
      1 <= assigns[i].param <= |args| && ValueOf(cv, assigns[i].column) == Some(args[assigns[i].param - 1])
  }

  lemma NumberedAttached(cv: ColumnValues, columns: seq<string>, from: nat, args: seq<Value>)
    requires |cv.columns| == |cv.values| && forall c :: c in columns ==> c in cv.columns
    requires 1 <= from && from - 1 + |columns| <= |args|
    requires args[from - 1..from - 1 + |columns|] == ValuesOf(cv, columns)
    ensures Attached(Numbered(columns, from), args, cv)
  {
    var w, vals := Numbered(columns, from), ValuesOf(cv, columns);
    forall i {:trigger w[i]} | 0 <= i < |w|
      ensures 1 <= w[i].param <= |args| && ValueOf(cv, w[i].column) == Some(args[w[i].param - 1])
    {
      assert vals[i] == args[from - 1 + i] && columns[i] in columns;
    }
  }

  lemma UpsertPlaceholders(t: TableName, cv: ColumnValues, uk: seq<string>)
    requires Paired(cv)
    ensures forall i :: 0 <= i < |cv.columns| ==> ValueOf(cv, cv.columns[i]) == Some(cv.values[i])
  {
    forall i | 0 <= i < |cv.columns|
      ensures ValueOf(cv, cv.columns[i]) == Some(cv.values[i])
    {
      DistinctIndex(cv.columns, i);
    }
  }

  lemma UpdatePlaceholders(t: TableName, after: ColumnValues, before: ColumnValues, sets: seq<string>,
                           wheres: seq<string>)
    requires Paired(after) && Paired(before)
    requires (forall c :: c in sets ==> c in after.columns) && forall c :: c in wheres ==> c in before.columns
    ensures var args := ValuesOf(after, sets) + ValuesOf(before, wheres);
      && Attached(Numbered(sets, 1), args, after)
      && Attached(Numbered(wheres, 1 + |sets|), args, before)
  {
    var args := ValuesOf(after, sets) + ValuesOf(before, wheres);
    assert args[0..|sets|] == ValuesOf(after, sets);
    NumberedAttached(after, sets, 1, args);
    NumberedAttached(before, wheres, 1 + |sets|, args);
  }

  lemma DeletePlaceholders(before: ColumnValues, wheres: seq<string>)
    requires Paired(before) && forall c :: c in wheres ==> c in before.columns
    ensures Attached(Numbered(wheres, 1), ValuesOf(before, wheres), before)
  {
    assert ValuesOf(before, wheres)[0..|wheres|] == ValuesOf(before, wheres);
    NumberedAttached(before, wheres, 1, ValuesOf(before, wheres));
  }

  /** Every argument is the value of the column its placeholder stands for: of the new tuple in a
      values list or a set clause, of the old one in a where clause. */
  predicate Faithful(q: Query, e: DmlEvent)
    requires Tuples(e)
  {
    match q.stmt
    case NoQuery => true
    case UpsertStmt(_, columns, params, _, _) =>
      e.newValues.Some? && |columns| == |q.args|
      && forall i | 0 <= i < |columns| :: ValueOf(e.newValues.value, columns[i]) == Some(q.args[i])
    case UpdateStmt(_, sets, wheres) =>
      && e.newValues.Some? && Attached(sets, q.args, e.newValues.value)
      && e.oldValues.Some? && Attached(wheres, q.args, e.oldValues.value)
    case DeleteStmt(_, wheres) => e.oldValues.Some? && Attached(wheres, q.args, e.oldValues.value)
  }

  /** The placeholders are $1..$n, each once and in order, one per argument, and every argument is the
      value of its column. */
  predicate Disciplined(q: Query, e: DmlEvent)
    requires Tuples(e)
  {
    Params(q.stmt) == UpTo(|q.args|) && Faithful(q, e)
  }

  lemma InsertDisciplined(ctx: Context, e: DmlEvent)
    requires Tuples(e)
    ensures Disciplined(InsertQuery(ctx, e), e)
  {
    if e.newValues.Some? {
      UpsertPlaceholders(Ghost(ctx), e.newValues.value, ctx.uniqueKeyColumns);
    }
  }

  lemma SetsDisciplined(t: TableName, e: DmlEvent, sets: seq<string>, wheres: seq<string>)
    requires Tuples(e) && e.newValues.Some? && e.oldValues.Some?
    requires forall c :: c in sets ==> c in e.newValues.value.columns
    requires forall c :: c in wheres ==> c in e.oldValues.value.columns
    ensures Disciplined(Query(UpdateOf(t, sets, wheres),
                              ValuesOf(e.newValues.value, sets) + ValuesOf(e.oldValues.value, wheres)), e)
  {
    UpdateParams(t, sets, wheres);
    UpdatePlaceholders(t, e.newValues.value, e.oldValues.value, sets, wheres);
  }

  lemma UpdateDisciplined(ctx: Context, e: DmlEvent)
    requires Tuples(e)
    ensures Disciplined(UpdateQuery(ctx, e), e)
  {
    if e.newValues.Some? && e.oldValues.Some? {
      var uk := ctx.uniqueKeyColumns;
      InsertDisciplined(ctx, e);
      SetsDisciplined(Ghost(ctx), e, NonKey(e.newValues.value.columns, uk), Present(uk, e.oldValues.value));
    }
  }

  lemma DeleteDisciplined(ctx: Context, e: DmlEvent)
    requires Tuples(e)
    ensures Disciplined(DeleteQuery(ctx, e), e)
  {
    if e.oldValues.Some? {
      var wheres := Present(ctx.uniqueKeyColumns, e.oldValues.value);
      UpdateParams(Ghost(ctx), [], wheres);
      DeletePlaceholders(e.oldValues.value, wheres);
    }
  }

  /** Placeholder discipline, for every event. */
  lemma Placeholders(ctx: Context, e: DmlEvent)
    requires Tuples(e)
    ensures Disciplined(QueryFor(ctx, e), e)
  {
    match e.dml
    case InsertDML => InsertDisciplined(ctx, e);
    case UpdateDML => UpdateDisciplined(ctx, e);
    case DeleteDML => DeleteDisciplined(ctx, e);
  }

  // ---- keys ----

  lemma KeyColumn(a: Row, b: Row, uk: seq<string>, c: string)
    requires forall u :: u in uk ==> u in a && u in b
    requires KeyOf(a, uk) == KeyOf(b, uk) && c in uk
    ensures a[c] == b[c]
  {
    var i :| 0 <= i < |uk| && uk[i] == c;
    assert KeyOf(a, uk)[i] == KeyOf(b, uk)[i];
  }

  lemma SameKey(a: Row, b: Row, uk: seq<string>)
    requires forall u :: u in uk ==> u in a && u in b && a[u] == b[u]
    ensures KeyOf(a, uk) == KeyOf(b, uk)
  {
  }

  /** Overwriting the columns outside the key is overwriting all of them when the key is the same. */
  lemma OverwriteNonKey(old': Row, row: Row, part: Row, uk: seq<string>)
    requires forall u :: u in uk ==> u in old' && u in row
    requires KeyOf(old', uk) == KeyOf(row, uk)
    requires forall c :: c in part <==> c in row && c !in uk
    requires forall c :: c in part ==> part[c] == row[c]
    ensures old' + part == old' + row
  {
    forall c | c in row && c in uk
      ensures (old' + part)[c] == (old' + row)[c]
    {
      KeyColumn(old', row, uk, c);
    }
  }

  // ---- insert ----

  lemma IncomingIsRow(t: TableName, cv: ColumnValues, uk: seq<string>)
    requires Paired(cv)
    ensures var s := UpsertOf(t, cv.columns, uk); Bound(s, cv.values) && Incoming(s, cv.values) == RowOf(cv)
  {
  }

  /** One upserted row: the given columns are written, the ghost's others kept or defaulted. */
  lemma UpsertOne(d: Schema, row: Row, columns: seq<string>, k: Key, g: Table)
    requires ValidSchema(d) && WellKeyed(d, g) && row.Keys <= d.columns
    requires (forall u :: u in d.uk ==> u in row) && KeyOf(row, d.uk) == k && NonNull(k)
    requires forall c :: c in row <==> c in columns
    ensures UpsertRow(d, row, NonKey(columns, d.uk), g) == Ok(Upsert(g, k, row, d.defaults))
  {
    SameKey(d.defaults + row, row, d.uk);
    if k in g {
      var whole, updates := d.defaults + row, NonKey(columns, d.uk);
      var part := map c | c in updates && c in whole :: whole[c];
      OverwriteNonKey(g[k], row, part, d.uk);
    }
  }

  /** The upsert overwrites exactly the given columns, keeps the ghost's other columns, and leaves
      every other row alone, DO NOTHING included. */
  lemma UpsertRuns(d: Schema, t: TableName, cv: ColumnValues, g: Table)
    requires ValidSchema(d) && WellKeyed(d, g)
    requires Complete(cv, d.uk) && NonNull(KeyOf(RowOf(cv), d.uk))
    ensures var q := Query(UpsertOf(t, cv.columns, d.uk), cv.values);
      && Runnable(q, d.uk)
      && Exec(d, q.stmt, q.args, g) ==
           if RowOf(cv).Keys <= d.columns then Ok(Upsert(g, KeyOf(RowOf(cv), d.uk), RowOf(cv), d.defaults))
           else Err("column does not exist")
  {
    var s, row := UpsertOf(t, cv.columns, d.uk), RowOf(cv);
    var key := KeyOf(row, d.uk);
    IncomingIsRow(t, cv, d.uk);
    if row.Keys <= d.columns {
      UpsertOne(d, row, cv.columns, key, g);
    } else {
      var c :| c in row && c !in d.columns;
      assert c in s.columns + s.updates;
    }
  }

  // ---- update and delete ----

  /** The i-th clause compares the i-th key column with the i-th value of the key. */
  predicate Compares(w: seq<Assign>, args: seq<Value>, uk: seq<string>, key: Key)
  {
    && |w| == |uk| == |key|
    && forall i {:trigger w[i]} | 0 <= i < |w| ::
         w[i].column == uk[i] && 1 <= w[i].param <= |args| && args[w[i].param - 1] == key[i]
  }

  lemma NumberedCompares(uk: seq<string>, before: seq<Value>, key: Key)
    requires |key| == |uk|
    ensures Compares(Numbered(uk, 1 + |before|), before + key, uk, key)
  {
    var w := Numbered(uk, 1 + |before|);
    forall i {:trigger w[i]} | 0 <= i < |w|
      ensures w[i].column == uk[i] && 1 <= w[i].param <= |before + key| && (before + key)[w[i].param - 1] == key[i]
    {
      assert w[i] == Assign(uk[i], 1 + |before| + i);
    }
  }

  /** Clauses on the whole key pick the row with that key. */
  lemma SelectsKey(row: Row, uk: seq<string>, w: seq<Assign>, args: seq<Value>, key: Key)
    requires Compares(w, args, uk, key) && (forall u :: u in uk ==> u in row) && NonNull(key)
    ensures InRange(w, |args|)
    ensures Selects(row, w, args) <==> KeyOf(row, uk) == key
  {
    forall i | 0 <= i < |uk|
      ensures uk[i] in row && !key[i].Null?
    {
      assert key[i] in key;
    }
    if KeyOf(row, uk) != key {
      var i :| 0 <= i < |uk| && KeyOf(row, uk)[i] != key[i];
      assert row[w[i].column] != args[w[i].param - 1];
    }
  }

  /** The set clauses write the values of their columns. */
  lemma {:induction false} NewValuesAre(columns: seq<string>, args: seq<Value>, row: Row)
    requires |columns| <= |args|
    requires forall i :: 0 <= i < |columns| ==> columns[i] in row && row[columns[i]] == args[i]
    ensures NewValues(Numbered(columns, 1), args).Keys == set c | c in columns
    ensures forall c :: c in columns ==> NewValues(Numbered(columns, 1), args)[c] == row[c]
  {
    if columns != [] {
      var n := |columns| - 1;
      assert Numbered(columns, 1)[..n] == Numbered(columns[..n], 1);
      NewValuesAre(columns[..n], args, row);
      assert columns == columns[..n] + [columns[n]];
    }
  }

  lemma ValuesAreKey(cv: ColumnValues, uk: seq<string>)
    requires |cv.columns| == |cv.values| && forall c :: c in uk ==> c in cv.columns
    ensures ValuesOf(cv, uk) == KeyOf(RowOf(cv), uk)
  {
  }

  lemma UpdatedOnly(g: Table, s: seq<Assign>, w: seq<Assign>, args: seq<Value>, key: Key)
    requires InRange(s, |args|) && InRange(w, |args|)
    requires forall k :: k in g ==> (Selects(g[k], w, args) <==> k == key)
    ensures Updated(g, s, w, args) == if key in g then g[key := g[key] + NewValues(s, args)] else g
  {
  }

  lemma UpdatedRow(d: Schema, row: Row, s: seq<Assign>, w: seq<Assign>, args: seq<Value>, key: Key, g: Table)
    requires WellKeyed(d, g) && Compares(w, args, d.uk, key) && NonNull(key) && InRange(s, |args|)
    requires (forall u :: u in d.uk ==> u in row) && KeyOf(row, d.uk) == key
    requires NewValues(s, args) == map c | c in row && c !in d.uk :: row[c]
    ensures InRange(w, |args|)
    ensures Updated(g, s, w, args) == if key in g then g[key := g[key] + row] else g
  {
    AllSelect(d, g, w, args, key);
    UpdatedOnly(g, s, w, args, key);
    if key in g {
      OverwriteNonKey(g[key], row, NewValues(s, args), d.uk);
    }
  }

  lemma DeletedRow(d: Schema, w: seq<Assign>, args: seq<Value>, key: Key, g: Table)
    requires WellKeyed(d, g) && Compares(w, args, d.uk, key) && NonNull(key)
    ensures InRange(w, |args|)
    ensures Deleted(g, w, args) == g - {key}
  {
    AllSelect(d, g, w, args, key);
  }

  lemma AllSelect(d: Schema, g: Table, w: seq<Assign>, args: seq<Value>, key: Key)
    requires WellKeyed(d, g) && Compares(w, args, d.uk, key) && NonNull(key)
    ensures InRange(w, |args|)
    ensures forall k :: k in g ==> (Selects(g[k], w, args) <==> k == key)
  {
    forall k | k in g
      ensures Selects(g[k], w, args) <==> k == key
    {
      SelectsKey(g[k], d.uk, w, args, key);
    }
  }

  /** The columns a regular update sets: those of the row outside the key, with their values. */
  ghost predicate Sets(sets: seq<string>, vals: seq<Value>, row: Row, uk: seq<string>) {
    && |sets| == |vals| && Distinct(sets)
    && (forall c :: c in sets <==> c in row && c !in uk)
    && forall i {:trigger sets[i]} | 0 <= i < |sets| :: sets[i] in row && row[sets[i]] == vals[i]
  }

  lemma {:induction false} NonKeyDistinct(columns: seq<string>, uk: seq<string>)
    requires Distinct(columns)
    ensures Distinct(NonKey(columns, uk))
  {
    if columns != [] {
      var n := |columns| - 1;
      var front := NonKey(columns[..n], uk);
      NonKeyDistinct(columns[..n], uk);
      assert columns[n] !in columns[..n];
      assert columns[n] !in front;
    }
  }

  lemma SetsOfEvent(after: ColumnValues, uk: seq<string>)
    requires Paired(after)
    ensures Sets(NonKey(after.columns, uk), ValuesOf(after, NonKey(after.columns, uk)), RowOf(after), uk)
  {
    NonKeyDistinct(after.columns, uk);
  }

  lemma NumberedOnce(columns: seq<string>, from: nat)
    requires Distinct(columns)
    ensures OnceEach(Numbered(columns, from))
  {
  }

  lemma SetValues(sets: seq<string>, vals: seq<Value>, row: Row, uk: seq<string>, key: Key)
    requires Sets(sets, vals, row, uk)
    ensures InRange(Numbered(sets, 1), |vals + key|)
    ensures NewValues(Numbered(sets, 1), vals + key) == map c | c in row && c !in uk :: row[c]
  {
    NewValuesAre(sets, vals + key, row);
  }

  lemma NumberedKnown(sets: seq<string>, from: nat, columns: set<string>)
    ensures Known(Numbered(sets, from), columns) <==> forall c :: c in sets ==> c in columns
  {
    if c :| c in sets && c !in columns {
      var i :| 0 <= i < |sets| && sets[i] == c;
      assert Numbered(sets, from)[i].column == c;
    }
  }

  lemma SetsKnown(d: Schema, sets: seq<string>, vals: seq<Value>, row: Row)
    requires ValidSchema(d) && Sets(sets, vals, row, d.uk)
    ensures Known(Numbered(sets, 1), d.columns) <==> row.Keys <= d.columns
  {
    NumberedKnown(sets, 1, d.columns);
  }

  lemma ExecUpdate(d: Schema, t: TableName, s: seq<Assign>, w: seq<Assign>, args: seq<Value>, g: Table)
    requires ValidSchema(d) && s != [] && w != [] && OnceEach(s)
    requires Bound(UpdateStmt(t, s, w), args) && KeepsKey(UpdateStmt(t, s, w), d.uk)
    ensures InRange(s, |args|) && InRange(w, |args|)
    ensures Exec(d, UpdateStmt(t, s, w), args, g) ==
      if Known(s, d.columns) && Known(w, d.columns) then Ok(Updated(g, s, w, args)) else Err("column does not exist")
  {
    BoundParts(UpdateStmt(t, s, w), args);
  }

  lemma ExecDelete(d: Schema, t: TableName, w: seq<Assign>, args: seq<Value>, g: Table)
    requires ValidSchema(d) && w != [] && Bound(DeleteStmt(t, w), args)
    ensures InRange(w, |args|)
    ensures Exec(d, DeleteStmt(t, w), args, g) ==
      if Known(w, d.columns) then Ok(Deleted(g, w, args)) else Err("column does not exist")
  {
    BoundParts(DeleteStmt(t, w), args);
  }

  lemma UpdateRunnable(t: TableName, sets: seq<string>, vals: seq<Value>, row: Row, uk: seq<string>, key: Key)
    requires Sets(sets, vals, row, uk) && |key| == |uk|
    ensures Runnable(Query(UpdateOf(t, sets, uk), vals + key), uk)
  {
    UpdateParams(t, sets, uk);
  }

  lemma DeleteRunnable(t: TableName, uk: seq<string>, key: Key)
    requires |key| == |uk|
    ensures Runnable(Query(DeleteOf(t, uk), key), uk)
  {
    UpdateParams(t, [], uk);
  }

  /** The regular update changes only the row with the key, and in it exactly the row's columns. */
  lemma UpdateRuns(d: Schema, t: TableName, sets: seq<string>, vals: seq<Value>, row: Row, key: Key, g: Table)
    requires ValidSchema(d) && WellKeyed(d, g) && d.uk != [] && sets != [] && Sets(sets, vals, row, d.uk)
    requires (forall u :: u in d.uk ==> u in row) && KeyOf(row, d.uk) == key && NonNull(key)
    ensures var q := Query(UpdateOf(t, sets, d.uk), vals + key);
      && Runnable(q, d.uk)
      && Exec(d, q.stmt, q.args, g) ==
           if row.Keys <= d.columns then Ok(if key in g then g[key := g[key] + row] else g)
           else Err("column does not exist")
  {
    var s, w, args := Numbered(sets, 1), Numbered(d.uk, 1 + |sets|), vals + key;
    UpdateRunnable(t, sets, vals, row, d.uk, key);
    NumberedOnce(sets, 1);
    ExecUpdate(d, t, s, w, args, g);
    SetsKnown(d, sets, vals, row);
    NumberedKnown(d.uk, 1 + |sets|, d.columns);
    SetValues(sets, vals, row, d.uk, key);
    NumberedCompares(d.uk, vals, key);
    UpdatedRow(d, row, s, w, args, key, g);
  }

  /** The delete removes only the row with the key. */
  lemma DeleteRuns(d: Schema, t: TableName, key: Key, g: Table)
    requires ValidSchema(d) && WellKeyed(d, g) && d.uk != [] && |key| == |d.uk| && NonNull(key)
    ensures var q := Query(DeleteOf(t, d.uk), key);
      Runnable(q, d.uk) && Exec(d, q.stmt, q.args, g) == Ok(g - {key})
  {
    DeleteRunnable(t, d.uk, key);
    ExecDelete(d, t, Numbered(d.uk, 1), key, g);
    NumberedKnown(d.uk, 1, d.columns);
    assert [] + key == key;
    NumberedCompares(d.uk, [], key);
    DeletedRow(d, Numbered(d.uk, 1), key, key, g);
  }

  // ---- every event ----

  /** The textual comparison of old and new key columns finds exactly the key changes. */
  lemma KeyChangeDetected(kinds: seq<Chunks.Kind>, before: ColumnValues, after: ColumnValues, uk: seq<string>)
    requires Complete(before, uk) && Complete(after, uk)
    requires Chunks.Typed(kinds, KeyOf(RowOf(before), uk)) && Chunks.Typed(kinds, KeyOf(RowOf(after), uk))
    ensures (exists c :: c in uk && KeyColumnChanged(before, after, c))
       <==> KeyOf(RowOf(before), uk) != KeyOf(RowOf(after), uk)
  {
    var old', new' := KeyOf(RowOf(before), uk), KeyOf(RowOf(after), uk);
    forall i | 0 <= i < |uk|
      ensures KeyColumnChanged(before, after, uk[i]) <==> old'[i] != new'[i]
    {
      assert old'[i] == RowOf(before)[uk[i]] && new'[i] == RowOf(after)[uk[i]];
      Chunks.FormatInjective(old'[i], new'[i]);
    }
    if old' != new' {
      var i :| 0 <= i < |uk| && old'[i] != new'[i];
      assert KeyColumnChanged(before, after, uk[i]);
    }
  }

  /** With only key columns there is nothing to set: the update of the same key changes nothing. */
  lemma NothingToSet(d: Schema, row: Row, key: Key, g: Table)
    requires ValidSchema(d) && WellKeyed(d, g) && key in g
    requires (forall u :: u in d.uk <==> u in row) && KeyOf(row, d.uk) == key
    ensures g[key := g[key] + row] == g
  {
    OverwriteNonKey(g[key], row, map[], d.uk);
    assert g[key] + map[] == g[key];
    assert g[key := g[key]] == g;
  }

  lemma OnlyKeyColumns(after: ColumnValues, uk: seq<string>)
    requires Complete(after, uk) && NonKey(after.columns, uk) == []
    ensures forall u :: u in uk <==> u in RowOf(after)
  {
    forall c | c in after.columns
      ensures c in uk
    {
      assert c !in NonKey(after.columns, uk);
    }
  }

  /** The events the theorem is about: complete tuples with non-null keys of fixed column types. */
  ghost predicate Conforming(d: Schema, ctx: Context, kinds: seq<Chunks.Kind>, e: DmlEvent) {
    && ctx.uniqueKeyColumns == d.uk
    && Tuples(e) && WellFormed(e, d.uk) && TypedKeys(kinds, e, d.uk)
  }

  lemma TypedNonNull(kinds: seq<Chunks.Kind>, k: Key)
    requires Chunks.Typed(kinds, k)
    ensures NonNull(k)
  {
  }

  /** The query runs, and does what replaying the event does; it fails exactly when it would write a
      column that the ghost table does not have. */
  ghost predicate Replays(d: Schema, q: Query, e: Event, g: Table)
    requires ValidSchema(d)
  {
    && Runnable(q, d.uk)
    && Exec(d, q.stmt, q.args, g) ==
         if Fits(d.columns, e) then Ok(Apply(g, e, d.defaults)) else Err("column does not exist")
  }

  lemma UpsertReplays(d: Schema, ctx: Context, e: DmlEvent, g: Table)
    requires ValidSchema(d) && WellKeyed(d, g) && ctx.uniqueKeyColumns == d.uk && Tuples(e)
    requires e.newValues.Some? && Complete(e.newValues.value, d.uk)
    requires NonNull(KeyOf(RowOf(e.newValues.value), d.uk))
    ensures var row := RowOf(e.newValues.value);
      && Replays(d, InsertQuery(ctx, e), Insert(KeyOf(row, d.uk), row), g)
      && forall k :: k != KeyOf(row, d.uk) ==> Replays(d, InsertQuery(ctx, e), Update(k, KeyOf(row, d.uk), row), g)
  {
    UpsertRuns(d, Ghost(ctx), e.newValues.value, g);
  }

  lemma SetsReplay(d: Schema, t: TableName, sets: seq<string>, vals: seq<Value>, row: Row, key: Key, g: Table)
    requires ValidSchema(d) && WellKeyed(d, g) && d.uk != [] && sets != [] && Sets(sets, vals, row, d.uk)
    requires (forall u :: u in d.uk ==> u in row) && KeyOf(row, d.uk) == key && NonNull(key)
    ensures Replays(d, Query(UpdateOf(t, sets, d.uk), vals + key), Update(key, key, row), g)
  {
    UpdateRuns(d, t, sets, vals, row, key, g);
  }

  lemma NoQueryReplays(d: Schema, row: Row, key: Key, g: Table)
    requires ValidSchema(d) && WellKeyed(d, g)
    requires (forall u :: u in d.uk <==> u in row) && KeyOf(row, d.uk) == key
    ensures Replays(d, NO_QUERY, Update(key, key, row), g)
  {
    if key in g {
      NothingToSet(d, row, key, g);
    }
  }

  lemma DeleteReplays(d: Schema, t: TableName, key: Key, g: Table)
    requires ValidSchema(d) && WellKeyed(d, g) && d.uk != [] && |key| == |d.uk| && NonNull(key)
    ensures Replays(d, Query(DeleteOf(t, d.uk), key), Delete(key), g)
  {
    DeleteRuns(d, t, key, g);
  }

  /** Which form the update query takes. */
  lemma UpdateForms(ctx: Context, kinds: seq<Chunks.Kind>, e: DmlEvent)
    requires var uk := ctx.uniqueKeyColumns; Tuples(e) && WellFormed(e, uk) && TypedKeys(kinds, e, uk)
    requires e.dml.UpdateDML?
    ensures var after, uk := e.newValues.value, ctx.uniqueKeyColumns;
      var old', new', sets := KeyOf(RowOf(e.oldValues.value), uk), KeyOf(RowOf(after), uk), NonKey(after.columns, uk);
      UpdateQuery(ctx, e) ==
        if old' != new' then InsertQuery(ctx, e)
        else if sets == [] then NO_QUERY
        else Query(UpdateOf(Ghost(ctx), sets, uk), ValuesOf(after, sets) + old')
  {
    KeyChangeDetected(kinds, e.oldValues.value, e.newValues.value, ctx.uniqueKeyColumns);
    PresentAll(ctx.uniqueKeyColumns, e.oldValues.value);
    ValuesAreKey(e.oldValues.value, ctx.uniqueKeyColumns);
  }

  lemma SameKeyReplays(d: Schema, t: TableName, after: ColumnValues, g: Table)
    requires ValidSchema(d) && d.uk != [] && WellKeyed(d, g) && Complete(after, d.uk)
    requires NonNull(KeyOf(RowOf(after), d.uk))
    ensures var key, sets := KeyOf(RowOf(after), d.uk), NonKey(after.columns, d.uk);
      Replays(d, if sets == [] then NO_QUERY else Query(UpdateOf(t, sets, d.uk), ValuesOf(after, sets) + key),
              Update(key, key, RowOf(after)), g)
  {
    var key, sets := KeyOf(RowOf(after), d.uk), NonKey(after.columns, d.uk);
    if sets == [] {
      OnlyKeyColumns(after, d.uk);
      NoQueryReplays(d, RowOf(after), key, g);
    } else {
      SetsOfEvent(after, d.uk);
      SetsReplay(d, t, sets, ValuesOf(after, sets), RowOf(after), key, g);
    }
  }

  lemma UpdateReplays(d: Schema, ctx: Context, kinds: seq<Chunks.Kind>, e: DmlEvent, g: Table)
    requires ValidSchema(d) && d.uk != [] && WellKeyed(d, g) && Conforming(d, ctx, kinds, e) && e.dml.UpdateDML?
    ensures Replays(d, UpdateQuery(ctx, e), Meaning(e, d.uk), g)
  {
    TypedNonNull(kinds, KeyOf(RowOf(e.newValues.value), d.uk));
    UpdateForms(ctx, kinds, e);
    if KeyOf(RowOf(e.oldValues.value), d.uk) != KeyOf(RowOf(e.newValues.value), d.uk) {
      UpsertReplays(d, ctx, e, g);
    } else {
      SameKeyReplays(d, Ghost(ctx), e.newValues.value, g);
    }
  }

  lemma DeleteForm(ctx: Context, e: DmlEvent)
    requires var uk := ctx.uniqueKeyColumns; Tuples(e) && WellFormed(e, uk) && e.dml.DeleteDML? && uk != []
    ensures var uk := ctx.uniqueKeyColumns;
      DeleteQuery(ctx, e) == Query(DeleteOf(Ghost(ctx), uk), KeyOf(RowOf(e.oldValues.value), uk))
  {
    PresentAll(ctx.uniqueKeyColumns, e.oldValues.value);
    ValuesAreKey(e.oldValues.value, ctx.uniqueKeyColumns);
  }

  lemma DeleteEventReplays(d: Schema, ctx: Context, kinds: seq<Chunks.Kind>, e: DmlEvent, g: Table)
    requires ValidSchema(d) && d.uk != [] && WellKeyed(d, g) && Conforming(d, ctx, kinds, e) && e.dml.DeleteDML?
    ensures Replays(d, DeleteQuery(ctx, e), Meaning(e, d.uk), g)
  {
    var key := KeyOf(RowOf(e.oldValues.value), d.uk);
    TypedNonNull(kinds, key);
    DeleteForm(ctx, e);
    DeleteReplays(d, Ghost(ctx), key, g);
  }

  /** Statement semantics: for every event and every ghost table, the query built for the event is the
      event's replay. */
  lemma EventReplays(d: Schema, ctx: Context, kinds: seq<Chunks.Kind>, e: DmlEvent, g: Table)
    requires ValidSchema(d) && d.uk != [] && WellKeyed(d, g) && Conforming(d, ctx, kinds, e)
    ensures Replays(d, QueryFor(ctx, e), Meaning(e, d.uk), g)
  {
    match e.dml
    case InsertDML =>
      TypedNonNull(kinds, KeyOf(RowOf(e.newValues.value), d.uk));
      UpsertReplays(d, ctx, e, g);
    case UpdateDML => UpdateReplays(d, ctx, kinds, e, g);
    case DeleteDML => DeleteEventReplays(d, ctx, kinds, e, g);
  }

  /** The event's row is stored under its own key. */
  ghost predicate Keyed(e: Event, uk: seq<string>) {
    e.Delete? || ((forall u :: u in uk ==> u in e.row) && KeyOf(e.row, uk) == (if e.Insert? then e.key else e.newKey))
  }

  /** Replaying keeps every row under its own unique key. */
  lemma ApplyKeepsKeyed(d: Schema, e: Event, g: Table)
    requires ValidSchema(d) && WellKeyed(d, g) && Fits(d.columns, e) && Keyed(e, d.uk)
    ensures WellKeyed(d, Apply(g, e, d.defaults))
  {
    var h := Apply(g, e, d.defaults);
    forall k | k in h
      ensures h[k].Keys == d.columns && KeyOf(h[k], d.uk) == k
    {
      if k in g && h[k] == g[k] {
      } else {
        SameKey(h[k], e.row, d.uk);
      }
    }
  }
}
