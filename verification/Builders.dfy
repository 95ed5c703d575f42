/** The loops that build the statements replaying an event, and the query builder's own forms. */
module Builders {
  import opened Values
  import opened Strings
  import opened Quoting
  import opened Events
  import opened Sql
  import Chunks
  import RangeFilters

  /** The fields of the migration context that the builders read. */
  datatype Context = Context(schemaName: string, ghostTableName: string, uniqueKeyColumns: seq<string>)

  function Ghost(ctx: Context): TableName {
    TableName(ctx.schemaName, ctx.ghostTableName)
  }

  /** The columns outside the unique key, in order. */
  function NonKey(columns: seq<string>, uk: seq<string>): (r: seq<string>)
    ensures forall c :: c in r <==> c in columns && c !in uk
  {
    if columns == [] then []
    else
      var n := |columns| - 1;
      assert columns == columns[..n] + [columns[n]];
      NonKey(columns[..n], uk) + if columns[n] in uk then [] else [columns[n]]
  }

  /** The key columns that the tuple has, in order. */
  function Present(uk: seq<string>, cv: ColumnValues): (r: seq<string>)
    ensures forall c :: c in r <==> c in uk && c in cv.columns
  {
    if uk == [] then []
    else
      var n := |uk| - 1;
      assert uk == uk[..n] + [uk[n]];
      Present(uk[..n], cv) + if uk[n] in cv.columns then [uk[n]] else []
  }

  /** Column by column, the others dropped: order and repetitions stay. */
  lemma NonKeySnoc(columns: seq<string>, c: string, uk: seq<string>)
    ensures NonKey([], uk) == []
    ensures NonKey(columns + [c], uk) == NonKey(columns, uk) + if c in uk then [] else [c]
  {
    assert (columns + [c])[..|columns|] == columns;
  }

  lemma PresentSnoc(columns: seq<string>, c: string, cv: ColumnValues)
    ensures Present([], cv) == []
    ensures Present(columns + [c], cv) == Present(columns, cv) + if c in cv.columns then [c] else []
  {
    assert (columns + [c])[..|columns|] == columns;
  }

  /** column = $from, column = $from+1, ... */
  function Numbered(columns: seq<string>, from: nat): (r: seq<Assign>)
    ensures |r| == |columns|
  {
    seq(|columns|, i requires 0 <= i < |columns| => Assign(columns[i], from + i))
  }

  function UpTo(n: nat): (r: seq<nat>)
    ensures |r| == n
  {
    seq(n, i => i + 1)
  }

  /** The values of the named columns. */
  function ValuesOf(cv: ColumnValues, columns: seq<string>): (r: seq<Value>)
    requires |cv.columns| == |cv.values| && forall c :: c in columns ==> c in cv.columns
    ensures |r| == |columns|
  {
    seq(|columns|, i requires 0 <= i < |columns| => ValueOf(cv, columns[i]).value)
  }

  datatype Query = Query(stmt: Stmt, args: seq<Value>)

  const NO_QUERY := Query(NoQuery, [])

  function UpsertOf(t: TableName, columns: seq<string>, uk: seq<string>): Stmt {
    UpsertStmt(t, columns, UpTo(|columns|), uk, NonKey(columns, uk))
  }

  function UpdateOf(t: TableName, setColumns: seq<string>, whereColumns: seq<string>): Stmt {
    UpdateStmt(t, Numbered(setColumns, 1), Numbered(whereColumns, 1 + |setColumns|))
  }

  function DeleteOf(t: TableName, whereColumns: seq<string>): Stmt {
    DeleteStmt(t, Numbered(whereColumns, 1))
  }

  predicate Tuples(e: DmlEvent) {
    && (e.newValues.Some? ==> Paired(e.newValues.value))
    && (e.oldValues.Some? ==> Paired(e.oldValues.value))
  }

  function InsertQuery(ctx: Context, e: DmlEvent): Query
    requires Tuples(e)
  {
    match e.newValues
    case None => NO_QUERY
    case Some(cv) => Query(UpsertOf(Ghost(ctx), cv.columns, ctx.uniqueKeyColumns), cv.values)
  }

  predicate KeyColumnChanged(before: ColumnValues, after: ColumnValues, c: string)
    requires Paired(before) && Paired(after)
  {
    var o, n := ValueOf(before, c), ValueOf(after, c);
    o.Some? && n.Some? && Chunks.Format(o.value) != Chunks.Format(n.value)
  }

  function UpdateQuery(ctx: Context, e: DmlEvent): Query
    requires Tuples(e)
  {
    if e.newValues.None? || e.oldValues.None? then NO_QUERY
    else
      var before, after, uk := e.oldValues.value, e.newValues.value, ctx.uniqueKeyColumns;
      var setColumns, whereColumns := NonKey(after.columns, uk), Present(uk, before);
      if exists c | c in uk :: KeyColumnChanged(before, after, c) then InsertQuery(ctx, e)
      else if setColumns == [] then NO_QUERY
      else
        Query(UpdateOf(Ghost(ctx), setColumns, whereColumns),
              ValuesOf(after, setColumns) + ValuesOf(before, whereColumns))
  }

  function DeleteQuery(ctx: Context, e: DmlEvent): Query
    requires Tuples(e)
  {
    if e.oldValues.None? then NO_QUERY
    else
      var whereColumns := Present(ctx.uniqueKeyColumns, e.oldValues.value);
      if whereColumns == [] then NO_QUERY
      else Query(DeleteOf(Ghost(ctx), whereColumns), ValuesOf(e.oldValues.value, whereColumns))
  }

  function QueryFor(ctx: Context, e: DmlEvent): Query
    requires Tuples(e)
  {
    match e.dml
    case InsertDML => InsertQuery(ctx, e)
    case UpdateDML => UpdateQuery(ctx, e)
    case DeleteDML => DeleteQuery(ctx, e)
  }

  /** Nothing is sent exactly for an event without the tuple it needs: the new one for an insert, both for an
      update, the old one with a key column for a delete; and for an update that leaves the key and has no
      other column. */
  lemma NothingSentIff(ctx: Context, e: DmlEvent)
    requires Tuples(e)
    ensures QueryFor(ctx, e).stmt.NoQuery? <==>
      match e.dml
      case InsertDML => e.newValues.None?
      case UpdateDML =>
        || e.newValues.None? || e.oldValues.None?
        || (&& (forall c :: c in e.newValues.value.columns ==> c in ctx.uniqueKeyColumns)
            && forall c :: c in ctx.uniqueKeyColumns ==> !KeyColumnChanged(e.oldValues.value, e.newValues.value, c))
      case DeleteDML =>
        e.oldValues.None? || forall c :: c in ctx.uniqueKeyColumns ==> c !in e.oldValues.value.columns
  {
    if e.newValues.Some? {
      var columns, uk := e.newValues.value.columns, ctx.uniqueKeyColumns;
      assert NonKey(columns, uk) != [] ==> NonKey(columns, uk)[0] in NonKey(columns, uk);
    }
    if e.oldValues.Some? {
      var present := Present(ctx.uniqueKeyColumns, e.oldValues.value);
      assert present != [] ==> present[0] in present;
    }
  }

  // ---- the loops ----

  method IsKeyColumn(col: string, uk: seq<string>) returns (isUK: bool)
    ensures isUK <==> col in uk
  {
    isUK := false;
    for i := 0 to |uk|
      invariant !isUK && col !in uk[..i]
    {
      if col == uk[i] {
        isUK := true;
        break;
      }
    }
  }

  method QuoteColumns(columns: seq<string>) returns (quoted: seq<string>)
    ensures quoted == MapText(QuoteIdentifier, columns)
  {
    quoted := [];
    for i := 0 to |columns|
      invariant quoted == MapText(QuoteIdentifier, columns)[..i]
    {
      quoted := quoted + [QuoteIdentifier(columns[i])];
    }
  }

  method UpdateColumns(columns: seq<string>, uk: seq<string>) returns (updateCols: seq<string>)
    ensures updateCols == MapText(ExcludedText, NonKey(columns, uk))
  {
    updateCols := [];
    for i := 0 to |columns|
      invariant updateCols == MapText(ExcludedText, NonKey(columns[..i], uk))
    {
      assert columns[..i + 1][..i] == columns[..i];
      var isUK := IsKeyColumn(columns[i], uk);
      if !isUK {
        updateCols := updateCols + [ExcludedText(columns[i])];
      }
    }
    assert columns[..|columns|] == columns;
  }

  method BuildInsertQuery(ctx: Context, e: DmlEvent) returns (query: string, args: seq<Value>)
    requires Tuples(e)
    ensures query == Render(InsertQuery(ctx, e).stmt) && args == InsertQuery(ctx, e).args
  {
    hide QuoteIdentifier, FullName, Join, UpsertText;
    if e.newValues.None? {
      return "", [];
    }
    var columns, values := e.newValues.value.columns, e.newValues.value.values;
    var quotedCols, placeholders: seq<string> := [], [];
    for i := 0 to |columns|
      invariant quotedCols == MapText(QuoteIdentifier, columns)[..i]
      invariant placeholders == MapText(Placeholder, UpTo(|columns|))[..i]
    {
      quotedCols := quotedCols + [QuoteIdentifier(columns[i])];
      placeholders := placeholders + [Placeholder(i + 1)];
    }
    assert quotedCols == MapText(QuoteIdentifier, columns) && placeholders == MapText(Placeholder, UpTo(|columns|));
    var ukCols: seq<string> := [];
    for i := 0 to |ctx.uniqueKeyColumns|
      invariant ukCols == MapText(QuoteIdentifier, ctx.uniqueKeyColumns)[..i]
    {
      ukCols := ukCols + [QuoteIdentifier(ctx.uniqueKeyColumns[i])];
    }
    assert ukCols == MapText(QuoteIdentifier, ctx.uniqueKeyColumns);
    var updateCols := UpdateColumns(columns, ctx.uniqueKeyColumns);
    var action := if |updateCols| > 0 then "DO UPDATE SET " + List(updateCols) else "DO NOTHING";
    query := UpsertText(FullName(Ghost(ctx)), List(quotedCols), List(placeholders), List(ukCols), action);
    args := values;
  }

  method UniqueKeyChanged(ctx: Context, before: ColumnValues, after: ColumnValues) returns (changed: bool)
    requires Paired(before) && Paired(after)
    ensures changed <==> exists c :: c in ctx.uniqueKeyColumns && KeyColumnChanged(before, after, c)
  {
    var uk := ctx.uniqueKeyColumns;
    for i := 0 to |uk|
      invariant forall c :: c in uk[..i] ==> !KeyColumnChanged(before, after, c)
    {
      var oldVal, oldOk := GetValueByName(before, uk[i]);
      var newVal, newOk := GetValueByName(after, uk[i]);
      if oldOk && newOk && Chunks.Format(oldVal) != Chunks.Format(newVal) {
        assert KeyColumnChanged(before, after, uk[i]);
        return true;
      }
      assert uk[..i + 1] == uk[..i] + [uk[i]];
    }
    assert uk[..|uk|] == uk;
    return false;
  }

  /** The where clauses and arguments of the first i key columns. */
  predicate WheresBuilt(uk: seq<string>, before: ColumnValues, argIdx: nat, i: nat, clauses: seq<string>,
                        args: seq<Value>)
    requires Paired(before) && i <= |uk|
  {
    var done := Present(uk[..i], before);
    clauses == MapText(AssignText, Numbered(done, argIdx)) && args == ValuesOf(before, done)
  }

  lemma WheresStep(uk: seq<string>, before: ColumnValues, argIdx: nat, i: nat, clauses: seq<string>, args: seq<Value>)
    requires Paired(before) && i < |uk| && WheresBuilt(uk, before, argIdx, i, clauses, args)
    ensures var c := uk[i];
      if c !in before.columns then WheresBuilt(uk, before, argIdx, i + 1, clauses, args)
      else WheresBuilt(uk, before, argIdx, i + 1,
                       clauses + [QuoteIdentifier(c) + " = " + Placeholder(argIdx + |clauses|)],
                       args + [ValueOf(before, c).value])
  {
    assert uk[..i + 1][..i] == uk[..i];
    if uk[i] in before.columns {
      AssignSnoc(Present(uk[..i], before), uk[i], argIdx);
      ValuesSnoc(before, Present(uk[..i], before), uk[i]);
    }
  }

  /** WHERE key = $argIdx AND ..., numbered on from argIdx, with the arguments. */
  method WhereClauses(uk: seq<string>, before: ColumnValues, argIdx: nat)
    returns (clauses: seq<string>, args: seq<Value>)
    requires Paired(before)
    ensures clauses == MapText(AssignText, Numbered(Present(uk, before), argIdx))
    ensures args == ValuesOf(before, Present(uk, before))
  {
    clauses, args := [], [];
    var idx := argIdx;
    for i := 0 to |uk|
      invariant idx == argIdx + |clauses| && WheresBuilt(uk, before, argIdx, i, clauses, args)
    {
      WheresStep(uk, before, argIdx, i, clauses, args);
      var val, ok := GetValueByName(before, uk[i]);
      if ok {
        clauses := clauses + [QuoteIdentifier(uk[i]) + " = " + Placeholder(idx)];
        args := args + [val];
        idx := idx + 1;
      }
    }
    assert uk[..|uk|] == uk;
  }

  lemma NonKeyStep(cv: ColumnValues, uk: seq<string>, i: nat)
    requires Paired(cv) && i < |cv.columns|
    ensures var c := cv.columns[i];
      && NonKey(cv.columns[..i + 1], uk) == NonKey(cv.columns[..i], uk) + (if c in uk then [] else [c])
      && ValueOf(cv, c) == Some(cv.values[i])
  {
    assert cv.columns[..i + 1][..i] == cv.columns[..i];
    DistinctIndex(cv.columns, i);
  }

  lemma AssignSnoc(columns: seq<string>, c: string, from: nat)
    ensures MapText(AssignText, Numbered(columns + [c], from))
         == MapText(AssignText, Numbered(columns, from)) + [QuoteIdentifier(c) + " = " + Placeholder(from + |columns|)]
  {
  }

  lemma ValuesSnoc(cv: ColumnValues, columns: seq<string>, c: string)
    requires |cv.columns| == |cv.values| && c in cv.columns && forall d :: d in columns ==> d in cv.columns
    ensures ValuesOf(cv, columns + [c]) == ValuesOf(cv, columns) + [ValueOf(cv, c).value]
  {
  }

  /** The set clauses and arguments of the first i columns. */
  predicate SetsBuilt(after: ColumnValues, uk: seq<string>, i: nat, clauses: seq<string>, args: seq<Value>)
    requires Paired(after) && i <= |after.columns|
  {
    var done := NonKey(after.columns[..i], uk);
    clauses == MapText(AssignText, Numbered(done, 1)) && args == ValuesOf(after, done)
  }

  lemma SetsStep(after: ColumnValues, uk: seq<string>, i: nat, clauses: seq<string>, args: seq<Value>)
    requires Paired(after) && i < |after.columns| && SetsBuilt(after, uk, i, clauses, args)
    ensures var c := after.columns[i];
      if c in uk then SetsBuilt(after, uk, i + 1, clauses, args)
      else SetsBuilt(after, uk, i + 1, clauses + [QuoteIdentifier(c) + " = " + Placeholder(1 + |clauses|)],
                     args + [after.values[i]])
  {
    NonKeyStep(after, uk, i);
    var done, c := NonKey(after.columns[..i], uk), after.columns[i];
    if c !in uk {
      AssignSnoc(done, c, 1);
      ValuesSnoc(after, done, c);
    }
  }

  method SetClauses(after: ColumnValues, uk: seq<string>) returns (clauses: seq<string>, args: seq<Value>)
    requires Paired(after)
    ensures clauses == MapText(AssignText, Numbered(NonKey(after.columns, uk), 1))
    ensures args == ValuesOf(after, NonKey(after.columns, uk))
  {
    clauses, args := [], [];
    var argIdx := 1;
    for i := 0 to |after.columns|
      invariant argIdx == 1 + |clauses|
      invariant SetsBuilt(after, uk, i, clauses, args)
    {
      SetsStep(after, uk, i, clauses, args);
      var col := after.columns[i];
      var isUK := IsKeyColumn(col, uk);
      if !isUK {
        clauses := clauses + [QuoteIdentifier(col) + " = " + Placeholder(argIdx)];
        args := args + [after.values[i]];
        argIdx := argIdx + 1;
      }
    }
    assert after.columns[..|after.columns|] == after.columns;
  }

  method BuildUpdateQuery(ctx: Context, e: DmlEvent) returns (query: string, args: seq<Value>)
    requires Tuples(e)
    ensures query == Render(UpdateQuery(ctx, e).stmt) && args == UpdateQuery(ctx, e).args
  {
    if e.newValues.None? || e.oldValues.None? {
      return "", [];
    }
    var before, after, uk := e.oldValues.value, e.newValues.value, ctx.uniqueKeyColumns;
    var ukChanged := UniqueKeyChanged(ctx, before, after);
    if ukChanged {
      query, args := BuildInsertQuery(ctx, e);
      return;
    }
    var setClauses, setArgs := SetClauses(after, uk);
    if setClauses == [] {
      return "", [];
    }
    var whereClauses, whereArgs := WhereClauses(uk, before, 1 + |setClauses|);
    query := UpdateText(FullName(Ghost(ctx)), List(setClauses), Join(whereClauses, " AND "));
    args := setArgs + whereArgs;
  }

  method BuildDeleteQuery(ctx: Context, e: DmlEvent) returns (query: string, args: seq<Value>)
    requires Tuples(e)
    ensures query == Render(DeleteQuery(ctx, e).stmt) && args == DeleteQuery(ctx, e).args
  {
    if e.oldValues.None? {
      return "", [];
    }
    var whereClauses, whereArgs := WhereClauses(ctx.uniqueKeyColumns, e.oldValues.value, 1);
    if whereClauses == [] {
      return "", [];
    }
    query := DeleteText(FullName(Ghost(ctx)), Join(whereClauses, " AND "));
    args := whereArgs;
  }

  /** The reference forms over plain column lists. */
  class QueryBuilder {
    const schemaName: string
    const tableName: string

    constructor (schemaName: string, tableName: string)
      ensures this.schemaName == schemaName && this.tableName == tableName
    {
      this.schemaName := schemaName;
      this.tableName := tableName;
    }

    function Name(): TableName {
      TableName(schemaName, tableName)
    }

    method BuildUpsertQuery(columns: seq<string>, uniqueKeyColumns: seq<string>) returns (query: string)
      ensures query == Render(UpsertOf(Name(), columns, uniqueKeyColumns))
    {
      hide QuoteIdentifier, FullName, Join, UpsertText;
      var quotedCols, placeholders: seq<string> := [], [];
      for i := 0 to |columns|
        invariant quotedCols == MapText(QuoteIdentifier, columns)[..i]
        invariant placeholders == MapText(Placeholder, UpTo(|columns|))[..i]
      {
        quotedCols := quotedCols + [QuoteIdentifier(columns[i])];
        placeholders := placeholders + [Placeholder(i + 1)];
      }
      assert quotedCols == MapText(QuoteIdentifier, columns) && placeholders == MapText(Placeholder, UpTo(|columns|));
      var quotedUK := QuoteColumns(uniqueKeyColumns);
      var updateCols := UpdateClauses(columns, uniqueKeyColumns);
      if |updateCols| == 0 {
        return UpsertText(FullName(Name()), List(quotedCols), List(placeholders), List(quotedUK), "DO NOTHING");
      }
      query := UpsertText(FullName(Name()), List(quotedCols), List(placeholders), List(quotedUK),
                          "DO UPDATE SET " + List(updateCols));
    }

    /** The update clause for the columns outside the key. */
    method UpdateClauses(columns: seq<string>, uniqueKeyColumns: seq<string>) returns (updateCols: seq<string>)
      ensures updateCols == MapText(ExcludedText, NonKey(columns, uniqueKeyColumns))
    {
      updateCols := [];
      for i := 0 to |columns|
        invariant updateCols == MapText(ExcludedText, NonKey(columns[..i], uniqueKeyColumns))
      {
        assert columns[..i + 1][..i] == columns[..i];
        if columns[i] !in uniqueKeyColumns {
          updateCols := updateCols + [QuoteIdentifier(columns[i]) + " = EXCLUDED." + QuoteIdentifier(columns[i])];
        }
      }
      assert columns[..|columns|] == columns;
    }

    method AssignClauses(columns: seq<string>, argIdx: nat) returns (clauses: seq<string>)
      ensures clauses == MapText(AssignText, Numbered(columns, argIdx))
    {
      clauses := [];
      for i := 0 to |columns|
        invariant clauses == MapText(AssignText, Numbered(columns, argIdx))[..i]
      {
        clauses := clauses + [QuoteIdentifier(columns[i]) + " = " + Placeholder(argIdx + i)];
      }
    }

    method BuildUpdateQuery(setColumns: seq<string>, whereColumns: seq<string>) returns (query: string)
      ensures query == Render(UpdateOf(Name(), setColumns, whereColumns))
    {
      var setClauses := AssignClauses(setColumns, 1);
      var whereClauses := AssignClauses(whereColumns, 1 + |setColumns|);
      query := UpdateText(FullName(Name()), List(setClauses), Join(whereClauses, " AND "));
    }

    method BuildDeleteQuery(whereColumns: seq<string>) returns (query: string)
      ensures query == Render(DeleteOf(Name(), whereColumns))
    {
      var whereClauses := AssignClauses(whereColumns, 1);
      query := DeleteText(FullName(Name()), Join(whereClauses, " AND "));
    }
  }

  // ---- the applier's texts are the reference forms ----

  /** For an insert, the reference upsert of the event's columns. */
  method InsertTexts(ctx: Context, e: DmlEvent, qb: QueryBuilder) returns (built: string, reference: string)
    requires Tuples(e) && e.newValues.Some? && qb.Name() == Ghost(ctx)
    ensures built == reference == Render(InsertQuery(ctx, e).stmt)
  {
    var args: seq<Value>;
    built, args := BuildInsertQuery(ctx, e);
    reference := qb.BuildUpsertQuery(e.newValues.value.columns, ctx.uniqueKeyColumns);
  }

  /** For an update that changes the key, the same; for another, the reference update that sets the columns
      outside the key where the key columns have their old values; no text when there is nothing to set. */
  method UpdateTexts(ctx: Context, e: DmlEvent, qb: QueryBuilder) returns (built: string, reference: string)
    requires Tuples(e) && e.newValues.Some? && e.oldValues.Some? && qb.Name() == Ghost(ctx)
    ensures built == reference == Render(UpdateQuery(ctx, e).stmt)
  {
    var args: seq<Value>;
    built, args := BuildUpdateQuery(ctx, e);
    var changed := UniqueKeyChanged(ctx, e.oldValues.value, e.newValues.value);
    var setColumns := NonKey(e.newValues.value.columns, ctx.uniqueKeyColumns);
    if changed {
      reference := qb.BuildUpsertQuery(e.newValues.value.columns, ctx.uniqueKeyColumns);
    } else if setColumns == [] {
      reference := "";
    } else {
      reference := qb.BuildUpdateQuery(setColumns, Present(ctx.uniqueKeyColumns, e.oldValues.value));
    }
  }

  /** For a delete, the reference delete by the key columns of the old tuple; no text without one. */
  method DeleteTexts(ctx: Context, e: DmlEvent, qb: QueryBuilder) returns (built: string, reference: string)
    requires Tuples(e) && e.oldValues.Some? && qb.Name() == Ghost(ctx)
    ensures built == reference == Render(DeleteQuery(ctx, e).stmt)
  {
    var args: seq<Value>;
    built, args := BuildDeleteQuery(ctx, e);
    var whereColumns := Present(ctx.uniqueKeyColumns, e.oldValues.value);
    if whereColumns == [] {
      reference := "";
    } else {
      reference := qb.BuildDeleteQuery(whereColumns);
    }
  }

  // ---- range conditions with placeholders ----

  function PlaceholdersFrom(start: nat, n: nat): (r: seq<string>)
    ensures |r| == n
  {
    seq(n, i requires 0 <= i < n => Placeholder(start + i))
  }

  /** $start, $start+1, ... */
  ghost predicate PlacedFrom(parts: seq<string>, start: nat, n: nat) {
    |parts| == n && forall i :: 0 <= i < n ==> parts[i] == "$" + Decimal(start + i)
  }

  /** The condition on the columns with the placeholders from argStart on. */
  ghost predicate Conditions(text: string, columns: seq<string>, op: RangeFilters.Op, argStart: nat) {
    columns != [] && exists parts ::
      PlacedFrom(parts, argStart, |columns|) && text == RangeFilters.ConditionText(columns, op, parts)
  }

  /** The condition that is built is that. */
  lemma ConditionPlaced(columns: seq<string>, op: RangeFilters.Op, argStart: nat)
    requires columns != []
    ensures Conditions(RangeFilters.ConditionText(columns, op, PlaceholdersFrom(argStart, |columns|)), columns, op,
                       argStart)
  {
    var parts := PlaceholdersFrom(argStart, |columns|);
    forall i | 0 <= i < |columns|
      ensures parts[i] == "$" + Decimal(argStart + i)
    {
      assert parts[i] == Placeholder(argStart + i);
    }
    assert PlacedFrom(parts, argStart, |columns|);
    hide RangeFilters.ConditionText;
  }

  /** The lower bound with the placeholders from minArgStart on, and the upper with those from maxArgStart on. */
  ghost predicate Between(text: string, columns: seq<string>, minArgStart: nat, maxArgStart: nat) {
    exists lower, upper ::
      && Conditions(lower, columns, RangeFilters.AtLeast, minArgStart)
      && Conditions(upper, columns, RangeFilters.AtMost, maxArgStart) && text == lower + " AND " + upper
  }

  /** And so are the two that are joined. */
  lemma BetweenPlaced(columns: seq<string>, minArgStart: nat, maxArgStart: nat)
    requires columns != []
    ensures Between(
      RangeFilters.ConditionText(columns, RangeFilters.AtLeast, PlaceholdersFrom(minArgStart, |columns|)) + " AND "
      + RangeFilters.ConditionText(columns, RangeFilters.AtMost, PlaceholdersFrom(maxArgStart, |columns|)),
      columns, minArgStart, maxArgStart)
  {
    ConditionPlaced(columns, RangeFilters.AtLeast, minArgStart);
    ConditionPlaced(columns, RangeFilters.AtMost, maxArgStart);
    hide Conditions, RangeFilters.ConditionText;
  }

  method BuildRangeCondition(columns: seq<string>, op: RangeFilters.Op, argStart: nat) returns (text: string)
    requires columns != []
    ensures text == RangeFilters.ConditionText(columns, op, PlaceholdersFrom(argStart, |columns|))
  {
    if |columns| == 1 {
      return RangeFilters.Compared(QuoteIdentifier(columns[0]), op, Placeholder(argStart));
    }
    var quotedCols, placeholders: seq<string> := [], [];
    for i := 0 to |columns|
      invariant quotedCols == RangeFilters.QuotedAll(columns)[..i]
      invariant placeholders == PlaceholdersFrom(argStart, |columns|)[..i]
    {
      quotedCols := quotedCols + [QuoteIdentifier(columns[i])];
      placeholders := placeholders + [Placeholder(argStart + i)];
    }
    assert quotedCols == RangeFilters.QuotedAll(columns) && placeholders == PlaceholdersFrom(argStart, |columns|);
    text := RangeFilters.Compared(RangeFilters.Tuple(quotedCols), op, RangeFilters.Tuple(placeholders));
  }

  /** The applier's range comparison, with placeholders for its literals. */
  method BuildBetweenCondition(columns: seq<string>, minArgStart: nat, maxArgStart: nat) returns (text: string)
    requires columns != []
    ensures text ==
      RangeFilters.ConditionText(columns, RangeFilters.AtLeast, PlaceholdersFrom(minArgStart, |columns|)) + " AND "
      + RangeFilters.ConditionText(columns, RangeFilters.AtMost, PlaceholdersFrom(maxArgStart, |columns|))
  {
    hide QuoteIdentifier, RangeFilters.Compared, RangeFilters.Tuple, Placeholder;
    if |columns| == 1 {
      var column := QuoteIdentifier(columns[0]);
      return RangeFilters.Compared(column, RangeFilters.AtLeast, Placeholder(minArgStart)) + " AND "
           + RangeFilters.Compared(column, RangeFilters.AtMost, Placeholder(maxArgStart));
    }
    var quotedCols, minPlaceholders, maxPlaceholders: seq<string> := [], [], [];
    for i := 0 to |columns|
      invariant quotedCols == RangeFilters.QuotedAll(columns)[..i]
      invariant minPlaceholders == PlaceholdersFrom(minArgStart, |columns|)[..i]
      invariant maxPlaceholders == PlaceholdersFrom(maxArgStart, |columns|)[..i]
    {
      quotedCols := quotedCols + [QuoteIdentifier(columns[i])];
      minPlaceholders := minPlaceholders + [Placeholder(minArgStart + i)];
      maxPlaceholders := maxPlaceholders + [Placeholder(maxArgStart + i)];
    }
    assert quotedCols == RangeFilters.QuotedAll(columns);
    assert minPlaceholders == PlaceholdersFrom(minArgStart, |columns|);
    assert maxPlaceholders == PlaceholdersFrom(maxArgStart, |columns|);
    var colList := RangeFilters.Tuple(quotedCols);
    text := RangeFilters.Compared(colList, RangeFilters.AtLeast, RangeFilters.Tuple(minPlaceholders)) + " AND "
          + RangeFilters.Compared(colList, RangeFilters.AtMost, RangeFilters.Tuple(maxPlaceholders));
  }

  /** The two ends use different placeholders exactly when their numbers do not overlap. */
  lemma BetweenPlaceholdersApart(n: nat, minArgStart: nat, maxArgStart: nat)
    ensures (forall i, j :: 0 <= i < n && 0 <= j < n ==>
              PlaceholdersFrom(minArgStart, n)[i] != PlaceholdersFrom(maxArgStart, n)[j])
       <==> n == 0 || minArgStart + n <= maxArgStart || maxArgStart + n <= minArgStart
  {
    var a, b := PlaceholdersFrom(minArgStart, n), PlaceholdersFrom(maxArgStart, n);
    forall i, j | 0 <= i < n && 0 <= j < n
      ensures a[i] == b[j] <==> minArgStart + i == maxArgStart + j
    {
      PlaceholderInjective(minArgStart + i, maxArgStart + j);
    }
    if n > 0 && minArgStart <= maxArgStart < minArgStart + n {
      assert a[maxArgStart - minArgStart] == b[0];
    } else if n > 0 && maxArgStart <= minArgStart < maxArgStart + n {
      assert a[0] == b[minArgStart - maxArgStart];
    }
  }

  lemma PlaceholderInjective(m: nat, n: nat)
    ensures Placeholder(m) == Placeholder(n) <==> m == n
  {
    assert Placeholder(m)[1..] == Decimal(m) && Placeholder(n)[1..] == Decimal(n);
    if Placeholder(m) == Placeholder(n) {
      DecimalInjective(m, n);
    }
  }
}
