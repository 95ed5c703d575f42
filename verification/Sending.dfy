/** What the database does with the text and the arguments that are sent for an event: the event's
    replay, its values taken for values of their columns. */
module Sending {
  import opened Values
  import opened Replay
  import opened Events
  import opened Conversion
  import opened Sql
  import opened Builders
  import opened Statements
  import Chunks
  import SqlReading

  /** The row change that the event reports of a table with that schema's key and types. */
  function MeaningOf(d: Schema, e: DmlEvent): Event
    requires WellFormed(e, d.uk)
  {
    MeaningIn(d.types, d.uk, e)
  }

  /** The tuples give a value to every key column. */
  predicate KeysGiven(e: DmlEvent, uk: seq<string>)
    requires WellFormed(e, uk)
  {
    && (e.dml.InsertDML? || e.dml.UpdateDML? ==> NonNull(KeyOf(RowOf(e.newValues.value), uk)))
    && (e.dml.UpdateDML? || e.dml.DeleteDML? ==> NonNull(KeyOf(RowOf(e.oldValues.value), uk)))
  }

  /** The events the theorem is about: complete tuples with non-null keys, and values that the database
      accepts for their columns and prints as they were delivered. */
  ghost predicate Replayable(d: Schema, ctx: Context, e: DmlEvent) {
    && ctx.uniqueKeyColumns == d.uk && Tuples(e)
    && WellFormed(e, d.uk) && KeysGiven(e, d.uk) && EventDelivered(d.types, e)
  }

  // ---- the same statement for the converted event ----

  lemma ConvertedTuples(types: Types, e: DmlEvent)
    requires Tuples(e)
    ensures Tuples(ConvertedEvent(types, e))
  {
  }

  lemma SameChange(types: Types, before: ColumnValues, after: ColumnValues, c: string)
    requires Paired(before) && Paired(after) && TupleDelivered(types, before) && TupleDelivered(types, after)
    ensures KeyColumnChanged(Converted(types, before), Converted(types, after), c)
       <==> KeyColumnChanged(before, after, c)
  {
    if c in before.columns && c in after.columns {
      ConvertedValue(types, before, c);
      ConvertedValue(types, after, c);
    }
  }

  lemma {:induction false} SamePresent(uk: seq<string>, a: ColumnValues, b: ColumnValues)
    requires a.columns == b.columns
    ensures Present(uk, a) == Present(uk, b)
  {
    if uk != [] {
      SamePresent(uk[..|uk| - 1], a, b);
    }
  }

  /** The statement does not depend on whether the values have been converted. */
  lemma SameStatement(types: Types, ctx: Context, e: DmlEvent)
    requires Tuples(e) && EventDelivered(types, e)
    ensures Tuples(ConvertedEvent(types, e))
    ensures QueryFor(ctx, ConvertedEvent(types, e)).stmt == QueryFor(ctx, e).stmt
  {
    ConvertedTuples(types, e);
    if e.oldValues.Some? {
      SamePresent(ctx.uniqueKeyColumns, e.oldValues.value, ConvertedEvent(types, e).oldValues.value);
    }
    if e.oldValues.Some? && e.newValues.Some? {
      forall c
        ensures KeyColumnChanged(Converted(types, e.oldValues.value), Converted(types, e.newValues.value), c)
           <==> KeyColumnChanged(e.oldValues.value, e.newValues.value, c)
      {
        SameChange(types, e.oldValues.value, e.newValues.value, c);
      }
    }
  }

  /** Each argument, taken for its column, is the argument of the converted event. */
  ghost predicate ArgsTaken(types: Types, columns: seq<string>, args: seq<Value>, taken: seq<Value>) {
    && |args| == |columns| == |taken|
    && forall i {:trigger args[i]} | 0 <= i < |args| :: Input(KindOf(types, columns[i]), args[i]) == Some(taken[i])
  }

  lemma ValuesTaken(types: Types, cv: ColumnValues, columns: seq<string>)
    requires TupleDelivered(types, cv) && forall c :: c in columns ==> c in cv.columns
    ensures ArgsTaken(types, columns, ValuesOf(cv, columns), ValuesOf(Converted(types, cv), columns))
  {
    forall i | 0 <= i < |columns|
      ensures Input(KindOf(types, columns[i]), ValuesOf(cv, columns)[i])
           == Some(ValuesOf(Converted(types, cv), columns)[i])
    {
      ConvertedValue(types, cv, columns[i]);
    }
  }

  lemma ArgsJoined(types: Types, c: seq<string>, a: seq<Value>, t: seq<Value>,
                   c': seq<string>, a': seq<Value>, t': seq<Value>)
    requires ArgsTaken(types, c, a, t) && ArgsTaken(types, c', a', t')
    ensures ArgsTaken(types, c + c', a + a', t + t')
  {
    forall i {:trigger (a + a')[i]} | 0 <= i < |a + a'|
      ensures Input(KindOf(types, (c + c')[i]), (a + a')[i]) == Some((t + t')[i])
    {
      if i < |a| {
        assert a[i] == (a + a')[i];
      } else {
        assert a'[i - |a|] == (a + a')[i];
      }
    }
  }

  lemma InsertTaken(types: Types, ctx: Context, e: DmlEvent)
    requires Tuples(e) && EventDelivered(types, e) && Tuples(ConvertedEvent(types, e))
    ensures ArgsTaken(types, ColumnsOf(InsertQuery(ctx, e).stmt), InsertQuery(ctx, e).args,
                      InsertQuery(ctx, ConvertedEvent(types, e)).args)
  {
    if e.newValues.Some? {
      var cv := e.newValues.value;
      forall i {:trigger cv.values[i]} | 0 <= i < |cv.values|
        ensures Input(KindOf(types, cv.columns[i]), cv.values[i]) == Some(Converted(types, cv).values[i])
      {
        assert Delivered(KindOf(types, cv.columns[i]), cv.values[i]);
      }
    }
  }

  lemma NumberedColumns(columns: seq<string>, from: nat)
    ensures AssignColumns(Numbered(columns, from)) == columns
  {
  }

  /** The arguments of the three forms, each taken for its column. */
  lemma SetsTaken(types: Types, after: ColumnValues, before: ColumnValues, sets: seq<string>, wheres: seq<string>,
                  t: TableName)
    requires TupleDelivered(types, after) && TupleDelivered(types, before)
    requires (forall c :: c in sets ==> c in after.columns) && forall c :: c in wheres ==> c in before.columns
    ensures ArgsTaken(types, ColumnsOf(UpdateOf(t, sets, wheres)), ValuesOf(after, sets) + ValuesOf(before, wheres),
                      ValuesOf(Converted(types, after), sets) + ValuesOf(Converted(types, before), wheres))
    ensures ArgsTaken(types, ColumnsOf(DeleteOf(t, wheres)), ValuesOf(before, wheres),
                      ValuesOf(Converted(types, before), wheres))
  {
    hide ArgsTaken;
    ValuesTaken(types, after, sets);
    ValuesTaken(types, before, wheres);
    NumberedColumns(sets, 1);
    NumberedColumns(wheres, 1);
    NumberedColumns(wheres, 1 + |sets|);
    ArgsJoined(types, sets, ValuesOf(after, sets), ValuesOf(Converted(types, after), sets),
               wheres, ValuesOf(before, wheres), ValuesOf(Converted(types, before), wheres));
  }

  lemma QueryTaken(types: Types, ctx: Context, e: DmlEvent)
    requires Tuples(e) && EventDelivered(types, e) && Tuples(ConvertedEvent(types, e))
    requires QueryFor(ctx, ConvertedEvent(types, e)).stmt == QueryFor(ctx, e).stmt
    ensures ArgsTaken(types, ColumnsOf(QueryFor(ctx, e).stmt), QueryFor(ctx, e).args,
                      QueryFor(ctx, ConvertedEvent(types, e)).args)
  {
    assert ArgsTaken(types, ColumnsOf(NoQuery), [], []);
    hide Converted, ColumnsOf, TupleDelivered, ArgsTaken;
    InsertTaken(types, ctx, e);
    var uk, c := ctx.uniqueKeyColumns, ConvertedEvent(types, e);
    if e.oldValues.Some? {
      var before, wheres := e.oldValues.value, Present(uk, e.oldValues.value);
      SamePresent(uk, before, c.oldValues.value);
      var after := if e.newValues.Some? then e.newValues.value else before;
      var sets := if e.newValues.Some? then NonKey(after.columns, uk) else [];
      SetsTaken(types, after, before, sets, wheres, Ghost(ctx));
    }
  }

  // ---- the events are those of the statements' theorem ----

  lemma TupleTyped(d: Schema, cv: ColumnValues)
    requires Complete(cv, d.uk) && TupleDelivered(d.types, cv) && NonNull(KeyOf(RowOf(cv), d.uk))
    ensures Complete(Converted(d.types, cv), d.uk)
    ensures Chunks.Typed(KeyKinds(d), KeyOf(RowOf(Converted(d.types, cv)), d.uk))
  {
    forall i | 0 <= i < |d.uk|
      ensures Chunks.HasKind(KeyKinds(d)[i], KeyOf(RowOf(Converted(d.types, cv)), d.uk)[i])
    {
      ConvertedValue(d.types, cv, d.uk[i]);
      assert KeyOf(RowOf(cv), d.uk)[i] in KeyOf(RowOf(cv), d.uk);
    }
  }

  lemma ReplayableConforms(d: Schema, ctx: Context, e: DmlEvent)
    requires Replayable(d, ctx, e)
    ensures Conforming(d, ctx, KeyKinds(d), ConvertedEvent(d.types, e))
  {
    hide Chunks.Typed, RowOf, KeyKinds, TupleDelivered, Converted;
    ConvertedTuples(d.types, e);
    if e.newValues.Some? && !e.dml.DeleteDML? {
      TupleTyped(d, e.newValues.value);
    }
    if e.oldValues.Some? && !e.dml.InsertDML? {
      TupleTyped(d, e.oldValues.value);
    }
  }

  // ---- the text that is sent ----

  lemma PerformIsExec(d: Schema, t: TableName, q: Query, taken: seq<Value>, g: Table)
    requires ValidSchema(d) && Runnable(Query(q.stmt, taken), d.uk) && (q.stmt.NoQuery? || q.stmt.table == t)
    requires Params(q.stmt) == UpTo(|q.args|) && ArgsTaken(d.types, ColumnsOf(q.stmt), q.args, taken)
    ensures Perform(d, t, q.stmt, q.args, g) == Exec(d, q.stmt, taken, g)
  {
    TakenInOrder(d.types, q.stmt, q.args, taken);
    hide Taken, Exec, Input;
  }

  lemma QueryTable(ctx: Context, e: DmlEvent)
    requires Tuples(e)
    ensures QueryFor(ctx, e).stmt.NoQuery? || QueryFor(ctx, e).stmt.table == Ghost(ctx)
  {
  }

  /** What the database makes of the text and the arguments that are sent for the event. */
  function Sent(d: Schema, ctx: Context, e: DmlEvent, g: Table): Result<Table>
    requires Tuples(e) && forall c :: c in d.uk ==> c in d.defaults
  {
    SqlReading.RunText(d, Ghost(ctx), Render(QueryFor(ctx, e).stmt), QueryFor(ctx, e).args, g)
  }

  /** What replaying the change comes to. */
  function Replayed(d: Schema, change: Event, g: Table): Result<Table> {
    if Fits(d.columns, change) then Ok(Apply(g, change, d.defaults)) else Err("column does not exist")
  }

  lemma StatementReplays(d: Schema, ctx: Context, e: DmlEvent, g: Table)
    requires ValidSchema(d) && d.uk != [] && WellKeyed(d, g) && Replayable(d, ctx, e)
    ensures Perform(d, Ghost(ctx), QueryFor(ctx, e).stmt, QueryFor(ctx, e).args, g) == Replayed(d, MeaningOf(d, e), g)
  {
    var typed := ConvertedEvent(d.types, e);
    ReplayableConforms(d, ctx, e);
    SameStatement(d.types, ctx, e);
    QueryTaken(d.types, ctx, e);
    EventReplays(d, ctx, KeyKinds(d), typed, g);
    Placeholders(ctx, e);
    QueryTable(ctx, e);
    hide QueryFor, Perform, Exec, Params, ColumnsOf, Converted, Runnable;
    PerformIsExec(d, Ghost(ctx), QueryFor(ctx, e), QueryFor(ctx, typed).args, g);
  }

  /** Statement semantics, for every event and every ghost table: sent to the database, the text built
      for the event is the event's replay, and fails exactly when it would write a column that the
      ghost table does not have. The names must be plain, which is exactly when the text reads back as
      the statement built (SqlReading.StatementReadIff). */
  lemma EventTextReplays(d: Schema, ctx: Context, e: DmlEvent, g: Table)
    requires ValidSchema(d) && d.uk != [] && WellKeyed(d, g) && Replayable(d, ctx, e)
    requires SqlReading.Plain(QueryFor(ctx, e).stmt)
    ensures Sent(d, ctx, e, g) == Replayed(d, MeaningOf(d, e), g)
  {
    StatementReplays(d, ctx, e, g);
    SqlReading.StatementRead(QueryFor(ctx, e).stmt);
    hide QueryFor, Render, Perform;
  }
}
