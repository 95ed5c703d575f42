/** What the database logs for a row change, and that the reader gets the change back from it: integers
    and all come as texts and are taken for what they were. */
module Delivery {
  import opened Values
  import opened Replay
  import opened Events
  import opened Conversion
  import opened Sql
  import opened Protocol
  import opened Sending
  import opened Batching
  import opened Streaming
  import opened Refinement
  import opened WalRefinement
  import Builders
  import Chunks
  import Decoding
  import RowCopy
  import SqlReading
  import Statements

  // ---- one row ----

  /** A column value in a tuple message. */
  function Printed(v: Value): Decoding.TupleColumn {
    if v.Null? then Decoding.TupleColumn('n', "") else Decoding.TupleColumn('t', Chunks.Format(v))
  }

  function TupleOf(columns: seq<string>, row: Row): Decoding.TupleData
    requires forall c :: c in columns ==> c in row
  {
    seq(|columns|, i requires 0 <= i < |columns| => Printed(row[columns[i]]))
  }

  /** The row's values are of its columns' types. */
  predicate TypedRow(types: Types, row: Row) {
    forall c | c in row :: OfKind(KindOf(types, c), row[c])
  }

  ghost predicate RowIn(columns: seq<string>, row: Row) {
    forall c :: c in row <==> c in columns
  }

  lemma PrintedDelivered(types: Types, rel: Decoding.RelationInfo, row: Row, i: nat)
    requires RowIn(rel.columns, row) && TypedRow(types, row) && i < |rel.columns|
    ensures var v := Decoding.TupleValues(rel, TupleOf(rel.columns, row)).values[i];
      var kind := KindOf(types, rel.columns[i]);
      Delivered(kind, v) && Input(kind, v) == Some(row[rel.columns[i]]) && (v.Null? <==> row[rel.columns[i]].Null?)
  {
    OutputDelivered(KindOf(types, rel.columns[i]), row[rel.columns[i]]);
  }

  lemma RowFrom(cv: ColumnValues, typed: ColumnValues, row: Row)
    requires Paired(cv) && Paired(typed) && cv.columns == typed.columns && RowIn(cv.columns, row)
    requires forall i :: 0 <= i < |cv.columns| ==> typed.values[i] == row[cv.columns[i]]
    requires forall i :: 0 <= i < |cv.columns| ==> (cv.values[i].Null? <==> row[cv.columns[i]].Null?)
    ensures RowOf(typed) == row && forall c :: c in row ==> (RowOf(cv)[c].Null? <==> row[c].Null?)
  {
  }

  /** A row that is logged and decoded is taken for the same row. */
  lemma RowDelivered(types: Types, rel: Decoding.RelationInfo, row: Row)
    requires Distinct(rel.columns) && RowIn(rel.columns, row) && TypedRow(types, row)
    ensures var cv := Decoding.TupleValues(rel, TupleOf(rel.columns, row));
      && Paired(cv) && TupleDelivered(types, cv) && RowOf(Converted(types, cv)) == row
      && forall c :: c in row ==> (RowOf(cv)[c].Null? <==> row[c].Null?)
  {
    var cv := Decoding.TupleValues(rel, TupleOf(rel.columns, row));
    forall i {:trigger cv.values[i]} | 0 <= i < |rel.columns|
      ensures Delivered(KindOf(types, rel.columns[i]), cv.values[i])
      ensures Converted(types, cv).values[i] == row[rel.columns[i]]
      ensures cv.values[i].Null? <==> row[rel.columns[i]].Null?
    {
      PrintedDelivered(types, rel, row, i);
    }
    hide Converted, Decoding.TupleValues, Delivered, TypedRow, KindOf, RowOf;
    RowFrom(cv, Converted(types, cv), row);
  }

  // ---- one change ----

  /** A row of the table: its columns with values of their types, under its non-null key. */
  ghost predicate TypedUnder(d: Schema, columns: seq<string>, row: Row, k: Key) {
    && RowIn(columns, row) && TypedRow(d.types, row)
    && (forall u :: u in d.uk ==> u in row) && KeyOf(row, d.uk) == k && NonNull(k)
  }

  /** A change of the table as it is: the row that it replaces and the row that it leaves are rows of the
      table. */
  ghost predicate Loggable(d: Schema, columns: seq<string>, o: Table, e: Event) {
    && Legal(o, e) && Distinct(columns)
    && (e.Update? ==> TypedUnder(d, columns, o[e.oldKey], e.oldKey))
    && (e.Delete? ==> TypedUnder(d, columns, o[e.key], e.key))
    && (!e.Delete? ==> TypedUnder(d, columns, e.row, KeyAfter(e)))
  }

  /** The message of the change; the table has REPLICA IDENTITY FULL. */
  ghost function MessageFor(d: Schema, columns: seq<string>, id: nat, o: Table, e: Event): Decoding.Message
    requires Loggable(d, columns, o, e)
  {
    match e
    case Insert(_, row) => Decoding.InsertMessage(id, Some(TupleOf(columns, row)))
    case Update(from, _, row) =>
      Decoding.UpdateMessage(id, Some(TupleOf(columns, o[from])), Some(TupleOf(columns, row)))
    case Delete(k) => Decoding.DeleteMessage(id, Some(TupleOf(columns, o[k])))
  }

  /** The tuple is taken for the row, and has a value for every key column. */
  ghost predicate Ready(d: Schema, cv: ColumnValues, row: Row) {
    && Complete(cv, d.uk) && TupleDelivered(d.types, cv) && RowOf(Converted(d.types, cv)) == row
    && NonNull(KeyOf(RowOf(cv), d.uk))
  }

  lemma TupleReady(d: Schema, rel: Decoding.RelationInfo, row: Row, k: Key)
    requires Distinct(rel.columns) && TypedUnder(d, rel.columns, row, k)
    ensures Ready(d, Decoding.TupleValues(rel, TupleOf(rel.columns, row)), row)
  {
    RowDelivered(d.types, rel, row);
    var key := KeyOf(RowOf(Decoding.TupleValues(rel, TupleOf(rel.columns, row))), d.uk);
    forall i | 0 <= i < |d.uk|
      ensures !key[i].Null?
    {
      assert KeyOf(row, d.uk)[i] in KeyOf(row, d.uk);
    }
  }

  lemma EventReady(d: Schema, ctx: Builders.Context, event: DmlEvent, before: Row, after: Row)
    requires ctx.uniqueKeyColumns == d.uk
    requires event.dml.InsertDML? <==> event.oldValues.None?
    requires event.dml.DeleteDML? <==> event.newValues.None?
    requires event.oldValues.Some? ==> Ready(d, event.oldValues.value, before)
    requires event.newValues.Some? ==> Ready(d, event.newValues.value, after)
    requires forall u :: u in d.uk ==> u in before && u in after
    ensures Replayable(d, ctx, event)
    ensures MeaningOf(d, event) ==
      match event.dml
      case InsertDML => Insert(KeyOf(after, d.uk), after)
      case UpdateDML => Update(KeyOf(before, d.uk), KeyOf(after, d.uk), after)
      case DeleteDML => Delete(KeyOf(before, d.uk))
  {
    hide TupleDelivered, Converted, RowOf;
  }

  /** Logged, decoded and taken by the database, a change is the same change. */
  lemma ChangeDelivered(d: Schema, ctx: Builders.Context, rel: Decoding.RelationInfo, id: nat, o: Table, e: Event,
                        lsn: nat, xid: nat)
    requires Loggable(d, rel.columns, o, e) && ctx.uniqueKeyColumns == d.uk
    ensures var event := Decoding.EventFrom(rel, MessageFor(d, rel.columns, id, o, e), lsn, xid);
      && Replayable(d, ctx, event) && MeaningOf(d, event) == e
      && (event.newValues.Some? ==> event.newValues.value.columns == rel.columns)
  {
    hide TupleOf, Ready, MeaningOf, Replayable;
    var event := Decoding.EventFrom(rel, MessageFor(d, rel.columns, id, o, e), lsn, xid);
    match e {
      case Insert(_, row) =>
        TupleReady(d, rel, row, KeyAfter(e));
        EventReady(d, ctx, event, row, row);
      case Update(from, _, row) =>
        TupleReady(d, rel, row, KeyAfter(e));
        TupleReady(d, rel, o[from], from);
        EventReady(d, ctx, event, o[from], row);
      case Delete(k) =>
        TupleReady(d, rel, o[k], k);
        EventReady(d, ctx, event, o[k], o[k]);
    }
  }

  // ---- every change can be logged ----

  /** The relation message in force describes the table that is migrated. */
  ghost predicate Describing(x: Setup, n: Names, log: seq<Decoding.Wal>, id: nat, rel: Decoding.RelationInfo) {
    && Decoding.LatestRelation(log, id) == Some(rel)
    && rel.namespace == n.schemaName && rel.name == n.originalTableName
    && (forall c :: c in x.cfg.originalColumns <==> c in rel.columns) && SqlReading.PlainNames(rel.columns)
  }

  lemma WritePossible(x: Setup, n: Names, c: Code, event: DmlEvent, e: Event)
    requires Live(n, c) && OnOriginal(n, event) && Sendable(x, event) && MeaningOf(x.d, event) == e
    requires Legal(c.original, e) && (e.Delete? || e.row.Keys == x.cfg.originalColumns)
    ensures Possible(x, n, c, Write(event))
    ensures After(x, n, c, Write(event)) == c.(original := Commit(c.original, e), events := c.events + [event])
  {
    hide MeaningOf, Legal, EventDelivered, KeysGiven;
  }

  lemma EventLogged(x: Setup, n: Names, log: seq<Decoding.Wal>, id: nat, rel: Decoding.RelationInfo, o: Table,
                    e: Event, w: Decoding.Wal)
    requires Posed(x) && Describing(x, n, log, id, rel)
    requires Loggable(x.d, rel.columns, o, e) && w.msg == MessageFor(x.d, rel.columns, id, o, e)
    ensures Decoding.IsDml(w.msg) && !Decoding.Fails(log, w.msg)
    ensures OnOriginal(n, EventOf(log, w)) && Sendable(x, EventOf(log, w)) && MeaningOf(x.d, EventOf(log, w)) == e
    ensures e.Delete? || e.row.Keys == x.cfg.originalColumns
  {
    hide TupleOf, TypedRow, Replayable, MeaningOf, Legal;
    ChangeDelivered(x.d, x.ctx, rel, id, o, e, w.start, Decoding.LatestXid(log));
  }

  /** Whatever the types of its columns, every change of a table of typed rows is a possible step of the
      goroutines with the decoder, and commits that change. */
  lemma ChangeCanBeLogged(x: Setup, n: Names, c: Wire, id: nat, rel: Decoding.RelationInfo, e: Event, w: Decoding.Wal)
    requires Posed(x) && Live(n, c.code) && Describing(x, n, c.log, id, rel)
    requires Loggable(x.d, rel.columns, c.code.original, e)
    requires w.msg == MessageFor(x.d, rel.columns, id, c.code.original, e)
    ensures WirePossible(x, n, c, Log(w))
    ensures WireAfter(x, n, c, Log(w)).code == c.code.(original := Commit(c.code.original, e),
                                                      events := c.code.events + [EventOf(c.log, w)])
  {
    hide MessageFor, MeaningOf, Possible, After, Sendable, Describing, EventOf;
    EventLogged(x, n, c.log, id, rel, c.code.original, e, w);
    WritePossible(x, n, c.code, EventOf(c.log, w), e);
  }

  // ---- a table with an integer key ----

  function IntegerKeyed(): Setup {
    var columns, defaults := {"id", "v"}, map["id" := Null, "v" := Null];
    Setup(Config(columns, columns, defaults),
          Schema(columns, defaults, ["id"], map["id" := Chunks.NumKind, "v" := Chunks.TextKind]),
          Builders.Context("public", "_t_gho", ["id"]), ["id", "v"], TableName("public", "t"))
  }

  const INTEGER_RELATION := Decoding.RelationInfo("public", "t", ["id", "v"])

  function FiveIs(v: string): Row {
    map["id" := Values.Num(5), "v" := Values.Text(v)]
  }

  lemma FiveTyped(v: string)
    ensures TypedUnder(IntegerKeyed().d, ["id", "v"], FiveIs(v), [Values.Num(5)])
  {
    assert KeyOf(FiveIs(v), ["id"]) == [Values.Num(5)];
  }

  lemma IntegerKeyedPosed()
    ensures Posed(IntegerKeyed())
  {
    var x := IntegerKeyed();
    assert RowCopy.Describes(x.cfg, x.d, x.columns);
  }

  lemma FiveUpdated()
    ensures var x, key := IntegerKeyed(), [Values.Num(5)];
      var start, e := map[key := FiveIs("a")], Update(key, key, FiveIs("b"));
      Rows(x, start) && Loggable(x.d, ["id", "v"], start, e)
  {
    FiveTyped("a");
    FiveTyped("b");
    hide TypedRow;
    assert "id"[0] != "v"[0];
  }

  lemma RelationLogged(x: Setup, n: Names, start: Table, w: Decoding.Wal, id: nat, rel: Decoding.RelationInfo)
    requires w.msg == Decoding.RelationMessage(id, rel)
    ensures Live(n, Begin(start)) && Decoding.LatestRelation([w], id) == Some(rel)
    ensures WirePossible(x, n, Wire([], 0, Begin(start)), Log(w))
    ensures WireAfter(x, n, Wire([], 0, Begin(start)), Log(w)) == Wire([w], 0, Begin(start))
  {
    hide Possible, After;
    assert [] + [w] == [w];
  }

  lemma TwoLogged(x: Setup, n: Names, c: Wire, a: WireAction, b: WireAction)
    requires WirePossible(x, n, c, a) && WirePossible(x, n, WireAfter(x, n, c, a), b)
    ensures AllWirePossible(x, n, c, [a, b])
    ensures WireAfterAll(x, n, c, [a, b]) == WireAfter(x, n, WireAfter(x, n, c, a), b)
  {
    var c1 := WireAfter(x, n, c, a);
    hide WirePossible, WireAfter;
    assert [a, b][1..] == [b] && [b][1..] == [];
    assert AllWirePossible(x, n, c1, [b]) && WireAfterAll(x, n, c1, [b]) == WireAfter(x, n, c1, b) by {
      assert WireAfterAll(x, n, WireAfter(x, n, c1, b), []) == WireAfter(x, n, c1, b);
    }
  }

  /** From the start of a migration, any change can be the first that is logged. */
  lemma FirstChange(x: Setup, n: Names, start: Table, id: nat, rel: Decoding.RelationInfo, e: Event,
                    r: Decoding.Wal, w: Decoding.Wal)
    requires Posed(x) && Describing(x, n, [r], id, rel) && r.msg == Decoding.RelationMessage(id, rel)
    requires Loggable(x.d, rel.columns, start, e) && w.msg == MessageFor(x.d, rel.columns, id, start, e)
    ensures AllWirePossible(x, n, Wire([], 0, Begin(start)), [Log(r), Log(w)])
    ensures var c := WireAfterAll(x, n, Wire([], 0, Begin(start)), [Log(r), Log(w)]);
      c.code.original == Commit(start, e) && |c.code.events| == 1
  {
    hide Posed, Describing, Loggable, MessageFor, WirePossible, WireAfter, EventOf;
    RelationLogged(x, n, start, r, id, rel);
    ChangeCanBeLogged(x, n, Wire([r], 0, Begin(start)), id, rel, e, w);
    TwoLogged(x, n, Wire([], 0, Begin(start)), Log(r), Log(w));
  }

  lemma IntegerDescribed(r: Decoding.Wal)
    requires r.msg == Decoding.RelationMessage(1, INTEGER_RELATION)
    ensures Describing(IntegerKeyed(), Names("public", "t", "_t_changelog"), [r], 1, INTEGER_RELATION)
  {
    assert [r][..0] == [];
  }

  /** A run that logs an UPDATE of a row with an integer key. */
  lemma IntegerKeyUpdateLogged() returns (actions: seq<WireAction>)
    ensures var x, n := IntegerKeyed(), Names("public", "t", "_t_changelog");
      var start := map[[Values.Num(5)] := FiveIs("a")];
      && Posed(x) && Rows(x, start) && AllWirePossible(x, n, Wire([], 0, Begin(start)), actions)
      && var c := WireAfterAll(x, n, Wire([], 0, Begin(start)), actions);
         c.code.original == Commit(start, Update([Values.Num(5)], [Values.Num(5)], FiveIs("b"))) && |c.code.events| == 1
  {
    var x, n, key := IntegerKeyed(), Names("public", "t", "_t_changelog"), [Values.Num(5)];
    var start, e := map[key := FiveIs("a")], Update(key, key, FiveIs("b"));
    var r := Decoding.Wal(0, 1, Decoding.RelationMessage(1, INTEGER_RELATION));
    IntegerKeyedPosed();
    FiveUpdated();
    IntegerDescribed(r);
    var w := Decoding.Wal(1, 1, MessageFor(x.d, INTEGER_RELATION.columns, 1, start, e));
    hide *;
    FirstChange(x, n, start, 1, INTEGER_RELATION, e, r, w);
    actions := [Log(r), Log(w)];
  }
}
