/** What the database makes of a value that a client sends for a column, and what a column's value
    looks like in the change stream. */
module Conversion {
  import opened Values
  import opened Replay
  import opened Strings
  import opened Events
  import Chunks

  /** The types of the columns, by name; a column that is not listed has some other type. */
  type Types = map<string, Chunks.Kind>

  function KindOf(types: Types, column: string): Chunks.Kind {
    if column in types then types[column] else Chunks.OtherKind
  }

  /** Null, or a value that a column of that type can hold; integers have 64 bits. */
  predicate OfKind(kind: Chunks.Kind, v: Value) {
    v.Null? || (Chunks.HasKind(kind, v) && (v.Num? ==> IsInt64(v.n)))
  }

  /** The type's input function: only the text of what is sent matters. */
  function Input(kind: Chunks.Kind, v: Value): Option<Value> {
    if v.Null? then Some(Null)
    else
      match kind
      case NumKind =>
        var n :- ParseInt(Chunks.Format(v));
        Some(Num(n))
      case TextKind => Some(Text(Chunks.Format(v)))
      case OtherKind => Some(Unlisted(Chunks.Format(v)))
  }

  /** The type's output function, as logical replication delivers it. */
  function Output(v: Value): Value {
    if v.Null? then Null else Text(Chunks.Format(v))
  }

  /** Input undoes output exactly on the values of the type. */
  lemma InputOutput(kind: Chunks.Kind, v: Value)
    ensures Input(kind, Output(v)) == Some(v) <==> OfKind(kind, v)
  {
    if v.Num? {
      ParseIntDecimal(v.n);
    }
  }

  lemma InputOfKind(kind: Chunks.Kind, v: Value)
    ensures Input(kind, v).Some? ==> OfKind(kind, Input(kind, v).value) && (Input(kind, v).value.Null? <==> v.Null?)
  {
  }

  /** The value is accepted and prints as it did when it was sent. */
  predicate Delivered(kind: Chunks.Kind, v: Value) {
    Input(kind, v).Some? && Chunks.Format(Input(kind, v).value) == Chunks.Format(v)
  }

  /** What a column delivers is taken for the value that the column holds. */
  lemma OutputDelivered(kind: Chunks.Kind, v: Value)
    requires OfKind(kind, v)
    ensures Delivered(kind, Output(v)) && Input(kind, Output(v)) == Some(v)
  {
    InputOutput(kind, v);
  }

  // ---- events ----

  predicate TupleDelivered(types: Types, cv: ColumnValues) {
    |cv.columns| == |cv.values|
    && forall i {:trigger cv.values[i]} | 0 <= i < |cv.values| :: Delivered(KindOf(types, cv.columns[i]), cv.values[i])
  }

  predicate EventDelivered(types: Types, e: DmlEvent) {
    && (e.newValues.Some? ==> TupleDelivered(types, e.newValues.value))
    && (e.oldValues.Some? ==> TupleDelivered(types, e.oldValues.value))
  }

  /** The tuple as the database takes it; a value that it does not accept stays as it is. */
  function Converted(types: Types, cv: ColumnValues): (r: ColumnValues)
    requires |cv.columns| == |cv.values|
    ensures r.columns == cv.columns && |r.values| == |cv.values|
  {
    ColumnValues(cv.columns, seq(|cv.values|, i requires 0 <= i < |cv.values| =>
      match Input(KindOf(types, cv.columns[i]), cv.values[i])
      case Some(v) => v
      case None => cv.values[i]))
  }

  function ConvertedTuple(types: Types, tuple: Option<ColumnValues>): (r: Option<ColumnValues>)
    ensures r.Some? <==> tuple.Some?
    ensures r.Some? ==> r.value.columns == tuple.value.columns && |r.value.values| == |tuple.value.values|
  {
    if tuple.Some? && |tuple.value.columns| == |tuple.value.values| then Some(Converted(types, tuple.value)) else tuple
  }

  function ConvertedEvent(types: Types, e: DmlEvent): (r: DmlEvent)
    ensures r.dml == e.dml && forall uk :: WellFormed(r, uk) <==> WellFormed(e, uk)
  {
    e.(oldValues := ConvertedTuple(types, e.oldValues), newValues := ConvertedTuple(types, e.newValues))
  }

  /** The row change that an event of a table with those types and that key reports. */
  function MeaningIn(types: Types, uk: seq<string>, e: DmlEvent): Event
    requires WellFormed(e, uk)
  {
    Meaning(ConvertedEvent(types, e), uk)
  }

  lemma ConvertedValue(types: Types, cv: ColumnValues, c: string)
    requires TupleDelivered(types, cv) && c in cv.columns
    ensures ValueOf(cv, c).Some? && ValueOf(Converted(types, cv), c).Some?
    ensures Input(KindOf(types, c), ValueOf(cv, c).value) == ValueOf(Converted(types, cv), c)
    ensures Chunks.Format(ValueOf(Converted(types, cv), c).value) == Chunks.Format(ValueOf(cv, c).value)
    ensures OfKind(KindOf(types, c), ValueOf(Converted(types, cv), c).value)
    ensures ValueOf(Converted(types, cv), c).value.Null? <==> ValueOf(cv, c).value.Null?
  {
    var i := ColumnIndex(cv.columns, c);
    assert Delivered(KindOf(types, cv.columns[i]), cv.values[i]);
    InputOfKind(KindOf(types, c), cv.values[i]);
  }
}
