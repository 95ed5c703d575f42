/** Row change events as the decoder emits them, and what they mean. */
module Events {
  import opened Values
  import opened Replay

  datatype ColumnValues = ColumnValues(columns: seq<string>, values: seq<Value>)

  datatype EventDML = InsertDML | UpdateDML | DeleteDML

  datatype DmlEvent = DmlEvent(
    schemaName: string, tableName: string, dml: EventDML,
    oldValues: Option<ColumnValues>, newValues: Option<ColumnValues>, lsn: nat, xid: nat)

  predicate Distinct(s: seq<string>) {
    forall i, j | 0 <= i < j < |s| :: s[i] != s[j]
  }

  /** One value per column, no column twice. */
  predicate Paired(cv: ColumnValues) {
    |cv.columns| == |cv.values| && Distinct(cv.columns)
  }

  function ColumnIndex(columns: seq<string>, name: string): (i: nat)
    ensures i <= |columns|
    ensures i < |columns| <==> name in columns
    ensures i < |columns| ==> columns[i] == name
  {
    if columns == [] || columns[0] == name then 0
    else 1 + ColumnIndex(columns[1..], name)
  }

  /** The value of the first column of that name. */
  function ValueOf(cv: ColumnValues, name: string): Option<Value>
    requires |cv.columns| == |cv.values|
  {
    var i := ColumnIndex(cv.columns, name);
    if i < |cv.columns| then Some(cv.values[i]) else None
  }

  method GetValueByName(cv: ColumnValues, name: string) returns (value: Value, ok: bool)
    requires |cv.columns| == |cv.values|
    ensures ok <==> name in cv.columns
    ensures ok ==> exists i ::
      0 <= i < |cv.columns| && cv.columns[i] == name && cv.values[i] == value && name !in cv.columns[..i]
    ensures ValueOf(cv, name) == if ok then Some(value) else None
  {
    for i := 0 to |cv.columns|
      invariant name !in cv.columns[..i]
    {
      if cv.columns[i] == name {
        IndexUnique(cv.columns, name, i);
        return cv.values[i], true;
      }
    }
    assert cv.columns[..|cv.columns|] == cv.columns;
    return Null, false;
  }

  lemma {:induction false} IndexUnique(columns: seq<string>, name: string, i: nat)
    requires i < |columns| && columns[i] == name && name !in columns[..i]
    ensures ColumnIndex(columns, name) == i
  {
    if i > 0 {
      assert columns[..i] == [columns[0]] + columns[1..][..i - 1];
      IndexUnique(columns[1..], name, i - 1);
    }
  }

  /** The index is that of the first such column. */
  lemma {:induction false} FirstIndex(columns: seq<string>, name: string)
    ensures name !in columns[..ColumnIndex(columns, name)]
  {
    if columns != [] && columns[0] != name {
      FirstIndex(columns[1..], name);
      var i := ColumnIndex(columns, name);
      assert columns[..i] == [columns[0]] + columns[1..][..i - 1];
    }
  }

  lemma DistinctIndex(columns: seq<string>, i: nat)
    requires Distinct(columns) && i < |columns|
    ensures ColumnIndex(columns, columns[i]) == i
  {
    IndexUnique(columns, columns[i], i);
  }

  /** The row with those values. */
  function RowOf(cv: ColumnValues): (row: Row)
    requires |cv.columns| == |cv.values|
    ensures forall c :: c in row <==> c in cv.columns
    ensures forall c :: c in row ==> Some(row[c]) == ValueOf(cv, c)
  {
    map c | c in cv.columns :: ValueOf(cv, c).value
  }

  /** The key of a row. */
  function KeyOf(row: Row, uk: seq<string>): Key
    requires forall c :: c in uk ==> c in row
  {
    seq(|uk|, i requires 0 <= i < |uk| => row[uk[i]])
  }

  /** A complete tuple of a table with that unique key. */
  predicate Complete(cv: ColumnValues, uk: seq<string>) {
    Paired(cv) && forall c | c in uk :: c in cv.columns
  }

  /** The tuples that the replica identity FULL puts into an event. */
  predicate WellFormed(e: DmlEvent, uk: seq<string>) {
    && (e.dml.InsertDML? || e.dml.UpdateDML? ==> e.newValues.Some? && Complete(e.newValues.value, uk))
    && (e.dml.UpdateDML? || e.dml.DeleteDML? ==> e.oldValues.Some? && Complete(e.oldValues.value, uk))
  }

  /** The row change that the event reports. */
  function Meaning(e: DmlEvent, uk: seq<string>): Event
    requires WellFormed(e, uk)
  {
    match e.dml
    case InsertDML =>
      var row := RowOf(e.newValues.value);
      Insert(KeyOf(row, uk), row)
    case UpdateDML =>
      var row := RowOf(e.newValues.value);
      Update(KeyOf(RowOf(e.oldValues.value), uk), KeyOf(row, uk), row)
    case DeleteDML => Delete(KeyOf(RowOf(e.oldValues.value), uk))
  }
}
