/** The statement that copies one range of rows: its text, and what it does to the ghost table. */
module CopySql {
  import opened Values
  import opened Strings
  import opened Quoting
  import opened Selection
  import opened Events
  import opened Sql
  import opened Builders
  import Chunks
  import Protocol
  import RangeFilters

  datatype CopyStmt = CopyStmt(
    target: TableName, source: TableName, columns: seq<string>,
    lo: Key, hi: Key, key: seq<string>, limit: nat, updates: seq<string>)

  /** The copy statement of a range, as built for a column list. */
  function CopyOf(target: TableName, source: TableName, columns: seq<string>, uk: seq<string>, r: Chunks.Range,
                  limit: nat): CopyStmt
  {
    CopyStmt(target, source, columns, r.lo, r.hi, uk, limit, NonKey(columns, uk))
  }

  // ---- text ----

  /** From ORDER BY to the end. */
  function TailText(key: string, limit: nat, action: string): string {
    "\n\t\t\tORDER BY " + (key + ("\n\t\t\tLIMIT " + (Decimal(limit)
    + ("\n\t\t\tON CONFLICT (" + (key + (") " + (action + "\n\t\t")))))))
  }

  /** The template of the statement. */
  function CopyText(target: string, source: string, columns: string, range: string, tail: string): string {
    "\n\t\t\tINSERT INTO " + (target + (" (" + (columns + (")\n\t\t\tSELECT " + (columns + (" FROM "
    + (source + ("\n\t\t\tWHERE " + (range + tail)))))))))
  }

  function RangeText(s: CopyStmt): string
    requires s.key != [] && |s.key| == |s.lo| == |s.hi|
  {
    RangeFilters.BoundText(s.key, RangeFilters.Bound(RangeFilters.AtLeast, s.lo)) + " AND "
    + RangeFilters.BoundText(s.key, RangeFilters.Bound(RangeFilters.AtMost, s.hi))
  }

  function RenderCopy(s: CopyStmt): string
    requires s.key != [] && |s.key| == |s.lo| == |s.hi|
  {
    CopyText(FullName(s.target), FullName(s.source), List(MapText(QuoteIdentifier, s.columns)), RangeText(s),
             TailText(List(MapText(QuoteIdentifier, s.key)), s.limit, ActionText(s.updates)))
  }

  // ---- meaning ----

  function Filter(s: CopyStmt): seq<RangeFilters.Bound> {
    [RangeFilters.Bound(RangeFilters.AtLeast, s.lo), RangeFilters.Bound(RangeFilters.AtMost, s.hi)]
  }

  predicate SameArity(o: Table, s: CopyStmt) {
    forall k | k in o :: |k| == |s.lo| == |s.hi|
  }

  /** WHERE, ORDER BY and LIMIT. */
  function SelectedKeys(o: Table, s: CopyStmt): seq<Key>
    requires SameArity(o, s)
  {
    var all := Sorted(RangeFilters.Selected(o.Keys, Filter(s)));
    if s.limit < |all| then all[..s.limit] else all
  }

  function ColumnSet(columns: seq<string>): set<string> {
    set c | c in columns
  }

  /** The selected rows, upserted one after the other. */
  function InsertAll(d: Schema, g: Table, o: Table, columns: seq<string>, updates: seq<string>, keys: seq<Key>)
    : Result<Table>
    requires (forall c :: c in d.uk ==> c in d.defaults) && forall k :: k in keys ==> k in o
    decreases |keys|
  {
    if keys == [] then Ok(g)
    else
      var n := |keys| - 1;
      var before := InsertAll(d, g, o, columns, updates, keys[..n]);
      if before.Err? then before
      else UpsertRow(d, Protocol.Project(o[keys[n]], ColumnSet(columns)), updates, before.value)
  }

  lemma SelectedKeysExist(o: Table, s: CopyStmt)
    requires SameArity(o, s)
    ensures forall k :: k in SelectedKeys(o, s) ==> k in o
  {
    var keys := RangeFilters.Selected(o.Keys, Filter(s));
    SortedEnumerates(keys);
    forall k | k in SelectedKeys(o, s)
      ensures k in o
    {
      assert k in Sorted(keys);
    }
  }

  /** The ghost table after the statement. */
  function ExecCopy(d: Schema, originalColumns: set<string>, o: Table, s: CopyStmt, g: Table): Result<Table>
    requires SameArity(o, s) && forall c :: c in d.uk ==> c in d.defaults
  {
    SelectedKeysExist(o, s);
    if !(ColumnSet(s.columns) <= originalColumns && ColumnSet(s.columns) <= d.columns) then Err("column does not exist")
    else if s.key != d.uk then Err("no unique constraint matching the ON CONFLICT specification")
    else InsertAll(d, g, o, s.columns, s.updates, SelectedKeys(o, s))
  }

  /** The rows that INSERT ... ON CONFLICT reports: not those that DO NOTHING leaves alone. */
  function Affected(d: Schema, g: Table, o: Table, columns: seq<string>, updates: seq<string>, keys: seq<Key>): nat
    requires (forall c :: c in d.uk ==> c in d.defaults) && forall k :: k in keys ==> k in o
    decreases |keys|
  {
    if keys == [] then 0
    else
      var n := |keys| - 1;
      var before := InsertAll(d, g, o, columns, updates, keys[..n]);
      var row := d.defaults + Protocol.Project(o[keys[n]], ColumnSet(columns));
      Affected(d, g, o, columns, updates, keys[..n])
      + if before.Err? || (updates == [] && KeyOf(row, d.uk) in before.value) then 0 else 1
  }

  /** The rows that the statement reports. */
  function AffectedBy(d: Schema, o: Table, s: CopyStmt, g: Table): nat
    requires SameArity(o, s) && forall c :: c in d.uk ==> c in d.defaults
  {
    SelectedKeysExist(o, s);
    Affected(d, g, o, s.columns, s.updates, SelectedKeys(o, s))
  }
}
