/** The statements sent to the ghost table: their text, and what they do to it. */
module Sql {
  import opened Values
  import opened Strings
  import opened Quoting
  import opened Events
  import opened Conversion
  import Chunks

  datatype TableName = TableName(schemaName: string, name: string)

  /** column = $param */
  datatype Assign = Assign(column: string, param: nat)

  datatype Stmt =
    | NoQuery
    | UpsertStmt(table: TableName, columns: seq<string>, params: seq<nat>, conflict: seq<string>, updates: seq<string>)
    | UpdateStmt(table: TableName, sets: seq<Assign>, wheres: seq<Assign>)
    | DeleteStmt(table: TableName, wheres: seq<Assign>)

  // ---- text ----

  function FullName(t: TableName): string {
    QuoteIdentifier(t.schemaName) + "." + QuoteIdentifier(t.name)
  }

  function Placeholder(n: nat): string {
    "$" + Decimal(n)
  }

  function AssignText(a: Assign): string {
    QuoteIdentifier(a.column) + " = " + Placeholder(a.param)
  }

  function ExcludedText(column: string): string {
    QuoteIdentifier(column) + " = EXCLUDED." + QuoteIdentifier(column)
  }

  function MapText<T>(f: T -> string, s: seq<T>): (r: seq<string>)
    ensures |r| == |s|
    ensures forall i :: 0 <= i < |s| ==> r[i] == f(s[i])
  {
    seq(|s|, i requires 0 <= i < |s| => f(s[i]))
  }

  function List(parts: seq<string>): string {
    Join(parts, ", ")
  }

  function UpsertText(table: string, columns: string, params: string, conflict: string, action: string): string {
    "INSERT INTO " + (table + (" (" + (columns + (") VALUES (" + (params + (") ON CONFLICT (" + (conflict
    + (") " + action))))))))
  }

  function ActionText(updates: seq<string>): string {
    if updates == [] then "DO NOTHING" else "DO UPDATE SET " + List(MapText(ExcludedText, updates))
  }

  function UpdateText(table: string, sets: string, wheres: string): string {
    "UPDATE " + (table + (" SET " + (sets + (" WHERE " + wheres))))
  }

  function DeleteText(table: string, wheres: string): string {
    "DELETE FROM " + (table + (" WHERE " + wheres))
  }

  function Render(s: Stmt): string {
    match s
    case NoQuery => ""
    case UpsertStmt(t, columns, params, conflict, updates) =>
      UpsertText(FullName(t), List(MapText(QuoteIdentifier, columns)), List(MapText(Placeholder, params)),
                 List(MapText(QuoteIdentifier, conflict)), ActionText(updates))
    case UpdateStmt(t, sets, wheres) =>
      UpdateText(FullName(t), List(MapText(AssignText, sets)), Join(MapText(AssignText, wheres), " AND "))
    case DeleteStmt(t, wheres) => DeleteText(FullName(t), Join(MapText(AssignText, wheres), " AND "))
  }

  function AssignParams(s: seq<Assign>): (r: seq<nat>)
    ensures |r| == |s|
  {
    seq(|s|, i requires 0 <= i < |s| => s[i].param)
  }

  /** The placeholder numbers, in the order of the text. */
  function Params(s: Stmt): seq<nat> {
    match s
    case NoQuery => []
    case UpsertStmt(_, _, params, _, _) => params
    case UpdateStmt(_, sets, wheres) => AssignParams(sets) + AssignParams(wheres)
    case DeleteStmt(_, wheres) => AssignParams(wheres)
  }

  // ---- meaning ----

  /** The table a statement runs on: its columns, their defaults, its unique key, and the types of the
      columns. */
  datatype Schema = Schema(columns: set<string>, defaults: Row, uk: seq<string>, types: Types)

  /** The types of the key's columns. */
  function KeyKinds(d: Schema): (r: seq<Chunks.Kind>)
    ensures |r| == |d.uk|
  {
    seq(|d.uk|, i requires 0 <= i < |d.uk| => KindOf(d.types, d.uk[i]))
  }

  ghost predicate ValidSchema(d: Schema) {
    d.defaults.Keys == d.columns && forall c :: c in d.uk ==> c in d.columns
  }

  /** Every row is stored under its own unique key. */
  ghost predicate WellKeyed(d: Schema, g: Table) {
    forall k :: k in g ==> g[k].Keys == d.columns && (forall c :: c in d.uk ==> c in g[k]) && KeyOf(g[k], d.uk) == k
  }

  predicate Bound(s: Stmt, args: seq<Value>) {
    forall i | 0 <= i < |Params(s)| :: 1 <= Params(s)[i] <= |args|
  }

  /** The inserted tuple. */
  function Incoming(s: Stmt, args: seq<Value>): (row: Row)
    requires s.UpsertStmt? && |s.columns| == |s.params| && Bound(s, args)
    ensures row.Keys == set c | c in s.columns
  {
    map c | c in s.columns ::
      var i := ColumnIndex(s.columns, c);
      assert Params(s)[i] == s.params[i];
      args[s.params[i] - 1]
  }

  predicate InRange(assigns: seq<Assign>, n: nat) {
    forall i | 0 <= i < |assigns| :: 1 <= assigns[i].param <= n
  }

  predicate Known(assigns: seq<Assign>, columns: set<string>) {
    forall i | 0 <= i < |assigns| :: assigns[i].column in columns
  }

  predicate Selects(row: Row, wheres: seq<Assign>, args: seq<Value>)
    requires InRange(wheres, |args|)
  {
    forall i | 0 <= i < |wheres| ::
      var w := wheres[i];
      w.column in row && row[w.column] == args[w.param - 1] && !args[w.param - 1].Null?
  }

  function NewValues(sets: seq<Assign>, args: seq<Value>): (row: Row)
    requires InRange(sets, |args|)
  {
    if sets == [] then map[]
    else
      var last := sets[|sets| - 1];
      NewValues(sets[..|sets| - 1], args)[last.column := args[last.param - 1]]
  }

  function Updated(g: Table, sets: seq<Assign>, wheres: seq<Assign>, args: seq<Value>): Table
    requires InRange(sets, |args|) && InRange(wheres, |args|)
  {
    map k | k in g :: if Selects(g[k], wheres, args) then g[k] + NewValues(sets, args) else g[k]
  }

  function Deleted(g: Table, wheres: seq<Assign>, args: seq<Value>): Table
    requires InRange(wheres, |args|)
  {
    map k | k in g && !Selects(g[k], wheres, args) :: g[k]
  }

  lemma BoundParts(s: Stmt, args: seq<Value>)
    requires Bound(s, args)
    ensures s.UpdateStmt? ==> InRange(s.sets, |args|) && InRange(s.wheres, |args|)
    ensures s.DeleteStmt? ==> InRange(s.wheres, |args|)
  {
    if s.UpdateStmt? {
      forall i | 0 <= i < |s.sets|
        ensures 1 <= s.sets[i].param <= |args|
      {
        assert Params(s)[i] == s.sets[i].param;
      }
      forall i | 0 <= i < |s.wheres|
        ensures 1 <= s.wheres[i].param <= |args|
      {
        assert Params(s)[|s.sets| + i] == s.wheres[i].param;
      }
    }
    if s.DeleteStmt? {
      forall i | 0 <= i < |s.wheres|
        ensures 1 <= s.wheres[i].param <= |args|
      {
        assert Params(s)[i] == s.wheres[i].param;
      }
    }
  }

  /** No column is assigned twice. */
  predicate OnceEach(sets: seq<Assign>) {
    forall i, j | 0 <= i < j < |sets| :: sets[i].column != sets[j].column
  }

  /** A set clause on a key column would move the row; the builders never write one. */
  predicate KeepsKey(s: Stmt, uk: seq<string>) {
    s.UpdateStmt? ==> forall i | 0 <= i < |s.sets| :: s.sets[i].column !in uk
  }

  /** One row of INSERT ... ON CONFLICT (key) DO UPDATE SET the listed columns, DO NOTHING for none. */
  function UpsertRow(d: Schema, incoming: Row, updates: seq<string>, g: Table): Result<Table>
    requires forall c :: c in d.uk ==> c in d.defaults
  {
    var row := d.defaults + incoming;
    var key := KeyOf(row, d.uk);
    if !NonNull(key) then Err("null value in a key column")
    else if key !in g then Ok(g[key := row])
    else Ok(g[key := g[key] + map c | c in updates && c in row :: row[c]])
  }

  /** The table after the statement, or the error that PostgreSQL reports. */
  function Exec(d: Schema, s: Stmt, args: seq<Value>, g: Table): (r: Result<Table>)
    requires Bound(s, args) && KeepsKey(s, d.uk)
    requires s.UpsertStmt? ==> |s.columns| == |s.params|
    requires forall c :: c in d.uk ==> c in d.defaults
  {
    BoundParts(s, args);
    match s
    case NoQuery => Ok(g)
    case UpsertStmt(_, columns, params, conflict, updates) =>
      if exists c | c in columns + updates :: c !in d.columns then Err("column does not exist")
      else if !Distinct(columns) then Err("column specified more than once")
      else if conflict != d.uk then Err("no unique constraint matching the ON CONFLICT specification")
      else
        UpsertRow(d, Incoming(s, args), updates, g)
    case UpdateStmt(_, sets, wheres) =>
      if !Known(sets, d.columns) || !Known(wheres, d.columns) then Err("column does not exist")
      else if sets == [] || wheres == [] then Err("syntax error")
      else if !OnceEach(sets) then Err("multiple assignments to same column")
      else Ok(Updated(g, sets, wheres, args))
    case DeleteStmt(_, wheres) =>
      if !Known(wheres, d.columns) then Err("column does not exist")
      else if wheres == [] then Err("syntax error")
      else Ok(Deleted(g, wheres, args))
  }

  // ---- any statement, as the database takes it ----

  function AssignColumns(s: seq<Assign>): (r: seq<string>)
    ensures |r| == |s|
  {
    seq(|s|, i requires 0 <= i < |s| => s[i].column)
  }

  /** The columns that the placeholders stand for, in the order of the text. */
  function ColumnsOf(s: Stmt): seq<string> {
    match s
    case NoQuery => []
    case UpsertStmt(_, columns, _, _, _) => columns
    case UpdateStmt(_, sets, wheres) => AssignColumns(sets) + AssignColumns(wheres)
    case DeleteStmt(_, wheres) => AssignColumns(wheres)
  }

  /** The i-th placeholder is $p. */
  predicate Uses(s: Stmt, i: int, p: nat) {
    0 <= i < |Params(s)| && i < |ColumnsOf(s)| && Params(s)[i] == p
  }

  /** The placeholder $p takes the argument for a column of that type. */
  predicate Deduced(types: Types, s: Stmt, p: nat, kind: Chunks.Kind) {
    && (exists i | 0 <= i < |Params(s)| :: Uses(s, i, p))
    && forall i | 0 <= i < |Params(s)| :: Uses(s, i, p) ==> KindOf(types, ColumnsOf(s)[i]) == kind
  }

  /** The argument of $p after the input function of the one type that all its uses have. */
  function TakenArg(types: Types, s: Stmt, p: nat, arg: Value): Option<Value> {
    if Deduced(types, s, p, Chunks.NumKind) then Input(Chunks.NumKind, arg)
    else if Deduced(types, s, p, Chunks.TextKind) then Input(Chunks.TextKind, arg)
    else if Deduced(types, s, p, Chunks.OtherKind) then Input(Chunks.OtherKind, arg)
    else None
  }

  /** The arguments as values of their columns. */
  function Taken(types: Types, s: Stmt, args: seq<Value>): Option<seq<Value>> {
    if exists i | 0 <= i < |args| :: TakenArg(types, s, i + 1, args[i]).None? then None
    else Some(seq(|args|, i requires 0 <= i < |args| => TakenArg(types, s, i + 1, args[i]).value))
  }

  lemma TakenHere(types: Types, s: Stmt, i: nat, arg: Value)
    requires i < |Params(s)| == |ColumnsOf(s)| && forall j :: 0 <= j < |Params(s)| ==> Params(s)[j] == j + 1
    ensures TakenArg(types, s, i + 1, arg) == Input(KindOf(types, ColumnsOf(s)[i]), arg)
  {
    hide Params, ColumnsOf, Input;
    assert Uses(s, i, i + 1);
    assert Deduced(types, s, i + 1, KindOf(types, ColumnsOf(s)[i]));
  }

  /** In a statement whose placeholders are $1 to $n in order, each argument is taken for its column. */
  lemma TakenInOrder(types: Types, s: Stmt, args: seq<Value>, taken: seq<Value>)
    requires |Params(s)| == |ColumnsOf(s)| == |args| == |taken|
    requires forall i :: 0 <= i < |args| ==> Params(s)[i] == i + 1
    requires forall i :: 0 <= i < |args| ==> Input(KindOf(types, ColumnsOf(s)[i]), args[i]) == Some(taken[i])
    ensures Taken(types, s, args) == Some(taken)
  {
    hide Params, ColumnsOf, Input, TakenArg;
    forall i | 0 <= i < |args|
      ensures TakenArg(types, s, i + 1, args[i]) == Some(taken[i])
    {
      TakenHere(types, s, i, args[i]);
    }
    assert Taken(types, s, args).value == taken;
  }

  /** The key of any row; a column that the row does not have counts as null. */
  function KeyIn(row: Row, uk: seq<string>): Key {
    seq(|uk|, i requires 0 <= i < |uk| => if uk[i] in row then row[uk[i]] else Null)
  }

  /** The rows, each stored under the key it has now; a key that is null or not unique is refused. */
  function Stored(rows: Table, uk: seq<string>): Result<Table> {
    if exists k | k in rows :: !NonNull(KeyIn(rows[k], uk)) then Err("null value in a key column")
    else if exists k, l | k in rows && l in rows :: k != l && KeyIn(rows[k], uk) == KeyIn(rows[l], uk)
    then Err("duplicate key value violates unique constraint")
    else Ok(map k | k in rows :: KeyIn(rows[k], uk) := rows[k])
  }

  /** The statement with arguments that are values of their columns. */
  function Executed(d: Schema, s: Stmt, args: seq<Value>, g: Table): Result<Table>
    requires Bound(s, args) && (s.UpsertStmt? ==> |s.columns| == |s.params|)
    requires forall c :: c in d.uk ==> c in d.defaults
  {
    if KeepsKey(s, d.uk) then Exec(d, s, args, g)
    else
      BoundParts(s, args);
      if !Known(s.sets, d.columns) || !Known(s.wheres, d.columns) then Err("column does not exist")
      else if s.wheres == [] then Err("syntax error")
      else if !OnceEach(s.sets) then Err("multiple assignments to same column")
      else Stored(Updated(g, s.sets, s.wheres, args), d.uk)
  }

  /** What becomes of the table when the database is sent a statement and its arguments, whatever they
      are. A statement on another relation is refused. */
  function Perform(d: Schema, t: TableName, s: Stmt, args: seq<Value>, g: Table): Result<Table>
    requires forall c :: c in d.uk ==> c in d.defaults
  {
    if s.NoQuery? then Ok(g)
    else if s.table != t then Err("relation does not exist")
    else if !Bound(s, args) then Err("there is no parameter")
    else if s.UpsertStmt? && |s.columns| != |s.params| then Err("INSERT has a wrong number of expressions")
    else
      match Taken(d.types, s, args)
      case None => Err("invalid parameter")
      case Some(taken) => Executed(d, s, taken, g)
  }
}
