/** A reader for the statements' text: every built statement reads back as exactly that statement. */
module SqlReading {
  import opened Values
  import opened Strings
  import opened Quoting
  import opened Events
  import opened Sql
  import opened Builders

  type Parser<T> = string -> Option<(T, string)>

  function Skip(s: string, word: string): Option<string> {
    if word <= s then Some(s[|word|..]) else None
  }

  function ReadName(s: string): Option<(string, string)> {
    ScanToken(s, '"')
  }

  function ReadTable(s: string): Option<(TableName, string)> {
    var schemaName :- ReadName(s);
    var rest :- Skip(schemaName.1, ".");
    var name :- ReadName(rest);
    Some((TableName(schemaName.0, name.0), name.1))
  }

  /** The length of the leading digits. */
  function DigitsEnd(s: string): (n: nat)
    ensures n <= |s| && AllDigits(s[..n])
  {
    if s == "" || !IsDigit(s[0]) then 0
    else
      var n := 1 + DigitsEnd(s[1..]);
      assert s[..n] == [s[0]] + s[1..][..n - 1];
      n
  }

  function ReadParam(s: string): Option<(nat, string)> {
    var digits :- Skip(s, "$");
    var n := DigitsEnd(digits);
    if n == 0 then None else Some((DigitsValue(digits[..n]), digits[n..]))
  }

  function ReadAssign(s: string): Option<(Assign, string)> {
    var column :- ReadName(s);
    var rest :- Skip(column.1, " = ");
    var param :- ReadParam(rest);
    Some((Assign(column.0, param.0), param.1))
  }

  function ReadExcluded(s: string): Option<(string, string)> {
    var column :- ReadName(s);
    var rest :- Skip(column.1, " = EXCLUDED.");
    var same :- ReadName(rest);
    if same.0 == column.0 then Some(same) else None
  }

  /** A list of items with a separator between them, possibly empty. */
  function ReadItems<T>(p: Parser<T>, sep: string, s: string): (seq<T>, string)
    decreases |s|
  {
    match p(s)
    case None => ([], s)
    case Some(first) =>
      if |first.1| < |s| && sep != "" && sep <= first.1 then
        var others := ReadItems(p, sep, first.1[|sep|..]);
        ([first.0] + others.0, others.1)
      else ([first.0], first.1)
  }

  function ReadAction(s: string): Option<seq<string>> {
    match Skip(s, "DO UPDATE SET ")
    case None => if s == "DO NOTHING" then Some([]) else None
    case Some(rest) =>
      var updates := ReadItems(ReadExcluded, ", ", rest);
      if updates.0 != [] && updates.1 == "" then Some(updates.0) else None
  }

  function ReadUpsert(s: string): Option<Stmt> {
    var s1 :- Skip(s, "INSERT INTO ");
    var table :- ReadTable(s1);
    var s2 :- Skip(table.1, " (");
    var columns := ReadItems(ReadName, ", ", s2);
    var s3 :- Skip(columns.1, ") VALUES (");
    var params := ReadItems(ReadParam, ", ", s3);
    var s4 :- Skip(params.1, ") ON CONFLICT (");
    var conflict := ReadItems(ReadName, ", ", s4);
    var s5 :- Skip(conflict.1, ") ");
    var updates :- ReadAction(s5);
    Some(UpsertStmt(table.0, columns.0, params.0, conflict.0, updates))
  }

  function ReadUpdate(s: string): Option<Stmt> {
    var s1 :- Skip(s, "UPDATE ");
    var table :- ReadTable(s1);
    var s2 :- Skip(table.1, " SET ");
    var sets := ReadItems(ReadAssign, ", ", s2);
    var s3 :- Skip(sets.1, " WHERE ");
    var wheres := ReadItems(ReadAssign, " AND ", s3);
    if wheres.1 == "" then Some(UpdateStmt(table.0, sets.0, wheres.0)) else None
  }

  function ReadDelete(s: string): Option<Stmt> {
    var s1 :- Skip(s, "DELETE FROM ");
    var table :- ReadTable(s1);
    var s2 :- Skip(table.1, " WHERE ");
    var wheres := ReadItems(ReadAssign, " AND ", s2);
    if wheres.1 == "" then Some(DeleteStmt(table.0, wheres.0)) else None
  }

  function ReadStatement(s: string): Option<Stmt> {
    if s == "" then Some(NoQuery)
    else if s[0] == 'I' then ReadUpsert(s)
    else if s[0] == 'U' then ReadUpdate(s)
    else ReadDelete(s)
  }

  /** What becomes of the table when the database is sent the text. */
  function RunText(d: Schema, t: TableName, query: string, args: seq<Value>, g: Table): Result<Table>
    requires forall c :: c in d.uk ==> c in d.defaults
  {
    match ReadStatement(query)
    case None => Err("syntax error")
    case Some(s) => Perform(d, t, s, args, g)
  }

  // ---- reading what was written ----

  lemma SkipWord(word: string, rest: string)
    ensures Skip(word + rest, word) == Some(rest)
  {
    assert (word + rest)[|word|..] == rest;
  }

  lemma NameRead(name: string, rest: string)
    requires !Quoted(name) && (rest == "" || rest[0] != '"')
    ensures ReadName(QuoteIdentifier(name) + rest) == Some((name, rest))
  {
    ScanQuotedIff(name, rest);
  }

  predicate PlainTable(t: TableName) {
    !Quoted(t.schemaName) && !Quoted(t.name)
  }

  lemma TableRead(t: TableName, rest: string)
    requires PlainTable(t) && (rest == "" || rest[0] != '"')
    ensures ReadTable(FullName(t) + rest) == Some((t, rest))
  {
    var schemaName, name := QuoteIdentifier(t.schemaName), QuoteIdentifier(t.name);
    assert FullName(t) + rest == schemaName + ("." + (name + rest));
    NameRead(t.schemaName, "." + (name + rest));
    SkipWord(".", name + rest);
    NameRead(t.name, rest);
  }

  lemma {:induction false} DigitsEndOf(digits: string, rest: string)
    requires AllDigits(digits) && (rest == "" || !IsDigit(rest[0]))
    ensures DigitsEnd(digits + rest) == |digits|
  {
    if digits == "" {
      assert digits + rest == rest;
    } else {
      assert digits[0] in digits;
      assert (digits + rest)[1..] == digits[1..] + rest;
      DigitsEndOf(digits[1..], rest);
    }
  }

  lemma ParamRead(n: nat, rest: string)
    requires rest == "" || !IsDigit(rest[0])
    ensures ReadParam(Placeholder(n) + rest) == Some((n, rest))
  {
    assert Placeholder(n) + rest == "$" + (Digits(n) + rest);
    SkipWord("$", Digits(n) + rest);
    DigitsEndOf(Digits(n), rest);
    assert (Digits(n) + rest)[..|Digits(n)|] == Digits(n) && (Digits(n) + rest)[|Digits(n)|..] == rest;
    DigitsValueDigits(n);
  }

  lemma AssignRead(a: Assign, rest: string)
    requires !Quoted(a.column) && (rest == "" || !IsDigit(rest[0]))
    ensures ReadAssign(AssignText(a) + rest) == Some((a, rest))
  {
    var param := Placeholder(a.param) + rest;
    assert AssignText(a) + rest == QuoteIdentifier(a.column) + (" = " + param);
    NameRead(a.column, " = " + param);
    SkipWord(" = ", param);
    ParamRead(a.param, rest);
  }

  lemma ExcludedRead(column: string, rest: string)
    requires !Quoted(column) && (rest == "" || rest[0] != '"')
    ensures ReadExcluded(ExcludedText(column) + rest) == Some((column, rest))
  {
    var same := QuoteIdentifier(column) + rest;
    assert ExcludedText(column) + rest == QuoteIdentifier(column) + (" = EXCLUDED." + same);
    NameRead(column, " = EXCLUDED." + same);
    SkipWord(" = EXCLUDED.", same);
    NameRead(column, rest);
  }

  predicate ReadsOne<T(==)>(p: Parser<T>, f: T -> string, v: T, rest: string) {
    f(v) != "" && p(f(v) + rest) == Some((v, rest))
  }

  /** The parser reads every item back, before a separator and before what follows the list. */
  ghost predicate Reads<T(!new)>(p: Parser<T>, f: T -> string, sep: string, items: seq<T>, rest: string) {
    && sep != "" && !(sep <= rest) && p(rest).None?
    && forall v, r :: v in items && (r == rest || sep <= r) ==> ReadsOne(p, f, v, r)
  }

  lemma {:induction false} ItemsRead<T(!new)>(p: Parser<T>, f: T -> string, sep: string, items: seq<T>, rest: string)
    requires Reads(p, f, sep, items, rest)
    ensures ReadItems(p, sep, Join(MapText(f, items), sep) + rest) == (items, rest)
  {
    if items == [] {
      assert Join(MapText(f, items), sep) + rest == rest;
    } else if |items| == 1 {
      assert items[0] in items && items == [items[0]];
      assert Join(MapText(f, items), sep) == f(items[0]);
      assert ReadsOne(p, f, items[0], rest);
    } else {
      var tail := Join(MapText(f, items[1..]), sep) + rest;
      assert MapText(f, items)[1..] == MapText(f, items[1..]);
      assert Join(MapText(f, items), sep) + rest == f(items[0]) + (sep + tail);
      assert items[0] in items && sep <= sep + tail && (sep + tail)[|sep|..] == tail;
      assert ReadsOne(p, f, items[0], sep + tail);
      ItemsRead(p, f, sep, items[1..], rest);
      assert [items[0]] + items[1..] == items;
    }
  }

  // ---- whole statements ----

  predicate PlainNames(names: seq<string>) {
    forall n | n in names :: !Quoted(n)
  }

  predicate PlainAssigns(assigns: seq<Assign>) {
    forall a | a in assigns :: !Quoted(a.column)
  }

  /** No name in the statement starts and ends with a double quote. */
  predicate Plain(s: Stmt) {
    match s
    case NoQuery => true
    case UpsertStmt(t, columns, _, conflict, updates) =>
      PlainTable(t) && PlainNames(columns) && PlainNames(conflict) && PlainNames(updates)
    case UpdateStmt(t, sets, wheres) => PlainTable(t) && PlainAssigns(sets) && PlainAssigns(wheres)
    case DeleteStmt(t, wheres) => PlainTable(t) && PlainAssigns(wheres)
  }

  lemma NamesRead(names: seq<string>, rest: string)
    requires PlainNames(names) && rest != "" && rest[0] in {')', ' ', '\n'}
    ensures ReadItems(ReadName, ", ", List(MapText(QuoteIdentifier, names)) + rest) == (names, rest)
  {
    forall v, r | v in names && (r == rest || ", " <= r)
      ensures ReadsOne(ReadName, QuoteIdentifier, v, r)
    {
      NameRead(v, r);
    }
    ItemsRead(ReadName, QuoteIdentifier, ", ", names, rest);
  }

  lemma ParamsRead(params: seq<nat>, rest: string)
    requires rest != "" && rest[0] == ')'
    ensures ReadItems(ReadParam, ", ", List(MapText(Placeholder, params)) + rest) == (params, rest)
  {
    forall v: nat, r | v in params && (r == rest || ", " <= r)
      ensures ReadsOne(ReadParam, Placeholder, v, r)
    {
      ParamRead(v, r);
    }
    ItemsRead(ReadParam, Placeholder, ", ", params, rest);
  }

  lemma AssignsRead(assigns: seq<Assign>, sep: string, rest: string)
    requires PlainAssigns(assigns) && sep in {", ", " AND "}
    requires rest == "" || (rest[0] == ' ' && !(sep <= rest))
    ensures ReadItems(ReadAssign, sep, Join(MapText(AssignText, assigns), sep) + rest) == (assigns, rest)
  {
    forall v, r | v in assigns && (r == rest || sep <= r)
      ensures ReadsOne(ReadAssign, AssignText, v, r)
    {
      AssignRead(v, r);
    }
    ItemsRead(ReadAssign, AssignText, sep, assigns, rest);
  }

  lemma ExcludedsRead(updates: seq<string>)
    requires PlainNames(updates)
    ensures ReadItems(ReadExcluded, ", ", List(MapText(ExcludedText, updates))) == (updates, "")
  {
    forall v, r | v in updates && (r == "" || ", " <= r)
      ensures ReadsOne(ReadExcluded, ExcludedText, v, r)
    {
      ExcludedRead(v, r);
    }
    ItemsRead(ReadExcluded, ExcludedText, ", ", updates, "");
    var items := List(MapText(ExcludedText, updates));
    assert items + "" == items;
  }

  lemma ActionRead(updates: seq<string>)
    requires PlainNames(updates)
    ensures ReadAction(ActionText(updates)) == Some(updates)
  {
    if updates != [] {
      ExcludedsRead(updates);
      SkipWord("DO UPDATE SET ", List(MapText(ExcludedText, updates)));
    }
  }

  lemma UpsertRead(t: TableName, columns: seq<string>, params: seq<nat>, conflict: seq<string>, updates: seq<string>)
    requires PlainTable(t) && PlainNames(columns) && PlainNames(conflict) && PlainNames(updates)
    ensures ReadUpsert(Render(UpsertStmt(t, columns, params, conflict, updates)))
         == Some(UpsertStmt(t, columns, params, conflict, updates))
  {
    var s5 := ActionText(updates);
    var s4 := List(MapText(QuoteIdentifier, conflict)) + (") " + s5);
    var s3 := List(MapText(Placeholder, params)) + (") ON CONFLICT (" + s4);
    var s2 := List(MapText(QuoteIdentifier, columns)) + (") VALUES (" + s3);
    var s1 := FullName(t) + (" (" + s2);
    SkipWord("INSERT INTO ", s1);
    TableRead(t, " (" + s2);
    SkipWord(" (", s2);
    NamesRead(columns, ") VALUES (" + s3);
    SkipWord(") VALUES (", s3);
    ParamsRead(params, ") ON CONFLICT (" + s4);
    SkipWord(") ON CONFLICT (", s4);
    NamesRead(conflict, ") " + s5);
    SkipWord(") ", s5);
    ActionRead(updates);
  }

  lemma UpdateRead(t: TableName, sets: seq<Assign>, wheres: seq<Assign>)
    requires PlainTable(t) && PlainAssigns(sets) && PlainAssigns(wheres)
    ensures ReadUpdate(Render(UpdateStmt(t, sets, wheres))) == Some(UpdateStmt(t, sets, wheres))
  {
    var s3 := Join(MapText(AssignText, wheres), " AND ");
    var s2 := List(MapText(AssignText, sets)) + (" WHERE " + s3);
    SkipWord("UPDATE ", FullName(t) + (" SET " + s2));
    TableRead(t, " SET " + s2);
    SkipWord(" SET ", s2);
    AssignsRead(sets, ", ", " WHERE " + s3);
    SkipWord(" WHERE ", s3);
    AssignsRead(wheres, " AND ", "");
    assert s3 + "" == s3;
  }

  lemma DeleteRead(t: TableName, wheres: seq<Assign>)
    requires PlainTable(t) && PlainAssigns(wheres)
    ensures ReadDelete(Render(DeleteStmt(t, wheres))) == Some(DeleteStmt(t, wheres))
  {
    var s2 := Join(MapText(AssignText, wheres), " AND ");
    SkipWord("DELETE FROM ", FullName(t) + (" WHERE " + s2));
    TableRead(t, " WHERE " + s2);
    SkipWord(" WHERE ", s2);
    AssignsRead(wheres, " AND ", "");
    assert s2 + "" == s2;
  }

  /** Round trip: the text of a statement reads back as exactly that statement, whatever its names
      contain (separators, key words, quotes), as long as none of them looks quoted already. */
  lemma StatementRead(s: Stmt)
    requires Plain(s)
    ensures ReadStatement(Render(s)) == Some(s)
  {
    match s
    case NoQuery =>
    case UpsertStmt(t, columns, params, conflict, updates) => UpsertRead(t, columns, params, conflict, updates);
    case UpdateStmt(t, sets, wheres) => UpdateRead(t, sets, wheres);
    case DeleteStmt(t, wheres) => DeleteRead(t, wheres);
  }

  // ---- reading consumes at least what correct quoting writes ----

  /** The length of a name between quotes with the quotes in it doubled. */
  function NameSize(name: string): nat {
    |Escape(name, '"')| + 2
  }

  lemma {:induction false} EscapeLonger(s: string, d: char)
    ensures |Escape(s, d)| >= |s|
  {
    if s != "" {
      EscapeLonger(s[1..], d);
    }
  }

  lemma QuotedShorter(name: string)
    ensures |QuoteIdentifier(name)| <= NameSize(name)
    ensures |QuoteIdentifier(name)| < NameSize(name) <==> Quoted(name)
  {
    EscapeLonger(name, '"');
  }

  lemma {:induction false} ScanBodyConsumes(s: string, d: char)
    ensures ScanBody(s, d).Some? ==>
      var r := ScanBody(s, d).value; |s| == |Escape(r.0, d)| + 1 + |r.1|
    decreases |s|
  {
    if s != "" {
      if s[0] != d {
        ScanBodyConsumes(s[1..], d);
        if ScanBody(s[1..], d).Some? {
          var r := ScanBody(s[1..], d).value;
          assert ([s[0]] + r.0)[1..] == r.0;
        }
      } else if |s| >= 2 && s[1] == d {
        ScanBodyConsumes(s[2..], d);
        if ScanBody(s[2..], d).Some? {
          var r := ScanBody(s[2..], d).value;
          assert ([d] + r.0)[1..] == r.0;
        }
      }
    }
  }

  /** The parser consumes at least the size of what it returns. */
  ghost predicate ConsumesAt<T(!new)>(p: Parser<T>, size: T -> nat, s: string) {
    p(s).Some? ==> |s| >= size(p(s).value.0) + |p(s).value.1|
  }

  lemma NameConsumes(s: string)
    ensures ConsumesAt(ReadName, NameSize, s)
  {
    if s != "" {
      ScanBodyConsumes(s[1..], '"');
    }
  }

  function TableSize(t: TableName): nat {
    NameSize(t.schemaName) + 1 + NameSize(t.name)
  }

  lemma TableConsumes(s: string)
    ensures ConsumesAt(ReadTable, TableSize, s)
  {
    if ReadTable(s).Some? {
      NameConsumes(s);
      NameConsumes(ReadName(s).value.1[1..]);
    }
  }

  /** No shorter text of digits has the value. */
  lemma {:induction false} DigitsShortest(ds: string)
    requires AllDigits(ds) && ds != ""
    ensures |Digits(DigitsValue(ds))| <= |ds|
  {
    var n := |ds| - 1;
    assert ds[n] in ds;
    if n > 0 {
      assert AllDigits(ds[..n]);
      DigitsShortest(ds[..n]);
    } else {
      assert ds[..n] == "";
    }
  }

  function ParamSize(n: nat): nat {
    |Placeholder(n)|
  }

  lemma ParamConsumes(s: string)
    ensures ConsumesAt(ReadParam, ParamSize, s)
  {
    if ReadParam(s).Some? {
      var digits := s[1..];
      DigitsShortest(digits[..DigitsEnd(digits)]);
    }
  }

  function AssignSize(a: Assign): nat {
    NameSize(a.column) + 3 + ParamSize(a.param)
  }

  lemma AssignConsumes(s: string)
    ensures ConsumesAt(ReadAssign, AssignSize, s)
  {
    if ReadAssign(s).Some? {
      NameConsumes(s);
      ParamConsumes(ReadName(s).value.1[3..]);
    }
  }

  function ExcludedSize(column: string): nat {
    NameSize(column) + 12 + NameSize(column)
  }

  lemma ExcludedConsumes(s: string)
    ensures ConsumesAt(ReadExcluded, ExcludedSize, s)
  {
    if ReadExcluded(s).Some? {
      NameConsumes(s);
      NameConsumes(ReadName(s).value.1[12..]);
    }
  }

  function ItemsSize<T>(size: T -> nat, items: seq<T>, sep: nat): nat {
    if items == [] then 0
    else if |items| == 1 then size(items[0])
    else size(items[0]) + sep + ItemsSize(size, items[1..], sep)
  }

  lemma {:induction false} ItemsConsume<T(!new)>(p: Parser<T>, size: T -> nat, sep: string, s: string)
    requires forall t :: ConsumesAt(p, size, t)
    ensures var r := ReadItems(p, sep, s); |s| >= ItemsSize(size, r.0, |sep|) + |r.1|
    decreases |s|
  {
    assert ConsumesAt(p, size, s);
    if p(s).Some? {
      var first := p(s).value;
      if |first.1| < |s| && sep != "" && sep <= first.1 {
        var others := ReadItems(p, sep, first.1[|sep|..]);
        ItemsConsume(p, size, sep, first.1[|sep|..]);
        assert ([first.0] + others.0)[1..] == others.0;
      }
    }
  }

  /** Writing the items takes at most their size, and less exactly when an item does. */
  lemma {:induction false} ItemsWritten<T(!new)>(f: T -> string, size: T -> nat, items: seq<T>, sep: string)
    requires forall v :: v in items ==> |f(v)| <= size(v)
    ensures |Join(MapText(f, items), sep)| <= ItemsSize(size, items, |sep|)
    ensures |Join(MapText(f, items), sep)| < ItemsSize(size, items, |sep|) <==>
      exists v :: v in items && |f(v)| < size(v)
  {
    if |items| == 1 {
      assert items == [items[0]];
    } else if |items| > 1 {
      assert MapText(f, items)[1..] == MapText(f, items[1..]);
      ItemsWritten(f, size, items[1..], sep);
      assert items == [items[0]] + items[1..];
    }
  }

  lemma NamesConsume(s: string)
    ensures var r := ReadItems(ReadName, ", ", s); |s| >= ItemsSize(NameSize, r.0, 2) + |r.1|
  {
    forall t
      ensures ConsumesAt(ReadName, NameSize, t)
    {
      NameConsumes(t);
    }
    ItemsConsume(ReadName, NameSize, ", ", s);
  }

  lemma ParamsConsume(s: string)
    ensures var r := ReadItems(ReadParam, ", ", s); |s| >= ItemsSize(ParamSize, r.0, 2) + |r.1|
  {
    forall t
      ensures ConsumesAt(ReadParam, ParamSize, t)
    {
      ParamConsumes(t);
    }
    ItemsConsume(ReadParam, ParamSize, ", ", s);
  }

  lemma AssignsConsume(s: string, sep: string)
    ensures var r := ReadItems(ReadAssign, sep, s); |s| >= ItemsSize(AssignSize, r.0, |sep|) + |r.1|
  {
    forall t
      ensures ConsumesAt(ReadAssign, AssignSize, t)
    {
      AssignConsumes(t);
    }
    ItemsConsume(ReadAssign, AssignSize, sep, s);
  }

  function ActionSize(updates: seq<string>): nat {
    if updates == [] then |"DO NOTHING"| else |"DO UPDATE SET "| + ItemsSize(ExcludedSize, updates, 2)
  }

  lemma ActionConsumes(s: string)
    ensures ReadAction(s).Some? ==> |s| >= ActionSize(ReadAction(s).value)
  {
    if Skip(s, "DO UPDATE SET ").Some? {
      forall t
        ensures ConsumesAt(ReadExcluded, ExcludedSize, t)
      {
        ExcludedConsumes(t);
      }
      ItemsConsume(ReadExcluded, ExcludedSize, ", ", Skip(s, "DO UPDATE SET ").value);
    }
  }

  function StatementSize(s: Stmt): nat {
    match s
    case NoQuery => 0
    case UpsertStmt(t, columns, params, conflict, updates) =>
      |"INSERT INTO "| + TableSize(t) + |" ("| + ItemsSize(NameSize, columns, 2) + |") VALUES ("|
      + ItemsSize(ParamSize, params, 2) + |") ON CONFLICT ("| + ItemsSize(NameSize, conflict, 2) + |") "|
      + ActionSize(updates)
    case UpdateStmt(t, sets, wheres) =>
      |"UPDATE "| + TableSize(t) + |" SET "| + ItemsSize(AssignSize, sets, 2) + |" WHERE "|
      + ItemsSize(AssignSize, wheres, 5)
    case DeleteStmt(t, wheres) =>
      |"DELETE FROM "| + TableSize(t) + |" WHERE "| + ItemsSize(AssignSize, wheres, 5)
  }

  lemma UpsertConsumes(s: string)
    ensures ReadUpsert(s).Some? ==> |s| >= StatementSize(ReadUpsert(s).value)
  {
    if ReadUpsert(s).Some? {
      var s1 := Skip(s, "INSERT INTO ").value;
      TableConsumes(s1);
      var s2 := Skip(ReadTable(s1).value.1, " (").value;
      NamesConsume(s2);
      var s3 := Skip(ReadItems(ReadName, ", ", s2).1, ") VALUES (").value;
      ParamsConsume(s3);
      var s4 := Skip(ReadItems(ReadParam, ", ", s3).1, ") ON CONFLICT (").value;
      NamesConsume(s4);
      ActionConsumes(Skip(ReadItems(ReadName, ", ", s4).1, ") ").value);
    }
  }

  lemma UpdateConsumes(s: string)
    ensures ReadUpdate(s).Some? ==> |s| >= StatementSize(ReadUpdate(s).value)
  {
    if ReadUpdate(s).Some? {
      var s1 := Skip(s, "UPDATE ").value;
      TableConsumes(s1);
      var s2 := Skip(ReadTable(s1).value.1, " SET ").value;
      AssignsConsume(s2, ", ");
      AssignsConsume(Skip(ReadItems(ReadAssign, ", ", s2).1, " WHERE ").value, " AND ");
    }
  }

  lemma DeleteConsumes(s: string)
    ensures ReadDelete(s).Some? ==> |s| >= StatementSize(ReadDelete(s).value)
  {
    if ReadDelete(s).Some? {
      var s1 := Skip(s, "DELETE FROM ").value;
      TableConsumes(s1);
      AssignsConsume(Skip(ReadTable(s1).value.1, " WHERE ").value, " AND ");
    }
  }

  lemma StatementConsumes(s: string)
    ensures ReadStatement(s).Some? ==> |s| >= StatementSize(ReadStatement(s).value)
  {
    UpsertConsumes(s);
    UpdateConsumes(s);
    DeleteConsumes(s);
  }

  // ---- what is written is shorter where a name looks quoted already ----

  lemma NamesWritten(names: seq<string>)
    ensures |List(MapText(QuoteIdentifier, names))| <= ItemsSize(NameSize, names, 2)
    ensures |List(MapText(QuoteIdentifier, names))| < ItemsSize(NameSize, names, 2) <==> !PlainNames(names)
  {
    forall v | v in names
      ensures |QuoteIdentifier(v)| <= NameSize(v) && (|QuoteIdentifier(v)| < NameSize(v) <==> Quoted(v))
    {
      QuotedShorter(v);
    }
    ItemsWritten(QuoteIdentifier, NameSize, names, ", ");
  }

  lemma ParamsWritten(params: seq<nat>)
    ensures |List(MapText(Placeholder, params))| <= ItemsSize(ParamSize, params, 2)
  {
    ItemsWritten(Placeholder, ParamSize, params, ", ");
  }

  lemma AssignsWritten(assigns: seq<Assign>, sep: string)
    ensures |Join(MapText(AssignText, assigns), sep)| <= ItemsSize(AssignSize, assigns, |sep|)
    ensures |Join(MapText(AssignText, assigns), sep)| < ItemsSize(AssignSize, assigns, |sep|) <==>
      !PlainAssigns(assigns)
  {
    forall v | v in assigns
      ensures |AssignText(v)| <= AssignSize(v) && (|AssignText(v)| < AssignSize(v) <==> Quoted(v.column))
    {
      QuotedShorter(v.column);
    }
    ItemsWritten(AssignText, AssignSize, assigns, sep);
  }

  lemma ActionWritten(updates: seq<string>)
    ensures |ActionText(updates)| <= ActionSize(updates)
    ensures |ActionText(updates)| < ActionSize(updates) <==> !PlainNames(updates)
  {
    forall v | v in updates
      ensures |ExcludedText(v)| <= ExcludedSize(v) && (|ExcludedText(v)| < ExcludedSize(v) <==> Quoted(v))
    {
      QuotedShorter(v);
    }
    ItemsWritten(ExcludedText, ExcludedSize, updates, ", ");
  }

  lemma TableWritten(t: TableName)
    ensures |FullName(t)| <= TableSize(t)
    ensures |FullName(t)| < TableSize(t) <==> !PlainTable(t)
  {
    QuotedShorter(t.schemaName);
    QuotedShorter(t.name);
  }

  lemma UpsertWritten(t: TableName, columns: seq<string>, params: seq<nat>, conflict: seq<string>, updates: seq<string>)
    ensures var s := UpsertStmt(t, columns, params, conflict, updates);
      !Plain(s) ==> |Render(s)| < StatementSize(s)
  {
    TableWritten(t);
    NamesWritten(columns);
    ParamsWritten(params);
    NamesWritten(conflict);
    ActionWritten(updates);
  }

  lemma UpdateWritten(t: TableName, sets: seq<Assign>, wheres: seq<Assign>)
    ensures var s := UpdateStmt(t, sets, wheres); !Plain(s) ==> |Render(s)| < StatementSize(s)
    ensures var s := DeleteStmt(t, wheres); !Plain(s) ==> |Render(s)| < StatementSize(s)
  {
    TableWritten(t);
    AssignsWritten(sets, ", ");
    AssignsWritten(wheres, " AND ");
  }

  lemma StatementWritten(s: Stmt)
    ensures !Plain(s) ==> |Render(s)| < StatementSize(s)
  {
    match s
    case NoQuery =>
    case UpsertStmt(t, columns, params, conflict, updates) => UpsertWritten(t, columns, params, conflict, updates);
    case UpdateStmt(t, sets, wheres) => UpdateWritten(t, sets, wheres);
    case DeleteStmt(t, wheres) => UpdateWritten(t, [], wheres);
  }

  /** Exactly: the text of a statement reads back as that statement if and only if none of its names
      starts and ends with a double quote. */
  lemma StatementReadIff(s: Stmt)
    ensures ReadStatement(Render(s)) == Some(s) <==> Plain(s)
  {
    if Plain(s) {
      StatementRead(s);
    } else {
      StatementWritten(s);
      StatementConsumes(Render(s));
    }
  }

  // ---- the texts built for events ----

  lemma NumberedPlain(columns: seq<string>, from: nat)
    requires PlainNames(columns)
    ensures PlainAssigns(Numbered(columns, from))
  {
    forall a | a in Numbered(columns, from)
      ensures !Quoted(a.column)
    {
      var i :| 0 <= i < |columns| && Numbered(columns, from)[i] == a;
      assert columns[i] in columns;
    }
  }

  /** With plain names in the context and in the event, the statement for the event is plain. */
  lemma BuiltIsPlain(ctx: Context, e: DmlEvent)
    requires Tuples(e) && PlainTable(Ghost(ctx)) && PlainNames(ctx.uniqueKeyColumns)
    requires e.newValues.Some? ==> PlainNames(e.newValues.value.columns)
    ensures Plain(QueryFor(ctx, e).stmt)
  {
    var uk := ctx.uniqueKeyColumns;
    if e.oldValues.Some? {
      var wheres := Present(uk, e.oldValues.value);
      NumberedPlain(wheres, 1);
      if e.newValues.Some? {
        var sets := NonKey(e.newValues.value.columns, uk);
        NumberedPlain(sets, 1);
        NumberedPlain(wheres, 1 + |sets|);
      }
    }
  }
}
