/** A reader for the copy statement's text: names and key values come back as they were. */
module CopyReading {
  import opened Values
  import opened Strings
  import opened Quoting
  import opened Sql
  import opened SqlReading
  import opened CopySql
  import Builders
  import Chunks
  import RangeFilters

  function ReadValue(s: string): Option<(Value, string)> {
    if "NULL" <= s then Some((Null, s[4..]))
    else if "'" <= s then
      var text :- ScanToken(s, '\'');
      Some((Text(text.0), text.1))
    else
      var negative := "-" <= s;
      var digits := if negative then s[1..] else s;
      var n := DigitsEnd(digits);
      if n == 0 then None
      else
        var m: int := DigitsValue(digits[..n]);
        Some((Num(if negative then -m else m), digits[n..]))
  }

  /** The operators of SQL. */
  function Operator(op: RangeFilters.Op): string {
    match op
    case AtLeast => ">="
    case AtMost => "<="
  }

  /** One column compares bare, several compare as rows. */
  function ReadBound(s: string, op: RangeFilters.Op): Option<((seq<string>, seq<Value>), string)> {
    match Skip(s, "(")
    case None =>
      var column :- ReadName(s);
      var right :- Skip(column.1, " " + Operator(op) + " ");
      var value :- ReadValue(right);
      Some((([column.0], [value.0]), value.1))
    case Some(left) =>
      var columns := ReadItems(ReadName, ", ", left);
      var right :- Skip(columns.1, ") " + Operator(op) + " (");
      var values := ReadItems(ReadValue, ", ", right);
      var rest :- Skip(values.1, ")");
      Some(((columns.0, values.0), rest))
  }

  /** Up to WHERE; the selected columns must be the inserted ones. */
  function ReadHead(s: string): Option<((TableName, seq<string>, TableName), string)> {
    var s1 :- Skip(s, "\n\t\t\tINSERT INTO ");
    var target :- ReadTable(s1);
    var s2 :- Skip(target.1, " (");
    var columns := ReadItems(ReadName, ", ", s2);
    var s3 :- Skip(columns.1, ")\n\t\t\tSELECT ");
    var selected := ReadItems(ReadName, ", ", s3);
    var s4 :- Skip(selected.1, " FROM ");
    var source :- ReadTable(s4);
    var s5 :- Skip(source.1, "\n\t\t\tWHERE ");
    if selected.0 == columns.0 then Some(((target.0, columns.0, source.0), s5)) else None
  }

  /** The two bounds, over the same columns. */
  function ReadRange(s: string): Option<((seq<string>, Key, Key), string)> {
    var lower :- ReadBound(s, RangeFilters.AtLeast);
    var rest :- Skip(lower.1, " AND ");
    var upper :- ReadBound(rest, RangeFilters.AtMost);
    if lower.0.0 == upper.0.0 then Some(((lower.0.0, lower.0.1, upper.0.1), upper.1)) else None
  }

  /** The text without its last word. */
  function Chop(s: string, word: string): Option<string> {
    if |word| <= |s| && s[|s| - |word|..] == word then Some(s[..|s| - |word|]) else None
  }

  /** From ORDER BY on: the key twice, the limit, the columns to update. */
  function ReadTail(s: string): Option<(seq<string>, nat, seq<string>)> {
    var s1 :- Skip(s, "\n\t\t\tORDER BY ");
    var order := ReadItems(ReadName, ", ", s1);
    var s2 :- Skip(order.1, "\n\t\t\tLIMIT ");
    var n := DigitsEnd(s2);
    var s3 :- if n == 0 then None else Skip(s2[n..], "\n\t\t\tON CONFLICT (");
    var conflict := ReadItems(ReadName, ", ", s3);
    var s4 :- Skip(conflict.1, ") ");
    var action :- Chop(s4, "\n\t\t");
    var updates :- ReadAction(action);
    if order.0 == conflict.0 then Some((order.0, DigitsValue(s2[..n]), updates)) else None
  }

  function ReadCopy(s: string): Option<CopyStmt> {
    var head :- ReadHead(s);
    var range :- ReadRange(head.1);
    var tail :- ReadTail(range.1);
    if range.0.0 == tail.0
    then Some(CopyStmt(head.0.0, head.0.2, head.0.1, range.0.1, range.0.2, tail.0, tail.1, tail.2))
    else None
  }

  /** What becomes of the ghost table, and how many rows are reported, when the database runs the
      statement that it read; a statement on other relations is refused. */
  function PerformCopy(d: Schema, originalColumns: set<string>, o: Table, target: TableName, source: TableName,
                       statement: Option<CopyStmt>, g: Table): Result<(Table, nat)>
    requires forall c :: c in d.uk ==> c in d.defaults
  {
    match statement
    case None => Err("syntax error")
    case Some(s) =>
      if s.target != target || s.source != source then Err("relation does not exist")
      else if !SameArity(o, s) then Err("unequal number of entries in row expressions")
      else
        var r := ExecCopy(d, originalColumns, o, s, g);
        if r.Err? then Err(r.error) else Ok((r.value, AffectedBy(d, o, s, g)))
  }

  /** The same when the database is sent the text. */
  function RunCopyText(d: Schema, originalColumns: set<string>, o: Table, target: TableName, source: TableName,
                       query: string, g: Table): Result<(Table, nat)>
    requires forall c :: c in d.uk ==> c in d.defaults
  {
    PerformCopy(d, originalColumns, o, target, source, ReadCopy(query), g)
  }

  // ---- reading what was written ----

  lemma DigitsRead(n: nat, rest: string)
    requires rest == "" || !IsDigit(rest[0])
    ensures var s, m := Digits(n) + rest, |Digits(n)|;
      DigitsEnd(s) == m && s[..m] == Digits(n) && s[m..] == rest && DigitsValue(s[..m]) == n
  {
    DigitsEndOf(Digits(n), rest);
    assert (Digits(n) + rest)[..|Digits(n)|] == Digits(n) && (Digits(n) + rest)[|Digits(n)|..] == rest;
    DigitsValueDigits(n);
  }

  lemma NaturalRead(n: nat, rest: string)
    requires rest == "" || !IsDigit(rest[0])
    ensures ReadValue(Digits(n) + rest) == Some((Num(n), rest))
  {
    DigitsRead(n, rest);
    assert Digits(n)[0] in Digits(n);
  }

  lemma SignRead(digits: string)
    ensures ReadValue("-" + digits) ==
      var n := DigitsEnd(digits);
      if n == 0 then None else Some((Num(0 - DigitsValue(digits[..n])), digits[n..]))
  {
    assert ("-" + digits)[1..] == digits;
    assert ("-" + digits)[0] == '-';
  }

  lemma NegativeRead(n: nat, rest: string)
    requires rest == "" || !IsDigit(rest[0])
    ensures ReadValue("-" + Digits(n) + rest) == Some((Num(0 - n), rest))
  {
    DigitsRead(n, rest);
    hide ReadValue, Digits, DigitsEnd, DigitsValue;
    SignRead(Digits(n) + rest);
    assert "-" + Digits(n) + rest == "-" + (Digits(n) + rest);
  }

  /** The values that the readers return: no value of another type. */
  predicate Listed(values: seq<Value>) {
    forall v | v in values :: !v.Unlisted?
  }

  /** No text is read as a value of another type. */
  lemma ReadIsListed(s: string)
    ensures ReadValue(s).Some? ==> !ReadValue(s).value.0.Unlisted?
  {
  }

  /** A formatted value reads back, whatever follows it in the list, exactly when its type is listed:
      texts and integers do, and what %v prints for another type does not. */
  lemma ValueReadIff(v: Value, rest: string)
    requires rest == "" || (!IsDigit(rest[0]) && rest[0] != '\'')
    ensures ReadValue(FormatValue(v) + rest) == Some((v, rest)) <==> !v.Unlisted?
  {
    if v.Unlisted? {
      ReadIsListed(FormatValue(v) + rest);
    } else {
      ValueRead(v, rest);
    }
  }

  lemma ValueRead(v: Value, rest: string)
    requires !v.Unlisted? && (rest == "" || (!IsDigit(rest[0]) && rest[0] != '\''))
    ensures ReadValue(FormatValue(v) + rest) == Some((v, rest))
  {
    match v
    case Null => assert ("NULL" + rest)[4..] == rest;
    case Text(text) => ScanFormattedText(text, rest);
    case Num(n) => if n < 0 { NegativeRead(-n, rest); } else { NaturalRead(n, rest); }
  }

  lemma ValuesRead(values: seq<Value>, rest: string)
    requires Listed(values) && rest != "" && rest[0] == ')'
    ensures ReadItems(ReadValue, ", ", List(MapText(FormatValue, values)) + rest) == (values, rest)
  {
    forall v, r | v in values && (r == rest || ", " <= r)
      ensures ReadsOne(ReadValue, FormatValue, v, r)
    {
      ValueRead(v, r);
    }
    ItemsRead(ReadValue, FormatValue, ", ", values, rest);
  }

  lemma QuotedAllIsMap(columns: seq<string>)
    ensures RangeFilters.QuotedAll(columns) == MapText(QuoteIdentifier, columns)
  {
  }

  lemma FormattedAllIsMap(values: seq<Value>)
    ensures RangeFilters.FormattedAll(values) == MapText(FormatValue, values)
  {
  }

  lemma OperatorText(op: RangeFilters.Op)
    ensures RangeFilters.OpText(op) == Operator(op)
  {
  }

  lemma SingleRead(column: string, op: RangeFilters.Op, value: Value, rest: string)
    requires !Quoted(column) && Listed([value]) && rest != "" && rest[0] in {' ', '\n'}
    ensures ReadBound(RangeFilters.Compared(QuoteIdentifier(column), op, FormatValue(value)) + rest, op)
         == Some((([column], [value]), rest))
  {
    OperatorText(op);
    hide RangeFilters.OpText, Operator, FormatValue, ReadValue, QuoteIdentifier;
    var word, right := " " + Operator(op) + " ", FormatValue(value) + rest;
    assert RangeFilters.Compared(QuoteIdentifier(column), op, FormatValue(value)) + rest
        == QuoteIdentifier(column) + (word + right);
    NameRead(column, word + right);
    SkipWord(word, right);
    assert value in [value];
    ValueRead(value, rest);
  }

  lemma RowText(left: string, op: RangeFilters.Op, right: string, rest: string)
    ensures "(" + left + ")" + " " + RangeFilters.OpText(op) + " " + ("(" + right + ")") + rest
         == "(" + (left + ((") " + RangeFilters.OpText(op) + " (") + (right + (")" + rest))))
  {
  }

  lemma RowRead(columns: seq<string>, op: RangeFilters.Op, values: seq<Value>, rest: string)
    requires PlainNames(columns) && Listed(values)
    ensures var left, right := List(MapText(QuoteIdentifier, columns)), List(MapText(FormatValue, values));
      ReadBound("(" + (left + ((") " + RangeFilters.OpText(op) + " (") + (right + (")" + rest)))), op)
      == Some(((columns, values), rest))
  {
    var left, right := List(MapText(QuoteIdentifier, columns)), List(MapText(FormatValue, values));
    OperatorText(op);
    hide RangeFilters.OpText, Operator, FormatValue, ReadValue, QuoteIdentifier;
    var word := ") " + Operator(op) + " (";
    SkipWord("(", left + (word + (right + (")" + rest))));
    NamesRead(columns, word + (right + (")" + rest)));
    SkipWord(word, right + (")" + rest));
    ValuesRead(values, ")" + rest);
    SkipWord(")", rest);
  }

  lemma BoundRead(columns: seq<string>, b: RangeFilters.Bound, rest: string)
    requires columns != [] && |columns| == |b.values| && PlainNames(columns) && Listed(b.values)
    requires rest != "" && rest[0] in {' ', '\n'}
    ensures ReadBound(RangeFilters.BoundText(columns, b) + rest, b.op) == Some(((columns, b.values), rest))
  {
    QuotedAllIsMap(columns);
    FormattedAllIsMap(b.values);
    if |columns| == 1 {
      assert columns == [columns[0]] && b.values == [b.values[0]] && columns[0] in columns;
      SingleRead(columns[0], b.op, b.values[0], rest);
    } else {
      RowRead(columns, b.op, b.values, rest);
      RowText(List(MapText(QuoteIdentifier, columns)), b.op, List(MapText(FormatValue, b.values)), rest);
    }
  }

  // ---- ORDER BY ----

  /** A column and whether it is ordered descending. */
  type Ordered = (string, bool)

  function ReadOrdered(s: string): Option<(Ordered, string)> {
    var name :- ReadName(s);
    match Skip(name.1, " DESC")
    case None => Some(((name.0, false), name.1))
    case Some(rest) => Some(((name.0, true), rest))
  }

  /** The columns of an ORDER BY clause with their directions. */
  function ReadOrder(s: string): Option<seq<Ordered>> {
    var items := ReadItems(ReadOrdered, ", ", s);
    if items.1 == "" then Some(items.0) else None
  }

  function OrderedText(o: Ordered): string {
    QuoteIdentifier(o.0) + if o.1 then " DESC" else ""
  }

  lemma OrderedRead(o: Ordered, rest: string)
    requires !Quoted(o.0) && (rest == "" || rest[0] == ',')
    ensures ReadOrdered(OrderedText(o) + rest) == Some((o, rest))
  {
    var tail := (if o.1 then " DESC" else "") + rest;
    assert OrderedText(o) + rest == QuoteIdentifier(o.0) + tail;
    NameRead(o.0, tail);
    if o.1 {
      SkipWord(" DESC", rest);
    } else {
      assert tail == rest;
    }
  }

  /** A clause over plain names reads back as its columns with their directions. */
  lemma OrderRead(columns: seq<string>, descending: seq<bool>)
    requires |columns| == |descending| && PlainNames(columns)
    ensures ReadOrder(RangeFilters.OrderText(columns, descending))
         == Some(seq(|columns|, i requires 0 <= i < |columns| => (columns[i], descending[i])))
  {
    var items: seq<Ordered> := seq(|columns|, i requires 0 <= i < |columns| => (columns[i], descending[i]));
    forall v, r | v in items && (r == "" || ", " <= r)
      ensures ReadsOne(ReadOrdered, OrderedText, v, r)
    {
      OrderedRead(v, r);
    }
    ItemsRead(ReadOrdered, OrderedText, ", ", items, "");
    OrderTextIsList(columns, descending, items);
  }

  lemma OrderTextIsList(columns: seq<string>, descending: seq<bool>, items: seq<Ordered>)
    requires |columns| == |descending| == |items|
    requires forall i :: 0 <= i < |columns| ==> items[i] == (columns[i], descending[i])
    ensures Join(MapText(OrderedText, items), ", ") + "" == RangeFilters.OrderText(columns, descending)
  {
    forall i | 0 <= i < |columns|
      ensures OrderedText(items[i]) == RangeFilters.OrderedAll(columns, descending)[i]
    {
      assert QuoteIdentifier(columns[i]) + "" == QuoteIdentifier(columns[i]);
    }
    assert MapText(OrderedText, items) == RangeFilters.OrderedAll(columns, descending);
    var text := RangeFilters.OrderText(columns, descending);
    assert text + "" == text;
  }

  /** The clause that is built orders by the columns in their order, every one ascending but the last, which
      is descending exactly with desc. */
  lemma BuiltOrderRead(columns: seq<string>, desc: bool)
    requires PlainNames(columns)
    ensures var r := ReadOrder(RangeFilters.OrderText(columns, RangeFilters.LastOnly(desc, |columns|)));
      && r.Some? && |r.value| == |columns|
      && forall i :: 0 <= i < |columns| ==> r.value[i] == (columns[i], desc && i == |columns| - 1)
  {
    OrderRead(columns, RangeFilters.LastOnly(desc, |columns|));
  }

  /** No name starts and ends with a double quote, and every key value is of a listed type. */
  predicate PlainCopy(s: CopyStmt) {
    && PlainTable(s.target) && PlainTable(s.source)
    && PlainNames(s.columns) && PlainNames(s.key) && PlainNames(s.updates)
    && Listed(s.lo) && Listed(s.hi)
  }

  lemma HeadRead(target: TableName, columns: seq<string>, source: TableName, rest: string)
    requires PlainTable(target) && PlainNames(columns) && PlainTable(source)
    ensures var list := List(MapText(QuoteIdentifier, columns));
      ReadHead("\n\t\t\tINSERT INTO " + (FullName(target) + (" (" + (list + (")\n\t\t\tSELECT " + (list + (" FROM "
               + (FullName(source) + ("\n\t\t\tWHERE " + rest)))))))))
      == Some(((target, columns, source), rest))
  {
    var list := List(MapText(QuoteIdentifier, columns));
    var s4 := FullName(source) + ("\n\t\t\tWHERE " + rest);
    var s3 := list + (" FROM " + s4);
    var s2 := list + (")\n\t\t\tSELECT " + s3);
    SkipWord("\n\t\t\tINSERT INTO ", FullName(target) + (" (" + s2));
    TableRead(target, " (" + s2);
    SkipWord(" (", s2);
    NamesRead(columns, ")\n\t\t\tSELECT " + s3);
    SkipWord(")\n\t\t\tSELECT ", s3);
    NamesRead(columns, " FROM " + s4);
    SkipWord(" FROM ", s4);
    TableRead(source, "\n\t\t\tWHERE " + rest);
    SkipWord("\n\t\t\tWHERE ", rest);
  }

  lemma RangeRead(s: CopyStmt, rest: string)
    requires s.key != [] && |s.key| == |s.lo| == |s.hi| && PlainNames(s.key) && Listed(s.lo) && Listed(s.hi)
    requires rest != "" && rest[0] == '\n'
    ensures ReadRange(RangeText(s) + rest) == Some(((s.key, s.lo, s.hi), rest))
  {
    var lo, hi := RangeFilters.Bound(RangeFilters.AtLeast, s.lo), RangeFilters.Bound(RangeFilters.AtMost, s.hi);
    var upper := RangeFilters.BoundText(s.key, hi) + rest;
    assert RangeText(s) + rest == RangeFilters.BoundText(s.key, lo) + (" AND " + upper);
    BoundRead(s.key, lo, " AND " + upper);
    SkipWord(" AND ", upper);
    BoundRead(s.key, hi, rest);
  }

  lemma Chopped(s: string, word: string)
    ensures Chop(s + word, word) == Some(s)
  {
  }

  lemma TailRead(key: seq<string>, limit: nat, updates: seq<string>)
    requires PlainNames(key) && PlainNames(updates)
    ensures ReadTail(TailText(List(MapText(QuoteIdentifier, key)), limit, ActionText(updates)))
         == Some((key, limit, updates))
  {
    var list := List(MapText(QuoteIdentifier, key));
    var s4 := ActionText(updates) + "\n\t\t";
    var s3 := list + (") " + s4);
    var s2 := Digits(limit) + ("\n\t\t\tON CONFLICT (" + s3);
    SkipWord("\n\t\t\tORDER BY ", list + ("\n\t\t\tLIMIT " + s2));
    NamesRead(key, "\n\t\t\tLIMIT " + s2);
    SkipWord("\n\t\t\tLIMIT ", s2);
    DigitsRead(limit, "\n\t\t\tON CONFLICT (" + s3);
    SkipWord("\n\t\t\tON CONFLICT (", s3);
    NamesRead(key, ") " + s4);
    SkipWord(") ", s4);
    Chopped(ActionText(updates), "\n\t\t");
    ActionRead(updates);
  }

  /** Round trip: the copy statement's text reads back as exactly that statement, with its names and
      the key values of its range. */
  lemma CopyRead(s: CopyStmt)
    requires s.key != [] && |s.key| == |s.lo| == |s.hi| && PlainCopy(s)
    ensures ReadCopy(RenderCopy(s)) == Some(s)
  {
    var tail := TailText(List(MapText(QuoteIdentifier, s.key)), s.limit, ActionText(s.updates));
    HeadRead(s.target, s.columns, s.source, RangeText(s) + tail);
    RangeRead(s, tail);
    TailRead(s.key, s.limit, s.updates);
  }

  // ---- exactly the plain statements read back ----

  function ValueSize(v: Value): nat {
    |FormatValue(v)|
  }

  lemma NumberConsumes(s: string)
    ensures ReadValue(s).Some? && ReadValue(s).value.0.Num? ==> ConsumesAt(ReadValue, ValueSize, s)
  {
    var digits := if "-" <= s then s[1..] else s;
    var n := DigitsEnd(digits);
    if n > 0 {
      DigitsShortest(digits[..n]);
    }
  }

  lemma ValueConsumes(s: string)
    ensures ConsumesAt(ReadValue, ValueSize, s)
  {
    NumberConsumes(s);
    if "'" <= s {
      ScanBodyConsumes(s[1..], '\'');
    }
  }

  lemma ValuesConsume(s: string)
    ensures var r := ReadItems(ReadValue, ", ", s); |s| >= ItemsSize(ValueSize, r.0, 2) + |r.1|
  {
    forall t
      ensures ConsumesAt(ReadValue, ValueSize, t)
    {
      ValueConsumes(t);
    }
    ItemsConsume(ReadValue, ValueSize, ", ", s);
  }

  lemma {:induction false} ReadAreListed(s: string)
    ensures Listed(ReadItems(ReadValue, ", ", s).0)
    decreases |s|
  {
    if ReadValue(s).Some? {
      var first := ReadValue(s).value;
      if |first.1| < |s| && ", " <= first.1 {
        ReadAreListed(first.1[2..]);
      }
    }
  }

  /** The length of a bound, the operator being two characters. */
  function BoundSize(columns: seq<string>, values: seq<Value>): nat {
    if |columns| == |values| == 1 then NameSize(columns[0]) + 4 + ValueSize(values[0])
    else 1 + ItemsSize(NameSize, columns, 2) + 6 + ItemsSize(ValueSize, values, 2) + 1
  }

  lemma BoundConsumes(s: string, op: RangeFilters.Op)
    ensures ReadBound(s, op).Some? ==>
      var r := ReadBound(s, op).value; |s| >= BoundSize(r.0.0, r.0.1) + |r.1| && Listed(r.0.1)
  {
    if ReadBound(s, op).Some? {
      if Skip(s, "(").Some? {
        var left := Skip(s, "(").value;
        NamesConsume(left);
        var right := Skip(ReadItems(ReadName, ", ", left).1, ") " + Operator(op) + " (").value;
        ValuesConsume(right);
        ReadAreListed(right);
      } else {
        NameConsumes(s);
        var right := Skip(ReadName(s).value.1, " " + Operator(op) + " ").value;
        ValueConsumes(right);
        ReadIsListed(right);
      }
    }
  }

  function HeadSize(target: TableName, columns: seq<string>, source: TableName): nat {
    |"\n\t\t\tINSERT INTO "| + TableSize(target) + |" ("| + ItemsSize(NameSize, columns, 2) + |")\n\t\t\tSELECT "|
    + ItemsSize(NameSize, columns, 2) + |" FROM "| + TableSize(source) + |"\n\t\t\tWHERE "|
  }

  lemma HeadConsumes(s: string)
    ensures ReadHead(s).Some? ==>
      var r := ReadHead(s).value; |s| >= HeadSize(r.0.0, r.0.1, r.0.2) + |r.1|
  {
    if ReadHead(s).Some? {
      var s1 := Skip(s, "\n\t\t\tINSERT INTO ").value;
      TableConsumes(s1);
      var s2 := Skip(ReadTable(s1).value.1, " (").value;
      NamesConsume(s2);
      var s3 := Skip(ReadItems(ReadName, ", ", s2).1, ")\n\t\t\tSELECT ").value;
      NamesConsume(s3);
      TableConsumes(Skip(ReadItems(ReadName, ", ", s3).1, " FROM ").value);
    }
  }

  lemma RangeConsumes(s: string)
    ensures ReadRange(s).Some? ==>
      var r := ReadRange(s).value;
      && |s| >= BoundSize(r.0.0, r.0.1) + |" AND "| + BoundSize(r.0.0, r.0.2) + |r.1|
      && Listed(r.0.1) && Listed(r.0.2)
  {
    if ReadRange(s).Some? {
      BoundConsumes(s, RangeFilters.AtLeast);
      BoundConsumes(Skip(ReadBound(s, RangeFilters.AtLeast).value.1, " AND ").value, RangeFilters.AtMost);
    }
  }

  function TailSize(key: seq<string>, limit: nat, updates: seq<string>): nat {
    |"\n\t\t\tORDER BY "| + ItemsSize(NameSize, key, 2) + |"\n\t\t\tLIMIT "| + |Digits(limit)|
    + |"\n\t\t\tON CONFLICT ("| + ItemsSize(NameSize, key, 2) + |") "| + ActionSize(updates) + |"\n\t\t"|
  }

  lemma TailConsumes(s: string)
    ensures ReadTail(s).Some? ==>
      var r := ReadTail(s).value; |s| >= TailSize(r.0, r.1, r.2)
  {
    if ReadTail(s).Some? {
      var s1 := Skip(s, "\n\t\t\tORDER BY ").value;
      NamesConsume(s1);
      var s2 := Skip(ReadItems(ReadName, ", ", s1).1, "\n\t\t\tLIMIT ").value;
      var n := DigitsEnd(s2);
      if n > 0 {
        DigitsShortest(s2[..n]);
      }
      var s3 := Skip(s2[n..], "\n\t\t\tON CONFLICT (").value;
      NamesConsume(s3);
      var s4 := Skip(ReadItems(ReadName, ", ", s3).1, ") ").value;
      ActionConsumes(Chop(s4, "\n\t\t").value);
    }
  }

  function CopySize(s: CopyStmt): nat {
    HeadSize(s.target, s.columns, s.source) + BoundSize(s.key, s.lo) + |" AND "| + BoundSize(s.key, s.hi)
    + TailSize(s.key, s.limit, s.updates)
  }

  lemma CopyConsumes(t: string)
    ensures ReadCopy(t).Some? ==>
      var s := ReadCopy(t).value; |t| >= CopySize(s) && Listed(s.lo) && Listed(s.hi)
  {
    if ReadCopy(t).Some? {
      HeadConsumes(t);
      RangeConsumes(ReadHead(t).value.1);
      TailConsumes(ReadRange(ReadHead(t).value.1).value.1);
    }
  }

  lemma ValuesWritten(values: seq<Value>)
    ensures |List(MapText(FormatValue, values))| <= ItemsSize(ValueSize, values, 2)
  {
    ItemsWritten(FormatValue, ValueSize, values, ", ");
  }

  lemma BoundWritten(columns: seq<string>, b: RangeFilters.Bound)
    requires columns != [] && |columns| == |b.values|
    ensures |RangeFilters.BoundText(columns, b)| <= BoundSize(columns, b.values)
    ensures !PlainNames(columns) ==> |RangeFilters.BoundText(columns, b)| < BoundSize(columns, b.values)
  {
    QuotedAllIsMap(columns);
    FormattedAllIsMap(b.values);
    if |columns| == 1 {
      QuotedShorter(columns[0]);
      assert columns == [columns[0]];
    } else {
      NamesWritten(columns);
      ValuesWritten(b.values);
    }
  }

  lemma HeadWritten(s: CopyStmt, rest: string)
    ensures var list := List(MapText(QuoteIdentifier, s.columns));
      var text := CopyText(FullName(s.target), FullName(s.source), list, rest, "");
      && |text| <= HeadSize(s.target, s.columns, s.source) + |rest|
      && (!(PlainTable(s.target) && PlainTable(s.source) && PlainNames(s.columns)) ==>
            |text| < HeadSize(s.target, s.columns, s.source) + |rest|)
  {
    TableWritten(s.target);
    TableWritten(s.source);
    NamesWritten(s.columns);
  }

  lemma TailWritten(key: seq<string>, limit: nat, updates: seq<string>)
    ensures var text := TailText(List(MapText(QuoteIdentifier, key)), limit, ActionText(updates));
      && |text| <= TailSize(key, limit, updates)
      && (!(PlainNames(key) && PlainNames(updates)) ==> |text| < TailSize(key, limit, updates))
  {
    NamesWritten(key);
    ActionWritten(updates);
  }

  lemma CopyWritten(s: CopyStmt)
    requires s.key != [] && |s.key| == |s.lo| == |s.hi| && Listed(s.lo) && Listed(s.hi) && !PlainCopy(s)
    ensures |RenderCopy(s)| < CopySize(s)
  {
    var range := RangeText(s);
    var tail := TailText(List(MapText(QuoteIdentifier, s.key)), s.limit, ActionText(s.updates));
    HeadWritten(s, range + tail);
    BoundWritten(s.key, RangeFilters.Bound(RangeFilters.AtLeast, s.lo));
    BoundWritten(s.key, RangeFilters.Bound(RangeFilters.AtMost, s.hi));
    TailWritten(s.key, s.limit, s.updates);
  }

  /** Exactly: the copy statement's text reads back as that statement if and only if none of its names
      starts and ends with a double quote and every key value is a text, an integer or null. */
  lemma CopyReadIff(s: CopyStmt)
    requires s.key != [] && |s.key| == |s.lo| == |s.hi|
    ensures ReadCopy(RenderCopy(s)) == Some(s) <==> PlainCopy(s)
  {
    if PlainCopy(s) {
      CopyRead(s);
    } else {
      CopyConsumes(RenderCopy(s));
      if Listed(s.lo) && Listed(s.hi) {
        CopyWritten(s);
      }
    }
  }

  // ---- sent to the database ----

  /** The database takes the text of a plain statement for that statement. */
  lemma SentIsExec(d: Schema, originalColumns: set<string>, o: Table, s: CopyStmt, g: Table)
    requires s.key != [] && |s.key| == |s.lo| == |s.hi| && PlainCopy(s) && SameArity(o, s)
    requires forall c :: c in d.uk ==> c in d.defaults
    ensures RunCopyText(d, originalColumns, o, s.target, s.source, RenderCopy(s), g) ==
      var r := ExecCopy(d, originalColumns, o, s, g);
      if r.Err? then Err(r.error) else Ok((r.value, AffectedBy(d, o, s, g)))
  {
    hide ReadCopy, RenderCopy;
    CopyRead(s);
  }

  /** The names in the copy statement of a migration are plain. */
  predicate PlainNaming(target: TableName, source: TableName, columns: seq<string>, uk: seq<string>) {
    PlainTable(target) && PlainTable(source) && PlainNames(columns) && PlainNames(uk)
  }

  lemma CopyOfPlain(target: TableName, source: TableName, columns: seq<string>, uk: seq<string>, r: Chunks.Range,
                    limit: nat)
    requires PlainNaming(target, source, columns, uk) && Listed(r.lo) && Listed(r.hi)
    ensures PlainCopy(CopyOf(target, source, columns, uk, r, limit))
  {
  }
}
