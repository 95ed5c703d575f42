/** The WHERE and ORDER BY clauses over the unique key: their text and which rows they mean. */
module RangeFilters {
  import opened Values
  import opened Selection
  import opened Strings
  import opened Quoting

  datatype Op = AtLeast | AtMost

  datatype Truth = True | False | Unknown

  /** Row-wise comparison: the first unequal or null pair decides (PostgreSQL 16 documentation,
      section 9.24.5). With one column it is the ordinary comparison. */
  function CompareRows(op: Op, row: seq<Value>, values: seq<Value>): Truth
    requires |row| == |values|
  {
    if row == [] then True
    else if row[0].Null? || values[0].Null? then Unknown
    else if row[0] == values[0] then CompareRows(op, row[1..], values[1..])
    else if op.AtLeast? then (if ValueLess(values[0], row[0]) then True else False)
    else (if ValueLess(row[0], values[0]) then True else False)
  }

  lemma LessCons(a: Key, b: Key)
    requires a != [] && b != []
    ensures Less(a, b) <==> ValueLess(a[0], b[0]) || (a[0] == b[0] && Less(a[1..], b[1..]))
  {
    LessAtCommon(a, b);
    LessAtCommon(a[1..], b[1..]);
    ValueTrichotomy(a[0], b[0]);
  }

  /** On keys without nulls the row comparison is the lexicographic order, for every arity. */
  lemma {:induction false} CompareRowsIsOrder(op: Op, k: Key, v: Key)
    requires |k| == |v| && NonNull(k) && NonNull(v)
    ensures CompareRows(op, k, v) == if (if op.AtLeast? then Leq(v, k) else Leq(k, v)) then True else False
  {
    if k != [] {
      assert k[0] in k && v[0] in v;
      CompareRowsIsOrder(op, k[1..], v[1..]);
      LessCons(k, v);
      LessCons(v, k);
      ValueTrichotomy(k[0], v[0]);
      assert k == [k[0]] + k[1..] && v == [v[0]] + v[1..];
    }
  }

  datatype Bound = Bound(op: Op, values: Key)

  /** The rows for which every bound is true. */
  function Selected(s: set<Key>, bounds: seq<Bound>): set<Key>
    requires forall k, b :: k in s && b in bounds ==> |k| == |b.values|
  {
    set k | k in s && forall b | b in bounds :: CompareRows(b.op, k, b.values) == True
  }

  ghost predicate Comparable(s: set<Key>, bounds: seq<Bound>) {
    && (forall k :: k in s ==> NonNull(k))
    && (forall b :: b in bounds ==> NonNull(b.values))
    && (forall k, b :: k in s && b in bounds ==> |k| == |b.values|)
  }

  /** The copy's filter selects exactly the closed interval. */
  lemma ComparisonSelectsInterval(s: set<Key>, lo: Key, hi: Key)
    requires Comparable(s, [Bound(AtLeast, lo), Bound(AtMost, hi)])
    ensures Selected(s, [Bound(AtLeast, lo), Bound(AtMost, hi)]) == Closed(s, lo, hi)
  {
    var bounds := [Bound(AtLeast, lo), Bound(AtMost, hi)];
    assert bounds[0] in bounds && bounds[1] in bounds;
    forall k | k in s
      ensures k in Selected(s, bounds) <==> k in Closed(s, lo, hi)
    {
      CompareRowsIsOrder(AtLeast, k, lo);
      CompareRowsIsOrder(AtMost, k, hi);
    }
  }

  /** The boundary query's filter selects exactly the keys at or above the cursor. */
  lemma WhereSelectsAtOrAbove(s: set<Key>, lo: Key)
    requires Comparable(s, [Bound(AtLeast, lo)])
    ensures Selected(s, [Bound(AtLeast, lo)]) == AtOrAbove(s, lo)
  {
    var bounds := [Bound(AtLeast, lo)];
    assert bounds[0] in bounds;
    forall k | k in s
      ensures k in Selected(s, bounds) <==> k in AtOrAbove(s, lo)
    {
      CompareRowsIsOrder(AtLeast, k, lo);
    }
  }

  function OpText(op: Op): string {
    if op.AtLeast? then ">=" else "<="
  }

  function QuotedAll(columns: seq<string>): (q: seq<string>)
    ensures |q| == |columns|
  {
    seq(|columns|, i requires 0 <= i < |columns| => QuoteIdentifier(columns[i]))
  }

  function FormattedAll(values: seq<Value>): (q: seq<string>)
    ensures |q| == |values|
  {
    seq(|values|, i requires 0 <= i < |values| => FormatValue(values[i]))
  }

  function Tuple(parts: seq<string>): string {
    "(" + Join(parts, ", ") + ")"
  }

  function Compared(left: string, op: Op, right: string): string {
    left + " " + OpText(op) + " " + right
  }

  /** One column compares bare, several compare as rows. */
  function ConditionText(columns: seq<string>, op: Op, parts: seq<string>): string
    requires columns != [] && |columns| == |parts|
  {
    if |columns| == 1 then Compared(QuoteIdentifier(columns[0]), op, parts[0])
    else Compared(Tuple(QuotedAll(columns)), op, Tuple(parts))
  }

  function BoundText(columns: seq<string>, b: Bound): string
    requires columns != [] && |columns| == |b.values|
  {
    ConditionText(columns, b.op, FormattedAll(b.values))
  }

  method BuildRangeWhereClause(columns: seq<string>, op: Op, values: seq<Value>) returns (text: string)
    requires columns != [] && |columns| == |values|
    ensures text == BoundText(columns, Bound(op, values))
  {
    if |columns| == 1 {
      return Compared(QuoteIdentifier(columns[0]), op, FormatValue(values[0]));
    }
    var quotedCols, formattedVals: seq<string> := [], [];
    for i := 0 to |columns|
      invariant quotedCols == QuotedAll(columns)[..i]
      invariant formattedVals == FormattedAll(values)[..i]
    {
      quotedCols := quotedCols + [QuoteIdentifier(columns[i])];
      formattedVals := formattedVals + [FormatValue(values[i])];
    }
    assert quotedCols == QuotedAll(columns) && formattedVals == FormattedAll(values);
    text := Compared(Tuple(quotedCols), op, Tuple(formattedVals));
  }

  method BuildRangeComparison(columns: seq<string>, minValues: seq<Value>, maxValues: seq<Value>)
    returns (text: string)
    requires columns != [] && |columns| == |minValues| == |maxValues|
    ensures text == BoundText(columns, Bound(AtLeast, minValues)) + " AND "
                  + BoundText(columns, Bound(AtMost, maxValues))
  {
    if |columns| == 1 {
      var col := QuoteIdentifier(columns[0]);
      return Compared(col, AtLeast, FormatValue(minValues[0])) + " AND "
           + Compared(col, AtMost, FormatValue(maxValues[0]));
    }
    var quotedCols, minVals, maxVals: seq<string> := [], [], [];
    for i := 0 to |columns|
      invariant quotedCols == QuotedAll(columns)[..i]
      invariant minVals == FormattedAll(minValues)[..i]
      invariant maxVals == FormattedAll(maxValues)[..i]
    {
      quotedCols := quotedCols + [QuoteIdentifier(columns[i])];
      minVals := minVals + [FormatValue(minValues[i])];
      maxVals := maxVals + [FormatValue(maxValues[i])];
    }
    assert quotedCols == QuotedAll(columns);
    assert minVals == FormattedAll(minValues) && maxVals == FormattedAll(maxValues);
    text := Compared(Tuple(quotedCols), AtLeast, Tuple(minVals)) + " AND "
          + Compared(Tuple(quotedCols), AtMost, Tuple(maxVals));
  }

  /** ORDER BY: whether a row comes before another, each column ascending or descending. */
  predicate Before(descending: seq<bool>, a: Key, b: Key)
    requires |descending| == |a| == |b|
  {
    if a == [] then false
    else if a[0] != b[0] then (if descending[0] then ValueLess(b[0], a[0]) else ValueLess(a[0], b[0]))
    else Before(descending[1..], a[1..], b[1..])
  }

  function Repeat(flag: bool, n: nat): (flags: seq<bool>)
    ensures |flags| == n
  {
    seq(n, _ => flag)
  }

  /** One direction on every column is the key order or its reverse. */
  lemma {:induction false} UniformOrder(flag: bool, a: Key, b: Key)
    requires |a| == |b|
    ensures Before(Repeat(flag, |a|), a, b) <==> if flag then Less(b, a) else Less(a, b)
  {
    if a != [] {
      assert Repeat(flag, |a|)[1..] == Repeat(flag, |a| - 1);
      UniformOrder(flag, a[1..], b[1..]);
      LessCons(a, b);
      LessCons(b, a);
      ValueTrichotomy(a[0], b[0]);
      ValueTrichotomy(b[0], a[0]);
    }
  }

  /** The row that ORDER BY ... LIMIT 1 returns. */
  ghost predicate IsFirst(s: set<Key>, descending: seq<bool>, m: Key)
    requires forall k :: k in s ==> |k| == |descending|
  {
    m in s && forall k :: k in s && k != m ==> Before(descending, m, k)
  }

  /** Ordering by every key column DESC returns the greatest key, ascending the least. */
  lemma FirstIsExtreme(s: set<Key>, arity: nat, m: Key)
    requires forall k :: k in s ==> |k| == arity
    ensures IsFirst(s, Repeat(true, arity), m) <==> IsGreatest(s, m)
    ensures IsFirst(s, Repeat(false, arity), m) <==> IsLeast(s, m)
  {
    if m in s {
      forall k | k in s
        ensures Before(Repeat(true, arity), m, k) <==> Less(k, m)
        ensures Before(Repeat(false, arity), m, k) <==> Less(m, k)
      {
        UniformOrder(true, m, k);
        UniformOrder(false, m, k);
      }
      assert forall k :: Less(k, m) || Less(m, k) ==> k != m by {
        forall k
          ensures Less(k, m) || Less(m, k) ==> k != m
        {
          Trichotomy(k, m);
        }
      }
    }
  }

  function OrderedAll(columns: seq<string>, descending: seq<bool>): (parts: seq<string>)
    requires |columns| == |descending|
    ensures |parts| == |columns|
  {
    seq(|columns|, i requires 0 <= i < |columns| =>
      if descending[i] then QuoteIdentifier(columns[i]) + " DESC" else QuoteIdentifier(columns[i]))
  }

  function OrderText(columns: seq<string>, descending: seq<bool>): string
    requires |columns| == |descending|
  {
    Join(OrderedAll(columns, descending), ", ")
  }

  /** The direction that the query builder appends once, after the last column. */
  function LastOnly(desc: bool, arity: nat): (flags: seq<bool>)
    ensures |flags| == arity
  {
    seq(arity, i => desc && i + 1 == arity)
  }

  lemma {:induction false} JoinLast(parts: seq<string>, sep: string, suffix: string)
    requires parts != []
    ensures Join(parts, sep) + suffix == Join(parts[..|parts| - 1] + [parts[|parts| - 1] + suffix], sep)
  {
    var appended := parts[..|parts| - 1] + [parts[|parts| - 1] + suffix];
    if |parts| > 1 {
      JoinLast(parts[1..], sep, suffix);
      assert appended[1..] == parts[1..][..|parts| - 2] + [parts[|parts| - 1] + suffix];
      assert Join(parts, sep) + suffix == parts[0] + sep + (Join(parts[1..], sep) + suffix);
    }
  }

  lemma OrderedLast(columns: seq<string>, desc: bool)
    requires columns != []
    ensures var quoted, last := QuotedAll(columns), |columns| - 1;
      OrderedAll(columns, LastOnly(desc, |columns|))
      == quoted[..last] + [quoted[last] + if desc then " DESC" else ""]
  {
    assert QuotedAll(columns)[|columns| - 1] + "" == QuotedAll(columns)[|columns| - 1];
  }

  method BuildOrderByClause(columns: seq<string>, desc: bool) returns (text: string)
    requires columns != []
    ensures text == OrderText(columns, LastOnly(desc, |columns|))
  {
    var quotedCols: seq<string> := [];
    for i := 0 to |columns|
      invariant quotedCols == QuotedAll(columns)[..i]
    {
      quotedCols := quotedCols + [QuoteIdentifier(columns[i])];
    }
    assert quotedCols == QuotedAll(columns);
    var direction := if desc then " DESC" else "";
    JoinLast(quotedCols, ", ", direction);
    OrderedLast(columns, desc);
    text := Join(quotedCols, ", ") + direction;
  }

  /** A clause built with desc orders keys in reverse exactly for keys of at most one column. */
  lemma BuiltDescIsReverseIff(arity: nat)
    ensures (forall a: Key, b: Key :: |a| == |b| == arity ==> (Before(LastOnly(true, arity), a, b) <==> Less(b, a)))
       <==> arity <= 1
  {
    if arity <= 1 {
      forall a: Key, b: Key | |a| == |b| == arity
        ensures Before(LastOnly(true, arity), a, b) <==> Less(b, a)
      {
        assert LastOnly(true, arity) == Repeat(true, arity);
        UniformOrder(true, a, b);
      }
    } else {
      var a: Key := seq(arity, _ => Num(0));
      var b: Key := a[0 := Num(1)];
      assert Before(LastOnly(true, arity), a, b);
      assert DecidedAt(a, b, 0);
      Trichotomy(a, b);
    }
  }
}
