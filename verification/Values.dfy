/** Column values, keys and rows, and the order PostgreSQL sorts keys by. */
module Values {

  datatype Option<+T> = None | Some(value: T) {
    predicate IsFailure() {
      None?
    }

    function PropagateFailure<U>(): Option<U>
      requires None?
    {
      None
    }

    function Extract(): T
      requires Some?
    {
      value
    }
  }

  datatype Result<+T> = Ok(value: T) | Err(error: string)

  /** A column value after PostgreSQL's input conversion; a value of any type but the integers and the
      texts is known by what Go's %v prints for it. */
  datatype Value = Num(n: int) | Text(s: string) | Unlisted(printed: string) | Null

  type Key = seq<Value>

  type Row = map<string, Value>

  type Table = map<Key, Row>

  /** The first differing character decides; a proper prefix comes first. */
  predicate TextDecidedAt(a: string, b: string, i: int) {
    && 0 <= i < |b| && i <= |a|
    && (forall j | 0 <= j < i :: a[j] == b[j])
    && (i == |a| || a[i] < b[i])
  }

  predicate TextLess(a: string, b: string) {
    exists i | 0 <= i < |b| :: TextDecidedAt(a, b, i)
  }

  /** Ascending order of one column; nulls sort last. Values of different types never meet in a column,
      and no theorem about keys is about the values of other types, which are ordered as they print. */
  predicate ValueLess(a: Value, b: Value) {
    match (a, b)
    case (Num(m), Num(n)) => m < n
    case (Num(_), _) => !b.Num?
    case (Text(s), Text(t)) => TextLess(s, t)
    case (Text(_), _) => b.Unlisted? || b.Null?
    case (Unlisted(s), Unlisted(t)) => TextLess(s, t)
    case (Unlisted(_), _) => b.Null?
    case (Null, _) => false
  }

  predicate NonNull(k: Key) {
    forall v | v in k :: !v.Null?
  }

  /** The first differing column decides. */
  predicate DecidedAt(a: Key, b: Key, i: int) {
    && 0 <= i < |b| && i <= |a|
    && (forall j | 0 <= j < i :: a[j] == b[j])
    && (i == |a| || ValueLess(a[i], b[i]))
  }

  /** Ascending order of keys. */
  predicate Less(a: Key, b: Key) {
    exists i | 0 <= i < |b| :: DecidedAt(a, b, i)
  }

  predicate Leq(a: Key, b: Key) {
    a == b || Less(a, b)
  }

  /** The length of the longest common prefix. */
  ghost function Common<T>(a: seq<T>, b: seq<T>): (i: nat)
    ensures i <= |a| && i <= |b|
    ensures forall j :: 0 <= j < i ==> a[j] == b[j]
    ensures i == |a| || i == |b| || a[i] != b[i]
  {
    if a == [] || b == [] || a[0] != b[0] then 0 else 1 + Common(a[1..], b[1..])
  }

  lemma TextTrichotomy(a: string, b: string)
    ensures TextLess(a, b) || TextLess(b, a) || a == b
    ensures !(TextLess(a, b) && TextLess(b, a))
    ensures TextLess(a, b) ==> a != b
  {
    var i := Common(a, b);
    if !(i == |a| == |b|) {
      assert TextDecidedAt(a, b, i) || TextDecidedAt(b, a, i);
    }
  }

  lemma TextTransitive(a: string, b: string, c: string)
    requires TextLess(a, b) && TextLess(b, c)
    ensures TextLess(a, c)
  {
    var i :| 0 <= i < |b| && TextDecidedAt(a, b, i);
    var j :| 0 <= j < |c| && TextDecidedAt(b, c, j);
    assert TextDecidedAt(a, c, if i < j then i else j);
  }

  lemma ValueTrichotomy(a: Value, b: Value)
    ensures ValueLess(a, b) || ValueLess(b, a) || a == b
    ensures !(ValueLess(a, b) && ValueLess(b, a))
    ensures ValueLess(a, b) ==> a != b
  {
    if a.Text? && b.Text? {
      TextTrichotomy(a.s, b.s);
    }
    if a.Unlisted? && b.Unlisted? {
      TextTrichotomy(a.printed, b.printed);
    }
  }

  lemma ValueTransitive(a: Value, b: Value, c: Value)
    requires ValueLess(a, b) && ValueLess(b, c)
    ensures ValueLess(a, c)
  {
    if a.Text? && b.Text? && c.Text? {
      TextTransitive(a.s, b.s, c.s);
    }
    if a.Unlisted? && b.Unlisted? && c.Unlisted? {
      TextTransitive(a.printed, b.printed, c.printed);
    }
  }

  /** Two keys compare by the column after their common prefix. */
  lemma LessAtCommon(a: Key, b: Key)
    ensures Less(a, b) <==> DecidedAt(a, b, Common(a, b))
  {
    var i := Common(a, b);
    if i < |a| && i < |b| {
      ValueTrichotomy(a[i], b[i]);
    }
    if Less(a, b) {
      var j :| 0 <= j < |b| && DecidedAt(a, b, j);
      if j < |a| {
        ValueTrichotomy(a[j], b[j]);
      }
    }
  }

  lemma Trichotomy(a: Key, b: Key)
    ensures Less(a, b) || Less(b, a) || a == b
    ensures !(Less(a, b) && Less(b, a))
    ensures Less(a, b) ==> a != b
  {
    LessAtCommon(a, b);
    LessAtCommon(b, a);
    var i := Common(a, b);
    assert Common(b, a) == i;
    if i < |a| && i < |b| {
      ValueTrichotomy(a[i], b[i]);
    }
  }

  lemma Transitive(a: Key, b: Key, c: Key)
    requires Less(a, b) && Less(b, c)
    ensures Less(a, c)
  {
    var i :| 0 <= i < |b| && DecidedAt(a, b, i);
    var j :| 0 <= j < |c| && DecidedAt(b, c, j);
    if i == j && i < |a| {
      ValueTransitive(a[i], b[i], c[i]);
    }
    assert DecidedAt(a, c, if i < j then i else j);
  }

  lemma LeqTransitive(a: Key, b: Key, c: Key)
    requires Leq(a, b) && Leq(b, c)
    ensures Leq(a, c)
    ensures (Less(a, b) || Less(b, c)) ==> Less(a, c)
  {
    if Less(a, b) && Less(b, c) {
      Transitive(a, b, c);
    }
  }
}
