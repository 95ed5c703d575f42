/** Threshold maps such as "active_connections=100,idle_in_transaction=10": printer and parser. */
module LoadMaps {
  import opened Values
  import opened Strings

  type LoadMap = map<string, int>

  /** What one comma-separated piece means. */
  datatype Piece = Blank | Entry(name: string, value: int) | Malformed(error: string)

  function ReadPiece(piece: string): Piece {
    var pair := TrimSpace(piece);
    var eq := IndexOf(pair, '=');
    if pair == "" then Blank
    else if eq == |pair| then Malformed("invalid load map entry: " + pair)
    else
      var name, valueStr := TrimSpace(pair[..eq]), TrimSpace(pair[eq + 1..]);
      match ParseInt(valueStr)
      case None => Malformed("invalid value for " + name + ": " + valueStr)
      case Some(value) => Entry(name, value)
  }

  /** The pieces read from left to right; the first malformed one decides. */
  function ReadPieces(pieces: seq<string>, before: LoadMap): Result<LoadMap> {
    if pieces == [] then Ok(before)
    else
      match ReadPiece(pieces[0])
      case Blank => ReadPieces(pieces[1..], before)
      case Entry(name, value) => ReadPieces(pieces[1..], before[name := value])
      case Malformed(error) => Err(error)
  }

  function Parsed(s: string): Result<LoadMap> {
    if s == "" then Ok(map[]) else ReadPieces(Split(s, ','), map[])
  }

  // ---- which texts are accepted, and what they set ----

  /** Around its first '='. */
  ghost predicate SplitAt(pair: string, name: string, value: string) {
    '=' !in name && pair == name + "=" + value
  }

  /** The piece sets the name to the value. */
  ghost predicate Sets(piece: string, name: string, value: int) {
    exists before, after ::
      && SplitAt(TrimSpace(piece), before, after)
      && name == TrimSpace(before) && Numeral(TrimSpace(after), value) && IsInt64(value)
  }

  /** Not blank, and without an '=' or without a 64-bit numeral after its first '='. */
  ghost predicate Invalid(piece: string) {
    var pair := TrimSpace(piece);
    && pair != ""
    && ('=' !in pair ||
        exists before, after ::
          SplitAt(pair, before, after) && forall n :: Numeral(TrimSpace(after), n) ==> !IsInt64(n))
  }

  lemma SplitAtFirst(pair: string, before: string, after: string)
    ensures SplitAt(pair, before, after) <==>
      var eq := IndexOf(pair, '=');
      eq < |pair| && before == pair[..eq] && after == pair[eq + 1..]
  {
    hide IndexOf;
    var eq := IndexOf(pair, '=');
    if SplitAt(pair, before, after) {
      IndexOfFirst(before, '=', after);
      assert pair == before + ['='] + after;
      assert pair[..|before|] == before && pair[|before| + 1..] == after;
    }
    if eq < |pair| {
      assert pair == pair[..eq] + [pair[eq]] + pair[eq + 1..];
    }
  }

  lemma NoNumeral(text: string)
    ensures ParseInt(text).None? <==> forall n :: Numeral(text, n) ==> !IsInt64(n)
  {
    forall n
      ensures ParseInt(text) == Some(n) <==> Numeral(text, n) && IsInt64(n)
    {
      ParseIntIff(text, n);
    }
    if ParseInt(text).Some? {
      var n := ParseInt(text).value;
      assert Numeral(text, n) && IsInt64(n);
    }
  }

  /** What a piece is read as is what it is. */
  lemma PieceIs(piece: string)
    ensures ReadPiece(piece).Malformed? <==> Invalid(piece)
    ensures forall name, value :: ReadPiece(piece) == Entry(name, value) <==> Sets(piece, name, value)
  {
    var pair := TrimSpace(piece);
    var eq := IndexOf(pair, '=');
    forall before, after
      ensures SplitAt(pair, before, after) <==> eq < |pair| && before == pair[..eq] && after == pair[eq + 1..]
    {
      SplitAtFirst(pair, before, after);
    }
    assert '=' in pair <==> eq < |pair| by {
      assert eq == |pair| ==> pair[..eq] == pair;
    }
    if eq < |pair| {
      assert SplitAt(pair, pair[..eq], pair[eq + 1..]);
      var text := TrimSpace(pair[eq + 1..]);
      NoNumeral(text);
      forall n
        ensures ParseInt(text) == Some(n) <==> Numeral(text, n) && IsInt64(n)
      {
        ParseIntIff(text, n);
      }
    }
  }

  /** The last of the pieces that names the name gives it that value. */
  ghost predicate LastSets(pieces: seq<string>, name: string, value: int, i: nat) {
    && i < |pieces| && Sets(pieces[i], name, value)
    && forall j, v {:trigger Sets(pieces[j], name, v)} :: i < j < |pieces| ==> !Sets(pieces[j], name, v)
  }

  ghost predicate SetsNone(pieces: seq<string>, name: string) {
    forall j, v {:trigger Sets(pieces[j], name, v)} :: 0 <= j < |pieces| ==> !Sets(pieces[j], name, v)
  }

  predicate Maps(m: LoadMap, name: string, value: int) {
    name in m && m[name] == value
  }

  ghost predicate SomeLast(pieces: seq<string>, name: string, value: int) {
    exists i: nat :: LastSets(pieces, name, value, i)
  }

  lemma LastSetsCons(pieces: seq<string>, name: string, value: int)
    requires pieces != []
    ensures SomeLast(pieces, name, value) <==>
      SomeLast(pieces[1..], name, value) || (Sets(pieces[0], name, value) && SetsNone(pieces[1..], name))
    ensures SetsNone(pieces, name) <==> (forall v :: !Sets(pieces[0], name, v)) && SetsNone(pieces[1..], name)
  {
    hide Sets;
    forall i: nat
      ensures LastSets(pieces, name, value, i + 1) <==> LastSets(pieces[1..], name, value, i)
    {
      assert forall j :: i < j < |pieces| - 1 ==> pieces[1..][j] == pieces[j + 1];
      assert forall j :: i + 1 < j < |pieces| ==> pieces[j] == pieces[1..][j - 1];
    }
    assert forall j :: 0 < j < |pieces| ==> pieces[j] == pieces[1..][j - 1];
    assert forall j :: 0 <= j < |pieces| - 1 ==> pieces[1..][j] == pieces[j + 1];
    assert LastSets(pieces, name, value, 0) <==> Sets(pieces[0], name, value) && SetsNone(pieces[1..], name);
    if SomeLast(pieces, name, value) {
      var i: nat :| LastSets(pieces, name, value, i);
      assert i > 0 ==> LastSets(pieces[1..], name, value, i - 1);
    }
    if SomeLast(pieces[1..], name, value) {
      var i: nat :| LastSets(pieces[1..], name, value, i);
      assert LastSets(pieces, name, value, i + 1);
    }
  }

  lemma {:induction false} AcceptedIff(pieces: seq<string>, before: LoadMap)
    ensures ReadPieces(pieces, before).Err? <==> exists p :: p in pieces && Invalid(p)
  {
    if pieces != [] {
      PieceIs(pieces[0]);
      hide Invalid, ReadPiece;
      assert forall p :: p in pieces <==> p == pieces[0] || p in pieces[1..];
      match ReadPiece(pieces[0])
      case Blank => AcceptedIff(pieces[1..], before);
      case Entry(name, value) => AcceptedIff(pieces[1..], before[name := value]);
      case Malformed(_) =>
    }
  }

  /** What is said of an invalid piece. */
  ghost predicate Complaint(piece: string, error: string) {
    var pair := TrimSpace(piece);
    if '=' !in pair then error == "invalid load map entry: " + pair
    else
      exists before, after ::
        SplitAt(pair, before, after)
        && error == "invalid value for " + TrimSpace(before) + ": " + TrimSpace(after)
  }

  lemma PieceComplains(piece: string)
    requires ReadPiece(piece).Malformed?
    ensures Complaint(piece, ReadPiece(piece).error)
  {
    var pair := TrimSpace(piece);
    var eq := IndexOf(pair, '=');
    if eq < |pair| {
      SplitAtFirst(pair, pair[..eq], pair[eq + 1..]);
    } else {
      assert pair[..eq] == pair;
    }
  }

  /** The first invalid piece decides what is said. */
  ghost predicate FirstInvalid(pieces: seq<string>, i: nat, error: string) {
    && i < |pieces| && Invalid(pieces[i]) && Complaint(pieces[i], error)
    && forall j :: 0 <= j < i ==> !Invalid(pieces[j])
  }

  lemma {:induction false} FirstDecides(pieces: seq<string>, before: LoadMap)
    requires ReadPieces(pieces, before).Err?
    ensures exists i: nat :: FirstInvalid(pieces, i, ReadPieces(pieces, before).error)
  {
    var error := ReadPieces(pieces, before).error;
    PieceIs(pieces[0]);
    if ReadPiece(pieces[0]).Malformed? {
      PieceComplains(pieces[0]);
      assert FirstInvalid(pieces, 0, error);
    } else {
      var r := ReadPiece(pieces[0]);
      var before' := if r.Entry? then before[r.name := r.value] else before;
      FirstDecides(pieces[1..], before');
      var i: nat :| FirstInvalid(pieces[1..], i, error);
      hide Invalid, Complaint, ReadPiece;
      assert FirstInvalid(pieces, i + 1, error) by {
        assert forall j :: 0 < j <= i ==> pieces[j] == pieces[1..][j - 1];
      }
    }
  }

  /** The last piece that names the name decides, and what was there before if none does. */
  lemma {:induction false} ValueIs(pieces: seq<string>, before: LoadMap, name: string, value: int)
    requires ReadPieces(pieces, before).Ok?
    ensures Maps(ReadPieces(pieces, before).value, name, value) <==>
      SomeLast(pieces, name, value) || (SetsNone(pieces, name) && Maps(before, name, value))
  {
    if pieces != [] {
      PieceIs(pieces[0]);
      hide Sets, ReadPiece;
      LastSetsCons(pieces, name, value);
      hide SomeLast, SetsNone;
      match ReadPiece(pieces[0])
      case Blank => ValueIs(pieces[1..], before, name, value);
      case Entry(n, v) => ValueIs(pieces[1..], before[n := v], name, value);
    }
  }

  /** A text is refused exactly when one of its pieces is invalid; otherwise each name has the value of the last
      piece that names it. */
  lemma TextIs(s: string)
    ensures Parsed(s).Err? <==> exists p :: p in Split(s, ',') && Invalid(p)
    ensures Parsed(s).Err? ==> exists i: nat :: FirstInvalid(Split(s, ','), i, Parsed(s).error)
    ensures Parsed(s).Ok? ==>
      forall name, value :: Maps(Parsed(s).value, name, value) <==> SomeLast(Split(s, ','), name, value)
  {
    AcceptedIff(Split(s, ','), map[]);
    if Parsed(s).Err? {
      FirstDecides(Split(s, ','), map[]);
    }
    if Parsed(s).Ok? {
      forall name, value
        ensures Maps(Parsed(s).value, name, value) <==> SomeLast(Split(s, ','), name, value)
      {
        ValueIs(Split(s, ','), map[], name, value);
      }
    }
  }

  method ParseLoadMap(s: string) returns (r: Result<LoadMap>)
    ensures r.Err? <==> exists p :: p in Split(s, ',') && Invalid(p)
    ensures r.Err? ==> exists i: nat :: FirstInvalid(Split(s, ','), i, r.error)
    ensures r.Ok? ==> forall name, value :: Maps(r.value, name, value) <==> SomeLast(Split(s, ','), name, value)
    ensures r == Parsed(s)
    ensures r.Ok? ==> forall name :: name in r.value ==> WellNamed(name) && IsInt64(r.value[name])
  {
    var result: LoadMap := map[];
    if s == "" {
      TextIs(s);
      return Ok(result);
    }
    var pairs := Split(s, ',');
    ghost var first := ReadPieces(pairs, result);
    TextIs(s);
    SplitHasNoSeparator(s, ',');
    for i := 0 to |pairs|
      invariant ReadPieces(pairs[i..], result) == first
      invariant forall name :: name in result ==> WellNamed(name) && IsInt64(result[name])
    {
      assert pairs[i..][1..] == pairs[i + 1..];
      ReadNameWellNamed(pairs[i]);
      match ReadPiece(pairs[i]) {
        case Blank =>
        case Entry(name, value) => result := result[name := value];
        case Malformed(error) => return Err(error);
      }
    }
    r := Ok(result);
  }

  function EntryText(name: string, value: int): string {
    name + "=" + Decimal(value)
  }

  function EntryTexts(order: seq<string>, m: LoadMap): (texts: seq<string>)
    requires forall name :: name in order ==> name in m
    ensures |texts| == |order|
    ensures forall i :: 0 <= i < |order| ==> texts[i] == EntryText(order[i], m[order[i]])
  {
    seq(|order|, i requires 0 <= i < |order| => EntryText(order[i], m[order[i]]))
  }

  /** An order in which Go may range over the map: every name once. */
  ghost predicate RangeOrder(order: seq<string>, m: LoadMap) {
    && (forall name :: name in order <==> name in m)
    && (forall i, j :: 0 <= i < j < |order| ==> order[i] != order[j])
  }

  /** The text is the printed map, in that order. */
  ghost predicate Prints(s: string, order: seq<string>, m: LoadMap) {
    RangeOrder(order, m) && s == Join(EntryTexts(order, m), ",")
  }

  /** The printer, whatever order the range statement takes. */
  method String(m: LoadMap) returns (s: string)
    ensures exists order :: Prints(s, order, m)
  {
    ghost var order: seq<string> := [];
    var parts: seq<string> := [];
    var rest := m.Keys;
    while rest != {}
      invariant rest <= m.Keys
      invariant forall name :: name in order <==> name in m && name !in rest
      invariant forall i, j :: 0 <= i < j < |order| ==> order[i] != order[j]
      invariant parts == EntryTexts(order, m)
      decreases |rest|
    {
      var name :| name in rest;
      parts := parts + [EntryText(name, m[name])];
      order := order + [name];
      rest := rest - {name};
    }
    s := Join(parts, ",");
    assert Prints(s, order, m);
  }

  /** The names that survive printing and parsing. */
  predicate WellNamed(name: string) {
    ',' !in name && '=' !in name && Trimmed(name)
  }

  lemma ReadNameWellNamed(piece: string)
    requires ',' !in piece
    ensures ReadPiece(piece).Entry? ==> WellNamed(ReadPiece(piece).name) && IsInt64(ReadPiece(piece).value)
  {
    var pair := TrimSpace(piece);
    var eq := IndexOf(pair, '=');
    var name := TrimSpace(pair[..eq]);
    assert forall c :: c in name ==> c in pair[..eq] && c in pair;
  }

  lemma SplitEntry(name: string, text: string)
    requires '=' !in name && Trimmed(name) && text != "" && Trimmed(text)
    ensures var s := name + "=" + text;
      && s != "" && Trimmed(s) && IndexOf(s, '=') == |name| < |s|
      && s[..|name|] == name && s[|name| + 1..] == text
  {
    var s := name + "=" + text;
    assert s[|s| - 1] == text[|text| - 1];
    IndexOfFirst(name, '=', text);
    assert s == name + ['='] + text;
  }

  lemma NoComma(name: string, value: int)
    requires WellNamed(name)
    ensures ',' !in EntryText(name, value)
  {
    DecimalTrimmed(value);
  }

  lemma ReadEntryText(name: string, value: int)
    requires WellNamed(name) && IsInt64(value)
    ensures ReadPiece(EntryText(name, value)) == Entry(name, value)
    ensures ',' !in EntryText(name, value)
  {
    DecimalTrimmed(value);
    ParseIntDecimal(value);
    SplitEntry(name, Decimal(value));
    NoComma(name, value);
  }

  /** Reading the printed entries adds exactly the printed names. */
  lemma {:induction false} ReadEntryTexts(order: seq<string>, m: LoadMap, before: LoadMap)
    requires forall name :: name in order ==> name in m && WellNamed(name) && IsInt64(m[name])
    ensures ReadPieces(EntryTexts(order, m), before) == Ok(Added(order, m, before))
  {
    if order != [] {
      var name := order[0];
      assert name in order;
      ReadEntryText(name, m[name]);
      assert EntryTexts(order, m)[0] == EntryText(name, m[name]);
      assert EntryTexts(order, m)[1..] == EntryTexts(order[1..], m);
      ReadEntryTexts(order[1..], m, before[name := m[name]]);
    }
  }

  ghost function Added(order: seq<string>, m: LoadMap, before: LoadMap): (r: LoadMap)
    requires forall name :: name in order ==> name in m
    ensures r.Keys == before.Keys + set name | name in order
    ensures forall name :: name in r ==> r[name] == if name in order then m[name] else before[name]
  {
    if order == [] then before else Added(order[1..], m, before[order[0] := m[order[0]]])
  }

  lemma {:induction false} ReadNames(pieces: seq<string>, before: LoadMap)
    requires forall p :: p in pieces ==> ',' !in p
    requires forall name :: name in before ==> WellNamed(name)
    ensures ReadPieces(pieces, before).Ok? ==>
      forall name :: name in ReadPieces(pieces, before).value ==> WellNamed(name)
  {
    if pieces != [] {
      ReadNameWellNamed(pieces[0]);
      match ReadPiece(pieces[0])
      case Blank => ReadNames(pieces[1..], before);
      case Entry(name, value) => ReadNames(pieces[1..], before[name := value]);
      case Malformed(_) =>
    }
  }

  lemma EntryTextsSplit(order: seq<string>, m: LoadMap)
    requires order != []
    requires forall name :: name in order ==> name in m && IsInt64(m[name]) && WellNamed(name)
    ensures Join(EntryTexts(order, m), ",") != ""
    ensures Split(Join(EntryTexts(order, m), ","), ',') == EntryTexts(order, m)
  {
    var texts := EntryTexts(order, m);
    forall p | p in texts
      ensures ',' !in p
    {
      var i :| 0 <= i < |texts| && texts[i] == p;
      ReadEntryText(order[i], m[order[i]]);
    }
    SplitJoin(texts, ',');
    assert texts[0] == EntryText(order[0], m[order[0]]);
    JoinNotEmpty(texts);
  }

  lemma AddedAll(order: seq<string>, m: LoadMap)
    requires RangeOrder(order, m)
    ensures Added(order, m, map[]) == m
  {
    var r := Added(order, m, map[]);
    assert r.Keys == m.Keys;
  }

  lemma RoundTrip(m: LoadMap, order: seq<string>)
    requires RangeOrder(order, m)
    requires forall name :: name in m ==> IsInt64(m[name]) && WellNamed(name)
    ensures Parsed(Join(EntryTexts(order, m), ",")) == Ok(m)
  {
    AddedAll(order, m);
    if order != [] {
      EntryTextsSplit(order, m);
      ReadEntryTexts(order, m, map[]);
    }
  }

  lemma JoinNotEmpty(texts: seq<string>)
    requires texts != [] && texts[0] != ""
    ensures Join(texts, ",") != ""
  {
  }

  /** Round trip over the whole int64 range, for every printing order: parsing gives the map back
      exactly when no name holds a comma, an equals sign or outer white space. */
  lemma RoundTripIff(m: LoadMap, order: seq<string>, s: string)
    requires Prints(s, order, m) && forall name :: name in m ==> IsInt64(m[name])
    ensures Parsed(s) == Ok(m) <==> forall name :: name in m ==> WellNamed(name)
  {
    if forall name :: name in m ==> WellNamed(name) {
      RoundTrip(m, order);
    } else {
      SplitHasNoSeparator(s, ',');
      ReadNames(Split(s, ','), map[]);
    }
  }
}
