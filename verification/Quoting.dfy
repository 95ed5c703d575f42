/** Quoting of identifiers and string constants, and the SQL scanner's reading of them. */
module Quoting {
  import opened Values
  import Strings

  /** strings.ReplaceAll(s, d, dd). */
  function Escape(s: string, d: char): string {
    if s == "" then ""
    else if s[0] == d then [d, d] + Escape(s[1..], d)
    else [s[0]] + Escape(s[1..], d)
  }

  /** strings.ReplaceAll(s, dd, d). */
  function Unescape(s: string, d: char): (t: string)
    ensures |t| <= |s|
  {
    if s == "" then ""
    else if |s| >= 2 && s[0] == d && s[1] == d then [d] + Unescape(s[2..], d)
    else [s[0]] + Unescape(s[1..], d)
  }

  /** Starts and ends with a double quote; a lone double quote does both. */
  predicate Quoted(s: string) {
    s != "" && s[0] == '"' && s[|s| - 1] == '"'
  }

  function QuoteIdentifier(name: string): string {
    if Quoted(name) then name else "\"" + Escape(name, '"') + "\""
  }

  /** Slicing a lone double quote panics. */
  function UnquoteIdentifier(name: string): Result<string> {
    if !Quoted(name) then Ok(name)
    else if |name| < 2 then Err("slice bounds out of range")
    else Ok(Unescape(name[1..|name| - 1], '"'))
  }

  function FormatValue(v: Value): string {
    match v
    case Null => "NULL"
    case Text(s) => "'" + Escape(s, '\'') + "'"
    case Num(n) => Strings.Decimal(n)
    case Unlisted(printed) => printed
  }

  /** The body of a quoted token up to its closing delimiter, a doubled delimiter standing for
      one (PostgreSQL 16 documentation, sections 4.1.1 and 4.1.2.1, standard-conforming strings). */
  function ScanBody(s: string, d: char): (r: Option<(string, string)>)
    ensures r.Some? ==> |r.value.0| + |r.value.1| < |s|
  {
    if s == "" then None
    else if s[0] == d then
      if |s| >= 2 && s[1] == d then
        match ScanBody(s[2..], d)
        case None => None
        case Some(p) => Some(([d] + p.0, p.1))
      else Some(("", s[1..]))
    else
      match ScanBody(s[1..], d)
      case None => None
      case Some(p) => Some(([s[0]] + p.0, p.1))
  }

  function ScanToken(s: string, d: char): (r: Option<(string, string)>)
    ensures r.Some? ==> |r.value.0| + 2 <= |s|
  {
    if s == "" || s[0] != d then None else ScanBody(s[1..], d)
  }

  lemma {:induction false} EscapeNothing(s: string, d: char)
    requires d !in s
    ensures Escape(s, d) == s
  {
    if s != "" {
      EscapeNothing(s[1..], d);
    }
  }

  /** No two of them stand side by side. */
  predicate NoPair(s: string, d: char) {
    forall i :: 0 <= i < |s| - 1 ==> s[i] != d || s[i + 1] != d
  }

  lemma {:induction false} UnescapeNothing(s: string, d: char)
    requires NoPair(s, d)
    ensures Unescape(s, d) == s
  {
    if s != "" {
      assert |s| >= 2 ==> s[0] != d || s[0 + 1] != d;
      assert NoPair(s[1..], d);
      UnescapeNothing(s[1..], d);
    }
  }

  /** The first pair is replaced, and the rest after it. */
  lemma {:induction false} UnescapeFirst(a: string, d: char, b: string)
    requires NoPair(a + [d], d)
    ensures Unescape(a + [d, d] + b, d) == a + [d] + Unescape(b, d)
  {
    var s := a + [d, d] + b;
    if a == "" {
      assert s[2..] == b;
    } else {
      assert (a + [d])[0] == a[0] && (a + [d])[1] == s[1];
      assert (a + [d])[0] != d || (a + [d])[0 + 1] != d;
      assert (a + [d])[1..] == a[1..] + [d] && s[1..] == a[1..] + [d, d] + b;
      UnescapeFirst(a[1..], d, b);
    }
  }

  /** What unquoting gives: a name without quotes as it is; otherwise what stands within them, up to the first
      pair of double quotes as it is, one double quote for the pair, and so on after it. */
  lemma UnquoteIs(name: string, a: string, b: string)
    ensures !Quoted(name) ==> UnquoteIdentifier(name) == Ok(name)
    ensures NoPair(a, '"') ==> UnquoteIdentifier("\"" + a + "\"") == Ok(a)
    ensures NoPair(a + "\"", '"') ==>
      && UnquoteIdentifier("\"" + b + "\"").Ok?
      && UnquoteIdentifier("\"" + (a + "\"\"" + b) + "\"")
         == Ok(a + "\"" + UnquoteIdentifier("\"" + b + "\"").value)
  {
    var s, t, u := "\"" + a + "\"", "\"" + b + "\"", "\"" + (a + "\"\"" + b) + "\"";
    assert s[1..|s| - 1] == a && t[1..|t| - 1] == b && u[1..|u| - 1] == a + "\"\"" + b;
    if NoPair(a, '"') {
      UnescapeNothing(a, '"');
    }
    if NoPair(a + "\"", '"') {
      UnescapeFirst(a, '"', b);
      assert a + "\"\"" + b == a + ['"', '"'] + b && a + "\"" == a + ['"'];
    }
  }

  lemma {:induction false} UnescapeEscape(s: string, d: char)
    ensures Unescape(Escape(s, d), d) == s
  {
    if s != "" {
      UnescapeEscape(s[1..], d);
      var e := Escape(s[1..], d);
      if s[0] == d {
        assert ([d, d] + e)[2..] == e;
      } else {
        assert ([s[0]] + e)[1..] == e;
      }
    }
  }

  lemma ScanPlain(c: char, d: char, tail: string)
    requires c != d
    ensures ScanBody([c] + tail, d) ==
      match ScanBody(tail, d) case None => None case Some(p) => Some(([c] + p.0, p.1))
  {
    assert ([c] + tail)[1..] == tail;
  }

  lemma ScanDoubled(d: char, tail: string)
    ensures ScanBody([d, d] + tail, d) ==
      match ScanBody(tail, d) case None => None case Some(p) => Some(([d] + p.0, p.1))
  {
    assert ([d, d] + tail)[2..] == tail;
  }

  lemma {:induction false} ScanBodyEscape(s: string, d: char, rest: string)
    requires rest == "" || rest[0] != d
    ensures ScanBody(Escape(s, d) + [d] + rest, d) == Some((s, rest))
  {
    if s == "" {
      assert (Escape(s, d) + [d] + rest)[1..] == rest;
    } else {
      ScanBodyEscape(s[1..], d, rest);
      var tail := Escape(s[1..], d) + [d] + rest;
      assert [s[0]] + s[1..] == s;
      if s[0] == d {
        assert Escape(s, d) + [d] + rest == [d, d] + tail;
        ScanDoubled(d, tail);
      } else {
        assert Escape(s, d) + [d] + rest == [s[0]] + tail;
        ScanPlain(s[0], d, tail);
      }
    }
  }

  lemma QuotedBody(name: string)
    requires !Quoted(name)
    ensures Quoted(QuoteIdentifier(name)) && |QuoteIdentifier(name)| >= 2
    ensures QuoteIdentifier(name)[1..|QuoteIdentifier(name)| - 1] == Escape(name, '"')
  {
  }

  /** Unquoting undoes quoting exactly on the names that are not taken for quoted already. */
  lemma UnquoteQuoteIff(name: string)
    ensures UnquoteIdentifier(QuoteIdentifier(name)) == Ok(name) <==> !Quoted(name)
  {
    if !Quoted(name) {
      QuotedBody(name);
      UnescapeEscape(name, '"');
    }
  }

  /** Unquoting slices out of range exactly on a lone double quote. */
  lemma UnquoteFailsIff(name: string)
    ensures UnquoteIdentifier(name).Err? <==> name == "\""
  {
    if |name| == 1 && Quoted(name) {
      assert name == [name[0]];
    }
  }

  lemma QuoteIdempotent(name: string)
    ensures QuoteIdentifier(QuoteIdentifier(name)) == QuoteIdentifier(name)
  {
    if !Quoted(name) {
      QuotedBody(name);
    }
  }

  /** Two different names get one quoted form exactly when one of them is the other's quoted form. */
  lemma QuoteCollisionIff(a: string, b: string)
    requires a != b
    ensures QuoteIdentifier(a) == QuoteIdentifier(b)
       <==> (a == QuoteIdentifier(b) || b == QuoteIdentifier(a))
  {
    QuoteIdempotent(a);
    QuoteIdempotent(b);
    UnquoteQuoteIff(a);
    UnquoteQuoteIff(b);
  }

  /** The scanner reads a quoted identifier back as the name exactly on the same names, whatever
      follows the token. */
  lemma ScanQuotedIff(name: string, rest: string)
    requires rest == "" || rest[0] != '"'
    ensures ScanToken(QuoteIdentifier(name) + rest, '"') == Some((name, rest)) <==> !Quoted(name)
  {
    var s := QuoteIdentifier(name) + rest;
    if !Quoted(name) {
      assert s[1..] == Escape(name, '"') + "\"" + rest;
      ScanBodyEscape(name, '"', rest);
    }
  }

  /** A formatted text value reads back as the same text. */
  lemma ScanFormattedText(text: string, rest: string)
    requires rest == "" || rest[0] != '\''
    ensures ScanToken(FormatValue(Text(text)) + rest, '\'') == Some((text, rest))
  {
    var s := FormatValue(Text(text)) + rest;
    assert s[1..] == Escape(text, '\'') + "'" + rest;
    ScanBodyEscape(text, '\'', rest);
  }
}
