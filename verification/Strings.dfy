/** The string functions of the Go library that the source calls. */
module Strings {
  import opened Values

  /** strings.Join. */
  function Join(parts: seq<string>, sep: string): string {
    if parts == [] then ""
    else if |parts| == 1 then parts[0]
    else parts[0] + sep + Join(parts[1..], sep)
  }

  /** The position of the first occurrence, or the length when there is none. */
  function IndexOf(s: string, c: char): (i: nat)
    ensures i <= |s| && (i < |s| ==> s[i] == c) && c !in s[..i]
  {
    if s == "" || s[0] == c then 0
    else
      var i := 1 + IndexOf(s[1..], c);
      assert s[..i] == [s[0]] + s[1..][..i - 1];
      i
  }

  /** strings.Split on a one-character separator. */
  function Split(s: string, sep: char): (parts: seq<string>)
    ensures parts != []
    decreases |s|
  {
    var i := IndexOf(s, sep);
    if i == |s| then [s] else [s[..i]] + Split(s[i + 1..], sep)
  }

  lemma {:induction false} IndexOfFirst(before: string, c: char, after: string)
    requires c !in before
    ensures IndexOf(before + [c] + after, c) == |before|
    ensures IndexOf(before, c) == |before|
  {
    if before != "" {
      assert (before + [c] + after)[1..] == before[1..] + [c] + after;
      IndexOfFirst(before[1..], c, after);
    }
  }

  /** Splitting undoes joining when no part holds the separator. */
  lemma {:induction false} SplitJoin(parts: seq<string>, sep: char)
    requires parts != []
    requires forall p :: p in parts ==> sep !in p
    ensures Split(Join(parts, [sep]), sep) == parts
  {
    if |parts| == 1 {
      assert parts[0] in parts;
      IndexOfFirst(parts[0], sep, "");
    } else {
      var rest := Join(parts[1..], [sep]);
      assert parts[0] in parts;
      IndexOfFirst(parts[0], sep, rest);
      var s := parts[0] + [sep] + rest;
      assert Join(parts, [sep]) == s;
      assert s[..|parts[0]|] == parts[0];
      assert s[|parts[0]| + 1..] == rest;
      SplitJoin(parts[1..], sep);
    }
  }

  lemma {:induction false} SplitHasNoSeparator(s: string, sep: char)
    ensures forall p :: p in Split(s, sep) ==> sep !in p
    decreases |s|
  {
    var i := IndexOf(s, sep);
    if i < |s| {
      SplitHasNoSeparator(s[i + 1..], sep);
    } else {
      assert s[..i] == s;
    }
  }

  /** Joining undoes splitting; the parts are therefore the only ones without the separator that do
      (SplitJoin). */
  lemma {:induction false} JoinSplit(s: string, sep: char)
    ensures Join(Split(s, sep), [sep]) == s
    decreases |s|
  {
    var i := IndexOf(s, sep);
    if i < |s| {
      JoinSplit(s[i + 1..], sep);
      assert s == s[..i] + [sep] + s[i + 1..];
    }
  }

  /** unicode.IsSpace. */
  predicate IsSpace(c: char) {
    var n := c as int;
    || 9 <= n <= 13 || n == 32 || n == 0x85 || n == 0xA0 || n == 0x1680
    || 0x2000 <= n <= 0x200A || n == 0x2028 || n == 0x2029 || n == 0x202F || n == 0x205F || n == 0x3000
  }

  predicate Trimmed(s: string) {
    s == "" || (!IsSpace(s[0]) && !IsSpace(s[|s| - 1]))
  }

  /** strings.TrimSpace. */
  function TrimSpace(s: string): (t: string)
    ensures Trimmed(t)
    ensures Trimmed(s) ==> t == s
    ensures forall c :: c in t ==> c in s
    decreases |s|
  {
    if s == "" then s
    else if IsSpace(s[0]) then TrimSpace(s[1..])
    else if IsSpace(s[|s| - 1]) then TrimSpace(s[..|s| - 1])
    else s
  }

  /** The text without the white space around it. */
  lemma {:induction false} TrimSpaceCut(s: string) returns (i: nat, j: nat)
    ensures i <= j <= |s| && TrimSpace(s) == s[i..j] && Trimmed(s[i..j])
    ensures (forall k :: 0 <= k < i ==> IsSpace(s[k])) && forall k :: j <= k < |s| ==> IsSpace(s[k])
    decreases |s|
  {
    hide IsSpace;
    if s == "" || !(IsSpace(s[0]) || IsSpace(s[|s| - 1])) {
      i, j := 0, |s|;
    } else if IsSpace(s[0]) {
      i, j := TrimSpaceCut(s[1..]);
      assert s[1..][i..j] == s[i + 1..j + 1];
      i, j := i + 1, j + 1;
    } else {
      i, j := TrimSpaceCut(s[..|s| - 1]);
      assert s[..|s| - 1][i..j] == s[i..j];
    }
  }

  function Digit(n: nat): (c: char)
    requires n < 10
    ensures c == "0123456789"[n] && IsDigit(c) && DigitValue(c) == n
  {
    '0' + n as char
  }

  predicate IsDigit(c: char) {
    '0' <= c <= '9'
  }

  function DigitValue(c: char): (n: nat)
    requires IsDigit(c)
    ensures n < 10
  {
    (c - '0') as int
  }

  /** Decimal digits of a natural number. */
  function Digits(n: nat): (s: string)
    ensures s != ""
    ensures forall c :: c in s ==> IsDigit(c)
  {
    if n < 10 then [Digit(n)] else Digits(n / 10) + [Digit(n % 10)]
  }

  /** The %d of Go's formatter, in base ten. */
  function Decimal(n: int): string {
    if n < 0 then "-" + Digits(-n) else Digits(n)
  }

  predicate AllDigits(s: string) {
    forall c | c in s :: IsDigit(c)
  }

  function DigitsValue(s: string): nat
    requires AllDigits(s)
  {
    if s == "" then 0 else 10 * DigitsValue(s[..|s| - 1]) + DigitValue(s[|s| - 1])
  }

  const INT64_MIN: int := -0x8000_0000_0000_0000
  const INT64_MAX: int := 0x7fff_ffff_ffff_ffff

  predicate IsInt64(n: int) {
    INT64_MIN <= n <= INT64_MAX
  }

  /** strconv.ParseInt with base 10 and 64 bits. */
  function ParseInt(s: string): (r: Option<int>)
    ensures r.Some? ==> IsInt64(r.value)
  {
    var signed := s != "" && (s[0] == '+' || s[0] == '-');
    var digits := if signed then s[1..] else s;
    if digits == "" || !AllDigits(digits) then None
    else
      var n: int := if signed && s[0] == '-' then 0 - DigitsValue(digits) else DigitsValue(digits);
      if IsInt64(n) then Some(n) else None
  }

  lemma {:induction false} DigitsValueDigits(n: nat)
    ensures DigitsValue(Digits(n)) == n
  {
    var s := Digits(n);
    if n < 10 {
      assert s[..|s| - 1] == "";
    } else {
      assert s[..|s| - 1] == Digits(n / 10);
      DigitsValueDigits(n / 10);
    }
  }

  /** Parsing undoes printing on the whole int64 range. */
  lemma ParseIntDecimal(n: int)
    ensures ParseInt(Decimal(n)) == if IsInt64(n) then Some(n) else None
  {
    var m := if n < 0 then -n else n;
    DigitsValueDigits(m);
    assert Digits(m)[0] in Digits(m);
    if n < 0 {
      assert Decimal(n)[1..] == Digits(m);
    }
  }

  // ---- which texts are numerals ----

  function Zeros(n: nat): (s: string)
    ensures |s| == n && forall c :: c in s ==> c == '0'
  {
    seq(n, i => '0')
  }

  /** A numeral of n: perhaps a sign, perhaps leading zeros, and the decimal digits. */
  ghost predicate Numeral(s: string, n: int) {
    exists sign: string, z: nat :: NumeralWith(s, n, sign, z)
  }

  predicate Sign(sign: string) {
    sign == "" || sign == "+" || sign == "-"
  }

  ghost predicate NumeralWith(s: string, n: int, sign: string, z: nat) {
    && Sign(sign) && (n < 0 ==> sign == "-") && (n > 0 ==> sign != "-")
    && s == sign + Zeros(z) + Digits(if n < 0 then -n else n)
  }

  /** One more digit. */
  lemma DigitsTenfold(n: nat, d: nat)
    requires n > 0 && d < 10
    ensures Digits(10 * n + d) == Digits(n) + [Digit(d)] && Digits(d) == [Digit(d)]
  {
    assert (10 * n + d) / 10 == n && (10 * n + d) % 10 == d;
  }

  lemma DigitOf(c: char)
    requires IsDigit(c)
    ensures Digit(DigitValue(c)) == c
  {
  }

  lemma DigitAppended(s: string, z: nat, n: nat, d: nat) returns (z': nat)
    requires s == Zeros(z) + Digits(n) && d < 10
    ensures s + [Digit(d)] == Zeros(z') + Digits(10 * n + d)
  {
    DigitsTenfold(if n == 0 then 1 else n, d);
    assert Digits(0) == ['0'];
    hide Digits, Digit;
    if n == 0 {
      z' := z + 1;
      assert s == Zeros(z');
    } else {
      z' := z;
      Associated(Zeros(z), Digits(n), [Digit(d)]);
    }
  }

  /** Digits are the digits of their value behind leading zeros. */
  lemma {:induction false} LeadingZeros(s: string) returns (z: nat)
    requires s != "" && AllDigits(s)
    ensures s == Zeros(z) + Digits(DigitsValue(s))
  {
    var k := |s| - 1;
    var d := DigitValue(s[k]);
    DigitOf(s[k]);
    assert s == s[..k] + [Digit(d)];
    if k == 0 {
      z := 0;
    } else {
      z := LeadingZeros(s[..k]);
      z := DigitAppended(s[..k], z, DigitsValue(s[..k]), d);
    }
  }

  lemma {:induction false} ZerosValue(z: nat, s: string)
    requires AllDigits(s)
    ensures AllDigits(Zeros(z) + s) && DigitsValue(Zeros(z) + s) == DigitsValue(s)
    decreases z + |s|
  {
    var t := Zeros(z) + s;
    if s != "" {
      ZerosValue(z, s[..|s| - 1]);
      assert t[..|t| - 1] == Zeros(z) + s[..|s| - 1];
    } else if z > 0 {
      ZerosValue(z - 1, "");
      assert t[..z - 1] == Zeros(z - 1) + "";
    }
  }

  lemma SignedNumeral(digits: string, sign: string)
    requires digits != "" && AllDigits(digits) && Sign(sign)
    ensures Numeral(sign + digits, if sign == "-" then 0 - DigitsValue(digits) else DigitsValue(digits))
  {
    var z := LeadingZeros(digits);
    hide Digits, DigitsValue, AllDigits, Zeros;
    assert sign + digits == sign + Zeros(z) + Digits(DigitsValue(digits));
    assert NumeralWith(sign + digits, if sign == "-" then 0 - DigitsValue(digits) else DigitsValue(digits), sign, z);
  }

  lemma ParsedIsNumeral(s: string)
    requires ParseInt(s).Some?
    ensures Numeral(s, ParseInt(s).value)
  {
    var signed := s[0] == '+' || s[0] == '-';
    var sign, digits := if !signed then "" else if s[0] == '+' then "+" else "-", if signed then s[1..] else s;
    hide Digits, DigitsValue, AllDigits, Numeral;
    assert s == sign + digits;
    SignedNumeral(digits, sign);
  }

  lemma SignedParsed(digits: string, sign: string, m: nat)
    requires digits != "" && AllDigits(digits) && DigitsValue(digits) == m && Sign(sign)
    ensures var n: int := if sign == "-" then 0 - m else m;
      ParseInt(sign + digits) == if IsInt64(n) then Some(n) else None
  {
    assert IsDigit(digits[0]) by {
      assert digits[0] in digits;
    }
    if sign != "" {
      assert (sign + digits)[1..] == digits;
    } else {
      assert sign + digits == digits;
    }
  }

  lemma Associated(a: string, b: string, c: string)
    ensures a + b + c == a + (b + c)
  {
  }

  lemma NumeralParsed(s: string, n: int, sign: string, z: nat)
    requires NumeralWith(s, n, sign, z)
    ensures ParseInt(s) == if IsInt64(n) then Some(n) else None
  {
    var m: nat := if n < 0 then -n else n;
    var digits := Zeros(z) + Digits(m);
    ZerosValue(z, Digits(m));
    DigitsValueDigits(m);
    hide ParseInt, DigitsValue, Digits, AllDigits, Zeros, Sign;
    Associated(sign, Zeros(z), Digits(m));
    SignedParsed(digits, sign, m);
  }

  /** A text is parsed to n exactly when it is a numeral of n and n has 64 bits. */
  lemma ParseIntIff(s: string, n: int)
    ensures ParseInt(s) == Some(n) <==> Numeral(s, n) && IsInt64(n)
  {
    if ParseInt(s) == Some(n) {
      ParsedIsNumeral(s);
    } else if Numeral(s, n) {
      var sign: string, z: nat :| NumeralWith(s, n, sign, z);
      NumeralParsed(s, n, sign, z);
    }
  }

  lemma DecimalTrimmed(n: int)
    ensures Decimal(n) != "" && Trimmed(Decimal(n))
    ensures forall c :: c in Decimal(n) ==> IsDigit(c) || c == '-'
  {
    var d := Digits(if n < 0 then -n else n);
    assert d[0] in d && d[|d| - 1] in d;
  }

  /** Printing integers is injective. */
  lemma DecimalInjective(m: int, n: int)
    requires Decimal(m) == Decimal(n)
    ensures m == n
  {
    var dm, dn := Digits(if m < 0 then -m else m), Digits(if n < 0 then -n else n);
    assert dm[0] in dm && dn[0] in dn;
    assert m < 0 <==> Decimal(m)[0] == '-';
    assert n < 0 <==> Decimal(n)[0] == '-';
    if m < 0 {
      assert Decimal(m)[1..] == dm && Decimal(n)[1..] == dn;
    }
    DigitsValueDigits(if m < 0 then -m else m);
    DigitsValueDigits(if n < 0 then -n else n);
  }
}
