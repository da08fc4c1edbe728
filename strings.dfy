/** The text behaviours of Rust's standard library that the client relies on:
    `str::trim`, `usize` parsing and display, the grammar `f64::from_str`
    accepts, and `join` on a separator; plus `Split`, the inverse of `join`
    that the round-trip lemmas use, and the character search it and the float
    grammar are built on. */
module Strings {
  import opened Wrappers

  // ---------------------------------------------------------------------
  // Whitespace and trimming
  // ---------------------------------------------------------------------

  /** `char::is_whitespace`: the characters with the Unicode White_Space property. */
  predicate IsWhitespace(c: char) {
    var n := c as int;
    || (0x09 <= n <= 0x0D) || n == 0x20 || n == 0x85 || n == 0xA0 || n == 0x1680
    || (0x2000 <= n <= 0x200A) || n == 0x2028 || n == 0x2029 || n == 0x202F
    || n == 0x205F || n == 0x3000
  }

  /** `str::trim_start`: the suffix left after dropping the leading whitespace. */
  function TrimStart(s: string): (r: string)
    ensures |r| <= |s| && r == s[|s| - |r|..]
    ensures forall i :: 0 <= i < |s| - |r| ==> IsWhitespace(s[i])
    ensures r == [] || !IsWhitespace(r[0])
    decreases |s|
  {
    if s != [] && IsWhitespace(s[0]) then TrimStart(s[1..]) else s
  }

  /** `str::trim_end`: the prefix left after dropping the trailing whitespace. */
  function TrimEnd(s: string): (r: string)
    ensures |r| <= |s| && r == s[..|r|]
    ensures forall i :: |r| <= i < |s| ==> IsWhitespace(s[i])
    ensures r == [] || !IsWhitespace(r[|r| - 1])
    decreases |s|
  {
    if s != [] && IsWhitespace(s[|s| - 1]) then TrimEnd(s[..|s| - 1]) else s
  }

  /** `str::trim`: the slice of `s` between its leading and its trailing whitespace. */
  function Trim(s: string): (r: string)
    ensures var k := |s| - |TrimStart(s)|;
      && k + |r| <= |s| && r == s[k..k + |r|]
      && (forall i :: 0 <= i < k ==> IsWhitespace(s[i]))
      && (forall i :: k + |r| <= i < |s| ==> IsWhitespace(s[i]))
    ensures r == [] || (!IsWhitespace(r[0]) && !IsWhitespace(r[|r| - 1]))
  {
    TrimEnd(TrimStart(s))
  }

  // ---------------------------------------------------------------------
  // Decimal numerals
  // ---------------------------------------------------------------------

  predicate IsDigit(c: char) {
    '0' <= c <= '9'
  }

  predicate AllDigits(s: string) {
    forall i :: 0 <= i < |s| ==> IsDigit(s[i])
  }

  /** The value of a string of ASCII digits, most significant first. */
  function DigitsValue(s: string): nat
    requires AllDigits(s)
    decreases |s|
  {
    if s == [] then 0 else 10 * DigitsValue(s[..|s| - 1]) + (s[|s| - 1] as int - '0' as int)
  }

  function DigitChar(d: nat): (c: char)
    requires d < 10
    ensures IsDigit(c) && c as int - '0' as int == d
  {
    ('0' as int + d) as char
  }

  /** `Display` of an unsigned integer: the shortest decimal numeral of `n`. */
  function NatToDecimal(n: nat): (r: string)
    ensures r != [] && AllDigits(r) && DigitsValue(r) == n
    ensures |r| > 1 ==> r[0] != '0'
    decreases n
  {
    if n < 10 then [DigitChar(n)]
    else
      var r := NatToDecimal(n / 10) + [DigitChar(n % 10)];
      assert r[..|r| - 1] == NatToDecimal(n / 10);
      r
  }

  /** The largest `usize` on the 64-bit targets the client is built for. */
  const UsizeMax: nat := 0xFFFF_FFFF_FFFF_FFFF

  /** `<usize as FromStr>::from_str`: an optional `+`, then one or more ASCII
      digits whose value fits in a `usize`. */
  function ParseUsize(s: string): (r: Option<nat>)
    ensures r.Some? ==> r.value <= UsizeMax
    ensures r.Some? ==> s != [] && s[0] != '-'
    ensures r.Some? ==> s[|s| - 1] != '+'
  {
    var digits := if s != [] && s[0] == '+' then s[1..] else s;
    if digits != [] && AllDigits(digits) && DigitsValue(digits) <= UsizeMax
    then Some(DigitsValue(digits))
    else None
  }

  /** Parsing a displayed `usize` gives it back, with or without a `+` in front. */
  lemma DecimalRoundTrip(n: nat)
    requires n <= UsizeMax
    ensures ParseUsize(NatToDecimal(n)) == Some(n)
    ensures ParseUsize("+" + NatToDecimal(n)) == Some(n)
  {
    var d := NatToDecimal(n);
    assert ("+" + d)[1..] == d;
  }

  // ---------------------------------------------------------------------
  // The floating-point literal grammar of `f64::from_str`
  // ---------------------------------------------------------------------

  function ToLowerAscii(c: char): char {
    if 'A' <= c <= 'Z' then (c as int + 32) as char else c
  }

  function LowerAscii(s: string): (r: string)
    ensures |r| == |s| && forall i :: 0 <= i < |s| ==> r[i] == ToLowerAscii(s[i])
  {
    seq(|s|, i requires 0 <= i < |s| => ToLowerAscii(s[i]))
  }

  /** Index of the first `e` or `E`, which starts the exponent of a literal. */
  function ExponentMark(t: string): (r: Option<nat>)
    ensures r.Some? ==> r.value < |t| && (t[r.value] == 'e' || t[r.value] == 'E')
    ensures r.None? ==> forall i :: 0 <= i < |t| ==> t[i] != 'e' && t[i] != 'E'
  {
    if t == [] then None
    else if t[0] == 'e' || t[0] == 'E' then Some(0)
    else match ExponentMark(t[1..])
      case None => None
      case Some(k) => Some(k + 1)
  }

  /** Digits with at most one `.`, and at least one digit. */
  predicate IsMantissa(m: string) {
    match IndexOf(m, '.')
    case None => m != [] && AllDigits(m)
    case Some(k) => |m| > 1 && AllDigits(m[..k]) && AllDigits(m[k + 1..])
  }

  /** An optional sign and one or more digits. */
  predicate IsExponent(x: string) {
    var digits := if x != [] && (x[0] == '+' || x[0] == '-') then x[1..] else x;
    digits != [] && AllDigits(digits)
  }

  predicate IsDecimalLiteral(t: string) {
    match ExponentMark(t)
    case None => IsMantissa(t)
    case Some(k) => IsMantissa(t[..k]) && IsExponent(t[k + 1..])
  }

  /** The strings `f64::from_str` accepts: an optional sign, then a decimal
      literal or one of `inf`, `infinity`, `nan` in any ASCII case. */
  predicate IsFloatLiteral(s: string) {
    var body := if s != [] && (s[0] == '+' || s[0] == '-') then s[1..] else s;
    var lower := LowerAscii(body);
    lower == "inf" || lower == "infinity" || lower == "nan" || IsDecimalLiteral(body)
  }

  /** A mantissa starts and ends with a digit or the point. */
  lemma MantissaEdges(m: string)
    requires IsMantissa(m)
    ensures m != [] && (IsDigit(m[0]) || m[0] == '.') && (IsDigit(m[|m| - 1]) || m[|m| - 1] == '.')
  {
    match IndexOf(m, '.')
    case None =>
    case Some(k) =>
      if k > 0 {
        assert m[0] == m[..k][0];
      }
      if k < |m| - 1 {
        assert m[|m| - 1] == m[k + 1..][|m| - k - 2];
      }
  }

  /** A decimal literal starts with a digit or the point and ends with a
      digit or the point. */
  lemma DecimalLiteralEdges(t: string)
    requires IsDecimalLiteral(t)
    ensures t != [] && (IsDigit(t[0]) || t[0] == '.') && (IsDigit(t[|t| - 1]) || t[|t| - 1] == '.')
  {
    match ExponentMark(t)
    case None =>
      MantissaEdges(t);
    case Some(k) =>
      MantissaEdges(t[..k]);
      assert t[0] == t[..k][0];
      var x := t[k + 1..];
      assert t[|t| - 1] == x[|x| - 1];
  }

  /** A text that lowers to one of the special values starts and ends with
      an ASCII letter. */
  lemma SpecialValueEdges(body: string)
    requires var lower := LowerAscii(body); lower == "inf" || lower == "infinity" || lower == "nan"
    ensures body != [] && 'a' <= ToLowerAscii(body[0]) <= 'z' && 'a' <= ToLowerAscii(body[|body| - 1]) <= 'z'
  {
    var lower := LowerAscii(body);
    assert lower[0] == ToLowerAscii(body[0]);
    assert lower[|lower| - 1] == ToLowerAscii(body[|body| - 1]);
  }

  /** A literal `f64::from_str` accepts has no whitespace at either end. */
  lemma FloatLiteralEdges(s: string)
    requires IsFloatLiteral(s)
    ensures s != [] && !IsWhitespace(s[0]) && !IsWhitespace(s[|s| - 1])
  {
    var signed := s != [] && (s[0] == '+' || s[0] == '-');
    var body := if signed then s[1..] else s;
    var lower := LowerAscii(body);
    if lower == "inf" || lower == "infinity" || lower == "nan" {
      SpecialValueEdges(body);
    } else {
      DecimalLiteralEdges(body);
    }
    assert s[|s| - 1] == body[|body| - 1];
  }

  // ---------------------------------------------------------------------
  // Searching, joining and splitting
  // ---------------------------------------------------------------------

  /** Index of the first occurrence of `c`. */
  function IndexOf(s: string, c: char): (r: Option<nat>)
    ensures r.Some? ==> r.value < |s| && s[r.value] == c && c !in s[..r.value]
    ensures r.None? ==> c !in s
  {
    if s == [] then None
    else if s[0] == c then Some(0)
    else match IndexOf(s[1..], c)
      case None => None
      case Some(k) =>
        assert s[..k + 1] == [s[0]] + s[1..][..k];
        Some(k + 1)
  }

  /** A string with no whitespace at either end is its own trim. */
  lemma TrimClean(s: string)
    requires s == [] || (!IsWhitespace(s[0]) && !IsWhitespace(s[|s| - 1]))
    ensures Trim(s) == s
  {
    if s != [] {
      assert TrimStart(s) == s;
      assert TrimEnd(s) == s;
    }
  }

  /** A separator placed after a piece that does not contain it is found
      first, and last when nothing after it contains it. */
  lemma {:induction false} IndexOfSeparator(a: string, c: char, b: string)
    requires c !in a
    ensures IndexOf(a + [c] + b, c) == Some(|a|)
  {
    if a != [] {
      assert (a + [c] + b)[1..] == a[1..] + [c] + b;
      IndexOfSeparator(a[1..], c, b);
    }
  }

  /** Splitting at the first separator. */
  lemma SplitAt(s: string, sep: char, a: string, rest: string)
    requires sep !in a && s == a + [sep] + rest
    ensures Split(s, sep) == [a] + Split(rest, sep)
  {
    IndexOfSeparator(a, sep, rest);
    assert s[..|a|] == a;
    assert s[|a| + 1..] == rest;
  }

  /** `[&str]::join`: the pieces with `sep` between consecutive ones. */
  function Join(xs: seq<string>, sep: char): string
  {
    if xs == [] then []
    else if |xs| == 1 then xs[0]
    else xs[0] + [sep] + Join(xs[1..], sep)
  }

  /** Joining one more piece adds the separator and the piece. */
  lemma {:induction false} JoinSnoc(xs: seq<string>, x: string, sep: char)
    requires xs != []
    ensures Join(xs + [x], sep) == Join(xs, sep) + [sep] + x
  {
    if |xs| == 1 {
      assert (xs + [x])[1..] == [x];
    } else {
      assert (xs + [x])[1..] == xs[1..] + [x];
      JoinSnoc(xs[1..], x, sep);
    }
  }

  /** `str::split(sep)`, collected: the pieces between the separators. */
  function Split(s: string, sep: char): (r: seq<string>)
    ensures |r| >= 1
    ensures forall i :: 0 <= i < |r| ==> sep !in r[i]
    decreases |s|
  {
    match IndexOf(s, sep)
    case None => [s]
    case Some(k) => [s[..k]] + Split(s[k + 1..], sep)
  }

  /** Splitting a join gives the pieces back, when there is at least one piece
      and no piece contains the separator. */
  lemma {:induction false} SplitJoin(xs: seq<string>, sep: char)
    requires xs != []
    requires forall i :: 0 <= i < |xs| ==> sep !in xs[i]
    ensures Split(Join(xs, sep), sep) == xs
    decreases |xs|
  {
    if |xs| > 1 {
      var rest := Join(xs[1..], sep);
      SplitAt(Join(xs, sep), sep, xs[0], rest);
      SplitJoin(xs[1..], sep);
      assert xs == [xs[0]] + xs[1..];
    }
  }
}
