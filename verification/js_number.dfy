/** A model of JavaScript's `Number.parseFloat` as the payment handler uses it
    to read `transaction_amount`: leading white space is skipped, then the
    longest prefix that reads as a decimal literal (optional sign, digits with
    an optional fraction, an optional exponent) or as `Infinity` is taken; a
    string with no such prefix yields NaN. Values are exact reals: the
    rounding to a binary64 double is not modelled. */
module JsNumber {
  import opened Common

  /** The numbers parseFloat can produce. A negative zero reads as `Finite(0.0)`. */
  datatype Number = NaN | Infinity(negative: bool) | Finite(value: real)

  /** White space and line terminators that parseFloat skips before the literal. */
  predicate IsWhitespace(c: char)
  {
    c == '\t' || c == '\U{000B}' || c == '\U{000C}' || c == ' ' || c == '\U{00A0}' || c == '\U{FEFF}'
    || c == '\n' || c == '\r' || c == '\U{2028}' || c == '\U{2029}'
    || c == '\U{1680}' || ('\U{2000}' <= c <= '\U{200A}') || c == '\U{202F}' || c == '\U{205F}' || c == '\U{3000}'
  }

  /** Text made only of white space, the empty text included. */
  predicate Blank(s: string)
  {
    s == [] || (IsWhitespace(s[0]) && Blank(s[1..]))
  }

  predicate IsDigit(c: char)
  {
    '0' <= c <= '9'
  }

  predicate AllDigits(s: string)
  {
    forall i :: 0 <= i < |s| ==> IsDigit(s[i])
  }

  function DigitValue(c: char): (d: nat)
    requires IsDigit(c)
    ensures d < 10
  {
    (c as int) - ('0' as int)
  }

  function DigitChar(d: nat): (c: char)
    requires d < 10
    ensures IsDigit(c) && DigitValue(c) == d
  {
    (('0' as int) + d) as char
  }

  /** The value of a string of decimal digits, most significant first. */
  function DigitsValue(ds: string): nat
    requires AllDigits(ds)
  {
    if ds == [] then 0 else 10 * DigitsValue(ds[..|ds| - 1]) + DigitValue(ds[|ds| - 1])
  }

  /** `m` times ten to the power `e`. */
  function Scale(m: real, e: int): real
    decreases if e < 0 then -e else e
  {
    if e == 0 then m
    else if e > 0 then 10.0 * Scale(m, e - 1)
    else Scale(m, e + 1) / 10.0
  }

  /** The string with its leading white space removed. */
  function TrimStart(s: string): (t: string)
    ensures |t| <= |s| && t == s[|s| - |t|..]
    ensures t == [] || !IsWhitespace(t[0])
  {
    if s != [] && IsWhitespace(s[0]) then TrimStart(s[1..]) else s
  }

  /** The longest prefix of `s` made of decimal digits. */
  function LeadingDigits(s: string): (d: string)
    ensures |d| <= |s| && d == s[..|d|] && AllDigits(d)
    ensures |d| < |s| ==> !IsDigit(s[|d|])
  {
    if s != [] && IsDigit(s[0]) then [s[0]] + LeadingDigits(s[1..]) else []
  }

  /** The exponent of the longest `e`/`E` exponent part at the head of `s`,
      or 0 when there is none (a bare `e` or `e+` is not part of the literal). */
  function ExponentPrefix(s: string): int
  {
    if s == [] || (s[0] != 'e' && s[0] != 'E') then 0
    else
      var rest := s[1..];
      var negative := rest != [] && rest[0] == '-';
      var digitsFrom := if rest != [] && (rest[0] == '-' || rest[0] == '+') then rest[1..] else rest;
      var ds := LeadingDigits(digitsFrom);
      if ds == [] then 0
      else if negative then -(DigitsValue(ds) as int)
      else DigitsValue(ds)
  }

  /** The parts of an unsigned decimal literal: the digits before the point,
      the digits after it, and the exponent. */
  datatype Literal = Literal(intDigits: string, fracDigits: string, exponent: int)

  /** The value a literal denotes. */
  function LiteralValue(l: Literal): real
    requires AllDigits(l.intDigits + l.fracDigits)
  {
    Scale(DigitsValue(l.intDigits + l.fracDigits) as real, l.exponent - |l.fracDigits|)
  }

  /** The longest unsigned decimal literal at the head of `u` (`12`, `12.`,
      `12.5`, `.5`, each with an optional exponent), if there is one. */
  function ScanLiteral(u: string): (r: Option<Literal>)
    ensures r.Some? ==> AllDigits(r.value.intDigits + r.value.fracDigits)
  {
    var intDigits := LeadingDigits(u);
    var afterInt := u[|intDigits|..];
    if afterInt != [] && afterInt[0] == '.' then
      var fracDigits := LeadingDigits(afterInt[1..]);
      if intDigits == [] && fracDigits == [] then None
      else Some(Literal(intDigits, fracDigits, ExponentPrefix(afterInt[1 + |fracDigits|..])))
    else if intDigits == [] then None
    else
      assert intDigits + [] == intDigits;
      Some(Literal(intDigits, [], ExponentPrefix(afterInt)))
  }

  predicate StartsWith(s: string, prefix: string)
  {
    prefix == [] || (s != [] && s[0] == prefix[0] && StartsWith(s[1..], prefix[1..]))
  }

  /** parseFloat of the text after the sign. */
  function ParseUnsigned(u: string, negative: bool): Number
  {
    if StartsWith(u, "Infinity") then Infinity(negative)
    else
      match ScanLiteral(u)
      case None => NaN
      case Some(l) => Finite(if negative then -LiteralValue(l) else LiteralValue(l))
  }

  /** parseFloat applied to a string that does not start with white space. */
  function ParseTrimmed(t: string): Number
  {
    if t != [] && (t[0] == '-' || t[0] == '+') then ParseUnsigned(t[1..], t[0] == '-')
    else ParseUnsigned(t, false)
  }

  /** `Number.parseFloat(s)`: leading white space is skipped one character at
      a time, then the rest is read. Blank text has no number in it, and text
      that starts with a digit always holds one. */
  function ParseFloat(s: string): (n: Number)
    ensures s == [] ==> n == NaN
    ensures Blank(s) ==> n == NaN
    ensures s != [] && IsDigit(s[0]) ==> n.Finite?
  {
    if s != [] && IsWhitespace(s[0]) then ParseFloat(s[1..]) else ParseTrimmed(s)
  }

  /** `n <= 0` in JavaScript. Every comparison with NaN is false, and the
      infinities compare by their sign. */
  predicate AtMostZero(n: Number)
    ensures n.NaN? ==> !AtMostZero(n)
    ensures n.Infinity? ==> (AtMostZero(n) <==> n.negative)
  {
    match n
    case NaN => false
    case Infinity(negative) => negative
    case Finite(v) => v <= 0.0
  }

  /** The decimal digits of `n`, without leading zeros ("0" for zero). */
  function NatText(n: nat): (s: string)
    ensures s != [] && AllDigits(s)
  {
    if n < 10 then [DigitChar(n)] else NatText(n / 10) + [DigitChar(n % 10)]
  }

  /** `n` units of ten to the minus `places`, written with exactly `places`
      fraction digits after a point ("12.05" for 1205 and 2). */
  function FixedText(n: nat, places: nat): (s: string)
    decreases places
  {
    if places == 0 then NatText(n) + "." else FixedText(n / 10, places - 1) + [DigitChar(n % 10)]
  }

  /** An amount of cents written as text with whole units and two fraction
      digits ("12.05"), the form a client sending the declared string type uses. */
  function CentsText(cents: nat): string
  {
    FixedText(cents, 2)
  }

  lemma {:induction false} NatTextValue(n: nat)
    ensures DigitsValue(NatText(n)) == n
  {
    if n >= 10 {
      var s := NatText(n / 10) + [DigitChar(n % 10)];
      assert s[..|s| - 1] == NatText(n / 10);
      NatTextValue(n / 10);
    }
  }

  /** White space in front of a string does not change what parseFloat reads. */
  lemma {:induction false} LeadingWhitespaceIgnored(ws: string, s: string)
    requires forall i :: 0 <= i < |ws| ==> IsWhitespace(ws[i])
    ensures ParseFloat(ws + s) == ParseFloat(s)
  {
    if ws != [] {
      assert (ws + s)[0] == ws[0];
      assert (ws + s)[1..] == ws[1..] + s;
      LeadingWhitespaceIgnored(ws[1..], s);
    } else {
      assert ws + s == s;
    }
  }

  /** parseFloat reads the text that remains once the white space is trimmed. */
  lemma {:induction false} ParseFloatTrims(s: string)
    ensures ParseFloat(s) == ParseTrimmed(TrimStart(s))
  {
    if s != [] && IsWhitespace(s[0]) {
      ParseFloatTrims(s[1..]);
    }
  }

  lemma {:induction false} LeadingDigitsOfDigits(d: string, rest: string)
    requires AllDigits(d)
    requires rest == [] || !IsDigit(rest[0])
    ensures LeadingDigits(d + rest) == d
  {
    if d != [] {
      assert (d + rest)[1..] == d[1..] + rest;
      LeadingDigitsOfDigits(d[1..], rest);
    } else {
      assert d + rest == rest;
    }
  }

  lemma DigitsValueAppendTwo(d: string, a: char, b: char)
    requires AllDigits(d) && IsDigit(a) && IsDigit(b)
    ensures AllDigits(d + [a, b])
    ensures DigitsValue(d + [a, b]) == 100 * DigitsValue(d) + 10 * DigitValue(a) + DigitValue(b)
  {
    var s := d + [a, b];
    assert s[..|s| - 1] == d + [a];
    assert (d + [a])[..|d|] == d;
  }

  /** Whole digits, a point and fraction digits, with nothing after them,
      scan as one literal with no exponent. */
  lemma ScanPointLiteral(whole: string, fraction: string)
    requires whole != [] && AllDigits(whole) && AllDigits(fraction)
    ensures ScanLiteral(whole + "." + fraction) == Some(Literal(whole, fraction, 0))
  {
    var u := whole + "." + fraction;
    assert u == whole + ("." + fraction);
    LeadingDigitsOfDigits(whole, "." + fraction);
    var afterInt := u[|whole|..];
    assert afterInt == "." + fraction;
    assert afterInt[1..] == fraction;
    LeadingDigitsOfDigits(fraction, []);
    assert fraction + [] == fraction;
    assert afterInt[1 + |fraction|..] == [];
  }

  /** A string that starts with a digit has no white space, sign or
      `Infinity` to skip: parseFloat reads it as an unsigned literal. */
  lemma ParseDigitLed(s: string)
    requires s != [] && IsDigit(s[0])
    ensures ParseFloat(s) == ParseUnsigned(s, false)
  {
    assert !IsWhitespace(s[0]) && s[0] != '-' && s[0] != '+';
    assert ParseFloat(s) == ParseTrimmed(s);
  }

  /** An amount of cents is its whole units, tenths and hundredths. */
  lemma CentsDigits(cents: nat)
    ensures 100 * (cents / 10 / 10) + 10 * (cents / 10 % 10) + cents % 10 == cents
  {
    var tens := cents / 10;
    assert cents == 10 * tens + cents % 10;
    assert tens == 10 * (tens / 10) + tens % 10;
  }

  lemma CentsTextShape(cents: nat)
    ensures CentsText(cents) == NatText(cents / 10 / 10) + "." + [DigitChar(cents / 10 % 10), DigitChar(cents % 10)]
    ensures CentsText(cents)[0] == NatText(cents / 10 / 10)[0]
  {
    assert FixedText(cents / 10, 1) == NatText(cents / 10 / 10) + "." + [DigitChar(cents / 10 % 10)];
  }

  /** The literal of a two-decimal amount denotes its cents divided by 100. */
  lemma CentsLiteralValue(cents: nat)
    ensures AllDigits(NatText(cents / 10 / 10) + [DigitChar(cents / 10 % 10), DigitChar(cents % 10)])
    ensures LiteralValue(Literal(NatText(cents / 10 / 10), [DigitChar(cents / 10 % 10), DigitChar(cents % 10)], 0))
            == cents as real / 100.0
  {
    var whole := NatText(cents / 10 / 10);
    var a, b := DigitChar(cents / 10 % 10), DigitChar(cents % 10);
    DigitsValueAppendTwo(whole, a, b);
    NatTextValue(cents / 10 / 10);
    CentsDigits(cents);
    assert DigitsValue(whole + [a, b]) == cents;
    assert Scale(cents as real, -2) == Scale(cents as real, -1) / 10.0 == cents as real / 10.0 / 10.0;
  }

  /** A digit-led string is not the word `Infinity`. */
  lemma NotInfinity(s: string)
    requires s != [] && IsDigit(s[0])
    ensures !StartsWith(s, "Infinity")
  {
  }

  /** Past the sign, a scanned literal reads as its value, negated when the
      sign was a minus. */
  lemma UnsignedOfLiteral(u: string, l: Literal, negative: bool)
    requires u != [] && IsDigit(u[0]) && ScanLiteral(u) == Some(l)
    ensures ParseUnsigned(u, negative) == Finite(if negative then -LiteralValue(l) else LiteralValue(l))
  {
    NotInfinity(u);
  }

  /** A digit-led string whose literal denotes `v` reads as `v`. */
  lemma ParseScanned(s: string, l: Literal, v: real)
    requires s != [] && IsDigit(s[0]) && ScanLiteral(s) == Some(l)
    requires AllDigits(l.intDigits + l.fracDigits) && LiteralValue(l) == v
    ensures ParseFloat(s) == Finite(v)
  {
    ParseDigitLed(s);
    UnsignedOfLiteral(s, l, false);
  }

  /** The same string with a minus sign in front reads as the negated value `w`. */
  lemma ParseNegatedScanned(s: string, l: Literal, w: real)
    requires s != [] && IsDigit(s[0]) && ScanLiteral(s) == Some(l)
    requires AllDigits(l.intDigits + l.fracDigits) && -LiteralValue(l) == w
    ensures ParseFloat("-" + s) == Finite(w)
  {
    UnsignedOfLiteral(s, l, true);
    ParseNegated(s, Finite(w));
  }

  /** The literal a two-decimal amount is written as. */
  function CentsLiteral(cents: nat): Literal
  {
    Literal(NatText(cents / 10 / 10), [DigitChar(cents / 10 % 10), DigitChar(cents % 10)], 0)
  }

  /** A two-decimal amount starts with a digit, scans as its literal, and that
      literal denotes the cents divided by one hundred. */
  lemma CentsScan(cents: nat)
    ensures CentsText(cents) != [] && IsDigit(CentsText(cents)[0])
    ensures ScanLiteral(CentsText(cents)) == Some(CentsLiteral(cents))
    ensures AllDigits(CentsLiteral(cents).intDigits + CentsLiteral(cents).fracDigits)
    ensures LiteralValue(CentsLiteral(cents)) == cents as real / 100.0
  {
    var l := CentsLiteral(cents);
    CentsTextShape(cents);
    ScanPointLiteral(l.intDigits, l.fracDigits);
    CentsLiteralValue(cents);
  }

  /** Round trip: parseFloat reads a two-decimal amount back as its number of
      cents divided by one hundred. */
  lemma {:induction false} ParseCentsText(cents: nat)
    ensures ParseFloat(CentsText(cents)) == Finite(cents as real / 100.0)
  {
    CentsScan(cents);
    ParseScanned(CentsText(cents), CentsLiteral(cents), cents as real / 100.0);
  }

  /** With a minus sign in front, the same amount reads as its negation. */
  lemma {:induction false} ParseNegativeCentsText(cents: nat)
    ensures ParseFloat("-" + CentsText(cents)) == Finite(-(cents as real / 100.0))
  {
    assert ParseFloat("-" + CentsText(cents)) == Finite(-(cents as real / 100.0)) by {
      CentsScan(cents);
      ParseNegatedScanned(CentsText(cents), CentsLiteral(cents), -(cents as real / 100.0));
    }
  }

  /** After a leading minus sign, parseFloat reads the rest as an unsigned
      number and negates it. */
  lemma ParseNegated(u: string, n: Number)
    requires ParseUnsigned(u, true) == n
    ensures ParseFloat("-" + u) == n
  {
    var t := "-" + u;
    assert t[0] == '-';
    assert t[1..] == u;
  }

  /** Text whose first non-blank character cannot start a number (anything
      but a digit, a sign, a point or the `I` of `Infinity`) reads as NaN. */
  lemma NoLiteralIsNaN(s: string)
    requires var t := TrimStart(s);
             t == [] || (!IsDigit(t[0]) && t[0] != '+' && t[0] != '-' && t[0] != '.' && t[0] != 'I')
    ensures ParseFloat(s) == NaN
  {
    var t := TrimStart(s);
    ParseFloatTrims(s);
    assert ParseTrimmed(t) == ParseUnsigned(t, false);
    if t != [] {
      assert !StartsWith(t, "Infinity");
      assert LeadingDigits(t) == [];
      assert ScanLiteral(t) == None;
    }
  }

  /** Text that starts with a lower-case letter, such as "abc", reads as NaN. */
  lemma LetterLedIsNaN(s: string)
    requires s != [] && 'a' <= s[0] <= 'z'
    ensures ParseFloat(s) == NaN
  {
    assert TrimStart(s) == s;
    NoLiteralIsNaN(s);
  }
}
