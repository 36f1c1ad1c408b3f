/**
 * The part of JavaScript's number and string behaviour the extension relies on:
 * numbers that may be NaN, `String.prototype.trim`, removing every comma, and
 * `parseFloat` on plain decimal numerals. Amounts are exact reals; the IEEE
 * rounding of doubles is not modelled.
 */
module JsNumber {

  /** A JavaScript number: NaN or a (finite) value. */
  datatype Number = NaN | Num(v: real)

  /** `a + b`: NaN as soon as one operand is NaN. */
  function Add(a: Number, b: Number): (r: Number)
    ensures r.Num? <==> a.Num? && b.Num?
    ensures r.Num? ==> r.v == a.v + b.v
  {
    if a.Num? && b.Num? then Num(a.v + b.v) else NaN
  }

  /** `a / d` for a non-zero divisor: NaN stays NaN. */
  function Div(a: Number, d: real): (r: Number)
    requires d != 0.0
    ensures r.Num? <==> a.Num?
    ensures r.Num? ==> r.v * d == a.v
  {
    if a.Num? then Num(a.v / d) else NaN
  }

  // ---------------------------------------------------------------- characters

  /** White space and line terminators removed by `trim` and skipped by `parseFloat` (the ASCII ones, NBSP and BOM). */
  predicate IsSpace(c: char) {
    c == ' ' || c == '\t' || c == '\n' || c == '\r' || c == '\U{000B}' || c == '\U{000C}'
    || c == '\U{00A0}' || c == '\U{FEFF}'
  }

  predicate IsDigit(c: char) {
    '0' <= c <= '9'
  }

  predicate AllDigits(s: string) {
    forall i :: 0 <= i < |s| ==> IsDigit(s[i])
  }

  /** Text made of digits and thousands separators only. */
  predicate DigitsAndCommas(s: string) {
    forall i :: 0 <= i < |s| ==> IsDigit(s[i]) || s[i] == ','
  }

  function DigitValue(c: char): (d: nat)
    requires IsDigit(c)
    ensures d <= 9
  {
    (c as int - '0' as int) as nat
  }

  function Pow10(n: nat): (r: nat)
    ensures r >= 1
  {
    if n == 0 then 1 else 10 * Pow10(n - 1)
  }

  /** The value of a decimal numeral, most significant digit first. */
  function DigitsValue(s: string): (r: nat)
    requires AllDigits(s)
    ensures r < Pow10(|s|)
  {
    if s == [] then 0
    else
      var prefix := DigitsValue(s[..|s| - 1]);
      assert prefix <= Pow10(|s| - 1) - 1;
      assert prefix * 10 <= Pow10(|s|) - 10;
      prefix * 10 + DigitValue(s[|s| - 1])
  }

  lemma AllDigitsAppend(a: string, b: string)
    requires AllDigits(a) && AllDigits(b)
    ensures AllDigits(a + b)
  {
    var ab := a + b;
    forall i | 0 <= i < |ab| ensures IsDigit(ab[i]) {
      if i < |a| { assert ab[i] == a[i]; } else { assert ab[i] == b[i - |a|]; }
    }
  }

  /** Reading a numeral in two pieces: the left piece counts `|b|` places higher. */
  lemma {:induction false} DigitsValueAppend(a: string, b: string)
    requires AllDigits(a) && AllDigits(b)
    ensures AllDigits(a + b)
    ensures DigitsValue(a + b) == DigitsValue(a) * Pow10(|b|) + DigitsValue(b)
    decreases |b|
  {
    var ab := a + b;
    AllDigitsAppend(a, b);
    if b == [] {
      assert ab == a;
    } else {
      var b' := b[..|b| - 1];
      assert AllDigits(b');
      assert ab[..|ab| - 1] == a + b';
      assert ab[|ab| - 1] == b[|b| - 1];
      DigitsValueAppend(a, b');
      var x, p, y, d := DigitsValue(a), Pow10(|b'|), DigitsValue(b'), DigitValue(b[|b| - 1]);
      assert DigitsValue(ab) == DigitsValue(a + b') * 10 + d;
      assert DigitsValue(b) == y * 10 + d;
      assert Pow10(|b|) == 10 * p;
      ShiftByOnePlace(x, p, y, d);
    }
  }

  /** Appending one digit multiplies what came before by ten. */
  lemma ShiftByOnePlace(x: int, p: int, y: int, d: int)
    ensures (x * p + y) * 10 + d == x * (10 * p) + (y * 10 + d)
  {
  }

  // ---------------------------------------------------------------- trimming

  /** The end of the run of white space that starts at `i`. */
  function SkipSpaces(s: string, i: nat): (j: nat)
    requires i <= |s|
    ensures i <= j <= |s|
    ensures forall k :: i <= k < j ==> IsSpace(s[k])
    ensures j == |s| || !IsSpace(s[j])
    decreases |s| - i
  {
    if i < |s| && IsSpace(s[i]) then SkipSpaces(s, i + 1) else i
  }

  /** The start of the run of white space that ends at `j`, going no lower than `lo`. */
  function SkipSpacesBack(s: string, lo: nat, j: nat): (i: nat)
    requires lo <= j <= |s|
    ensures lo <= i <= j
    ensures forall k :: i <= k < j ==> IsSpace(s[k])
    ensures i == lo || !IsSpace(s[i - 1])
    decreases j
  {
    if lo < j && IsSpace(s[j - 1]) then SkipSpacesBack(s, lo, j - 1) else j
  }

  /** `s.trim()`: the slice between the leading and the trailing white space. */
  function Trim(s: string): (r: string)
    ensures var i := SkipSpaces(s, 0);
            && i + |r| <= |s| && r == s[i..i + |r|]
            && (forall k :: 0 <= k < i ==> IsSpace(s[k]))
            && (forall k :: i + |r| <= k < |s| ==> IsSpace(s[k]))
    ensures r == [] || (!IsSpace(r[0]) && !IsSpace(r[|r| - 1]))
  {
    var i := SkipSpaces(s, 0);
    s[i..SkipSpacesBack(s, i, |s|)]
  }

  /** Text that neither starts nor ends with white space is left as it is. */
  lemma TrimUnpadded(s: string)
    requires s != [] && !IsSpace(s[0]) && !IsSpace(s[|s| - 1])
    ensures Trim(s) == s
  {
  }

  // ---------------------------------------------------------------- commas

  /** `s.replace(/,/g, '')`. */
  function RemoveCommas(s: string): (r: string)
    ensures ',' !in r
    ensures |r| <= |s|
    ensures forall c :: c != ',' ==> multiset(r)[c] == multiset(s)[c]
    ensures DigitsAndCommas(s) ==> AllDigits(r)
  {
    if s == [] then []
    else
      var rest := RemoveCommas(s[1..]);
      assert s == [s[0]] + s[1..];
      assert DigitsAndCommas(s) ==> DigitsAndCommas(s[1..]);
      if s[0] == ',' then rest else [s[0]] + rest
  }

  /** Removing commas works piece by piece. */
  lemma {:induction false} RemoveCommasAppend(a: string, b: string)
    ensures RemoveCommas(a + b) == RemoveCommas(a) + RemoveCommas(b)
    decreases |a|
  {
    if a == [] {
      assert a + b == b;
    } else {
      assert (a + b)[0] == a[0];
      assert (a + b)[1..] == a[1..] + b;
      RemoveCommasAppend(a[1..], b);
    }
  }

  /** A thousands separator anywhere in the text is simply dropped. */
  lemma SeparatorDropped(a: string, b: string)
    ensures RemoveCommas(a + "," + b) == RemoveCommas(a + b)
  {
    RemoveCommasAppend(a + ",", b);
    RemoveCommasAppend(a, ",");
    RemoveCommasAppend(a, b);
    assert RemoveCommas(",") == [];
  }

  /** Text without commas is unchanged. */
  lemma {:induction false} RemoveCommasNoComma(s: string)
    requires ',' !in s
    ensures RemoveCommas(s) == s
    decreases |s|
  {
    if s != [] {
      assert s == [s[0]] + s[1..];
      RemoveCommasNoComma(s[1..]);
    }
  }

  // ---------------------------------------------------------------- parseFloat

  /** The longest run of digits at the front of `s`. */
  function LeadingDigits(s: string): (d: string)
    ensures |d| <= |s| && d == s[..|d|]
    ensures AllDigits(d)
    ensures |d| < |s| ==> !IsDigit(s[|d|])
  {
    if s != [] && IsDigit(s[0]) then [s[0]] + LeadingDigits(s[1..]) else []
  }

  /** An unsigned numeral: digits, then optionally `.` and digits; NaN when neither part has a digit. */
  function ParseUnsigned(body: string): (n: Number)
    ensures n.NaN? <==> body == [] || (!IsDigit(body[0]) && (body[0] != '.' || |body| < 2 || !IsDigit(body[1])))
    ensures n.Num? ==> n.v >= 0.0
  {
    var whole := LeadingDigits(body);
    assert whole == [] <==> body == [] || !IsDigit(body[0]);
    var rest := body[|whole|..];
    var fraction := if rest != [] && rest[0] == '.' then LeadingDigits(rest[1..]) else [];
    assert whole == [] ==> (fraction == [] <==> body == [] || body[0] != '.' || |body| < 2 || !IsDigit(body[1]));
    if whole == [] && fraction == [] then NaN
    else
      var p := Pow10(|fraction|) as real;
      assert DigitsValue(fraction) as real / p >= 0.0;
      Num(DigitsValue(whole) as real + DigitsValue(fraction) as real / p)
  }

  /** `-n` */
  function Negate(n: Number): (r: Number)
    ensures r.Num? <==> n.Num?
    ensures r.Num? ==> r.v + n.v == 0.0
  {
    if n.Num? then Num(-n.v) else NaN
  }

  /**
   * `parseFloat(s)` on the numerals this extension meets: after leading white
   * space, an optional sign, digits, and an optional `.` followed by digits;
   * the longest such prefix is read and the rest ignored; NaN when the prefix
   * holds no digit at all.
   */
  function ParseFloat(s: string): (n: Number)
    ensures s == [] ==> n.NaN?
    ensures s != [] && IsDigit(s[0]) ==> n.Num? && n.v >= 0.0
    ensures n.Num? ==> exists i :: 0 <= i < |s| && IsDigit(s[i])
  {
    var i := SkipSpaces(s, 0);
    if i < |s| && s[i] == '-' then Negate(ParseUnsigned(s[i + 1..]))
    else if i < |s| && s[i] == '+' then ParseUnsigned(s[i + 1..])
    else ParseUnsigned(s[i..])
  }

  /** A numeral made of digits only is read as its decimal value. */
  lemma ParseFloatDigits(s: string)
    requires s != [] && AllDigits(s)
    ensures ParseFloat(s) == Num(DigitsValue(s) as real)
  {
    assert IsDigit(s[0]);
    ParseFloatUnsigned(s);
    ParseUnsignedDigits(s);
  }

  lemma ParseUnsignedDigits(s: string)
    requires s != [] && AllDigits(s)
    ensures ParseUnsigned(s) == Num(DigitsValue(s) as real)
  {
    assert LeadingDigits(s) == s;
    assert s[|s|..] == [];
  }

  /** Text with no digit before anything else (the empty text among them) reads as NaN. */
  lemma ParseFloatNoDigits(s: string)
    requires s == [] || (!IsDigit(s[0]) && !IsSpace(s[0]) && s[0] != '.' && s[0] != '-' && s[0] != '+' && s[0] != 'I')
    ensures ParseFloat(s) == NaN
  {
  }

  /** The sign only flips the value: `parseFloat("-" + s)` is minus `parseFloat(s)`. */
  lemma ParseFloatNegative(s: string)
    requires s == [] || (!IsSpace(s[0]) && s[0] != '-' && s[0] != '+')
    ensures ParseFloat("-" + s) == Negate(ParseFloat(s))
  {
    ParseFloatMinus(s);
    ParseFloatUnsigned(s);
  }

  /** Text that starts with neither white space nor a sign is read as an unsigned numeral. */
  lemma ParseFloatUnsigned(s: string)
    requires s == [] || (!IsSpace(s[0]) && s[0] != '-' && s[0] != '+')
    ensures ParseFloat(s) == ParseUnsigned(s)
  {
    assert SkipSpaces(s, 0) == 0;
    assert s[0..] == s;
  }

  /** A leading minus sign is read as the sign of the numeral after it. */
  lemma ParseFloatMinus(s: string)
    ensures ParseFloat("-" + s) == Negate(ParseUnsigned(s))
  {
    var m := "-" + s;
    assert m[0] == '-' && m[1..] == s;
    assert SkipSpaces(m, 0) == 0;
  }
}
