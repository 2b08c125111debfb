/**
 * String helpers the client relies on: decimal rendering and parsing (Python's
 * `str(int)` and `int(str)`), ASCII lower-casing, substring search, stripping
 * trailing characters and the code-point ordering Python uses to sort strings.
 */
module Text {
  import opened Wrappers

  predicate IsDigit(c: char) {
    '0' <= c <= '9'
  }

  predicate AllDigits(s: string) {
    forall i :: 0 <= i < |s| ==> IsDigit(s[i])
  }

  function DigitChar(d: nat): (c: char)
    requires d < 10
    ensures IsDigit(c)
  {
    (48 + d) as char
  }

  function DigitValue(c: char): (d: nat)
    requires IsDigit(c)
    ensures d < 10
  {
    (c as int) - 48
  }

  /** Decimal digits of `n`, most significant first, without leading zeros. */
  function NatToDigits(n: nat): (s: string)
    ensures |s| >= 1 && AllDigits(s)
    decreases n
  {
    if n < 10 then [DigitChar(n)] else NatToDigits(n / 10) + [DigitChar(n % 10)]
  }

  /** The number a non-empty run of decimal digits denotes. */
  function DigitsValue(s: string): nat
    requires AllDigits(s)
    decreases |s|
  {
    if s == [] then 0 else DigitsValue(s[..|s| - 1]) * 10 + DigitValue(s[|s| - 1])
  }

  /** Python's `str(n)` for an integer. */
  function ShowInt(n: int): string {
    if n < 0 then "-" + NatToDigits(-n) else NatToDigits(n)
  }

  /**
   * Python's `int(s)` restricted to an optional sign followed by decimal digits;
   * `None` where Python raises ValueError.
   */
  function ParseInt(s: string): (r: Option<int>)
    ensures s != [] && AllDigits(s) ==> r == Some(DigitsValue(s))
    ensures |s| >= 2 && s[0] == '-' && AllDigits(s[1..]) ==> r == Some(-(DigitsValue(s[1..]) as int))
    ensures |s| >= 2 && s[0] == '+' && AllDigits(s[1..]) ==> r == Some(DigitsValue(s[1..]))
    ensures r.Some? ==> (s != [] && AllDigits(s)) || (|s| >= 2 && (s[0] == '-' || s[0] == '+') && AllDigits(s[1..]))
  {
    if |s| >= 1 && (s[0] == '-' || s[0] == '+') then
      var body := s[1..];
      if body != [] && AllDigits(body) then
        Some(if s[0] == '-' then -(DigitsValue(body) as int) else DigitsValue(body))
      else None
    else if s != [] && AllDigits(s) then Some(DigitsValue(s))
    else None
  }

  lemma {:induction false} DigitsRoundTrip(n: nat)
    ensures DigitsValue(NatToDigits(n)) == n
    decreases n
  {
    if n >= 10 {
      var prefix := NatToDigits(n / 10);
      var s := prefix + [DigitChar(n % 10)];
      assert s[..|s| - 1] == prefix;
      DigitsRoundTrip(n / 10);
    }
  }

  /** Rendering an integer and parsing it back gives the same integer. */
  lemma ParseShowRoundTrip(n: int)
    ensures ParseInt(ShowInt(n)) == Some(n)
  {
    if n < 0 {
      var s := ShowInt(n);
      assert s[1..] == NatToDigits(-n);
      DigitsRoundTrip(-n);
    } else {
      DigitsRoundTrip(n);
    }
  }

  /** A decimal number: `digits` scaled down by `10^scale`. */
  datatype Decimal = Decimal(digits: int, scale: nat)

  /** The position of the first decimal point in `s`, or `|s|` when there is none. */
  function PointIndex(s: string): (k: nat)
    ensures k <= |s| && (k < |s| ==> s[k] == '.')
    ensures forall i | 0 <= i < k :: s[i] != '.'
    decreases |s|
  {
    if s == [] || s[0] == '.' then 0 else 1 + PointIndex(s[1..])
  }

  /** An unsigned decimal literal: digits around at most one point, with at least one digit. */
  function ParseUnsignedDecimal(s: string): (r: Option<Decimal>)
    ensures r.Some? ==> forall i | 0 <= i < |s| :: IsDigit(s[i]) || s[i] == '.'
  {
    var k := PointIndex(s);
    var whole := s[..k];
    var fraction := if k < |s| then s[k + 1..] else [];
    if AllDigits(whole) && AllDigits(fraction) && whole + fraction != [] then
      assert forall i | 0 <= i < |s| && i != k :: s[i] in whole + fraction by {
        forall i | 0 <= i < |s| && i != k
          ensures s[i] in whole + fraction
        {
          if i < k {
            assert s[i] == whole[i];
          } else {
            assert s[i] == fraction[i - k - 1];
          }
        }
      }
      assert AllDigits(whole + fraction);
      Some(Decimal(DigitsValue(whole + fraction), |fraction|))
    else None
  }

  lemma AllDigitsAppend(a: string, b: string)
    requires AllDigits(a) && AllDigits(b)
    ensures AllDigits(a + b)
  {
    forall i | 0 <= i < |a + b|
      ensures IsDigit((a + b)[i])
    {
      if i >= |a| {
        assert (a + b)[i] == b[i - |a|];
      }
    }
  }

  /** A plain run of digits is an unsigned decimal literal with no fraction. */
  lemma UnsignedDigits(s: string)
    requires s != [] && AllDigits(s)
    ensures ParseUnsignedDecimal(s) == Some(Decimal(DigitsValue(s), 0))
  {
    assert forall i | 0 <= i < |s| :: s[i] != '.';
    assert PointIndex(s) == |s|;
    assert s[..|s|] + [] == s;
  }

  /**
   * Python's `float(s)` restricted to an optional sign followed by a plain decimal
   * literal (`12`, `-12.50`, `.5`, `3.`); `None` where Python raises ValueError.
   */
  function ParseDecimal(s: string): (r: Option<Decimal>)
    ensures ParseInt(s).Some? ==> r == Some(Decimal(ParseInt(s).value, 0))
    ensures r.Some? ==>
      s != [] && forall i | 0 <= i < |s| :: IsDigit(s[i]) || s[i] == '.' || (i == 0 && (s[i] == '-' || s[i] == '+'))
  {
    if |s| >= 1 && (s[0] == '-' || s[0] == '+') then
      if |s| >= 2 && AllDigits(s[1..]) then
        UnsignedDigits(s[1..]);
        Some(if s[0] == '-' then Decimal(-(DigitsValue(s[1..]) as int), 0) else Decimal(DigitsValue(s[1..]), 0))
      else
        match ParseUnsignedDecimal(s[1..])
        case Some(d) =>
          assert forall i | 1 <= i < |s| :: s[i] == s[1..][i - 1];
          Some(if s[0] == '-' then Decimal(-d.digits, d.scale) else d)
        case None => None
    else
      if s != [] && AllDigits(s) then
        UnsignedDigits(s);
        ParseUnsignedDecimal(s)
      else ParseUnsignedDecimal(s)
  }

  /** The first point of `whole + "." + fraction` is the one after `whole`. */
  lemma PointAfterWhole(whole: string, fraction: string)
    requires AllDigits(whole)
    ensures PointIndex(whole + "." + fraction) == |whole|
  {
    var s := whole + "." + fraction;
    var k := PointIndex(s);
    assert s[|whole|] == '.';
    assert forall i | 0 <= i < |whole| :: s[i] == whole[i];
  }

  lemma UnsignedPoint(whole: string, fraction: string)
    requires AllDigits(whole) && AllDigits(fraction) && whole + fraction != []
    ensures AllDigits(whole + fraction)
    ensures ParseUnsignedDecimal(whole + "." + fraction) == Some(Decimal(DigitsValue(whole + fraction), |fraction|))
    ensures !AllDigits(whole + "." + fraction)
  {
    AllDigitsAppend(whole, fraction);
    var s := whole + "." + fraction;
    PointAfterWhole(whole, fraction);
    assert s[..|whole|] == whole && s[|whole| + 1..] == fraction;
    assert !IsDigit(s[|whole|]);
  }

  /** A literal with a decimal point reads as its digits scaled by the length of its fraction. */
  lemma ParseDecimalPoint(whole: string, fraction: string)
    requires AllDigits(whole) && AllDigits(fraction) && whole + fraction != []
    ensures AllDigits(whole + fraction)
    ensures ParseDecimal(whole + "." + fraction) == Some(Decimal(DigitsValue(whole + fraction), |fraction|))
  {
    var s := whole + "." + fraction;
    UnsignedPoint(whole, fraction);
    assert s[0] == '.' || IsDigit(s[0]) by {
      if whole != [] {
        assert s[0] == whole[0];
      }
    }
  }

  /** A minus sign in front of a literal that is not a plain run of digits negates it. */
  lemma NegatedLiteral(s: string)
    requires ParseUnsignedDecimal(s).Some? && !AllDigits(s)
    ensures ParseDecimal("-" + s) == Some(Decimal(-ParseUnsignedDecimal(s).value.digits, ParseUnsignedDecimal(s).value.scale))
  {
    var t := "-" + s;
    assert t[1..] == s;
  }

  function LowerChar(c: char): char {
    if 'A' <= c <= 'Z' then (c as int + 32) as char else c
  }

  /** `s.lower()` for ASCII letters; other characters are kept. */
  function Lower(s: string): (r: string)
    ensures |r| == |s|
    ensures forall i :: 0 <= i < |s| ==> r[i] == LowerChar(s[i])
  {
    seq(|s|, i requires 0 <= i < |s| => LowerChar(s[i]))
  }

  predicate OccursAt(s: string, sub: string, i: int) {
    0 <= i <= |s| - |sub| && s[i..i + |sub|] == sub
  }

  /** Python's `sub in s`. */
  predicate Contains(s: string, sub: string) {
    exists i | 0 <= i <= |s| :: OccursAt(s, sub, i)
  }

  /** `s.rstrip(c)` for one character `c`. */
  function RStrip(s: string, c: char): (r: string)
    ensures r <= s
    ensures r == [] || r[|r| - 1] != c
    ensures forall i :: |r| <= i < |s| ==> s[i] == c
    decreases |s|
  {
    if s != [] && s[|s| - 1] == c then RStrip(s[..|s| - 1], c) else s
  }

  /** Python's `<` on strings: lexicographic on code points. */
  predicate StrLt(a: string, b: string)
    decreases |a|
  {
    if a == [] then b != []
    else if b == [] then false
    else if a[0] != b[0] then a[0] < b[0]
    else StrLt(a[1..], b[1..])
  }

  lemma {:induction false} StrLtIrreflexive(a: string)
    ensures !StrLt(a, a)
    decreases |a|
  {
    if a != [] {
      StrLtIrreflexive(a[1..]);
    }
  }

  lemma {:induction false} StrLtTransitive(a: string, b: string, c: string)
    requires StrLt(a, b) && StrLt(b, c)
    ensures StrLt(a, c)
    decreases |a|
  {
    if a != [] && b != [] && c != [] && a[0] == b[0] && b[0] == c[0] {
      StrLtTransitive(a[1..], b[1..], c[1..]);
    }
  }

  lemma {:induction false} StrLtTotal(a: string, b: string)
    requires a != b
    ensures StrLt(a, b) || StrLt(b, a)
    decreases |a|
  {
    if a != [] && b != [] && a[0] == b[0] {
      assert a == [a[0]] + a[1..] && b == [b[0]] + b[1..];
      StrLtTotal(a[1..], b[1..]);
    }
  }
}
