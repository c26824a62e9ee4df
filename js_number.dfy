/**
 * JavaScript's `parseFloat` on a string, with numbers as exact reals: skip
 * leading white space, then read the longest prefix that is a decimal
 * literal (sign, digits, an optional fraction, an optional exponent).
 * `None` stands for NaN.
 */
module JsNumber {
  import opened Wrappers
  import opened JsText

  /** Length of the longest run of digits at the front of `s`. */
  function DigitRun(s: string): (n: nat)
    ensures n <= |s|
    ensures forall i :: 0 <= i < n ==> IsDigit(s[i])
    ensures n == |s| || !IsDigit(s[n])
  {
    if |s| > 0 && IsDigit(s[0]) then 1 + DigitRun(s[1..]) else 0
  }

  predicate AllDigits(d: string) {
    forall i :: 0 <= i < |d| ==> IsDigit(d[i])
  }

  /** The value of a string of decimal digits. */
  function DigitsValue(d: string): nat
    requires AllDigits(d)
  {
    if |d| == 0 then 0
    else 10 * DigitsValue(d[..|d| - 1]) + (d[|d| - 1] as int - '0' as int)
  }

  /** `x` divided by ten `k` times: the value of `k` digits after the point. */
  function Shift(x: real, k: nat): real {
    if k == 0 then x else Shift(x, k - 1) / 10.0
  }

  /** `x` times ten to the power `e`. */
  function Scale(x: real, e: int): real
    decreases if e >= 0 then e else -e
  {
    if e == 0 then x
    else if e > 0 then Scale(x, e - 1) * 10.0
    else Scale(x, e + 1) / 10.0
  }

  /** A leading `+` or `-` of `s`: whether it is a minus, and what follows the sign. */
  function SplitSign(s: string): (bool, string) {
    if |s| > 0 && (s[0] == '-' || s[0] == '+') then (s[0] == '-', s[1..]) else (false, s)
  }

  /** The exponent that an exponent part at the front of `s` denotes; 0 when there is none. */
  function ExponentOf(s: string): int {
    if |s| > 0 && (s[0] == 'e' || s[0] == 'E') then
      var (negative, t) := SplitSign(s[1..]);
      var n := DigitRun(t);
      if n == 0 then 0
      else if negative then -(DigitsValue(t[..n]) as int)
      else DigitsValue(t[..n])
    else 0
  }

  /**
   * A decimal literal as parseFloat reads it: its sign, the value of the
   * digits before the point, the value and count of the digits after it,
   * and the exponent.
   */
  datatype Literal = Literal(negative: bool, whole: nat, fraction: nat, fractionDigits: nat, exponent: int)

  function LiteralValue(l: Literal): real {
    var mantissa := l.whole as real + Shift(l.fraction as real, l.fractionDigits);
    var magnitude := Scale(mantissa, l.exponent);
    if l.negative then -magnitude else magnitude
  }

  /** The digits after a decimal point at the front of `s`, if `s` starts with one. */
  function FractionRun(s: string): string {
    if |s| > 0 && s[0] == '.' then s[1..][..DigitRun(s[1..])] else ""
  }

  /** What follows the digits and the fraction: where an exponent part may start. */
  function AfterMantissa(s: string): string {
    if |s| > 0 && s[0] == '.' then s[1..][DigitRun(s[1..])..] else s
  }

  /** The literal at the very front of `t` (white space already skipped); `None` when there is none. */
  function ScanLiteral(t: string): Option<Literal> {
    var (negative, u) := SplitSign(t);
    var k := DigitRun(u);
    var fraction := FractionRun(u[k..]);
    if k == 0 && |fraction| == 0 then None
    else Some(Literal(negative, DigitsValue(u[..k]), DigitsValue(fraction), |fraction|,
                      ExponentOf(AfterMantissa(u[k..]))))
  }

  /** `parseFloat(s)` for a string `s`. */
  function ParseDecimal(s: string): Option<real> {
    match ScanLiteral(TrimStart(s))
    case None => None
    case Some(l) => Some(LiteralValue(l))
  }

  /** Reading the digits of a number back gives the number. */
  lemma {:induction false} DigitsValueOfNatText(n: nat)
    ensures AllDigits(NatText(n)) && DigitsValue(NatText(n)) == n
  {
    var t := NatText(n);
    if n >= 10 {
      DigitsValueOfNatText(n / 10);
      assert t[..|t| - 1] == NatText(n / 10);
    }
  }

  /** A literal with no fraction and no exponent denotes its whole part. */
  lemma WholeLiteralValue(n: nat)
    ensures LiteralValue(Literal(false, n, 0, 0, 0)) == n as real
  {
  }

  /** A string that starts with the digits `d` followed by no literal character scans as the number `d` denotes. */
  lemma ScanDigits(d: string, tail: string)
    requires |d| > 0 && AllDigits(d)
    requires tail == [] || !(IsDigit(tail[0]) || tail[0] == '.' || tail[0] == 'e' || tail[0] == 'E')
    ensures ParseDecimal(d + tail) == Some(DigitsValue(d) as real)
  {
    var s := d + tail;
    assert !IsSpace(s[0]);
    assert TrimStart(s) == s;
    assert SplitSign(s) == (false, s);
    DigitRunPrefix(d, tail);
    assert s[..|d|] == d;
    assert s[|d|..] == tail;
    assert FractionRun(tail) == "";
    assert AfterMantissa(tail) == tail;
    assert ExponentOf(tail) == 0;
    assert ScanLiteral(s) == Some(Literal(false, DigitsValue(d), 0, 0, 0));
    WholeLiteralValue(DigitsValue(d));
  }

  /** parseFloat reads the decimal text of a natural number back as that number. */
  lemma ParseNatText(n: nat)
    ensures ParseDecimal(NatText(n)) == Some(n as real)
  {
    DigitsValueOfNatText(n);
    assert NatText(n) + [] == NatText(n);
    ScanDigits(NatText(n), []);
  }

  /** Leading white space does not change what parseFloat reads. */
  lemma {:induction false} ParseSkipsSpace(space: string, s: string)
    requires AllSpace(space)
    ensures ParseDecimal(space + s) == ParseDecimal(s)
  {
    TrimStartSkipsSpace(space, s);
  }

  lemma {:induction false} TrimStartSkipsSpace(space: string, s: string)
    requires AllSpace(space)
    ensures TrimStart(space + s) == TrimStart(s)
  {
    if |space| > 0 {
      assert (space + s)[1..] == space[1..] + s;
      TrimStartSkipsSpace(space[1..], s);
    } else {
      assert space + s == s;
    }
  }

  /** parseFloat stops at the first character that cannot continue a literal: `"12abc"` reads as 12. */
  lemma ParseIgnoresTail(n: nat, tail: string)
    requires tail == [] || !(IsDigit(tail[0]) || tail[0] == '.' || tail[0] == 'e' || tail[0] == 'E')
    ensures ParseDecimal(NatText(n) + tail) == Some(n as real)
  {
    DigitsValueOfNatText(n);
    ScanDigits(NatText(n), tail);
  }

  lemma {:induction false} DigitRunPrefix(d: string, tail: string)
    requires AllDigits(d)
    requires tail == [] || !IsDigit(tail[0])
    ensures DigitRun(d + tail) == |d|
  {
    if |d| > 0 {
      assert (d + tail)[1..] == d[1..] + tail;
      DigitRunPrefix(d[1..], tail);
    } else {
      assert d + tail == tail;
    }
  }

  /** A string with no digit before its white space, sign and dots reads as NaN: `".."` is NaN. */
  lemma ParseDotsIsNaN()
    ensures ParseDecimal("..") == None
    ensures ParseDecimal(".") == None
    ensures ParseDecimal("") == None
  {
    assert TrimStart("..") == "..";
    assert TrimStart(".") == ".";
  }

  /** A leading minus negates what the rest reads as, and NaN stays NaN. */
  lemma ParseNegative(s: string)
    requires s == [] || !(IsSpace(s[0]) || s[0] == '-' || s[0] == '+')
    ensures ParseDecimal("-" + s) == if ParseDecimal(s).Some? then Some(-ParseDecimal(s).value) else None
  {
    var t := "-" + s;
    assert TrimStart(t) == t;
    assert TrimStart(s) == s;
    ScanNegative(s);
    if ScanLiteral(s).Some? {
      NegatedValue(ScanLiteral(s).value);
    }
  }

  lemma ScanNegative(s: string)
    requires s == [] || !(s[0] == '-' || s[0] == '+')
    ensures ScanLiteral(s).Some? ==> !ScanLiteral(s).value.negative
    ensures ScanLiteral("-" + s) ==
            if ScanLiteral(s).Some? then Some(ScanLiteral(s).value.(negative := true)) else None
  {
    assert ("-" + s)[1..] == s;
    assert SplitSign("-" + s) == (true, s);
    assert SplitSign(s) == (false, s);
  }

  lemma NegatedValue(l: Literal)
    requires !l.negative
    ensures LiteralValue(l.(negative := true)) == -LiteralValue(l)
  {
  }

  /** The reading of a literal scanned from `s`, once white space is known to be absent. */
  lemma ParseOfScan(s: string, l: Literal)
    requires s != [] && !IsSpace(s[0]) && ScanLiteral(s) == Some(l)
    ensures ParseDecimal(s) == Some(LiteralValue(l))
  {
    assert TrimStart(s) == s;
  }

  /**
   * Digits, a point and more digits read as the whole part plus the
   * fraction: `"12.5"` is 12 + 5/10, where `w` and `f` are the values of
   * the two digit strings. parseFloat stops at a following non-digit,
   * except that an `e` would start an exponent.
   */
  lemma ParseFraction(whole: string, d: string, tail: string, w: nat, f: nat)
    requires |whole| > 0 && AllDigits(whole) && AllDigits(d)
    requires w == DigitsValue(whole) && f == DigitsValue(d)
    requires tail == [] || !(IsDigit(tail[0]) || tail[0] == 'e' || tail[0] == 'E')
    ensures ParseDecimal(whole + ("." + d + tail)) == Some(w as real + Shift(f as real, |d|))
  {
    var rest := "." + d + tail;
    var l := Literal(false, w, f, |d|, 0);
    assert ScanLiteral(whole + rest) == Some(l) by {
      ScanWhole(whole, rest);
      FractionAfterPoint(d, tail);
    }
    ParseOfScan(whole + rest, l);
    WholeScale(l);
  }

  /** With no exponent and no sign a literal denotes its mantissa. */
  lemma WholeScale(l: Literal)
    requires !l.negative && l.exponent == 0
    ensures LiteralValue(l) == l.whole as real + Shift(l.fraction as real, l.fractionDigits)
  {
  }

  /** A string led by the digits `whole` scans them as the whole part and goes on with `rest`. */
  lemma ScanWhole(whole: string, rest: string)
    requires |whole| > 0 && AllDigits(whole)
    requires rest == [] || !IsDigit(rest[0])
    ensures var s := whole + rest;
            !IsSpace(s[0]) &&
            ScanLiteral(s) == Some(Literal(false, DigitsValue(whole), DigitsValue(FractionRun(rest)),
                                           |FractionRun(rest)|, ExponentOf(AfterMantissa(rest))))
  {
    var s := whole + rest;
    assert SplitSign(s) == (false, s);
    DigitRunPrefix(whole, rest);
    assert s[..|whole|] == whole && s[|whole|..] == rest;
  }

  lemma FractionAfterPoint(d: string, tail: string)
    requires AllDigits(d)
    requires tail == [] || !(IsDigit(tail[0]) || tail[0] == 'e' || tail[0] == 'E')
    ensures FractionRun("." + d + tail) == d
    ensures ExponentOf(AfterMantissa("." + d + tail)) == 0
  {
    var rest := "." + d + tail;
    assert rest[1..] == d + tail;
    DigitRunPrefix(d, tail);
    assert (d + tail)[..|d|] == d && (d + tail)[|d|..] == tail;
  }

  /**
   * Digits, then `e`, an optional minus and more digits, read as the
   * number times a power of ten: `"5e-1"` is 0.5, where `w` and `e` are
   * the values of the two digit strings.
   */
  lemma ParseExponent(whole: string, negative: bool, digits: string, tail: string, w: nat, e: nat)
    requires |whole| > 0 && AllDigits(whole) && |digits| > 0 && AllDigits(digits)
    requires w == DigitsValue(whole) && e == DigitsValue(digits)
    requires tail == [] || !IsDigit(tail[0])
    ensures ParseDecimal(whole + ("e" + (if negative then "-" else "") + digits + tail)) ==
            Some(Scale(w as real, if negative then -(e as int) else e))
  {
    var rest := "e" + (if negative then "-" else "") + digits + tail;
    var l := Literal(false, w, 0, 0, if negative then -(e as int) else e);
    assert ScanLiteral(whole + rest) == Some(l) by {
      ScanWhole(whole, rest);
      ExponentPart(negative, digits, tail, e);
      assert DigitsValue("") == 0;
    }
    ParseOfScan(whole + rest, l);
    WholeMantissa(l);
  }

  /** With no fraction and no sign a literal denotes its whole part scaled by its exponent. */
  lemma WholeMantissa(l: Literal)
    requires !l.negative && l.fraction == 0 && l.fractionDigits == 0
    ensures LiteralValue(l) == Scale(l.whole as real, l.exponent)
  {
  }

  lemma ExponentPart(negative: bool, digits: string, tail: string, e: nat)
    requires |digits| > 0 && AllDigits(digits) && e == DigitsValue(digits)
    requires tail == [] || !IsDigit(tail[0])
    ensures var rest := "e" + (if negative then "-" else "") + digits + tail;
            FractionRun(rest) == "" && AfterMantissa(rest) == rest &&
            ExponentOf(rest) == if negative then -(e as int) else e
  {
    var sign := if negative then "-" else "";
    var exponentText := digits + tail;
    var rest := "e" + sign + digits + tail;
    assert rest == ['e'] + (sign + exponentText);
    assert rest[1..] == sign + exponentText;
    SplitSignText(negative, exponentText);
    DigitRunPrefix(digits, tail);
    assert exponentText[..|digits|] == digits;
    SignedExponent(rest, negative, exponentText, e);
  }

  lemma SplitSignText(negative: bool, t: string)
    requires t != [] && IsDigit(t[0])
    ensures SplitSign((if negative then "-" else "") + t) == (negative, t)
  {
    if negative {
      assert ("-" + t)[1..] == t;
    } else {
      assert "" + t == t;
    }
  }

  lemma SignedExponent(rest: string, negative: bool, t: string, e: nat)
    requires |rest| > 0 && rest[0] == 'e' && SplitSign(rest[1..]) == (negative, t)
    requires DigitRun(t) > 0 && DigitsValue(t[..DigitRun(t)]) == e
    ensures ExponentOf(rest) == if negative then -(e as int) else e
  {
  }

  /** Sample readings of signed, fractional and exponent literals. */
  lemma ParseSamples()
    ensures ParseDecimal("-12.5") == Some(-12.5)
    ensures ParseDecimal("5e-1") == Some(0.5)
    ensures ParseDecimal("1.e+2") == Some(100.0)
    ensures ParseDecimal("+.e1") == None
  {
    SampleNegativeFraction("-12.5");
    SampleNegativeExponent("5e-1");
    SamplePlusExponent();
    SampleNoDigits();
  }

  lemma SampleDigits()
    ensures AllDigits("12") && DigitsValue("12") == 12
    ensures AllDigits("5") && DigitsValue("5") == 5
    ensures AllDigits("1") && DigitsValue("1") == 1
  {
    assert "12"[..1] == "1";
    assert "1"[..0] == "" && "5"[..0] == "";
  }

  lemma SampleFraction(s: string)
    requires s == "12.5"
    ensures ParseDecimal(s) == Some(12.5)
  {
    assert "12" + ("." + "5" + "") == s;
    assert Shift(5.0, 1) == 0.5;
    SampleDigits();
    ParseFraction("12", "5", "", 12, 5);
  }

  lemma SampleNegativeFraction(s: string)
    requires s == "-12.5"
    ensures ParseDecimal(s) == Some(-12.5)
  {
    var t := "12.5";
    assert s == "-" + t && t[0] == '1';
    SampleFraction(t);
    NegativeOf(t, s, 12.5);
  }

  lemma NegativeOf(t: string, s: string, v: real)
    requires t != [] && !(IsSpace(t[0]) || t[0] == '-' || t[0] == '+')
    requires s == "-" + t && ParseDecimal(t) == Some(v)
    ensures ParseDecimal(s) == Some(-v)
  {
    ParseNegative(t);
  }

  lemma SampleNegativeExponent(s: string)
    requires s == "5e-1"
    ensures ParseDecimal(s) == Some(0.5)
  {
    assert "5" + ("e" + "-" + "1" + "") == s;
    assert Scale(5.0, -1) == 0.5;
    SampleDigits();
    ParseExponent("5", true, "1", "", 5, 1);
  }

  lemma SamplePlusExponent()
    ensures ParseDecimal("1.e+2") == Some(100.0)
  {
    ScanWhole("1", ".e+2");
    assert "1" + ".e+2" == "1.e+2";
    var rest := ".e+2";
    assert rest[1..] == "e+2" && DigitRun("e+2") == 0;
    assert FractionRun(rest) == "" && AfterMantissa(rest) == "e+2";
    assert SplitSign("+2") == (false, "2") && DigitRun("2") == 1;
    assert ExponentOf("e+2") == 2;
    ParseOfScan("1.e+2", Literal(false, 1, 0, 0, 2));
  }

  lemma SampleNoDigits()
    ensures ParseDecimal("+.e1") == None
  {
    var u := "+.e1";
    assert TrimStart(u) == u && SplitSign(u) == (false, ".e1");
    assert DigitRun(".e1") == 0 && FractionRun(".e1") == "";
  }
}
