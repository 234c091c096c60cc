/** Numbers as the analyzer reads and writes them: `int()` of a digit run, `str()` of a
    non-negative int, `float()` of a run of `[\d.]` characters (as an exact rational,
    Dafny's `real`), and the `<int>mm` / `<x.1f>mm` rendering of a focal length. */
module Numbers {
  import opened Strings

  function DigitValue(c: char): nat
    requires IsDigit(c)
  {
    c as int - '0' as int
  }

  function DigitChar(d: nat): (c: char)
    requires d < 10
    ensures IsDigit(c) && DigitValue(c) == d
  {
    ('0' as int + d) as char
  }

  predicate AllDigits(s: string) {
    forall k :: 0 <= k < |s| ==> IsDigit(s[k])
  }

  /** `int(s)` for a string of ASCII digits (0 for the empty string). */
  function DigitsValue(s: string): nat
    requires AllDigits(s)
    decreases |s|
  {
    if s == [] then 0 else 10 * DigitsValue(s[..|s| - 1]) + DigitValue(s[|s| - 1])
  }

  /** `str(n)` for a non-negative int: decimal digits with no leading zero. */
  function NatToString(n: nat): (r: string)
    ensures r != [] && AllDigits(r)
    ensures r[0] == '0' ==> r == "0"
  {
    if n < 10 then [DigitChar(n)] else NatToString(n / 10) + [DigitChar(n % 10)]
  }

  /** Reading back what `str()` wrote gives the number again. */
  lemma {:induction false} NatToStringRoundTrip(n: nat)
    ensures DigitsValue(NatToString(n)) == n
  {
    if n >= 10 {
      var s := NatToString(n);
      NatToStringRoundTrip(n / 10);
      assert s[..|s| - 1] == NatToString(n / 10);
    }
  }

  lemma {:induction false} LeadingDigitPositive(s: string)
    requires AllDigits(s) && s != [] && s[0] != '0'
    ensures DigitsValue(s) >= 1
  {
    if |s| > 1 {
      LeadingDigitPositive(s[..|s| - 1]);
    }
  }

  /** Writing back what `int()` read gives the digits again, when they have no
      leading zero. */
  lemma {:induction false} DigitsRoundTrip(s: string)
    requires AllDigits(s) && s != []
    requires s[0] == '0' ==> s == "0"
    ensures NatToString(DigitsValue(s)) == s
  {
    if |s| > 1 {
      var p := s[..|s| - 1];
      LeadingDigitPositive(p);
      DigitsRoundTrip(p);
      assert s == p + [s[|s| - 1]];
    }
  }

  function Pow10(n: nat): (r: nat)
    ensures r >= 1
  {
    if n == 0 then 1 else 10 * Pow10(n - 1)
  }

  /** A run of `[\d.]` characters that `float()` accepts: digits around at most one
      point, and at least one digit. */
  predicate IsFloatLiteral(s: string) {
    match IndexOf(s, '.')
    case None => s != [] && AllDigits(s)
    case Some(k) => |s| > 1 && AllDigits(s[..k]) && AllDigits(s[k + 1..])
  }

  function IntPart(s: string): (r: string)
    requires IsFloatLiteral(s)
    ensures AllDigits(r)
  {
    match IndexOf(s, '.')
    case None => s
    case Some(k) => s[..k]
  }

  function FracPart(s: string): (r: string)
    requires IsFloatLiteral(s)
    ensures AllDigits(r)
  {
    match IndexOf(s, '.')
    case None => []
    case Some(k) => s[k + 1..]
  }

  /** The exact value of a decimal literal. */
  function DecimalValue(s: string): (v: real)
    requires IsFloatLiteral(s)
    ensures v >= 0.0
  {
    DigitsValue(IntPart(s)) as real + DigitsValue(FracPart(s)) as real / Pow10(|FracPart(s)|) as real
  }

  /** `focal_value == int(focal_value)`: no non-zero digit after the point. */
  predicate IsWhole(s: string)
    requires IsFloatLiteral(s)
  {
    forall k :: 0 <= k < |FracPart(s)| ==> FracPart(s)[k] == '0'
  }

  lemma {:induction false} ZeroDigits(s: string)
    requires AllDigits(s)
    ensures DigitsValue(s) == 0 <==> forall k :: 0 <= k < |s| ==> s[k] == '0'
  {
    if s != [] {
      ZeroDigits(s[..|s| - 1]);
    }
  }

  lemma {:induction false} DigitsBelowPow10(s: string)
    requires AllDigits(s)
    ensures DigitsValue(s) < Pow10(|s|)
  {
    if s != [] {
      DigitsBelowPow10(s[..|s| - 1]);
    }
  }

  /** `f / p` in tenths, rounded to the nearest tenth (halves upward). */
  function HalfUpTenths(f: nat, p: nat): nat
    requires p >= 1
  {
    (20 * f + p) / (2 * p)
  }

  /** The value in tenths rounded to the nearest tenth (halves upward). */
  function RoundedTenths(s: string): nat
    requires IsFloatLiteral(s)
  {
    DigitsValue(IntPart(s)) * 10 + HalfUpTenths(DigitsValue(FracPart(s)), Pow10(|FracPart(s)|))
  }

  /** The number part of a focal-length label: `int(v)` when `v` is whole, else `v`
      with one decimal. */
  function FocalNumber(s: string): (r: string)
    requires IsFloatLiteral(s)
    ensures IsFloatLiteral(r)
  {
    if IsWhole(s) then
      NatToString(DigitsValue(IntPart(s)))
    else
      var t := RoundedTenths(s);
      var r := NatToString(t / 10) + "." + [DigitChar(t % 10)];
      DecimalPoint(NatToString(t / 10), [DigitChar(t % 10)]);
      r
  }

  /** The label stored for a focal length: the number, then `mm`. */
  function FocalLabel(s: string): string
    requires IsFloatLiteral(s)
  {
    FocalNumber(s) + "mm"
  }

  /** A text the parser could have stored as a focal length. */
  ghost predicate IsFocalLabel(v: string) {
    exists d :: IsFloatLiteral(d) && v == FocalLabel(d)
  }

  /** How `IndexOf`, `IntPart` and `FracPart` see `a.b` for digit strings `a`, `b`. */
  lemma DecimalPoint(a: string, b: string)
    requires AllDigits(a) && AllDigits(b) && |a + b| > 0
    ensures IsFloatLiteral(a + "." + b)
    ensures IntPart(a + "." + b) == a && FracPart(a + "." + b) == b
  {
    var s := a + "." + b;
    assert s[..|a|] == a && s[|a|] == '.';
    assert s[|a| + 1..] == b;
  }

  /** A digit string read as a decimal literal. */
  lemma DigitsLiteral(a: string)
    requires AllDigits(a) && a != []
    ensures IsFloatLiteral(a) && IntPart(a) == a && FracPart(a) == []
    ensures DecimalValue(a) == DigitsValue(a) as real
  {
  }

  /** A whole focal length is written exactly: its label's number reads back as the
      value that was parsed. */
  lemma {:induction false} WholeFocalExact(s: string)
    requires IsFloatLiteral(s) && IsWhole(s)
    ensures DecimalValue(FocalNumber(s)) == DecimalValue(s)
    ensures FocalNumber(s) == NatToString(DigitsValue(IntPart(s)))
  {
    var n := DigitsValue(IntPart(s));
    ZeroDigits(FracPart(s));
    DigitsLiteral(NatToString(n));
    NatToStringRoundTrip(n);
  }

  /** Rounding `f / p` to tenths, halves upward, as `q / 10` moves it by at most 0.05. */
  lemma RoundingError(f: nat, p: nat, q: nat)
    requires p >= 1
    requires 2 * p * q <= 20 * f + p < 2 * p * q + 2 * p
    ensures -0.05 <= q as real / 10.0 - f as real / p as real <= 0.05
  {
    var pr := p as real;
    assert 2.0 * pr * q as real <= 20.0 * f as real + pr < 2.0 * pr * q as real + 2.0 * pr;
    assert q as real / 10.0 - f as real / pr == (q as real * pr - 10.0 * f as real) / (10.0 * pr);
  }

  /** The number `a.d` for digit string `a` and one digit `d`, read back. */
  lemma {:induction false} TenthsValue(t: nat)
    ensures DecimalValue(NatToString(t / 10) + "." + [DigitChar(t % 10)]) == t as real / 10.0
  {
    var a := NatToString(t / 10);
    var b := [DigitChar(t % 10)];
    DecimalPoint(a, b);
    NatToStringRoundTrip(t / 10);
    assert DigitsValue(b) == t % 10 by {
      assert b[..0] == [];
    }
    assert Pow10(1) == 10;
    assert t == 10 * (t / 10) + t % 10;
  }

  /** Any other focal length is written to the nearest tenth: its label's number is
      within 0.05 of the value that was parsed. */
  lemma {:induction false} FractionalFocalWithinHalfTenth(s: string)
    requires IsFloatLiteral(s) && !IsWhole(s)
    ensures -0.05 <= DecimalValue(FocalNumber(s)) - DecimalValue(s) <= 0.05
  {
    var i := DigitsValue(IntPart(s));
    var f := DigitsValue(FracPart(s));
    var p := Pow10(|FracPart(s)|);
    var q := HalfUpTenths(f, p);
    var t := RoundedTenths(s);
    assert t == i * 10 + q;
    assert FocalNumber(s) == NatToString(t / 10) + "." + [DigitChar(t % 10)];
    TenthsValue(t);
    HalfUpError(f, p);
    TenthsSplit(i, q, t);
    WithinOfSum(i as real, q as real / 10.0, f as real / p as real);
  }

  lemma WithinOfSum(i: real, y: real, x: real)
    requires -0.05 <= y - x <= 0.05
    ensures -0.05 <= (i + y) - (i + x) <= 0.05
  {
  }

  lemma TenthsSplit(i: nat, q: nat, t: nat)
    requires t == i * 10 + q
    ensures t as real / 10.0 == i as real + q as real / 10.0
  {
  }

  lemma HalfUpError(f: nat, p: nat)
    requires p >= 1
    ensures -0.05 <= HalfUpTenths(f, p) as real / 10.0 - f as real / p as real <= 0.05
  {
    var n := 20 * f + p;
    var q := n / (2 * p);
    assert n == 2 * p * q + n % (2 * p);
    RoundingError(f, p, q);
  }

  lemma FloatLiteralChars(s: string)
    requires IsFloatLiteral(s)
    ensures s != [] && forall k :: 0 <= k < |s| ==> IsDecimalChar(s[k])
  {
    match IndexOf(s, '.')
    case None =>
    case Some(p) =>
      forall k | 0 <= k < |s| ensures IsDecimalChar(s[k]) {
        if k < p { assert s[k] == s[..p][k]; }
        else if k > p { assert s[k] == s[p + 1..][k - p - 1]; }
      }
  }

  /** `float(s)` for the strings the model reads as numbers: surrounding whitespace,
      an optional sign, then a decimal literal; `None` where `float()` raises. */
  function ParseFloat(s: string): Option<real> {
    var t := Strip(s);
    if t != [] && (t[0] == '+' || t[0] == '-') then
      if IsFloatLiteral(t[1..]) then
        Some(if t[0] == '-' then -DecimalValue(t[1..]) else DecimalValue(t[1..]))
      else
        None
    else if IsFloatLiteral(t) then
      Some(DecimalValue(t))
    else
      None
  }

  /** `float()` reads a decimal literal, padded or not, as its exact value, and
      rejects a blank text. */
  lemma ParseFloatLiteral(s: string)
    ensures IsFloatLiteral(Strip(s)) ==> ParseFloat(s) == Some(DecimalValue(Strip(s)))
    ensures Strip(s) == [] ==> ParseFloat(s).None?
  {
    var t := Strip(s);
    if IsFloatLiteral(t) {
      FloatLiteralChars(t);
      assert t[0] != '+' && t[0] != '-';
    }
  }
}
