// Decimal text and the numeric conversions of Python that the planning code
// uses: `str(int)`, `float(str)`, `int(float)`, `//` and `%` on floats, and
// `"%.Nf" % x`.  Numbers are exact reals: binary floating point is not modelled.
module Numbers {
  import opened Common
  import opened Text

  predicate AllDigits(s: string) { forall i :: 0 <= i < |s| ==> IsDigit(s[i]) }

  function DigitChar(d: nat): (c: char)
    requires d < 10
    ensures IsDigit(c)
  {
    ('0' as int + d) as char
  }

  function DigitValue(c: char): (d: nat)
    requires IsDigit(c)
    ensures d < 10
  {
    c as int - '0' as int
  }

  function Pow10(n: nat): (r: nat)
    ensures r >= 1
  {
    if n == 0 then 1 else 10 * Pow10(n - 1)
  }

  /** The value of a string of decimal digits (most significant first). */
  function DigitsValue(s: string): nat
    requires AllDigits(s)
  {
    if |s| == 0 then 0 else 10 * DigitsValue(s[..|s| - 1]) + DigitValue(s[|s| - 1])
  }

  /** `str(n)` for a non-negative integer: digits with no leading zero that read back as `n`. */
  function NatToString(n: nat): (s: string)
    ensures |s| >= 1 && AllDigits(s)
    ensures DigitsValue(s) == n
    ensures n < 10 ==> |s| == 1
    ensures 10 <= n < 100 ==> |s| == 2
  {
    if n < 10 then [DigitChar(n)]
    else
      var s := NatToString(n / 10) + [DigitChar(n % 10)];
      assert s[..|s| - 1] == NatToString(n / 10);
      s
  }

  /** `str(i)` for any integer. */
  function IntToString(i: int): (s: string)
    ensures |s| >= 1
    ensures i >= 0 ==> AllDigits(s) && DigitsValue(s) == i
    ensures i < 0 ==> s[0] == '-' && AllDigits(s[1..]) && DigitsValue(s[1..]) == -i
  {
    if i < 0 then "-" + NatToString(-i) else NatToString(i)
  }

  lemma {:induction false} NatToStringWidth(n: nat, k: nat)
    requires k >= 1 && n < Pow10(k)
    ensures |NatToString(n)| <= k
    decreases n
  {
    if n >= 10 {
      NatToStringWidth(n / 10, k - 1);
    }
  }

  lemma {:induction false} DigitsValueAppend(a: string, b: string)
    requires AllDigits(a) && AllDigits(b)
    ensures AllDigits(a + b)
    ensures DigitsValue(a + b) == DigitsValue(a) * Pow10(|b|) + DigitsValue(b)
    decreases |b|
  {
    if |b| > 0 {
      var b' := b[..|b| - 1];
      assert (a + b)[..|a + b| - 1] == a + b';
      DigitsValueAppend(a, b');
      var x, p, y, c := DigitsValue(a), Pow10(|b'|), DigitsValue(b'), DigitValue(b[|b| - 1]);
      assert (a + b)[|a + b| - 1] == b[|b| - 1];
      assert DigitsValue(a + b) == 10 * DigitsValue(a + b') + c;
      assert DigitsValue(b) == 10 * y + c;
      assert Pow10(|b|) == 10 * p;
      AppendArith(x, p, y, c);
    } else {
      assert a + b == a;
    }
  }

  lemma AppendArith(x: nat, p: nat, y: nat, c: nat)
    ensures 10 * (x * p + y) + c == x * (10 * p) + (10 * y + c)
  {
  }

  /** Left-pad with zeros to width `w`, as `%0wd` does. */
  function ZeroPad(s: string, w: nat): (r: string)
    ensures |r| == if |s| < w then w else |s|
  {
    if |s| < w then seq(w - |s|, i => '0') + s else s
  }

  lemma ZeroPadValue(s: string, w: nat)
    requires AllDigits(s)
    ensures AllDigits(ZeroPad(s, w)) && DigitsValue(ZeroPad(s, w)) == DigitsValue(s)
  {
    if |s| < w {
      var z := seq(w - |s|, i => '0');
      assert AllDigits(z);
      ZerosValue(z);
      DigitsValueAppend(z, s);
    }
  }

  lemma {:induction false} ZerosValue(z: string)
    requires forall i :: 0 <= i < |z| ==> z[i] == '0'
    ensures AllDigits(z) && DigitsValue(z) == 0
    decreases |z|
  {
    if |z| > 0 {
      ZerosValue(z[..|z| - 1]);
    }
  }

  // ---------------------------------------------------------------- float(str)

  /** The unsigned part of a decimal literal: digits, optionally a point and more digits. */
  function ParseUnsigned(t: string): Option<real>
  {
    ParseParts(Split(t, '.'))
  }

  /** The value of the parts of a literal split at its decimal point. */
  function ParseParts(parts: seq<string>): Option<real>
    requires |parts| >= 1
  {
    if |parts| > 2 then None
    else
      var ip := parts[0];
      var fp := if |parts| == 2 then parts[1] else "";
      if !AllDigits(ip) || !AllDigits(fp) || |ip| + |fp| == 0 then None
      else Some(DigitsValue(ip) as real + FracValue(fp))
  }

  /** The value of the digits after a decimal point. */
  function FracValue(fp: string): real
    requires AllDigits(fp)
  {
    if |fp| == 0 then 0.0 else (DigitValue(fp[0]) as real + FracValue(fp[1..])) / 10.0
  }

  /** The digits after the point denote their integer value scaled down by their count. */
  lemma {:induction false} FracValueScaled(fp: string)
    requires AllDigits(fp)
    ensures FracValue(fp) == DigitsValue(fp) as real / Pow10(|fp|) as real
  {
    if |fp| > 0 {
      var rest := fp[1..];
      FracValueScaled(rest);
      assert fp == [fp[0]] + rest;
      DigitsValueAppend([fp[0]], rest);
      assert DigitsValue([fp[0]]) == DigitValue(fp[0]) by {
        assert [fp[0]][..0] == [];
      }
      FracStep(DigitValue(fp[0]), DigitsValue(rest), Pow10(|rest|));
    }
  }

  lemma FracStep(c: nat, v: nat, p: nat)
    requires p >= 1
    ensures (c as real + v as real / p as real) / 10.0 == (c * p + v) as real / (10 * p) as real
  {
    assert (c * p) as real == c as real * p as real;
  }

  /**
   * `float(s)` for plain decimal literals with surrounding whitespace and an
   * optional sign; exponents, `inf`, `nan` and underscores are read as errors.
   */
  function ParseDecimal(s: string): Option<real>
  {
    var t := Strip(s);
    if |t| > 0 && (t[0] == '-' || t[0] == '+') then
      match ParseUnsigned(t[1..])
      case None => None
      case Some(v) => Some(if t[0] == '-' then -v else v)
    else ParseUnsigned(t)
  }

  /** `float(s)` with Python's ValueError. */
  function ToFloat(s: string): Result<real>
  {
    match ParseDecimal(s)
    case None => Err(ValueError("could not convert string to float: " + s))
    case Some(v) => Ok(v)
  }

  // ---------------------------------------------------------------- real arithmetic

  /** `int(x)` for a float: truncation toward zero. */
  function Trunc(x: real): (n: int)
    ensures x >= 0.0 ==> n as real <= x < n as real + 1.0
    ensures x < 0.0 ==> n as real - 1.0 < x <= n as real
  {
    if x >= 0.0 then x.Floor else -((-x).Floor)
  }

  /** `math.ceil(x)` */
  function Ceil(x: real): (n: int)
    ensures x <= n as real < x + 1.0
  {
    if x.Floor as real == x then x.Floor else x.Floor + 1
  }

  /** Python's float `x % m` for `m > 0`: the result lies in `[0, m)`. */
  function FloatMod(x: real, m: real): (r: real)
    requires m > 0.0
    ensures 0.0 <= r < m
  {
    FloorScaled(x, m);
    x - ((x / m).Floor as real) * m
  }

  lemma FloorScaled(x: real, m: real)
    requires m > 0.0
    ensures ((x / m).Floor as real) * m <= x < ((x / m).Floor as real) * m + m
  {
    var y := x / m;
    var qr := y.Floor as real;
    assert y < qr + 1.0;
    MulMono(y, qr + 1.0, m);
    assert y * m < (qr + 1.0) * m;
    assert y * m == x;
    assert (qr + 1.0) * m == qr * m + m;
    assert x < qr * m + m;
    MulMono(qr, y, m);
  }

  lemma MulMono(a: real, b: real, m: real)
    requires m > 0.0
    ensures a <= b ==> a * m <= b * m
    ensures a < b ==> a * m < b * m
  {
  }

  function Abs(x: real): real { if x < 0.0 then -x else x }

  // ---------------------------------------------------------------- "%.Nf"

  /** The natural number nearest to `r >= 0`, ties to the even neighbour. */
  function RoundHalfEven(r: real): nat
    requires r >= 0.0
  {
    var f := r.Floor;
    var frac := r - f as real;
    if frac < 0.5 then f
    else if frac > 0.5 then f + 1
    else if f % 2 == 0 then f
    else f + 1
  }

  lemma RoundHalfEvenClose(r: real)
    requires r >= 0.0
    ensures RoundHalfEven(r) as real - r <= 0.5 && r - RoundHalfEven(r) as real <= 0.5
  {
  }

  /** The value `"%.{d}f" % x` denotes: `x` rounded to `d` decimals. */
  function Rounded(x: real, d: nat): real
  {
    SignedValue(x < 0.0, Unscaled(ScaledAbs(x, d), d))
  }

  function SignedValue(negative: bool, v: real): real
  {
    if negative then -v else v
  }

  /** `|x| * 10^d` rounded to a whole number: the digits `"%.{d}f"` prints. */
  function ScaledAbs(x: real, d: nat): nat
  {
    RoundHalfEven(Magnitude(x, d))
  }

  /** `|x| * 10^d`. */
  function Magnitude(x: real, d: nat): (m: real)
    ensures m >= 0.0
  {
    NonnegProduct(Abs(x), Pow10(d) as real);
    Abs(x) * Pow10(d) as real
  }

  /** The value of `n` units of the `d`-th decimal place. */
  function Unscaled(n: nat, d: nat): real
  {
    n as real / Pow10(d) as real
  }

  /** The digits of `|x|` rounded to `d` decimals, with a point when `d > 0`. */
  function FixedBody(n: nat, d: nat): string
  {
    var qr := DivMod(n, Pow10(d));
    NatToString(qr.0) + (if d == 0 then "" else "." + ZeroPad(NatToString(qr.1), d))
  }

  /** Quotient and remainder of natural-number division. */
  function DivMod(n: nat, p: nat): (qr: (nat, nat))
    requires p >= 1
    ensures qr.0 * p + qr.1 == n && qr.1 < p
  {
    (n / p, n % p)
  }

  /** `"%.{d}f" % x` */
  function FormatFixed(x: real, d: nat): string
  {
    Signed(x < 0.0, FixedBody(ScaledAbs(x, d), d))
  }

  function Signed(negative: bool, body: string): string
  {
    if negative then "-" + body else body
  }

  /** The fixed-point text of `n / 10^d`: digits, then a point and exactly `d` digits when `d > 0`. */
  lemma FixedBodyParts(n: nat, d: nat) returns (a: string, b: string)
    ensures |a| >= 1 && AllDigits(a) && AllDigits(b)
    ensures d == 0 ==> FixedBody(n, d) == a && DigitsValue(a) == n
    ensures d > 0 ==> FixedBody(n, d) == a + ['.'] + b && |b| == d
    ensures d > 0 ==> DigitsValue(a) * Pow10(d) + DigitsValue(b) == n
  {
    var p := Pow10(d);
    var qr := DivMod(n, p);
    a := NatToString(qr.0);
    b := "";
    if d == 0 {
      DivModOne(n, qr.0, qr.1);
    } else {
      b := FractionDigits(qr.1, d);
    }
  }

  lemma FixedBodyParses(n: nat, d: nat)
    ensures |FixedBody(n, d)| > 0 && Stripped(FixedBody(n, d))
    ensures FixedBody(n, d)[0] != '-' && FixedBody(n, d)[0] != '+'
    ensures ParseUnsigned(FixedBody(n, d)) == Some(Unscaled(n, d))
  {
    FixedBodyShape(n, d);
    if d == 0 {
      WholeBodyValue(n, d);
    } else {
      PointedBodyValue(n, d);
    }
  }

  lemma FixedBodyShape(n: nat, d: nat)
    ensures |FixedBody(n, d)| > 0 && Stripped(FixedBody(n, d)) && IsDigit(FixedBody(n, d)[0])
  {
    var a, b := FixedBodyParts(n, d);
    var t := FixedBody(n, d);
    assert IsDigit(a[0]);
    if d == 0 {
      assert IsDigit(t[|t| - 1]);
    } else {
      assert t[|t| - 1] == b[d - 1] && IsDigit(b[d - 1]);
    }
  }

  lemma WholeBodyValue(n: nat, d: nat)
    requires d == 0
    ensures ParseUnsigned(FixedBody(n, d)) == Some(Unscaled(n, d))
  {
    var a, b := FixedBodyParts(n, d);
    PointlessParse(a);
    assert Pow10(d) == 1;
  }

  lemma PointedBodyValue(n: nat, d: nat)
    requires d > 0
    ensures ParseUnsigned(FixedBody(n, d)) == Some(Unscaled(n, d))
  {
    var a, b := FixedBodyParts(n, d);
    PointedParse(a, b);
    FracValueScaled(b);
    RealDivSplit(n, DigitsValue(a), DigitsValue(b), Pow10(d));
  }

  lemma PointlessParse(a: string)
    requires |a| > 0 && AllDigits(a)
    ensures ParseUnsigned(a) == Some(DigitsValue(a) as real)
  {
    DigitsHaveNoPoint(a);
    SplitNoSep(a, '.');
    ParseOnePart(a);
    assert ParseUnsigned(a) == ParseParts([a]);
  }

  lemma ParseOnePart(a: string)
    requires |a| > 0 && AllDigits(a)
    ensures ParseParts([a]) == Some(DigitsValue(a) as real)
  {
  }

  lemma DigitsHaveNoPoint(a: string)
    requires AllDigits(a)
    ensures '.' !in a
  {
    forall i | 0 <= i < |a|
      ensures a[i] != '.'
    {
      assert IsDigit(a[i]);
    }
  }

  lemma PointedParse(a: string, b: string)
    requires |a| > 0 && AllDigits(a) && AllDigits(b)
    ensures ParseUnsigned(a + ['.'] + b) == Some(DigitsValue(a) as real + FracValue(b))
  {
    DigitsHaveNoPoint(a);
    DigitsHaveNoPoint(b);
    SplitAfter(a, '.', b);
    SplitNoSep(b, '.');
    ParseTwoParts(a, b);
    assert ParseUnsigned(a + ['.'] + b) == ParseParts([a] + [b]);
  }

  lemma ParseTwoParts(a: string, b: string)
    requires |a| > 0 && AllDigits(a) && AllDigits(b)
    ensures ParseParts([a] + [b]) == Some(DigitsValue(a) as real + FracValue(b))
  {
    assert ([a] + [b])[0] == a && ([a] + [b])[1] == b;
  }

  lemma DivModOne(n: nat, q: nat, r: nat)
    requires q * 1 + r == n && r < 1
    ensures q == n
  {
  }

  /** The zero-padded remainder digits: exactly `d` digits that read back as `r`. */
  lemma FractionDigits(r: nat, d: nat) returns (b: string)
    requires d >= 1 && r < Pow10(d)
    ensures b == ZeroPad(NatToString(r), d)
    ensures |b| == d && AllDigits(b) && '.' !in b && DigitsValue(b) == r
  {
    b := ZeroPad(NatToString(r), d);
    NatToStringWidth(r, d);
    ZeroPadValue(NatToString(r), d);
    assert '.' !in b by { assert AllDigits(b); }
  }

  lemma RealDivSplit(n: nat, q: nat, r: nat, p: nat)
    requires p >= 1 && q * p + r == n
    ensures q as real + r as real / p as real == n as real / p as real
  {
    assert (q * p) as real == q as real * p as real;
  }

  /** `"%.{d}f" % x` reads back as `x` rounded to `d` decimals, at most half a unit of the last place away. */
  lemma FormatFixedParses(x: real, d: nat)
    ensures ParseDecimal(FormatFixed(x, d)) == Some(Rounded(x, d))
    ensures Abs(Rounded(x, d) - x) <= 0.5 / Pow10(d) as real
  {
    FormatFixedReads(x, d);
    RoundedClose(x, d);
  }

  lemma FormatFixedReads(x: real, d: nat)
    ensures ParseDecimal(FormatFixed(x, d)) == Some(Rounded(x, d))
  {
    SignedBodyReads(x < 0.0, ScaledAbs(x, d), d);
  }

  lemma SignedBodyReads(negative: bool, n: nat, d: nat)
    ensures ParseDecimal(Signed(negative, FixedBody(n, d))) == Some(SignedValue(negative, Unscaled(n, d)))
  {
    if negative {
      NegativeBodyReads(n, d);
    } else {
      BodyReads(n, d);
    }
  }

  lemma BodyReads(n: nat, d: nat)
    ensures ParseDecimal(FixedBody(n, d)) == Some(Unscaled(n, d))
  {
    FixedBodyParses(n, d);
    PositiveReads(FixedBody(n, d), Unscaled(n, d));
  }

  lemma NegativeBodyReads(n: nat, d: nat)
    ensures ParseDecimal(Signed(true, FixedBody(n, d))) == Some(-Unscaled(n, d))
  {
    FixedBodyParses(n, d);
    NegativeReads(FixedBody(n, d), Unscaled(n, d));
  }

  lemma PositiveReads(body: string, v: real)
    requires |body| > 0 && Stripped(body) && body[0] != '-' && body[0] != '+'
    requires ParseUnsigned(body) == Some(v)
    ensures ParseDecimal(body) == Some(v)
  {
    StrippedFixed(body);
  }

  lemma NegativeReads(body: string, v: real)
    requires |body| > 0 && Stripped(body) && ParseUnsigned(body) == Some(v)
    ensures ParseDecimal(Signed(true, body)) == Some(-v)
  {
    var t := "-" + body;
    assert Stripped(t);
    StrippedFixed(t);
    assert t[1..] == body;
  }

  lemma RoundedClose(x: real, d: nat)
    ensures Abs(Rounded(x, d) - x) <= 0.5 / Pow10(d) as real
  {
    ScaledAbsClose(x, d);
    AbsSigned(x);
    MagnitudeIs(x, d);
    SignedClose(x < 0.0, Abs(x), x, ScaledAbs(x, d), d, Magnitude(x, d));
  }

  lemma MagnitudeIs(x: real, d: nat)
    ensures Magnitude(x, d) == Abs(x) * Pow10(d) as real
  {
  }

  lemma AbsSigned(x: real)
    ensures x == SignedValue(x < 0.0, Abs(x))
  {
  }

  lemma ScaledAbsClose(x: real, d: nat)
    ensures ScaledAbs(x, d) as real - Magnitude(x, d) <= 0.5
    ensures Magnitude(x, d) - ScaledAbs(x, d) as real <= 0.5
  {
    RoundHalfEvenClose(Magnitude(x, d));
  }

  lemma NonnegProduct(a: real, b: real)
    requires a >= 0.0 && b >= 0.0
    ensures a * b >= 0.0
  {
  }

  lemma SignedClose(negative: bool, a: real, x: real, n: nat, d: nat, m: real)
    requires x == SignedValue(negative, a) && m == a * Pow10(d) as real
    requires n as real - m <= 0.5 && m - n as real <= 0.5
    ensures Abs(SignedValue(negative, Unscaled(n, d)) - x) <= 0.5 / Pow10(d) as real
  {
    DivClose(n as real, a, Pow10(d) as real);
  }

  lemma DivClose(n: real, a: real, p: real)
    requires p >= 1.0 && n - a * p <= 0.5 && a * p - n <= 0.5
    ensures Abs(n / p - a) <= 0.5 / p
  {
    var v := n / p;
    assert v * p == n;
    var e := v - a;
    assert e * p == n - a * p;
    MulLeDiv(e, p, 0.5);
    assert (-e) * p == -(e * p);
    MulLeDiv(-e, p, 0.5);
  }

  lemma MulLeDiv(y: real, p: real, c: real)
    requires p > 0.0 && y * p <= c
    ensures y <= c / p
  {
    assert c / p - y == (c - y * p) / p;
  }
}
