/**
 * Number display and storage rounding of the calculator (index.js:1-9, and
 * the `Number(v.toFixed(6))` idiom every solver uses to store its result).
 *
 * Numbers are reals. `x.toFixed(6)` is modelled on decimal digit strings for
 * |x| < 10^21 (where it writes plain fixed-point notation); `Number(s)` is
 * modelled for the decimal numerals that toFixed and formatNumber produce.
 */
module NumberFormat {
  import opened Wrappers

  /** The em dash that formatNumber shows for a missing value. */
  const Placeholder: string := "\U{2014}"

  /** Below this magnitude toFixed writes fixed-point digits; above it, the plain number. */
  const FixedLimit: real := 1000000000000000000000.0

  /** 10^6: six fractional digits. */
  const Scale: nat := 1000000

  function Pow10(k: nat): (r: nat)
    ensures r >= 1
  {
    if k == 0 then 1 else 10 * Pow10(k - 1)
  }

  predicate IsDigit(c: char) { '0' <= c <= '9' }

  predicate AllDigits(s: string) { forall i :: 0 <= i < |s| ==> IsDigit(s[i]) }

  predicate AllZeros(s: string) { forall i :: 0 <= i < |s| ==> s[i] == '0' }

  function DigitValue(c: char): nat
    requires IsDigit(c)
  {
    c as int - '0' as int
  }

  function DigitChar(d: nat): (c: char)
    requires d < 10
    ensures IsDigit(c) && DigitValue(c) == d
    ensures c == '0' <==> d == 0
  {
    ('0' as int + d) as char
  }

  /** The number a string of decimal digits denotes, most significant digit first. */
  function ValueOf(s: string): nat
    requires AllDigits(s)
  {
    if s == [] then 0 else 10 * ValueOf(s[..|s| - 1]) + DigitValue(s[|s| - 1])
  }

  lemma ValueOfSnoc(s: string, c: char)
    requires AllDigits(s) && IsDigit(c)
    ensures AllDigits(s + [c]) && ValueOf(s + [c]) == 10 * ValueOf(s) + DigitValue(c)
  {
    assert (s + [c])[..|s|] == s;
  }

  /** The decimal numeral of n without leading zeros ("0" for zero). */
  function Numeral(n: nat): (s: string)
    ensures |s| > 0 && AllDigits(s) && ValueOf(s) == n
    ensures |s| == 1 || s[0] != '0'
  {
    if n < 10 then [DigitChar(n)]
    else
      var prefix := Numeral(n / 10);
      ValueOfSnoc(prefix, DigitChar(n % 10));
      prefix + [DigitChar(n % 10)]
  }

  /** Exactly w decimal digits of k, padded on the left with zeros. */
  function FixedWidth(k: nat, w: nat): (s: string)
    requires k < Pow10(w)
    ensures |s| == w && AllDigits(s) && ValueOf(s) == k
  {
    if w == 0 then []
    else
      var prefix := FixedWidth(k / 10, w - 1);
      ValueOfSnoc(prefix, DigitChar(k % 10));
      prefix + [DigitChar(k % 10)]
  }

  /**
   * The integer n nearest to x * 10^6, ties going up: the n that toFixed(6)
   * picks for a non-negative x.
   */
  function ScaledRound(x: real): (n: nat)
    requires x >= 0.0
    ensures n as real - 0.5 <= x * 1000000.0 < n as real + 0.5
  {
    (x * 1000000.0 + 0.5).Floor
  }

  /**
   * x.toFixed(6) for |x| < 10^21: a '-' when x is negative, the integer digits,
   * a '.', and exactly six fractional digits.
   */
  function ToFixed6(x: real): (s: string)
    requires Abs(x) < FixedLimit
  {
    var n := ScaledRound(Abs(x));
    assert Pow10(6) == Scale;
    Sign(x < 0.0) + Numeral(n / Scale) + "." + FixedWidth(n % Scale, 6)
  }

  /** The '-' toFixed writes in front of a negative number. */
  function Sign(negative: bool): string
  {
    if negative then "-" else ""
  }

  function Negate(negative: bool, v: real): real
  {
    if negative then -v else v
  }

  /**
   * Number(x.toFixed(6)): what each solver stores. Within 10^21 it is x
   * rounded to six decimals (half away from zero); beyond, toFixed writes x
   * itself and Number reads it back unchanged.
   */
  function Round6(x: real): (r: real)
    ensures -0.0000005 <= r - x <= 0.0000005
    ensures (x >= 0.0 ==> r >= 0.0) && (x <= 0.0 ==> r <= 0.0)
  {
    if Abs(x) >= FixedLimit then x
    else Negate(x < 0.0, ScaledRound(Abs(x)) as real / 1000000.0)
  }

  /** Index of the first '.' in s, or |s| when there is none. */
  function DotIndex(s: string): (k: nat)
    ensures k <= |s|
    ensures forall j :: 0 <= j < k ==> s[j] != '.'
    ensures k < |s| ==> s[k] == '.'
  {
    if s == [] || s[0] == '.' then 0 else 1 + DotIndex(s[1..])
  }

  /** Number(s) for an unsigned decimal numeral: digits, then optionally '.' and digits. */
  function ParseUnsigned(s: string): Option<real>
  {
    var k := DotIndex(s);
    var whole := s[..k];
    var frac := if k < |s| then s[k + 1..] else "";
    if |whole| > 0 && AllDigits(whole) && AllDigits(frac) then Some(Decimal(whole, frac)) else None
  }

  /** The value of the numeral whole.frac. */
  function Decimal(whole: string, frac: string): real
    requires AllDigits(whole) && AllDigits(frac)
  {
    ValueOf(whole) as real + ValueOf(frac) as real / Pow10(|frac|) as real
  }

  /**
   * Number(s) on the decimal numerals this code produces: an optional '-'
   * followed by an unsigned numeral. Any other text is NaN, here None.
   */
  function ParseNumber(s: string): Option<real>
  {
    if |s| > 0 && s[0] == '-' then
      match ParseUnsigned(s[1..])
      case None => None
      case Some(v) => Some(-v)
    else ParseUnsigned(s)
  }

  /** s without its trailing run of '0' characters. */
  function DropZeros(s: string): (t: string)
    ensures t <= s
    ensures AllZeros(s[|t|..])
    ensures t == [] || t[|t| - 1] != '0'
  {
    if |s| > 0 && s[|s| - 1] == '0' then DropZeros(s[..|s| - 1]) else s
  }

  /**
   * s.replace(/\.?(0+)$/, ""): the leftmost match of that pattern is the whole
   * trailing run of zeros, together with a '.' right before it if there is one.
   */
  function StripZeros(s: string): (r: string)
    ensures r <= s
    ensures r == s <==> s == [] || s[|s| - 1] != '0'
    ensures r != s && s[|r|] != '.' ==>
              AllZeros(s[|r|..]) && (r == [] || (r[|r| - 1] != '0' && r[|r| - 1] != '.'))
    ensures r != s && s[|r|] == '.' ==> |r| + 1 < |s| && AllZeros(s[|r| + 1..])
  {
    var t := DropZeros(s);
    if t != s && |t| > 0 && t[|t| - 1] == '.' then
      assert s[|t| - 1] == '.';
      t[..|t| - 1]
    else t
  }

  /** What formatNumber returns; Grouped stands for the host's toLocaleString text. */
  datatype Display = Text(text: string) | Grouped(x: real)

  /**
   * formatNumber: the placeholder for a missing value; for |x| >= 1000 the
   * locale-grouped form; otherwise x.toFixed(6) with trailing zeros stripped,
   * whose text reads back as x rounded to six decimals.
   */
  function FormatNumber(n: Option<real>): (d: Display)
    ensures d == Text(Placeholder) <==> n.None?
    ensures d.Grouped? <==> n.Some? && Abs(n.value) >= 1000.0
    ensures d.Grouped? ==> d.x == n.value
    ensures n.Some? && Abs(n.value) < 1000.0 ==>
              d.Text? && ParseNumber(d.text) == Some(Round6(n.value)) && NoTrailingZero(d.text)
  {
    match n
    case None => Text(Placeholder)
    case Some(x) =>
      if Abs(x) >= 1000.0 then Grouped(x)
      else
        FormattedFixed(x);
        Text(StripZeros(ToFixed6(x)))
  }

  /** A numeral with a fractional part does not end in '0', and no numeral ends in '.'. */
  predicate NoTrailingZero(s: string)
  {
    |s| > 0 && s[|s| - 1] != '.' && ('.' in s ==> s[|s| - 1] != '0')
  }

  // ---------------------------------------------------------------------
  // Lemmas

  /** Dropping trailing zeros from a + f: the zeros of f go first, then those of a. */
  lemma {:induction false} DropZerosAppend(a: string, f: string)
    ensures DropZeros(a + f) == if AllZeros(f) then DropZeros(a) else a + DropZeros(f)
    decreases |f|
  {
    if f == [] {
      assert a + f == a;
    } else if f[|f| - 1] == '0' {
      var f' := f[..|f| - 1];
      assert (a + f)[..|a + f| - 1] == a + f';
      assert DropZeros(a + f) == DropZeros(a + f');
      DropZerosAppend(a, f');
      ZerosInit(f);
    } else {
      assert !AllZeros(f);
    }
  }

  /** A digit string ending in '0' is all zeros exactly when the rest is. */
  lemma ZerosInit(f: string)
    requires |f| > 0 && f[|f| - 1] == '0'
    ensures AllZeros(f) <==> AllZeros(f[..|f| - 1])
  {
    var f' := f[..|f| - 1];
    if AllZeros(f') {
      forall i | 0 <= i < |f| ensures f[i] == '0' {
        if i < |f'| { assert f[i] == f'[i]; }
      }
    }
  }

  /**
   * The regular expression in formatNumber on a fixed-point numeral i.f:
   * an all-zero fraction leaves the integer part i alone, otherwise only the
   * fraction's trailing zeros go. The integer part is never touched.
   */
  lemma {:induction false} StripFixedPoint(i: string, f: string)
    requires |f| > 0 && AllDigits(f)
    ensures StripZeros(i + "." + f) == if AllZeros(f) then i else i + "." + DropZeros(f)
    ensures !AllZeros(f) ==> |DropZeros(f)| > 0 && DropZeros(f)[|DropZeros(f)| - 1] != '0'
  {
    var s := i + "." + f;
    DropZerosAppend(i + ".", f);
    assert DropZeros(i + ".") == i + "." by {
      assert (i + ".")[|i + "."| - 1] == '.';
    }
    if AllZeros(f) {
      assert DropZeros(s) == i + ".";
      assert s != i + "." by { assert |s| > |i + "."|; }
      assert (i + ".")[..|i|] == i;
    } else {
      var t := DropZeros(f);
      assert |t| > 0 by { assert f[0..] == f; }
      assert IsDigit(t[|t| - 1]) by { assert t[|t| - 1] == f[|t| - 1]; }
      assert (i + "." + t)[|i + "." + t| - 1] == t[|t| - 1];
    }
  }

  lemma {:induction false} Pow10Add(a: nat, b: nat)
    ensures Pow10(a + b) == Pow10(a) * Pow10(b)
    decreases a
  {
    if a > 0 {
      Pow10Add(a - 1, b);
      assert Pow10(a + b) == 10 * Pow10(a - 1 + b);
    }
  }

  /** Each trailing zero of a digit string multiplies its value by ten. */
  lemma {:induction false} DropZerosValue(f: string)
    requires AllDigits(f)
    ensures AllDigits(DropZeros(f))
    ensures ValueOf(f) == ValueOf(DropZeros(f)) * Pow10(|f| - |DropZeros(f)|)
    decreases |f|
  {
    if |f| > 0 && f[|f| - 1] == '0' {
      var f' := f[..|f| - 1];
      DropZerosValue(f');
      var t := DropZeros(f');
      assert DropZeros(f) == t;
      assert ValueOf(f) == 10 * ValueOf(f');
      assert Pow10(|f| - |t|) == 10 * Pow10(|f'| - |t|);
      ShiftFactor(ValueOf(t), Pow10(|f'| - |t|));
    } else {
      assert f == DropZeros(f);
    }
  }

  /** Trailing zeros of a fraction do not change the value it denotes. */
  lemma FractionValue(f: string)
    requires AllDigits(f)
    ensures AllDigits(DropZeros(f))
    ensures ValueOf(f) as real / Pow10(|f|) as real
            == ValueOf(DropZeros(f)) as real / Pow10(|DropZeros(f)|) as real
  {
    var t := DropZeros(f);
    var d := |f| - |t|;
    DropZerosValue(f);
    Pow10Add(|t|, d);
    assert |t| + d == |f|;
    ScaledRatio(ValueOf(f), Pow10(|f|), ValueOf(t), Pow10(|t|), Pow10(d));
  }

  /** a / b == v / p when a and b are v and p scaled by the same q. */
  lemma ScaledRatio(a: nat, b: nat, v: nat, p: nat, q: nat)
    requires a == v * q && b == p * q && p > 0 && q > 0
    ensures a as real / b as real == v as real / p as real
  {
    RealProduct(v, q);
    RealProduct(p, q);
    CancelFactor(v as real, p as real, q as real);
  }

  lemma RealProduct(a: nat, b: nat)
    ensures (a * b) as real == a as real * b as real
  {
  }

  lemma ShiftFactor(v: nat, p: nat)
    ensures 10 * (v * p) == v * (10 * p)
  {
  }

  lemma CancelFactor(v: real, p: real, q: real)
    requires p > 0.0 && q > 0.0
    ensures (v * q) / (p * q) == v / p
  {
    var a := v / p;
    assert v == a * p;
    assert v * q == a * (p * q);
  }

  /** An unsigned numeral "w.f" reads back as w + f / 10^|f|. */
  lemma UnsignedValue(w: string, f: string)
    requires |w| > 0 && AllDigits(w) && AllDigits(f)
    ensures ParseUnsigned(w + "." + f) == Some(Decimal(w, f))
    ensures ParseUnsigned(w) == Some(Decimal(w, ""))
  {
    var s := w + "." + f;
    assert s[|w|] == '.';
    assert forall j :: 0 <= j < |w| ==> s[j] == w[j];
    assert DotIndex(s) == |w|;
    assert s[..|w|] == w;
    assert s[|w| + 1..] == f;
    assert DotIndex(w) == |w|;
    assert w[..|w|] == w;
  }

  /** A numeral with an optional leading '-' reads back with that sign. */
  lemma SignedValue(negative: bool, u: string, v: real)
    requires |u| > 0 && IsDigit(u[0]) && ParseUnsigned(u) == Some(v)
    ensures ParseNumber(Sign(negative) + u) == Some(Negate(negative, v))
  {
    if negative {
      assert (Sign(negative) + u)[1..] == u;
    } else {
      assert Sign(negative) + u == u;
    }
  }

  /** A signed numeral w.f, and its integer part alone, read back as their decimal values. */
  lemma NumeralReadsBack(negative: bool, w: string, f: string)
    requires |w| > 0 && AllDigits(w) && AllDigits(f)
    ensures ParseNumber(Sign(negative) + w + "." + f) == Some(Negate(negative, Decimal(w, f)))
  {
    var u := w + "." + f;
    UnsignedValue(w, f);
    assert u[0] == w[0];
    SignedValue(negative, u, Decimal(w, f));
    Regroup(Sign(negative), w, ".", f);
  }

  lemma Regroup(a: string, b: string, c: string, d: string)
    ensures a + (b + c + d) == a + b + c + d
  {
  }

  /** A bare whole part (an all-zero fraction stripped away) reads back as its value. */
  lemma WholeReadsBack(negative: bool, w: string)
    requires |w| > 0 && AllDigits(w)
    ensures ParseNumber(Sign(negative) + w) == Some(Negate(negative, Decimal(w, "")))
  {
    UnsignedValue(w, "");
    SignedValue(negative, w, Decimal(w, ""));
  }

  /** n / 10^6 split at the decimal point. */
  lemma SplitScaled(n: nat)
    ensures (n / Scale) as real + (n % Scale) as real / 1000000.0 == n as real / 1000000.0
  {
    assert n == (n / Scale) * Scale + n % Scale;
  }

  /** The digits toFixed(6) writes for n: the numeral of n / 10^6, '.', six digits of n % 10^6. */
  lemma {:induction false} ScaledDigits(n: nat)
    ensures Pow10(6) == Scale
    ensures Decimal(Numeral(n / Scale), FixedWidth(n % Scale, 6)) == n as real / 1000000.0
  {
    assert Pow10(6) == Scale;
    SplitScaled(n);
  }

  /** Below 10^21, Round6 is the signed n / 10^6 of toFixed. */
  lemma Round6Scaled(x: real)
    requires Abs(x) < FixedLimit
    ensures Round6(x) == Negate(x < 0.0, ScaledRound(Abs(x)) as real / 1000000.0)
  {
  }

  /** toFixed(6) and Number together: the stored value is Round6 of the computed one. */
  lemma {:induction false} FixedReadsBack(x: real)
    requires Abs(x) < FixedLimit
    ensures ParseNumber(ToFixed6(x)) == Some(Round6(x))
  {
    var n := ScaledRound(Abs(x));
    ScaledDigits(n);
    var neg := x < 0.0;
    var w, f := Numeral(n / Scale), FixedWidth(n % Scale, 6);
    NumeralReadsBack(neg, w, f);
    assert ToFixed6(x) == Sign(neg) + w + "." + f;
    Round6Scaled(x);
    assert Round6(x) == Negate(neg, Decimal(w, f));
  }

  /**
   * toFixed(6) writes a '-' exactly for negative numbers, then at least one
   * integer digit, a '.', and six fractional digits.
   */
  lemma FixedShape(x: real)
    requires Abs(x) < FixedLimit
    ensures |ToFixed6(x)| >= 8 && ToFixed6(x)[|ToFixed6(x)| - 7] == '.'
    ensures AllDigits(ToFixed6(x)[|ToFixed6(x)| - 6..])
    ensures ToFixed6(x)[0] == '-' <==> x < 0.0
    ensures |Sign(x < 0.0)| < |ToFixed6(x)| - 7
    ensures AllDigits(ToFixed6(x)[|Sign(x < 0.0)|..|ToFixed6(x)| - 7])
  {
    var n := ScaledRound(Abs(x));
    assert Pow10(6) == Scale;
    var w, f := Numeral(n / Scale), FixedWidth(n % Scale, 6);
    var s := Sign(x < 0.0) + w + "." + f;
    assert ToFixed6(x) == s;
    assert s[|s| - 6..] == f;
    assert s[|Sign(x < 0.0)|..|s| - 7] == w;
    assert s[0] == if x < 0.0 then '-' else w[0];
  }

  /** No '.' occurs in a sign followed by digits. */
  lemma NoDot(negative: bool, w: string)
    requires AllDigits(w)
    ensures '.' !in Sign(negative) + w
  {
    var s := Sign(negative) + w;
    forall j | 0 <= j < |s| ensures s[j] != '.' {
      if j >= |Sign(negative)| { assert s[j] == w[j - |Sign(negative)|]; }
    }
  }

  /** The stripped numeral formatNumber shows reads back as Round6(x) and has no trailing zero. */
  lemma {:induction false} FormattedFixed(x: real)
    requires Abs(x) < FixedLimit
    ensures ParseNumber(StripZeros(ToFixed6(x))) == Some(Round6(x))
    ensures NoTrailingZero(StripZeros(ToFixed6(x)))
  {
    var n := ScaledRound(Abs(x));
    ScaledDigits(n);
    var neg := x < 0.0;
    var w, f := Numeral(n / Scale), FixedWidth(n % Scale, 6);
    StripFixedPoint(Sign(neg) + w, f);
    FractionValue(f);
    var t := DropZeros(f);
    assert ToFixed6(x) == Sign(neg) + w + "." + f;
    assert Round6(x) == Negate(neg, Decimal(w, t));
    if AllZeros(f) {
      assert t == [];
      StrippedWhole(neg, w);
      assert StripZeros(ToFixed6(x)) == Sign(neg) + w;
    } else {
      StrippedFraction(neg, w, t);
      assert StripZeros(ToFixed6(x)) == Sign(neg) + w + "." + t;
    }
  }

  /** A signed whole numeral: its value, and no point or trailing zero to strip. */
  lemma StrippedWhole(negative: bool, w: string)
    requires |w| > 0 && AllDigits(w)
    ensures ParseNumber(Sign(negative) + w) == Some(Negate(negative, Decimal(w, "")))
    ensures NoTrailingZero(Sign(negative) + w)
  {
    WholeReadsBack(negative, w);
    NoDot(negative, w);
    var s := Sign(negative) + w;
    assert s[|s| - 1] == w[|w| - 1];
  }

  /** A signed numeral w.t whose fraction t ends in a non-zero digit. */
  lemma StrippedFraction(negative: bool, w: string, t: string)
    requires |w| > 0 && AllDigits(w) && AllDigits(t) && |t| > 0 && t[|t| - 1] != '0'
    ensures ParseNumber(Sign(negative) + w + "." + t) == Some(Negate(negative, Decimal(w, t)))
    ensures NoTrailingZero(Sign(negative) + w + "." + t)
  {
    NumeralReadsBack(negative, w, t);
    var s := Sign(negative) + w + "." + t;
    assert s[|s| - 1] == t[|t| - 1];
    assert s[|Sign(negative) + w|] == '.';
  }
}
