/**
 * Decimal text of numbers, as the players use it: `Number.prototype.toString`
 * on whole numbers, `String.prototype.padStart(2, "0")`, `toFixed(2)` for the
 * speed field, and a parser for the speed field standing in for `parseFloat`.
 */
module Decimal {
  import opened Wrappers

  predicate IsDigit(c: char) {
    '0' <= c <= '9'
  }

  /** Every character is a digit. */
  predicate AllDigits(s: string)
    ensures AllDigits(s) <==> forall i :: 0 <= i < |s| ==> IsDigit(s[i])
  {
    s == [] || (IsDigit(s[0]) && AllDigits(s[1..]))
  }

  function DigitValue(c: char): (d: nat)
    requires IsDigit(c)
    ensures d < 10
  {
    c as int - '0' as int
  }

  function DigitChar(d: nat): (c: char)
    requires d < 10
    ensures IsDigit(c) && DigitValue(c) == d
  {
    ('0' as int + d) as char
  }

  lemma DigitsHaveNo(s: string, c: char)
    requires AllDigits(s) && !IsDigit(c)
    ensures c !in s
  {
    forall k | 0 <= k < |s|
      ensures s[k] != c
    {
      assert IsDigit(s[k]);
    }
  }

  /** The value of a digit string read most significant digit first; "" reads as 0. */
  function ParseDigits(s: string): nat
    requires AllDigits(s)
  {
    if s == [] then 0 else ParseDigits(s[..|s| - 1]) * 10 + DigitValue(s[|s| - 1])
  }

  lemma ParseDigitsSnoc(s: string, c: char)
    requires AllDigits(s) && IsDigit(c)
    ensures AllDigits(s + [c]) && ParseDigits(s + [c]) == ParseDigits(s) * 10 + DigitValue(c)
  {
    assert (s + [c])[..|s|] == s;
  }

  /** `String(n)` for a whole number n: its shortest decimal numeral. */
  function NatToString(n: nat): string {
    if n < 10 then [DigitChar(n)] else NatToString(n / 10) + [DigitChar(n % 10)]
  }

  /** `String(n)` is a non-empty digit string that reads back as n, without a leading zero. */
  lemma {:induction false} NatToStringReadsBack(n: nat)
    ensures var s := NatToString(n);
      && |s| > 0 && AllDigits(s) && ParseDigits(s) == n
      && (s[0] == '0' ==> n == 0)
      && (n < 10 ==> |s| == 1)
      && (n < 100 ==> |s| <= 2)
  {
    if n >= 10 {
      NatToStringReadsBack(n / 10);
      ParseDigitsSnoc(NatToString(n / 10), DigitChar(n % 10));
    }
  }

  /** `String(n).padStart(2, "0")`. */
  function Pad2(n: nat): string {
    if n < 10 then ['0', DigitChar(n)] else NatToString(n)
  }

  /** The padded text is a digit string that reads back as n, exactly two long below 100. */
  lemma Pad2ReadsBack(n: nat)
    ensures var s := Pad2(n);
      |s| > 0 && AllDigits(s) && ParseDigits(s) == n && (n < 100 ==> |s| == 2)
  {
    if n < 10 {
      ParseDigitsSnoc(['0'], DigitChar(n));
      assert ['0', DigitChar(n)] == ['0'] + [DigitChar(n)];
    } else {
      NatToStringReadsBack(n);
    }
  }

  function Pow10(k: nat): (p: nat)
    ensures p > 0
  {
    if k == 0 then 1 else 10 * Pow10(k - 1)
  }

  /** The first position of `c` in `s`, or |s| when `c` does not occur. */
  function IndexOf(s: string, c: char): (i: nat)
    ensures i <= |s|
    ensures i < |s| ==> s[i] == c
    ensures forall j :: 0 <= j < i ==> s[j] != c
  {
    if s == [] then 0 else if s[0] == c then 0 else 1 + IndexOf(s[1..], c)
  }

  lemma IndexOfAfter(a: string, c: char, b: string)
    requires c !in a
    ensures IndexOf(a + [c] + b, c) == |a|
  {
    var s := a + [c] + b;
    assert s[|a|] == c;
    forall j | 0 <= j < |a|
      ensures s[j] != c
    {
      assert s[j] == a[j];
    }
  }

  // ---------------------------------------------------------------- toFixed(2)

  /**
   * The whole number of hundredths that `x.toFixed(2)` prints for x >= 0: the
   * hundredth nearest to x, the larger one on a tie.
   */
  function Hundredths(x: real): (n: nat)
    requires x >= 0.0
    ensures n as real - 0.5 <= x * 100.0 < n as real + 0.5
  {
    (x * 100.0 + 0.5).Floor
  }

  /** The text of n hundredths with two fraction digits, "q.rr". */
  function FixedText(n: nat): string {
    NatToString(n / 100) + "." + Pad2(n % 100)
  }

  /** `x.toFixed(2)`; a negative x is printed as "-" followed by the text of -x. */
  function ToFixed2(x: real): string {
    if x < 0.0 then "-" + FixedText(Hundredths(-x)) else FixedText(Hundredths(x))
  }

  /** The value that `ToFixed2(x)` shows: x rounded to hundredths. */
  function Rounded2(x: real): (r: real)
    ensures -0.005 <= r - x <= 0.005
    ensures x >= 0.0 ==> r >= 0.0
  {
    if x < 0.0 then -(Hundredths(-x) as real / 100.0) else Hundredths(x) as real / 100.0
  }

  // ---------------------------------------------------------------- parseFloat

  /** Digits with at most one decimal point and at least one digit, the whole text. */
  function ParseUnsigned(s: string): Option<real> {
    var i := IndexOf(s, '.');
    var whole := s[..i];
    var frac := if i < |s| then s[i + 1..] else [];
    if AllDigits(whole) && AllDigits(frac) && |whole| + |frac| > 0 then
      Some(ParseDigits(whole) as real + ParseDigits(frac) as real / Pow10(|frac|) as real)
    else
      None
  }

  /**
   * The speed field's number parser, standing in for `parseFloat`: an optional
   * sign followed by an unsigned decimal; `None` stands for NaN.
   */
  function ParseFloat(s: string): Option<real> {
    if |s| > 0 && s[0] == '-' then
      match ParseUnsigned(s[1..])
      case Some(v) => Some(-v)
      case None => None
    else if |s| > 0 && s[0] == '+' then
      ParseUnsigned(s[1..])
    else
      ParseUnsigned(s)
  }

  lemma FixedTextParses(n: nat)
    ensures |FixedText(n)| > 0 && IsDigit(FixedText(n)[0])
    ensures ParseUnsigned(FixedText(n)) == Some(n as real / 100.0)
  {
    var q, r := n / 100, n % 100;
    var a, b := NatToString(q), Pad2(r);
    NatToStringReadsBack(q);
    Pad2ReadsBack(r);
    var s := a + "." + b;
    assert s == FixedText(n);
    assert s == a + ['.'] + b;
    DigitsHaveNo(a, '.');
    IndexOfAfter(a, '.', b);
    var i := IndexOf(s, '.');
    assert i == |a| < |s|;
    assert s[..i] == a;
    assert s[i + 1..] == b;
    assert |b| == 2 && Pow10(2) == 100;
    assert ParseDigits(a) == q && ParseDigits(b) == r;
    HundredthsSplit(n, q, r);
  }

  /** The whole and fractional parts of n hundredths add back to n / 100. */
  lemma HundredthsSplit(n: nat, q: nat, r: nat)
    requires q == n / 100 && r == n % 100
    ensures q as real + r as real / 100 as real == n as real / 100.0
  {
    assert n == q * 100 + r;
    calc {
      q as real + r as real / 100.0;
      (q * 100 + r) as real / 100.0;
    }
  }

  /** An unsigned numeral that starts with a digit parses the same with no sign in front. */
  lemma UnsignedParses(t: string, v: real)
    requires |t| > 0 && IsDigit(t[0]) && ParseUnsigned(t) == Some(v)
    ensures ParseFloat(t) == Some(v)
  {
  }

  /** After a "-", an unsigned numeral parses negated. */
  lemma NegatedParses(t: string, v: real)
    requires ParseUnsigned(t) == Some(v)
    ensures ParseFloat("-" + t) == Some(-v)
  {
    var s := "-" + t;
    assert s[0] == '-' && s[1..] == t;
  }

  /** Reading back what `toFixed(2)` prints gives the number rounded to hundredths. */
  lemma ParseToFixed2(x: real)
    ensures ParseFloat(ToFixed2(x)) == Some(Rounded2(x))
  {
    if x < 0.0 {
      NegativeRoundTrip(x);
    } else {
      NonNegativeRoundTrip(x);
    }
  }

  lemma NegativeRoundTrip(x: real)
    requires x < 0.0
    ensures ParseFloat(ToFixed2(x)) == Some(Rounded2(x))
  {
    NegativeParts(x);
    NegativeParses(Hundredths(-x));
  }

  lemma NonNegativeRoundTrip(x: real)
    requires x >= 0.0
    ensures ParseFloat(ToFixed2(x)) == Some(Rounded2(x))
  {
    NonNegativeParts(x);
    NonNegativeParses(Hundredths(x));
  }

  lemma NonNegativeParts(x: real)
    requires x >= 0.0
    ensures ToFixed2(x) == FixedText(Hundredths(x))
    ensures Rounded2(x) == Hundredths(x) as real / 100.0
  {
  }

  lemma NonNegativeParses(n: nat)
    ensures ParseFloat(FixedText(n)) == Some(n as real / 100.0)
  {
    FixedTextParses(n);
    UnsignedParses(FixedText(n), n as real / 100.0);
  }

  lemma NegativeParts(x: real)
    requires x < 0.0
    ensures ToFixed2(x) == "-" + FixedText(Hundredths(-x))
    ensures Rounded2(x) == -(Hundredths(-x) as real / 100.0)
  {
  }

  lemma NegativeParses(n: nat)
    ensures ParseFloat("-" + FixedText(n)) == Some(-(n as real / 100.0))
  {
    FixedTextParses(n);
    NegatedParses(FixedText(n), n as real / 100.0);
  }

  /** Printing a number already rounded to hundredths prints the same text. */
  lemma ToFixed2OfRounded(x: real)
    requires x >= 0.0
    ensures ToFixed2(Rounded2(x)) == ToFixed2(x)
  {
    var n := Hundredths(x);
    assert Rounded2(x) * 100.0 == n as real;
    assert Hundredths(Rounded2(x)) == n;
  }

  /** Text that holds no digit never parses: not empty text, not a lone sign or point. */
  lemma NoDigitNoNumber(s: string)
    requires forall i :: 0 <= i < |s| ==> !IsDigit(s[i])
    ensures ParseFloat(s) == None
  {
    if |s| > 0 && (s[0] == '-' || s[0] == '+') {
      NoDigitUnsigned(s[1..]);
    } else {
      NoDigitUnsigned(s);
    }
  }

  /** Without a digit there is no unsigned decimal. */
  lemma NoDigitUnsigned(t: string)
    requires forall i :: 0 <= i < |t| ==> !IsDigit(t[i])
    ensures ParseUnsigned(t) == None
  {
    var i := IndexOf(t, '.');
    var whole := t[..i];
    var frac := if i < |t| then t[i + 1..] else [];
    assert forall k :: 0 <= k < |whole| ==> !IsDigit(whole[k]);
    assert forall k :: 0 <= k < |frac| ==> !IsDigit(frac[k]);
    if AllDigits(whole) && AllDigits(frac) {
      DigitFreeDigitsEmpty(whole);
      DigitFreeDigitsEmpty(frac);
    }
  }

  /** A digit string without a digit is empty. */
  lemma DigitFreeDigitsEmpty(d: string)
    requires AllDigits(d)
    requires forall k :: 0 <= k < |d| ==> !IsDigit(d[k])
    ensures d == []
  {
  }
}
