/** The JavaScript number operations the core relies on, in exact real arithmetic. */
module Numeric {

  /** A JavaScript `number`: a finite value, `NaN`, or one of the infinities. */
  datatype Num = Finite(value: real) | NaN | PositiveInfinity | NegativeInfinity

  function Abs(x: real): (r: real)
    ensures r >= 0.0 && (r == x || r == -x)
  {
    if x < 0.0 then -x else x
  }

  function Max(a: real, b: real): (r: real)
    ensures r >= a && r >= b && (r == a || r == b)
  {
    if a >= b then a else b
  }

  /** Multiplying both sides by a positive factor keeps an inequality. */
  lemma MulStrict(a: real, b: real, c: real)
    requires a < b && c > 0.0
    ensures a * c < b * c
  {
  }

  lemma MulWeak(a: real, b: real, c: real)
    requires a <= b && c > 0.0
    ensures a * c <= b * c
  {
  }

  /** Squaring is strictly increasing on the non-negative reals. */
  lemma SquareLess(a: real, b: real)
    requires 0.0 <= a < b
    ensures a * a < b * b
  {
    var aa := a * a;
    var ab := a * b;
    var ba := b * a;
    var bb := b * b;
    assert aa <= ab;
    assert ab == ba;
    assert ba < bb;
  }

  /** The non-negative square root is unique: a measured length is pinned down by its square. */
  lemma SquareRootUnique(m: real, c: real)
    requires m >= 0.0 && c >= 0.0 && m * m == c * c
    ensures m == c
  {
    if m < c {
      SquareLess(m, c);
    } else if c < m {
      SquareLess(c, m);
    }
  }

  /** `Number.isInteger` on a finite value. */
  predicate IsInteger(x: real) {
    x.Floor as real == x
  }

  /** `Math.round`: the nearest integer, with halves rounded toward positive infinity. */
  function JsRound(x: real): (r: int)
    ensures x - 0.5 < r as real <= x + 0.5
  {
    (x + 0.5).Floor
  }

  /** `Math.round` is the only integer within the half-open window around `x`. */
  lemma JsRoundUnique(x: real, n: int)
    requires x - 0.5 < n as real <= x + 0.5
    ensures JsRound(x) == n
  {
  }

  /** `Math.round(x * 1000) / 1000`: rounding to three decimals. */
  function Round3(x: real): (r: real)
    ensures Abs(r - x) <= 0.0005
    ensures IsInteger(r * 1000.0)
  {
    var n := JsRound(x * 1000.0);
    assert n as real / 1000.0 * 1000.0 == n as real;
    n as real / 1000.0
  }

  /** Rounding to three decimals leaves a whole number of millimetres unchanged. */
  lemma Round3OfInteger(n: int)
    ensures Round3(n as real) == n as real
  {
    JsRoundUnique(n as real * 1000.0, n * 1000);
  }

  /** Rounding to three decimals twice is rounding once. */
  lemma Round3Idempotent(x: real)
    ensures Round3(Round3(x)) == Round3(x)
  {
    var n := JsRound(x * 1000.0);
    assert Round3(x) * 1000.0 == n as real;
    JsRoundUnique(n as real, n);
  }

  /** `Math.sign(x) || 1`: the sign of `x`, with zero counted as positive. */
  function DirectionOf(x: real): (r: int)
    ensures r == 1 || r == -1
    ensures r == 1 <==> x >= 0.0
  {
    if x < 0.0 then -1 else 1
  }

  function Digit(d: nat): (c: char)
    requires d < 10
    ensures '0' <= c <= '9'
  {
    "0123456789"[d]
  }

  predicate IsDigits(s: string) {
    forall i :: 0 <= i < |s| ==> '0' <= s[i] <= '9'
  }

  /** The decimal text a template literal produces for a non-negative integer. */
  function NatToString(n: nat): (s: string)
    ensures |s| >= 1 && IsDigits(s)
  {
    if n < 10 then [Digit(n)] else NatToString(n / 10) + [Digit(n % 10)]
  }

  /** The value of a string of decimal digits. */
  function DigitsValue(s: string): nat
    requires IsDigits(s)
  {
    if |s| == 0 then 0 else DigitsValue(s[..|s| - 1]) * 10 + (s[|s| - 1] as int - '0' as int)
  }

  /** Reading back the decimal text of `n` gives `n`. */
  lemma {:induction false} NatToStringRoundTrip(n: nat)
    ensures DigitsValue(NatToString(n)) == n
  {
    var s := NatToString(n);
    if n < 10 {
      assert s[..0] == [];
    } else {
      NatToStringRoundTrip(n / 10);
      assert s[..|s| - 1] == NatToString(n / 10);
    }
  }

  /** Distinct numbers have distinct decimal texts. */
  lemma NatToStringInjective(a: nat, b: nat)
    ensures NatToString(a) == NatToString(b) ==> a == b
  {
    NatToStringRoundTrip(a);
    NatToStringRoundTrip(b);
  }

  /** `${x}` for a number: a whole number prints as its decimal digits, led by `-` when negative;
      the text of any other value is `fracText(x)`, which the model leaves open. */
  function NumberText(x: real, fracText: real -> string): (s: string)
    ensures IsInteger(x) && x >= 0.0 ==> IsDigits(s) && DigitsValue(s) as real == x
    ensures IsInteger(x) && x < 0.0 ==> |s| >= 2 && s[0] == '-' && IsDigits(s[1..]) && DigitsValue(s[1..]) as real == -x
    ensures !IsInteger(x) ==> s == fracText(x)
  {
    if !IsInteger(x) then fracText(x)
    else if x >= 0.0 then
      NatToStringRoundTrip(x.Floor);
      NatToString(x.Floor)
    else
      NatToStringRoundTrip(-x.Floor);
      assert ("-" + NatToString(-x.Floor))[1..] == NatToString(-x.Floor);
      "-" + NatToString(-x.Floor)
  }
}
