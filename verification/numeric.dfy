/**
 Numeric helpers of the confetti core: `Math.round`, decimal rounding,
 linear range mapping and the single-wrap angle rotation. Numbers are
 modelled as exact reals, so the IEEE representation error that the
 original `round` corrects with `Number.EPSILON` does not arise here.
 */
module Numeric {

  function Abs(x: real): (r: real)
    ensures r >= 0.0
    ensures r == x || r == -x
  {
    if x < 0.0 then -x else x
  }

  function Max(x: real, y: real): (r: real)
    ensures r >= x && r >= y
    ensures r == x || r == y
  {
    if x >= y then x else y
  }

  /** `Math.round`: the nearest integer, halves rounded towards +infinity. */
  function MathRound(x: real): (r: int)
    ensures x - 0.5 < r as real <= x + 0.5
  {
    (x + 0.5).Floor
  }

  /** Math.round of an integer is that integer. */
  lemma MathRoundOfInt(k: int)
    ensures MathRound(k as real) == k
  {
  }

  /** Math.round is monotone. */
  lemma MathRoundMonotone(x: real, y: real)
    requires x <= y
    ensures MathRound(x) <= MathRound(y)
  {
  }

  /** `Math.round(draw * n)` for a draw in [0,1) is one of 0..n. */
  lemma MathRoundOfScaledDraw(draw: real, n: nat)
    requires 0.0 <= draw < 1.0
    ensures 0 <= MathRound(draw * n as real) <= n
  {
    MulMono(draw, 1.0, n as real + 1.0);
    MulMono(0.0, draw, n as real + 1.0);
    assert 0.0 <= draw * n as real <= n as real;
    MathRoundMonotone(0.0, draw * n as real);
    MathRoundMonotone(draw * n as real, n as real);
    MathRoundOfInt(0);
    MathRoundOfInt(n);
  }

  lemma DivMul(a: real, n: real)
    requires n > 0.0
    ensures (a / n) * n == a
  {
  }

  lemma MulMono(x: real, y: real, n: real)
    requires n > 0.0 && x <= y
    ensures x * n <= y * n
  {
  }

  lemma DivMono(x: real, y: real, n: real)
    requires n > 0.0 && x <= y
    ensures x / n <= y / n
  {
  }

  function Pow10(p: nat): (r: nat)
    ensures r >= 1
  {
    if p == 0 then 1 else 10 * Pow10(p - 1)
  }

  /** Half-up rounding to a whole number of units 1/n. */
  function RoundTo(x: real, n: real): real
    requires n > 0.0
  {
    MathRound(x * n) as real / n
  }

  /** `round(num, precision)`: half-up rounding to `precision` decimal digits. */
  function Round(x: real, p: nat): real
  {
    RoundTo(x, Pow10(p) as real)
  }

  /** Scaling the rounded value back up gives the integer Math.round chose. */
  lemma RoundToScaled(x: real, n: real)
    requires n > 0.0
    ensures RoundTo(x, n) * n == MathRound(x * n) as real
  {
    DivMul(MathRound(x * n) as real, n);
  }

  lemma ErrorFromScaled(r: real, x: real, n: real, k: int)
    requires n > 0.0
    requires r * n == k as real
    requires x * n - 0.5 < k as real <= x * n + 0.5
    ensures Abs(r - x) * n <= 0.5
  {
    assert (r - x) * n == r * n - x * n;
    if r - x < 0.0 {
      assert Abs(r - x) * n == -((r - x) * n);
    } else {
      assert Abs(r - x) * n == (r - x) * n;
    }
  }

  lemma ScaledMono(a: real, b: real, n: real)
    requires n > 0.0 && a * n <= b * n
    ensures a <= b
  {
  }

  lemma RoundToMonotone(x: real, y: real, n: real)
    requires n > 0.0 && x <= y
    ensures RoundTo(x, n) <= RoundTo(y, n)
  {
    var a, b := x * n, y * n;
    MulMono(x, y, n);
    assert a <= b;
    MathRoundMonotone(a, b);
    RoundToScaled(x, n);
    RoundToScaled(y, n);
    ScaledMono(RoundTo(x, n), RoundTo(y, n), n);
  }

  lemma RoundToOfMultiple(k: int, n: real)
    requires n > 0.0
    ensures RoundTo(k as real / n, n) == k as real / n
  {
    var x := k as real / n;
    DivMul(k as real, n);
    assert x * n == k as real;
    MathRoundOfInt(k);
    assert MathRound(x * n) == k;
    RoundToScaled(x, n);
    assert RoundTo(x, n) * n == x * n;
    ScaledMono(RoundTo(x, n), x, n);
    ScaledMono(x, RoundTo(x, n), n);
  }

  /** The rounded value is a whole number of units 10^-p. */
  lemma RoundIsDecimal(x: real, p: nat)
    ensures IsWhole(Round(x, p) * Pow10(p) as real)
  {
    var n := Pow10(p) as real;
    assert Round(x, p) == RoundTo(x, n);
    RoundToScaled(x, n);
    IntIsWhole(MathRound(x * n), Round(x, p) * Pow10(p) as real);
  }

  predicate IsWhole(v: real)
  {
    v.Floor as real == v
  }

  lemma IntIsWhole(k: int, v: real)
    requires v == k as real
    ensures IsWhole(v)
  {
  }

  /** Rounding moves a value by at most half a unit in the last place. */
  lemma RoundErrorBound(x: real, p: nat)
    ensures Abs(Round(x, p) - x) * Pow10(p) as real <= 0.5
  {
    var n := Pow10(p) as real;
    assert Round(x, p) == RoundTo(x, n);
    RoundToScaled(x, n);
    ErrorFromScaled(RoundTo(x, n), x, n, MathRound(x * n));
  }

  /** Rounding is monotone. */
  lemma RoundMonotone(x: real, y: real, p: nat)
    requires x <= y
    ensures Round(x, p) <= Round(y, p)
  {
    assert Round(x, p) == RoundTo(x, Pow10(p) as real);
    assert Round(y, p) == RoundTo(y, Pow10(p) as real);
    RoundToMonotone(x, y, Pow10(p) as real);
  }

  /** A value that already has at most p decimal digits is left unchanged. */
  lemma RoundOfDecimal(k: int, p: nat)
    ensures Round(k as real / Pow10(p) as real, p) == k as real / Pow10(p) as real
  {
    var n := Pow10(p) as real;
    assert Round(k as real / n, p) == RoundTo(k as real / n, n);
    RoundToOfMultiple(k, n);
  }

  /** Rounding keeps a value inside [lo/10^p, hi/10^p] when it starts there. */
  lemma RoundWithin(x: real, p: nat, lo: int, hi: int)
    requires lo as real / Pow10(p) as real <= x <= hi as real / Pow10(p) as real
    ensures lo as real / Pow10(p) as real <= Round(x, p) <= hi as real / Pow10(p) as real
  {
    RoundMonotone(lo as real / Pow10(p) as real, x, p);
    RoundMonotone(x, hi as real / Pow10(p) as real, p);
    RoundOfDecimal(lo, p);
    RoundOfDecimal(hi, p);
  }

  /** `map_range`: the affine map of [x1,y1] onto [x2,y2]. */
  function MapRange(value: real, x1: real, y1: real, x2: real, y2: real): real
    requires x1 != y1
  {
    ((value - x1) * (y2 - x2)) / (y1 - x1) + x2
  }

  /** map_range sends x1 to x2 and y1 to y2. */
  lemma MapRangeEndpoints(x1: real, y1: real, x2: real, y2: real)
    requires x1 != y1
    ensures MapRange(x1, x1, y1, x2, y2) == x2
    ensures MapRange(y1, x1, y1, x2, y2) == y2
  {
    assert (y1 - x1) * (y2 - x2) / (y1 - x1) == y2 - x2;
  }

  /** map_range is affine in its value: differences scale by a fixed slope. */
  lemma MapRangeAffine(v: real, w: real, x1: real, y1: real, x2: real, y2: real)
    requires x1 != y1
    ensures MapRange(v, x1, y1, x2, y2) - MapRange(w, x1, y1, x2, y2)
            == (v - w) * ((y2 - x2) / (y1 - x1))
  {
    var d := y1 - x1;
    assert (v - x1) * (y2 - x2) / d - (w - x1) * (y2 - x2) / d
        == ((v - x1) * (y2 - x2) - (w - x1) * (y2 - x2)) / d;
    assert (v - x1) * (y2 - x2) - (w - x1) * (y2 - x2) == (v - w) * (y2 - x2);
  }

  function Min(x: real, y: real): (r: real)
    ensures r <= x && r <= y
    ensures r == x || r == y
  {
    if x <= y then x else y
  }

  /** map_range with x1 < y1 sends [x1,y1] into the interval between x2 and y2. */
  lemma MapRangeWithin(v: real, x1: real, y1: real, x2: real, y2: real)
    requires x1 < y1
    requires x1 <= v <= y1
    ensures Min(x2, y2) <= MapRange(v, x1, y1, x2, y2) <= Max(x2, y2)
  {
    var d := y1 - x1;
    var t := (v - x1) / d;
    DivMono(0.0, v - x1, d);
    DivMono(v - x1, d, d);
    assert 0.0 <= t <= 1.0;
    assert (v - x1) * (y2 - x2) / d == t * (y2 - x2);
    FractionOf(t, y2 - x2);
  }

  /** A fraction t in [0,1] of w lies between 0 and w. */
  lemma FractionOf(t: real, w: real)
    requires 0.0 <= t <= 1.0
    ensures Min(0.0, w) <= t * w <= Max(0.0, w)
  {
    if w > 0.0 {
      MulMono(0.0, t, w);
      MulMono(t, 1.0, w);
    } else if w < 0.0 {
      MulMono(0.0, t, -w);
      MulMono(t, 1.0, -w);
    }
  }

  /** `rotate`: add `amount` degrees, wrapping once past 360. */
  function Rotate(degree: real, amount: real): (r: real)
    ensures degree + amount <= 360.0 ==> r == degree + amount
    ensures degree + amount > 360.0 ==> r == degree + amount - 360.0
    ensures 0.0 <= degree + amount <= 720.0 ==> 0.0 <= r <= 360.0
  {
    if degree + amount > 360.0 then degree + amount - 360.0 else degree + amount
  }

  /** `coinFlip`: a random draw strictly above one half. */
  predicate CoinFlip(draw: real)
  {
    draw > 0.5
  }
}
