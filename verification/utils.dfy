/**
 The older helper collection: `round`, `arraysEqual`, `mapRange`, `rotate`,
 the table of rotation axes and `shouldBeCircle`. Its `round`, `mapRange`
 and `rotate` are written separately from the core's; each is stated to
 agree with the core's version in `Numeric`, whose lemmas then apply.
 */
module Utils {
  import opened Wrappers
  import Numeric

  /**
   `arraysEqual(a, b)`. `None` stands for `null`/`undefined`; `identical`
   says whether `a === b` holds, which for two arrays implies equal contents.
   */
  function ArraysEqual<T(==)>(a: Option<seq<T>>, b: Option<seq<T>>, identical: bool): (r: bool)
    requires identical ==> a == b
    ensures identical ==> r
    ensures a.Some? && b.Some? ==> (r <==> a.value == b.value)
    ensures !identical && (a.None? || b.None?) ==> !r
  {
    if identical then true
    else if a.None? || b.None? then false
    else if |a.value| != |b.value| then false
    else EqualFrom(a.value, b.value, 0)
  }

  /** The loop of `arraysEqual`: no mismatch at index `i` or later. */
  function EqualFrom<T(==)>(a: seq<T>, b: seq<T>, i: nat): (r: bool)
    requires |a| == |b| && i <= |a|
    ensures r <==> a[i..] == b[i..]
    decreases |a| - i
  {
    if i == |a| then true
    else if a[i] != b[i] then false
    else
      var rest := EqualFrom(a, b, i + 1);
      assert a[i..] == [a[i]] + a[i + 1..];
      assert b[i..] == [b[i]] + b[i + 1..];
      rest
  }

  /** The answer does not depend on the `===` shortcut, nor on the argument order. */
  lemma ArraysEqualShortcutAndSymmetry<T>(a: seq<T>, b: seq<T>)
    ensures ArraysEqual(Some(a), Some(a), true) == ArraysEqual(Some(a), Some(a), false)
    ensures ArraysEqual(Some(a), Some(b), false) == ArraysEqual(Some(b), Some(a), false)
    ensures ArraysEqual(Some(a), Some(b), false) <==>
      |a| == |b| && forall i :: 0 <= i < |a| ==> a[i] == b[i]
  {
    if |a| == |b| && forall i :: 0 <= i < |a| ==> a[i] == b[i] {
      assert a == b;
    }
  }

  /** `round(num, precision)` of the helper file. */
  function Round(num: real, precision: nat): (r: real)
    ensures r == Numeric.Round(num, precision)
    ensures Numeric.Abs(r - num) * Numeric.Pow10(precision) as real <= 0.5
  {
    Numeric.RoundErrorBound(num, precision);
    RoundFormula(num, Numeric.Pow10(precision) as real);
    Numeric.MathRound(num * Numeric.Pow10(precision) as real) as real / Numeric.Pow10(precision) as real
  }

  lemma RoundFormula(num: real, scale: real)
    requires scale > 0.0
    ensures Numeric.RoundTo(num, scale) == Numeric.MathRound(num * scale) as real / scale
  {
  }

  /** `mapRange` of the helper file. */
  function MapRange(value: real, x1: real, y1: real, x2: real, y2: real): (r: real)
    requires x1 != y1
    ensures r == Numeric.MapRange(value, x1, y1, x2, y2)
    ensures value == x1 ==> r == x2
    ensures value == y1 ==> r == y2
  {
    Numeric.MapRangeEndpoints(x1, y1, x2, y2);
    ((value - x1) * (y2 - x2)) / (y1 - x1) + x2
  }

  /** `rotate` of the helper file, which agrees with the core's. */
  function Rotate(degree: real, amount: real): (r: real)
    ensures r == Numeric.Rotate(degree, amount)
    ensures 0.0 <= degree + amount <= 720.0 ==> 0.0 <= r <= 360.0
  {
    var result := degree + amount;
    if result > 360.0 then result - 360.0 else result
  }

  type Triple = seq<int>

  /** Rotation about z only; it has no visible effect on a circle. */
  const ZAxisRotation: Triple := [0, 0, 1]

  /** `rotationTransforms`: three dual-axis then three single-axis rotations. */
  function RotationTransforms(): (t: seq<Triple>)
    ensures |t| == 6
    ensures forall k :: 0 <= k < 6 ==> |t[k]| == 3
    ensures forall k, j :: 0 <= k < 6 && 0 <= j < 3 ==> t[k][j] == 0 || t[k][j] == 1
    ensures forall k :: 0 <= k < 6 ==> t[k][0] == 1 || t[k][1] == 1 || t[k][2] == 1
    ensures forall k, j :: 0 <= k < j < 6 ==> t[k] != t[j]
    ensures forall k :: 0 <= k < 6 ==> (t[k] == ZAxisRotation <==> k == 5)
  {
    [[1, 1, 0], [1, 0, 1], [0, 1, 1], [1, 0, 0], [0, 1, 0], ZAxisRotation]
  }

  /**
   `shouldBeCircle(rotationIndex)`: the coin flip decides unless the index
   names the z-only rotation. An index outside the table reads `undefined`,
   which is never equal to the z-axis array, so the coin flip decides.
   */
  function ShouldBeCircle(rotationIndex: int, flip: real): (r: bool)
    ensures rotationIndex == 5 ==> !r
    ensures rotationIndex != 5 ==> (r <==> Numeric.CoinFlip(flip))
  {
    var entry := if 0 <= rotationIndex < 6 then Some(RotationTransforms()[rotationIndex]) else None;
    !ArraysEqual(entry, Some(ZAxisRotation), false) && Numeric.CoinFlip(flip)
  }
}
