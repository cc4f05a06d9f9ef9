/**
  Numeric helpers shared by every component: the optional value that stands
  for a JavaScript `NaN` or a missing field, `Math.round`, and the value that
  `Number.prototype.toFixed(k)` denotes once it is read back with `parseFloat`.
  All arithmetic is exact over `int` and `real`.
 */
module Numbers {

  datatype Option<+T> = None | Some(value: T) {
    function GetOr(default: T): T {
      match this
      case Some(v) => v
      case None => default
    }
  }

  datatype Result<+R, +E> = Success(value: R) | Failure(error: E)

  /** `Math.round(x)`: the nearest integer, halves rounded towards +infinity. */
  function MathRound(x: real): (r: int)
    ensures r as real - 1.0 / 2.0 <= x < r as real + 1.0 / 2.0
  {
    (x + 1.0 / 2.0).Floor
  }

  /** `Math.floor(x)`. */
  function MathFloor(x: real): (r: int)
    ensures r as real <= x < r as real + 1.0
  {
    x.Floor
  }

  /** The integer that `toFixed` rounds to: nearest, halves away from zero. */
  function RoundHalfAway(x: real): (r: int)
    ensures x >= 0.0 ==> r >= 0 && r as real - 1.0 / 2.0 <= x < r as real + 1.0 / 2.0
    ensures x < 0.0 ==> r <= 0 && r as real - 1.0 / 2.0 < x <= r as real + 1.0 / 2.0
  {
    if x >= 0.0 then MathRound(x) else -MathRound(-x)
  }

  function Pow10(k: nat): (r: nat)
    ensures r >= 1
  {
    if k == 0 then 1 else 10 * Pow10(k - 1)
  }

  /** x rounded (halves away from zero) to a multiple of 1/p. */
  function RoundTo(x: real, p: real): (r: real)
    requires p >= 1.0
    ensures -1.0 / 2.0 <= (r - x) * p <= 1.0 / 2.0
    ensures r * p == RoundHalfAway(x * p) as real
  {
    var n := RoundHalfAway(x * p);
    assert (n as real / p - x) * p == n as real - x * p;
    n as real / p
  }

  /**
    r is what `x.toFixed(k)` writes: r has k decimals, and r * 10^k is the
    integer nearest to x * 10^k, a half rounded away from zero.
   */
  ghost predicate IsFixed(r: real, x: real, k: nat)
  {
    r * Pow10(k) as real == RoundHalfAway(x * Pow10(k) as real) as real
  }

  /** `parseFloat(x.toFixed(k))`: x rounded to k decimals. */
  function ToFixedValue(x: real, k: nat): (r: real)
    ensures -1.0 / 2.0 <= (r - x) * Pow10(k) as real <= 1.0 / 2.0
    ensures IsFixed(r, x, k)
  {
    RoundTo(x, Pow10(k) as real)
  }

  /** Rounding to a fixed number of decimals is monotone. */
  lemma RoundToMonotone(x: real, y: real, p: real)
    requires x <= y && p >= 1.0
    ensures RoundTo(x, p) <= RoundTo(y, p)
  {
    var xp, yp := x * p, y * p;
    MulMonotone(x, y, p);
    RoundHalfAwayMonotone(xp, yp);
    var a, b := RoundHalfAway(xp) as real, RoundHalfAway(yp) as real;
    DivMonotone(a, b, p);
  }

  lemma ToFixedValueMonotone(x: real, y: real, k: nat)
    requires x <= y
    ensures ToFixedValue(x, k) <= ToFixedValue(y, k)
  {
    RoundToMonotone(x, y, Pow10(k) as real);
  }

  lemma MulMonotone(x: real, y: real, p: real)
    requires x <= y && p > 0.0
    ensures x * p <= y * p
  {
  }

  lemma DivMonotone(a: real, b: real, p: real)
    requires a <= b && p > 0.0
    ensures a / p <= b / p
  {
  }

  lemma RoundHalfAwayMonotone(x: real, y: real)
    requires x <= y
    ensures RoundHalfAway(x) <= RoundHalfAway(y)
  {
  }

  /** Sum of a sequence of integers (left to right, as `reduce` adds). */
  function Sum(s: seq<int>): int
  {
    if s == [] then 0 else Sum(s[..|s| - 1]) + s[|s| - 1]
  }

  function Min(a: int, b: int): int { if a <= b then a else b }

  function MaxReal(a: real, b: real): (r: real)
    ensures r >= a && r >= b && (r == a || r == b)
  {
    if a >= b then a else b
  }
}
