/**
 * The numeric helpers of the generator: linear interpolation, its clamped
 * inverse, clamping, integer powers and the Euclidean distance.
 * Floating point numbers are modelled as mathematical reals (no rounding,
 * no NaN, no infinities); the platform square root is a parameter.
 */
module MathHelpers {

  /** `min` of two reals, as `f64::min` / `Math.min` on non-NaN values. */
  function Min(a: real, b: real): (r: real)
  {
    if a <= b then a else b
  }

  /** `max` of two reals, as `f64::max` / `Math.max` on non-NaN values. */
  function Max(a: real, b: real): (r: real)
  {
    if a >= b then a else b
  }

  /** Linear interpolation from `a` (at t = 0) to `b` (at t = 1). */
  function Lerp(a: real, b: real, t: real): (r: real)
    ensures t == 0.0 ==> r == a
    ensures t == 1.0 ==> r == b
    ensures 0.0 <= t <= 1.0 ==> Min(a, b) <= r <= Max(a, b)
  {
    if 0.0 <= t <= 1.0 then LerpBetween(a, b, t); a * (1.0 - t) + b * t
    else a * (1.0 - t) + b * t
  }

  /** For t in [0, 1] the interpolation stays between its end points. */
  lemma LerpBetween(a: real, b: real, t: real)
    requires 0.0 <= t <= 1.0
    ensures Min(a, b) <= a * (1.0 - t) + b * t <= Max(a, b)
  {
    assert a * (1.0 - t) + b * t == a + t * (b - a);
    if a <= b {
      ScaleWithin(t, b - a);
    } else {
      ScaleWithin(t, a - b);
      assert t * (b - a) == -(t * (a - b));
    }
  }

  /** A fraction t in [0, 1] of a non-negative d lies in [0, d]. */
  lemma ScaleWithin(t: real, d: real)
    requires 0.0 <= t <= 1.0 && d >= 0.0
    ensures 0.0 <= t * d <= d
  {
  }

  /** `max.min(min.max(v))`: the value pulled into `[lo, hi]`. */
  function Clamp(v: real, lo: real, hi: real): (r: real)
    ensures lo <= hi ==> lo <= r <= hi
    ensures lo <= v <= hi ==> r == v
    ensures lo <= hi && v < lo ==> r == lo
    ensures v > hi ==> r == hi
  {
    Min(hi, Max(lo, v))
  }

  /** Where `v` sits between `a` and `b`, as a fraction clamped to [0, 1]. */
  function InvLerp(a: real, b: real, v: real): (r: real)
    requires a != b
    ensures 0.0 <= r <= 1.0
    ensures r == 0.0 <==> (if a < b then v <= a else v >= a)
    ensures r == 1.0 <==> (if a < b then v >= b else v <= b)
  {
    InvLerpEnds(a, b, v);
    Clamp((v - a) / (b - a), 0.0, 1.0)
  }

  /** The unclamped fraction reaches 0 exactly at `a` and 1 exactly at `b`. */
  lemma InvLerpEnds(a: real, b: real, v: real)
    requires a != b
    ensures (v - a) / (b - a) <= 0.0 <==> (if a < b then v <= a else v >= a)
    ensures (v - a) / (b - a) >= 1.0 <==> (if a < b then v >= b else v <= b)
  {
    var f := (v - a) / (b - a);
    assert f * (b - a) == v - a;
    if a < b {
      ProductSign(f, b - a, v - a);
      ProductSign(f - 1.0, b - a, v - b);
    } else {
      ProductSign(f, a - b, a - v);
      ProductSign(f - 1.0, a - b, b - v);
    }
  }

  /** Multiplying by a positive number keeps the sign. */
  lemma ProductSign(g: real, d: real, w: real)
    requires d > 0.0 && g * d == w
    ensures g <= 0.0 <==> w <= 0.0
    ensures g >= 0.0 <==> w >= 0.0
  {
  }

  /** For a < b, the inverse interpolation is monotone in the value. */
  lemma InvLerpMonotone(a: real, b: real, v1: real, v2: real)
    requires a < b && v1 <= v2
    ensures InvLerp(a, b, v1) <= InvLerp(a, b, v2)
  {
    assert (v2 - a) / (b - a) - (v1 - a) / (b - a) == (v2 - v1) / (b - a);
  }

  /** Normalising an already normalised value changes nothing. */
  lemma InvLerpIdempotent(a: real, b: real, v: real)
    requires a != b
    ensures InvLerp(0.0, 1.0, InvLerp(a, b, v)) == InvLerp(a, b, v)
  {
  }

  /** `b.powi(n)` for a non-negative exponent, without rounding. */
  function Pow(b: real, n: nat): real
  {
    if n == 0 then 1.0 else b * Pow(b, n - 1)
  }

  /** Squaring by `powi(2)` is multiplying a number by itself. */
  lemma PowTwo(x: real)
    ensures Pow(x, 2) == x * x
  {
    assert Pow(x, 1) == x * Pow(x, 0) == x;
  }

  /** A square is never negative. */
  lemma SquarePositive(x: real)
    ensures x * x >= 0.0
  {
    if x < 0.0 {
      assert x * x == (-x) * (-x);
    }
  }

  /** `(p1.0 - p2.0).powi(2) + (p1.1 - p2.1).powi(2)`: the square of the
      distance. */
  function SquaredDistance(p1: (real, real), p2: (real, real)): (r: real)
    ensures r >= 0.0
    ensures p1 == p2 ==> r == 0.0
  {
    var dx, dy := p1.0 - p2.0, p1.1 - p2.1;
    PowTwo(dx);
    PowTwo(dy);
    SquarePositive(dx);
    SquarePositive(dy);
    Pow(dx, 2) + Pow(dy, 2)
  }

  /** `euclidean_distance`: the square root of the squared distance, where
      `sqrt` stands for the platform's square root. */
  function EuclideanDistance(sqrt: real -> real, p1: (real, real), p2: (real, real)): (r: real)
    ensures p1 == p2 ==> r == sqrt(0.0)
  {
    sqrt(SquaredDistance(p1, p2))
  }

  /** The distance does not depend on the order of the two points. */
  lemma EuclideanDistanceSymmetric(sqrt: real -> real, p1: (real, real), p2: (real, real))
    ensures EuclideanDistance(sqrt, p1, p2) == EuclideanDistance(sqrt, p2, p1)
  {
    var dx, dy := p1.0 - p2.0, p1.1 - p2.1;
    PowTwo(dx);
    PowTwo(dy);
    PowTwo(-dx);
    PowTwo(-dy);
    assert (-dx) * (-dx) == dx * dx && (-dy) * (-dy) == dy * dy;
    assert SquaredDistance(p1, p2) == SquaredDistance(p2, p1);
  }
}
