/**
  Points in space and the distance tests the welding gun makes.

  The engine compares Euclidean distances (`Vector3.Distance`) with tolerances.
  A distance needs a square root, so every comparison is decided here on the
  squared distance against the squared tolerance; `DistanceComparisons` proves
  that each such test gives the same answer as comparing the true distance.
  Floating-point rounding is not modelled: coordinates are `real`.
*/
module Geometry {

  datatype Point = Point(x: real, y: real, z: real)

  const Origin := Point(0.0, 0.0, 0.0)

  function Add(a: Point, b: Point): Point
  {
    Point(a.x + b.x, a.y + b.y, a.z + b.z)
  }

  function Sub(a: Point, b: Point): Point
  {
    Point(a.x - b.x, a.y - b.y, a.z - b.z)
  }

  function Scale(a: Point, k: real): Point
  {
    Point(a.x * k, a.y * k, a.z * k)
  }

  function Dot(a: Point, b: Point): real
  {
    a.x * b.x + a.y * b.y + a.z * b.z
  }

  /** The squared Euclidean distance between two points. */
  function DistSq(a: Point, b: Point): (r: real)
    ensures 0.0 <= r
  {
    var d := Sub(a, b);
    SumOfSquares(d.x, d.y, d.z);
    Dot(d, d)
  }

  /** `d` is the Euclidean distance from `a` to `b`, as `Vector3.Distance(a, b)` computes it. */
  ghost predicate IsDistance(d: real, a: Point, b: Point)
  {
    0.0 <= d && d * d == DistSq(a, b)
  }

  /** `distance <= tol`, decided on the squared distance `dsq`. */
  predicate WithinClosed(dsq: real, tol: real)
  {
    0.0 <= tol && dsq <= tol * tol
  }

  /** `distance < tol`, decided on the squared distance `dsq`. */
  predicate WithinOpen(dsq: real, tol: real)
  {
    0.0 < tol && dsq < tol * tol
  }

  /** `distance > tol`, decided on the squared distance `dsq`. */
  predicate Beyond(dsq: real, tol: real)
  {
    tol < 0.0 || tol * tol < dsq
  }

  /** Each squared test answers exactly as the comparison of the true distance would. */
  lemma DistanceComparisons(d: real, a: Point, b: Point, tol: real)
    requires IsDistance(d, a, b)
    ensures d <= tol <==> WithinClosed(DistSq(a, b), tol)
    ensures d < tol <==> WithinOpen(DistSq(a, b), tol)
    ensures tol < d <==> Beyond(DistSq(a, b), tol)
  {
    if 0.0 <= tol {
      if d <= tol { SquareMonotone(d, tol); } else { SquareStrictlyMonotone(tol, d); }
      if d < tol { SquareStrictlyMonotone(d, tol); } else { SquareMonotone(tol, d); }
    }
  }

  /** The point `a + (b - a) * s` of the line through `a` and `b`. */
  function PointAt(a: Point, b: Point, s: real): Point
  {
    Add(a, Scale(Sub(b, a), s))
  }

  /**
    The parameter of the point of segment `a`-`b` nearest to `p`: the projection
    of `p` onto the line, clamped to the segment. A zero-length segment gives 0,
    as the projection on a zero `normalized` vector does.
  */
  function ClampedParameter(p: Point, a: Point, b: Point): (s: real)
    ensures 0.0 <= s <= 1.0
  {
    var v := Sub(b, a);
    var vv := Dot(v, v);
    if vv <= 0.0 then 0.0 else Clamp01(Dot(Sub(p, a), v) / vv)
  }

  function Clamp01(t: real): (r: real)
    ensures 0.0 <= r <= 1.0
  {
    if t < 0.0 then 0.0 else if t > 1.0 then 1.0 else t
  }

  function ClosestPointOnSegment(p: Point, a: Point, b: Point): Point
  {
    PointAt(a, b, ClampedParameter(p, a, b))
  }

  /**
    The clamped projection is a nearest point of the segment, both for a segment
    of positive length and for a segment whose two ends coincide.
  */
  lemma ClosestPointIsNearest(p: Point, a: Point, b: Point, s: real)
    requires 0.0 <= s <= 1.0
    requires a == b || 0.0 < Dot(Sub(b, a), Sub(b, a))
    ensures DistSq(p, ClosestPointOnSegment(p, a, b)) <= DistSq(p, PointAt(a, b, s))
  {
    if a != b {
      NearestWhenProper(p, a, b, s, ClampedParameter(p, a, b));
    }
  }

  lemma NearestWhenProper(p: Point, a: Point, b: Point, s: real, c: real)
    requires 0.0 <= s <= 1.0 && 0.0 < Dot(Sub(b, a), Sub(b, a))
    requires c == Clamp01(Dot(Sub(p, a), Sub(b, a)) / Dot(Sub(b, a), Sub(b, a)))
    ensures DistSq(p, PointAt(a, b, c)) <= DistSq(p, PointAt(a, b, s))
  {
    var w, v := Sub(p, a), Sub(b, a);
    DistSqAlong(p, a, b, s);
    DistSqAlong(p, a, b, c);
    ClampedMinimises(Dot(w, w), Dot(w, v), Dot(v, v), s, c);
  }

  /** The squared distance from `p` to `PointAt(a, b, s)` as a quadratic in `s`. */
  lemma DistSqAlong(p: Point, a: Point, b: Point, s: real)
    ensures DistSq(p, PointAt(a, b, s))
         == Quadratic(Dot(Sub(p, a), Sub(p, a)), Dot(Sub(p, a), Sub(b, a)), Dot(Sub(b, a), Sub(b, a)), s)
  {
    var w, v := Sub(p, a), Sub(b, a);
    assert Sub(p, PointAt(a, b, s)) == Sub(w, Scale(v, s));
    ExpandAlong(w, v, s);
  }

  /** |w - s v|^2 expanded, with w = p - a and v = b - a. */
  lemma ExpandAlong(w: Point, v: Point, s: real)
    ensures Dot(Sub(w, Scale(v, s)), Sub(w, Scale(v, s))) == Quadratic(Dot(w, w), Dot(w, v), Dot(v, v), s)
  {
    ComponentSq(w.x, v.x, s);
    ComponentSq(w.y, v.y, s);
    ComponentSq(w.z, v.z, s);
    Distribute(2.0 * s, w.x * v.x, w.y * v.y, w.z * v.z);
    Distribute(s * s, v.x * v.x, v.y * v.y, v.z * v.z);
  }

  /** f(s) = ww - 2 s wv + s^2 vv: the squared distance to the point at parameter `s`. */
  function Quadratic(ww: real, wv: real, vv: real, s: real): real
  {
    ww - 2.0 * s * wv + s * s * vv
  }

  /**
    With f(s) = ww - 2 s wv + s^2 vv and vv > 0, the stationary point wv / vv of f,
    clamped to [0, 1], is a minimum of f over [0, 1].
  */
  lemma ClampedMinimises(ww: real, wv: real, vv: real, s: real, c: real)
    requires 0.0 < vv && 0.0 <= s <= 1.0
    requires c == Clamp01(wv / vv)
    ensures Quadratic(ww, wv, vv, c) <= Quadratic(ww, wv, vv, s)
  {
    GapFactor(ww, wv, vv, s, c);
    DivBounds(wv, vv);
    if wv / vv < 0.0 {
      NonNegProduct(s + c, vv);
      NonNegProduct(s - c, (s + c) * vv - 2.0 * wv);
    } else if wv / vv > 1.0 {
      MulMonoR(s + c, 2.0, vv);
      NonPosProduct(s - c, (s + c) * vv - 2.0 * wv);
    } else {
      Interior(s, c, vv, wv);
      SquareTimesNonNeg(s - c, vv);
    }
  }

  /** Below the guard, the clamped parameter is the clamped projection ratio. */
  lemma ClampedParameterForm(p: Point, a: Point, b: Point)
    requires 0.0 < Dot(Sub(b, a), Sub(b, a))
    ensures ClampedParameter(p, a, b) == Clamp01(Dot(Sub(p, a), Sub(b, a)) / Dot(Sub(b, a), Sub(b, a)))
  {
  }

  lemma DistSqOfDifference(a: Point, b: Point)
    ensures Dot(Sub(b, a), Sub(b, a)) == DistSq(a, b)
  {
  }

  lemma DotScaled(w: Point, v: Point, len: real)
    requires len != 0.0
    ensures Dot(w, Scale(v, 1.0 / len)) == Dot(w, v) / len
  {
  }

  lemma ScaleTwice(v: Point, k1: real, k2: real)
    ensures Scale(Scale(v, k1), k2) == Scale(v, k1 * k2)
  {
  }

  // Arithmetic facts, each kept in a lemma of its own so that the solver meets
  // one non-linear step at a time.

  lemma SumOfSquares(x: real, y: real, z: real)
    ensures 0.0 <= x * x + y * y + z * z
  {
  }

  lemma Distribute(k: real, a: real, b: real, c: real)
    ensures k * (a + b + c) == k * a + k * b + k * c
  {
  }

  lemma SquareMonotone(u: real, v: real)
    requires 0.0 <= u <= v
    ensures u * u <= v * v
  {
  }

  lemma SquareStrictlyMonotone(u: real, v: real)
    requires 0.0 <= u < v
    ensures u * u < v * v
  {
    PositiveProduct(v - u, v + u);
    DifferenceOfSquares(u, v);
  }

  lemma PositiveProduct(x: real, y: real)
    requires 0.0 < x && 0.0 < y
    ensures 0.0 < x * y
  {
  }

  lemma NonNegProduct(x: real, y: real)
    requires 0.0 <= x && 0.0 <= y
    ensures 0.0 <= x * y
  {
  }

  lemma NonPosProduct(x: real, y: real)
    requires x <= 0.0 && y <= 0.0
    ensures 0.0 <= x * y
  {
  }

  lemma SquareTimesNonNeg(x: real, k: real)
    requires 0.0 <= k
    ensures 0.0 <= x * (x * k)
  {
  }

  lemma MulMonoR(a: real, b: real, k: real)
    requires a <= b && 0.0 <= k
    ensures a * k <= b * k
  {
  }

  lemma DifferenceOfSquares(u: real, v: real)
    ensures (v - u) * (v + u) == v * v - u * u
  {
  }

  lemma DivBounds(a: real, b: real)
    requires 0.0 < b
    ensures a / b < 0.0 ==> a < 0.0
    ensures a / b > 1.0 ==> a > b
    ensures a == (a / b) * b
  {
  }

  lemma GapFactor(ww: real, wv: real, vv: real, s: real, c: real)
    ensures (ww - 2.0 * s * wv + s * s * vv) - (ww - 2.0 * c * wv + c * c * vv)
         == (s - c) * ((s + c) * vv - 2.0 * wv)
  {
  }

  lemma Interior(s: real, c: real, vv: real, wv: real)
    requires wv == c * vv
    ensures (s + c) * vv - 2.0 * wv == (s - c) * vv
  {
  }

  lemma ComponentSq(w: real, v: real, s: real)
    ensures (w - v * s) * (w - v * s) == w * w - 2.0 * s * (w * v) + s * s * (v * v)
  {
  }
}
