/** Clearance of a capsule from the finite pole: a ternary search along the segment, biased
    downward, against the true distance. */
module CylinderSearch {
  import opened RealFacts
  import opened Geometry
  import opened PlanarNorm

  const ITERATIONS: nat := 96
  const BIAS_M: real := 0.000000001
  /** Up to this length the search ends with a short enough bracket. */
  const LONGEST_M: real := 100000000.0

  datatype Cylinder = Cylinder(radius: real, bottom: real, top: real)

  function RadialGap(f: real -> real, c: Cylinder, p: Vec3): real {
    var planar := Norm(f, p.x, p.y);
    if planar > c.radius then planar - c.radius else 0.0
  }

  function AxialGap(c: Cylinder, p: Vec3): real {
    if p.z < c.bottom then c.bottom - p.z else if p.z > c.top then p.z - c.top else 0.0
  }

  function DistanceSquared(f: real -> real, c: Cylinder, p: Vec3): real {
    RadialGap(f, c, p) * RadialGap(f, c, p) + AxialGap(c, p) * AxialGap(c, p)
  }

  /** A segment and the pole it is measured against. */
  datatype Problem = Problem(f: real -> real, c: Cylinder, a: Vec3, d: Vec3)

  function At(g: Problem, t: real): Vec3 {
    AddScaled(g.a, g.d, t)
  }

  /** Squared distance of the segment's point at parameter t. */
  function Squared(g: Problem, t: real): real {
    DistanceSquared(g.f, g.c, At(g, t))
  }

  function Distance(g: Problem, t: real): real {
    Norm(g.f, RadialGap(g.f, g.c, At(g, t)), AxialGap(g.c, At(g, t)))
  }

  ghost predicate Sound(g: Problem) {
    IsSquareRoot(g.f) && g.c.radius >= 0.0 && g.c.bottom <= g.c.top
  }

  lemma DistanceIsRoot(g: Problem, t: real)
    requires Sound(g)
    ensures g.f(Squared(g, t)) == Distance(g, t) >= 0.0 && Squared(g, t) >= 0.0
    ensures Distance(g, t) * Distance(g, t) == Squared(g, t)
  {
    var r, x := RadialGap(g.f, g.c, At(g, t)), AxialGap(g.c, At(g, t));
    NormSquare(g.f, r, x);
    SquareSign(Distance(g, t));
    NormOfSquares(g.f, r, x, Squared(g, t));
  }

  // ---------------------------------------------------------------------------
  // The two gaps really give the distance to the solid cylinder.

  ghost predicate Inside(f: real -> real, c: Cylinder, q: Vec3) {
    Norm(f, q.x, q.y) <= c.radius && c.bottom <= q.z <= c.top
  }

  function Apart(p: Vec3, q: Vec3): real {
    Dot(Subtract(p, q), Subtract(p, q))
  }

  /** No point of the cylinder is closer. */
  lemma NoPointIsCloser(f: real -> real, c: Cylinder, p: Vec3, q: Vec3)
    requires IsSquareRoot(f) && Inside(f, c, q)
    ensures DistanceSquared(f, c, p) <= Apart(p, q)
  {
    hide Norm;
    var x, y, z := p.x - q.x, p.y - q.y, p.z - q.z;
    Triangle(f, q.x, q.y, x, y);
    NormSquare(f, x, y);
    SquareGrows(RadialGap(f, c, p), Norm(f, x, y));
    SquareGrows(AxialGap(c, p), Abs(z));
  }

  /** And one is exactly that far. */
  lemma SomePointIsThatClose(f: real -> real, c: Cylinder, p: Vec3) returns (q: Vec3)
    requires IsSquareRoot(f) && c.radius >= 0.0 && c.bottom <= c.top
    ensures Inside(f, c, q) && Apart(p, q) == DistanceSquared(f, c, p)
  {
    hide Norm;
    var qx, qy := PlanarFoot(f, c.radius, p.x, p.y);
    var qz := Max(c.bottom, Min(p.z, c.top));
    q := Vec3(qx, qy, qz);
    AxialFoot(c, p, qz);
  }

  lemma AxialFoot(c: Cylinder, p: Vec3, z: real)
    requires c.bottom <= c.top && z == Max(c.bottom, Min(p.z, c.top))
    ensures (p.z - z) * (p.z - z) == AxialGap(c, p) * AxialGap(c, p)
  {
    assert p.z - z == AxialGap(c, p) || p.z - z == -AxialGap(c, p);
  }

  /** The foot of a point on the disc. */
  lemma PlanarFoot(f: real -> real, radius: real, x: real, y: real) returns (qx: real, qy: real)
    requires IsSquareRoot(f) && radius >= 0.0
    ensures Norm(f, qx, qy) <= radius
    ensures var gap := Max(Norm(f, x, y) - radius, 0.0);
            (x - qx) * (x - qx) + (y - qy) * (y - qy) == gap * gap
  {
    hide Norm;
    var n := Norm(f, x, y);
    if n > radius {
      var k := radius / n;
      qx, qy := k * x, k * y;
      OutsideFoot(f, radius, x, y, k, n);
    } else {
      qx, qy := x, y;
    }
  }

  lemma OutsideFoot(f: real -> real, radius: real, x: real, y: real, k: real, n: real)
    requires IsSquareRoot(f) && n == Norm(f, x, y) > radius >= 0.0 && k == radius / n
    ensures Norm(f, k * x, k * y) == radius
    ensures (x - k * x) * (x - k * x) + (y - k * y) * (y - k * y) == (n - radius) * (n - radius)
  {
    hide Norm;
    NormSquare(f, x, y);
    Quotient(radius, n);
    QuotientNonNegative(radius, n);
    Scaling(f, k, x, y);
    ScaledApart(x, y, k, n, radius);
  }

  lemma ScaledApart(x: real, y: real, k: real, n: real, radius: real)
    requires n * n == x * x + y * y && k * n == radius
    ensures (x - k * x) * (x - k * x) + (y - k * y) * (y - k * y) == (n - radius) * (n - radius)
  {
    assert (x - k * x) * (x - k * x) + (y - k * y) * (y - k * y) == (1.0 - k) * (1.0 - k) * (n * n);
    assert (n - radius) * (n - radius) == (n - k * n) * (n - k * n);
  }

  // ---------------------------------------------------------------------------
  // Convexity, in three-point form: weights p and q on the outer points.

  /** s times a coordinate at the middle is the weighted sum of the outer ones. */
  lemma CoordinateMix(a: real, d: real, u: real, m: real, v: real, x: real, x1: real, x2: real)
    requires x == a + d * m && x1 == a + d * u && x2 == a + d * v
    ensures Times(v - u, x) == Times(v - m, x1) + Times(m - u, x2)
  {
  }

  lemma PointMix(g: Problem, u: real, m: real, v: real)
    ensures Times(v - u, At(g, m).x) == Times(v - m, At(g, u).x) + Times(m - u, At(g, v).x)
    ensures Times(v - u, At(g, m).y) == Times(v - m, At(g, u).y) + Times(m - u, At(g, v).y)
    ensures Times(v - u, At(g, m).z) == Times(v - m, At(g, u).z) + Times(m - u, At(g, v).z)
  {
    hide Times;
    CoordinateMix(g.a.x, g.d.x, u, m, v, At(g, m).x, At(g, u).x, At(g, v).x);
    CoordinateMix(g.a.y, g.d.y, u, m, v, At(g, m).y, At(g, u).y, At(g, v).y);
    CoordinateMix(g.a.z, g.d.z, u, m, v, At(g, m).z, At(g, u).z, At(g, v).z);
  }

  lemma ScaledNorm(f: real -> real, k: real, x: real, y: real)
    requires IsSquareRoot(f) && k >= 0.0
    ensures Norm(f, Times(k, x), Times(k, y)) == Times(k, Norm(f, x, y))
  {
    Scaling(f, k, x, y);
  }

  lemma NormMix(f: real -> real, p: real, q: real, x: real, y: real, x1: real, y1: real, x2: real, y2: real)
    requires IsSquareRoot(f) && p >= 0.0 && q >= 0.0
    requires Times(p + q, x) == Times(p, x1) + Times(q, x2) && Times(p + q, y) == Times(p, y1) + Times(q, y2)
    ensures Times(p + q, Norm(f, x, y)) <= Times(p, Norm(f, x1, y1)) + Times(q, Norm(f, x2, y2))
  {
    hide Norm, Times;
    ScaledNorm(f, p + q, x, y);
    ScaledNorm(f, p, x1, y1);
    ScaledNorm(f, q, x2, y2);
    Triangle(f, Times(p, x1), Times(p, y1), Times(q, x2), Times(q, y2));
  }

  /** Cutting off below zero keeps the inequality. */
  lemma GapMix(p: real, q: real, n: real, n1: real, n2: real, r: real)
    requires p >= 0.0 && q >= 0.0 && Times(p + q, n) <= Times(p, n1) + Times(q, n2)
    ensures Times(p + q, Max(n - r, 0.0)) <= Times(p, Max(n1 - r, 0.0)) + Times(q, Max(n2 - r, 0.0))
  {
    var g1, g2 := Max(n1 - r, 0.0), Max(n2 - r, 0.0);
    MulNonNegative(p, g1);
    MulNonNegative(q, g2);
    var a := MulMonotone(p, n1 - r, g1);
    var b := MulMonotone(q, n2 - r, g2);
    if n > r {
      assert Times(p + q, n - r) == Times(p + q, n) - p * r - q * r;
    }
  }

  lemma RadialMix(f: real -> real, c: Cylinder, p: real, q: real, w: Vec3, w1: Vec3, w2: Vec3)
    requires IsSquareRoot(f) && p >= 0.0 && q >= 0.0
    requires Times(p + q, w.x) == Times(p, w1.x) + Times(q, w2.x) && Times(p + q, w.y) == Times(p, w1.y) + Times(q, w2.y)
    ensures Times(p + q, RadialGap(f, c, w)) <= Times(p, RadialGap(f, c, w1)) + Times(q, RadialGap(f, c, w2))
  {
    hide Times, Norm;
    NormMix(f, p, q, w.x, w.y, w1.x, w1.y, w2.x, w2.y);
    GapMix(p, q, Norm(f, w.x, w.y), Norm(f, w1.x, w1.y), Norm(f, w2.x, w2.y), c.radius);
  }

  lemma AxialMix(c: Cylinder, p: real, q: real, w: Vec3, w1: Vec3, w2: Vec3)
    requires p >= 0.0 && q >= 0.0 && c.bottom <= c.top
    requires Times(p + q, w.z) == Times(p, w1.z) + Times(q, w2.z)
    ensures Times(p + q, AxialGap(c, w)) <= Times(p, AxialGap(c, w1)) + Times(q, AxialGap(c, w2))
  {
    hide Times;
    GapMix(p, q, w.z, w1.z, w2.z, c.top);
    Negated(p, q, w.z, w1.z, w2.z);
    GapMix(p, q, -w.z, -w1.z, -w2.z, -c.bottom);
    LargerGap(p, Max(w1.z - c.top, 0.0), AxialGap(c, w1));
    LargerGap(q, Max(w2.z - c.top, 0.0), AxialGap(c, w2));
    LargerGap(p, Max(-w1.z + c.bottom, 0.0), AxialGap(c, w1));
    LargerGap(q, Max(-w2.z + c.bottom, 0.0), AxialGap(c, w2));
  }

  lemma Negated(p: real, q: real, n: real, n1: real, n2: real)
    requires Times(p + q, n) == Times(p, n1) + Times(q, n2)
    ensures Times(p + q, -n) == Times(p, -n1) + Times(q, -n2)
  {
  }

  lemma LargerGap(k: real, x: real, y: real)
    requires k >= 0.0 && x <= y
    ensures Times(k, x) <= Times(k, y)
  {
    var gap := MulMonotone(k, x, y);
  }

  lemma SquareIdentity(p: real, q: real, u: real, v: real)
    ensures (p * u + q * v) * (p * u + q * v) == (p + q) * (p * (u * u) + q * (v * v)) - (p * q) * ((u - v) * (u - v))
  {
  }

  /** Squares of non-negative convex quantities are convex. */
  lemma SquareMix(p: real, q: real, m: real, u: real, v: real)
    requires p >= 0.0 && q >= 0.0 && p + q > 0.0 && m >= 0.0 && u >= 0.0 && v >= 0.0
    requires Times(p + q, m) <= Times(p, u) + Times(q, v)
    ensures Times(p + q, m * m) <= Times(p, u * u) + Times(q, v * v)
  {
    hide Times;
    var s, total := p + q, Times(p, u * u) + Times(q, v * v);
    var w := Times(p, u) + Times(q, v);
    ProductSign(s, m);
    SquareGrows(Times(s, m), w);
    MixedSquare(p, q, u, v);
    TimesSquared(s, m);
    assert Times(s, Times(s, m * m)) <= Times(s, total);
    CancelTimes(s, Times(s, m * m), total);
  }

  lemma ProductSign(s: real, m: real)
    requires s >= 0.0 && m >= 0.0
    ensures Times(s, m) >= 0.0
  {
    MulNonNegative(s, m);
  }

  lemma TimesSquared(s: real, m: real)
    ensures Times(s, m) * Times(s, m) == Times(s, Times(s, m * m))
  {
    SquareOfProduct(s, m);
  }

  lemma MixedSquare(p: real, q: real, u: real, v: real)
    requires p >= 0.0 && q >= 0.0
    ensures (Times(p, u) + Times(q, v)) * (Times(p, u) + Times(q, v)) <= Times(p + q, Times(p, u * u) + Times(q, v * v))
  {
    SquareIdentity(p, q, u, v);
    MulNonNegative(p, q);
    SquareSign(u - v);
    MulNonNegative(p * q, (u - v) * (u - v));
  }

  lemma CancelTimes(s: real, x: real, y: real)
    requires s > 0.0 && Times(s, x) <= Times(s, y)
    ensures x <= y
  {
    Cancel(s, x, y);
  }

  lemma Cancel(s: real, x: real, y: real)
    requires s > 0.0
    ensures s * x <= s * y ==> x <= y
  {
    if x > y {
      var gap := MulStrict(s, y, x);
    }
  }

  lemma Weigh(p: real, x: real, y: real)
    ensures Times(p, x + y) == Times(p, x) + Times(p, y)
  {
  }

  /** The squared distance is convex along the segment. */
  lemma SquaredConvex(g: Problem, u: real, m: real, v: real)
    requires Sound(g) && u <= m <= v && u < v
    ensures Times(v - u, Squared(g, m)) <= Times(v - m, Squared(g, u)) + Times(m - u, Squared(g, v))
  {
    hide Times, Norm, At;
    var p, q := v - m, m - u;
    PointMix(g, u, m, v);
    var w, w1, w2 := At(g, m), At(g, u), At(g, v);
    assert p + q == v - u;
    RadialMix(g.f, g.c, p, q, w, w1, w2);
    AxialMix(g.c, p, q, w, w1, w2);
    var r, r1, r2 := RadialGap(g.f, g.c, w), RadialGap(g.f, g.c, w1), RadialGap(g.f, g.c, w2);
    var x, x1, x2 := AxialGap(g.c, w), AxialGap(g.c, w1), AxialGap(g.c, w2);
    SquareMix(p, q, r, r1, r2);
    SquareMix(p, q, x, x1, x2);
    Weigh(p + q, r * r, x * x);
    Weigh(p, r1 * r1, x1 * x1);
    Weigh(q, r2 * r2, x2 * x2);
    assert Squared(g, m) == r * r + x * x && Squared(g, u) == r1 * r1 + x1 * x1 && Squared(g, v) == r2 * r2 + x2 * x2;
  }

  // ---------------------------------------------------------------------------
  // The bracket.

  /** Some point of the bracket is at least as close as the point at t. */
  ghost predicate Beaten(g: Problem, low: real, high: real, t: real) {
    exists b :: low <= b <= high && Squared(g, b) <= Squared(g, t)
  }

  lemma BeatenBy(g: Problem, low: real, high: real, t: real, b: real)
    requires low <= b <= high && Squared(g, b) <= Squared(g, t)
    ensures Beaten(g, low, high, t)
  {
    hide Squared;
  }

  /** The bracket holds a point as close as any on the segment. */
  ghost predicate Brackets(g: Problem, low: real, high: real) {
    0.0 <= low <= high <= 1.0 && forall t :: 0.0 <= t <= 1.0 ==> Beaten(g, low, high, t)
  }

  /** Beyond a point that is no closer than an earlier one, nothing is closer than that one. */
  lemma NothingBeyond(g: Problem, near: real, wall: real, t: real)
    requires Sound(g) && (near < wall <= t || t <= wall < near) && Squared(g, near) <= Squared(g, wall)
    ensures Squared(g, near) <= Squared(g, t)
  {
    var x, y, z := Squared(g, near), Squared(g, wall), Squared(g, t);
    if near < wall {
      SquaredConvex(g, near, wall, t);
      OuterNotLess(t - wall, wall - near, x, y, z);
    } else {
      SquaredConvex(g, t, wall, near);
      OuterNotLess(wall - t, near - wall, x, y, z);
    }
  }

  lemma OuterNotLess(p: real, q: real, x: real, y: real, z: real)
    requires p >= 0.0 && q > 0.0 && x <= y && Times(p + q, y) <= Times(p, x) + Times(q, z)
    ensures x <= z
  {
    var a := MulMonotone(p + q, x, y);
    Cancel(q, x, z);
    assert (p + q) * x == p * x + q * x;
  }

  lemma NarrowHigh(g: Problem, low: real, high: real, first: real, second: real)
    requires Sound(g) && Brackets(g, low, high) && low <= first < second <= high && Squared(g, first) <= Squared(g, second)
    ensures Brackets(g, low, second)
  {
    forall t | 0.0 <= t <= 1.0
      ensures Beaten(g, low, second, t)
    {
      assert Beaten(g, low, high, t);
      var b :| low <= b <= high && Squared(g, b) <= Squared(g, t);
      if b > second {
        NothingBeyond(g, first, second, b);
        assert Squared(g, first) <= Squared(g, t);
      }
    }
  }

  lemma NarrowLow(g: Problem, low: real, high: real, first: real, second: real)
    requires Sound(g) && Brackets(g, low, high) && low <= first < second <= high && Squared(g, second) <= Squared(g, first)
    ensures Brackets(g, first, high)
  {
    forall t | 0.0 <= t <= 1.0
      ensures Beaten(g, first, high, t)
    {
      assert Beaten(g, low, high, t);
      var b :| low <= b <= high && Squared(g, b) <= Squared(g, t);
      if b < first {
        NothingBeyond(g, second, first, b);
        assert Squared(g, second) <= Squared(g, t);
      }
    }
  }

  /** Width of the bracket after n rounds. */
  function Shrink(n: nat): (w: real)
    ensures w > 0.0
  {
    if n == 0 then 1.0 else Shrink(n - 1) * 2.0 / 3.0
  }

  // ---------------------------------------------------------------------------
  // How fast the distance can change along the segment.

  function Length(g: Problem): real {
    g.f(Dot(g.d, g.d))
  }

  lemma NormEven(f: real -> real, k: real, x: real, y: real)
    requires IsSquareRoot(f)
    ensures Norm(f, Times(k, x), Times(k, y)) == Times(Abs(k), Norm(f, x, y))
  {
    if k >= 0.0 {
      ScaledNorm(f, k, x, y);
    } else {
      ScaledNorm(f, -k, x, y);
      assert Times(-k, x) == -Times(k, x) && Times(-k, y) == -Times(k, y);
      hide Times;
      NormNegated(f, Times(k, x), Times(k, y));
    }
  }

  lemma NormNegated(f: real -> real, x: real, y: real)
    ensures Norm(f, -x, -y) == Norm(f, x, y)
  {
    NormOfSquares(f, -x, -y, x * x + y * y);
  }

  lemma Moved(a: real, d: real, s: real, t: real, x: real, y: real)
    requires x == a + d * s && y == a + d * t
    ensures y == x + Times(t - s, d)
  {
  }

  lemma PointMoves(g: Problem, s: real, t: real)
    ensures At(g, t).x == At(g, s).x + Times(t - s, g.d.x)
    ensures At(g, t).y == At(g, s).y + Times(t - s, g.d.y)
    ensures At(g, t).z == At(g, s).z + Times(t - s, g.d.z)
  {
    hide Times;
    Moved(g.a.x, g.d.x, s, t, At(g, s).x, At(g, t).x);
    Moved(g.a.y, g.d.y, s, t, At(g, s).y, At(g, t).y);
    Moved(g.a.z, g.d.z, s, t, At(g, s).z, At(g, t).z);
  }

  lemma RadialMoves(g: Problem, s: real, t: real)
    requires Sound(g)
    ensures RadialGap(g.f, g.c, At(g, t))
            <= RadialGap(g.f, g.c, At(g, s)) + Times(Abs(t - s), Norm(g.f, g.d.x, g.d.y))
  {
    hide Times, Norm, At;
    var k, p := t - s, At(g, s);
    NormSquare(g.f, g.d.x, g.d.y);
    ProductSign(Abs(k), Norm(g.f, g.d.x, g.d.y));
    PointMoves(g, s, t);
    Triangle(g.f, p.x, p.y, Times(k, g.d.x), Times(k, g.d.y));
    NormEven(g.f, k, g.d.x, g.d.y);
  }

  lemma AxialMoves(g: Problem, s: real, t: real)
    requires Sound(g)
    ensures AxialGap(g.c, At(g, t)) <= AxialGap(g.c, At(g, s)) + Times(Abs(t - s), Abs(g.d.z))
  {
    PointMoves(g, s, t);
    AbsProduct(t - s, g.d.z);
    assert Abs(Times(t - s, g.d.z)) == Times(Abs(t - s), Abs(g.d.z));
    hide Times, At;
  }

  lemma LengthIsNorm(g: Problem)
    requires Sound(g)
    ensures Length(g) == Norm(g.f, Norm(g.f, g.d.x, g.d.y), Abs(g.d.z)) >= 0.0
  {
    var n := Norm(g.f, g.d.x, g.d.y);
    NormSquare(g.f, g.d.x, g.d.y);
    NormSquare(g.f, n, Abs(g.d.z));
    AbsSquare(g.d.z);
    NormOfSquares(g.f, n, Abs(g.d.z), Dot(g.d, g.d));
  }

  lemma AbsSquare(x: real)
    ensures Abs(x) * Abs(x) == x * x
  {
  }

  /** Moving along the segment changes the distance by at most the way moved. */
  lemma DistanceMoves(g: Problem, s: real, t: real)
    requires Sound(g)
    ensures Distance(g, t) <= Distance(g, s) + Times(Abs(t - s), Length(g))
  {
    hide Times, Norm, At, Length;
    var k, n, z := Abs(t - s), Norm(g.f, g.d.x, g.d.y), Abs(g.d.z);
    RadialMoves(g, s, t);
    AxialMoves(g, s, t);
    LengthIsNorm(g);
    NormSquare(g.f, g.d.x, g.d.y);
    ProductSign(k, n);
    ProductSign(k, z);
    var r, x := RadialGap(g.f, g.c, At(g, s)), AxialGap(g.c, At(g, s));
    NormMonotone(g.f, RadialGap(g.f, g.c, At(g, t)), AxialGap(g.c, At(g, t)), r + Times(k, n), x + Times(k, z));
    Triangle(g.f, r, x, Times(k, n), Times(k, z));
    ScaledNorm(g.f, k, n, z);
  }

  /** The middle of a bracket is at most half its width from the truth. */
  lemma MiddleIsClose(g: Problem, low: real, high: real, t: real)
    requires Sound(g) && Brackets(g, low, high) && 0.0 <= t <= 1.0
    ensures Distance(g, (low + high) / 2.0) <= Distance(g, t) + Times(high - low, Length(g)) / 2.0
  {
    hide Times, Norm, Squared, Distance, Length;
    assert Beaten(g, low, high, t);
    var b :| low <= b <= high && Squared(g, b) <= Squared(g, t);
    var mid := (low + high) / 2.0;
    DistanceIsRoot(g, b);
    DistanceIsRoot(g, t);
    SquareRootMonotone(g.f, Squared(g, b), Squared(g, t));
    DistanceMoves(g, b, mid);
    LengthIsNorm(g);
    HalfWidth(Abs(mid - b), high - low, Length(g));
  }

  lemma HalfWidth(k: real, w: real, n: real)
    requires k <= w / 2.0 && n >= 0.0
    ensures Times(k, n) <= Times(w, n) / 2.0
  {
    var gap := MulMonotone(n, k, w / 2.0);
  }

  // ---------------------------------------------------------------------------
  // The search.

  /** A stretch of the segment still searched. */
  datatype Span = Span(low: real, high: real)

  /** What is left after n rounds: each drops the outer third on the side that is further away. */
  function Narrowed(g: Problem, n: nat): Span {
    if n == 0 then Span(0.0, 1.0)
    else
      var Span(low, high) := Narrowed(g, n - 1);
      var first, second := (2.0 * low + high) / 3.0, (low + 2.0 * high) / 3.0;
      if Squared(g, first) <= Squared(g, second) then Span(low, second) else Span(first, high)
  }

  /** The closer of two parameters, the first when they tie. */
  function Closer(g: Problem, t: real, u: real): real {
    if Squared(g, u) < Squared(g, t) then u else t
  }

  /** The parameter the search settles on: an end of the segment or the middle of what is left. */
  function Found(g: Problem): real {
    var Span(low, high) := Narrowed(g, ITERATIONS);
    Closer(g, Closer(g, 0.0, 1.0), (low + high) / 2.0)
  }

  /** The clearance reported for a capsule of this radius. */
  function Reported(g: Problem, capsule: real): real {
    Max(g.f(Squared(g, Found(g))) - BIAS_M, 0.0) - capsule
  }

  lemma {:induction false} NarrowedBrackets(g: Problem, n: nat)
    requires Sound(g)
    ensures var Span(low, high) := Narrowed(g, n); Brackets(g, low, high) && high - low == Shrink(n)
  {
    hide Squared, Brackets, Shrink;
    if n == 0 {
      ShrinkStarts();
      WholeSegment(g);
    } else {
      NarrowedBrackets(g, n - 1);
      ShrinkStep(n - 1);
      var Span(low, high) := Narrowed(g, n - 1);
      BracketsInside(g, low, high);
      var first, second := (2.0 * low + high) / 3.0, (low + 2.0 * high) / 3.0;
      if Squared(g, first) <= Squared(g, second) {
        NarrowHigh(g, low, high, first, second);
      } else {
        NarrowLow(g, low, high, first, second);
      }
    }
  }

  lemma BracketsInside(g: Problem, low: real, high: real)
    requires Brackets(g, low, high)
    ensures 0.0 <= low <= high <= 1.0
  {
  }

  /** The exact clearance is the least of `Distance - capsule` over the segment.  What is
      reported is never above it when the final bracket is no longer than two biases, and
      never more than one bias below it. */
  lemma ReportedIsClose(g: Problem, capsule: real)
    requires Sound(g)
    ensures Times(Shrink(ITERATIONS), Length(g)) <= 2.0 * BIAS_M ==>
              forall t :: 0.0 <= t <= 1.0 ==> Reported(g, capsule) <= Distance(g, t) - capsule
    ensures 0.0 <= Found(g) <= 1.0 && Reported(g, capsule) >= Distance(g, Found(g)) - capsule - BIAS_M
    ensures Reported(g, capsule) >= -capsule
  {
    hide Norm, Squared, Distance, Times, Length, Shrink, Brackets;
    var Span(low, high) := Narrowed(g, ITERATIONS);
    NarrowedBrackets(g, ITERATIONS);
    BracketsInside(g, low, high);
    ResultBounds(g, low, high, Squared(g, Found(g)), Found(g), capsule);
  }

  lemma {:induction false} ShrinkAdds(m: nat, n: nat)
    ensures Shrink(m + n) == Times(Shrink(m), Shrink(n))
  {
    if n == 0 {
      assert Shrink(0) == 1.0;
    } else {
      ShrinkAdds(m, n - 1);
      assert Shrink(m + n) == Shrink(m + n - 1) * 2.0 / 3.0;
    }
  }

  lemma ShrinkTwice(n: nat, bound: real)
    requires Shrink(n) <= bound
    ensures Shrink(n + n) <= bound * bound
  {
    ShrinkAdds(n, n);
    SquareGrows(Shrink(n), bound);
  }

  /** Ninety-six rounds leave less than 2e-17 of the segment. */
  lemma ShrinkIsTiny()
    ensures Shrink(ITERATIONS) <= 0.00000000000000002
  {
    assert Shrink(3) == 8.0 / 27.0 by {
      assert Shrink(0) == 1.0 && Shrink(1) == 2.0 / 3.0 && Shrink(2) == 4.0 / 9.0;
    }
    ShrinkTwice(3, 0.2963);
    ShrinkTwice(6, 0.0878);
    ShrinkTwice(12, 0.00771);
    ShrinkTwice(24, 0.0000595);
    ShrinkTwice(48, 0.0000000036);
  }

  /** So a final bracket is short for every segment up to a hundred thousand kilometres. */
  lemma BracketIsShort(g: Problem)
    requires Length(g) <= LONGEST_M
    ensures Times(Shrink(ITERATIONS), Length(g)) <= 2.0 * BIAS_M
  {
    hide Shrink, Length;
    ShrinkIsTiny();
    var a := MulMonotone(Shrink(ITERATIONS), Length(g), LONGEST_M);
  }

  method CapsuleClearance(f: real -> real, a: Vec3, b: Vec3, c: Cylinder, capsule: real)
    returns (valid: bool, clearance: real)
    requires IsSquareRoot(f)
    ensures valid <==> c.radius >= 0.0 && c.bottom <= c.top && capsule >= 0.0
    ensures valid ==>
              var g := Problem(f, c, a, Subtract(b, a));
              && clearance == Reported(g, capsule) >= -capsule
              && (Length(g) <= LONGEST_M ==> forall t :: 0.0 <= t <= 1.0 ==> clearance <= Distance(g, t) - capsule)
              && 0.0 <= Found(g) <= 1.0 && clearance >= Distance(g, Found(g)) - capsule - BIAS_M
  {
    hide Norm, Squared, Distance, Times, Length, Shrink;
    if c.radius < 0.0 || c.bottom > c.top || capsule < 0.0 {
      return false, 0.0;
    }
    var g := Problem(f, c, a, Subtract(b, a));
    var low, high := 0.0, 1.0;
    for iteration := 0 to ITERATIONS
      invariant Span(low, high) == Narrowed(g, iteration)
    {
      var first, second := (2.0 * low + high) / 3.0, (low + 2.0 * high) / 3.0;
      if Squared(g, first) <= Squared(g, second) {
        high := second;
      } else {
        low := first;
      }
    }
    var minimum := Squared(g, 0.0);
    var candidate := Squared(g, 1.0);
    if candidate < minimum {
      minimum := candidate;
    }
    candidate := Squared(g, (low + high) / 2.0);
    if candidate < minimum {
      minimum := candidate;
    }
    assert minimum == Squared(g, Found(g));
    ReportedIsClose(g, capsule);
    if Length(g) <= LONGEST_M {
      BracketIsShort(g);
    }
    minimum := f(minimum) - BIAS_M;
    if minimum < 0.0 {
      minimum := 0.0;
    }
    return true, minimum - capsule;
  }

  lemma ShrinkStarts()
    ensures Shrink(0) == 1.0
  {
  }

  lemma ShrinkStep(n: nat)
    ensures Shrink(n + 1) == Shrink(n) * 2.0 / 3.0 && Shrink(n) > 0.0
  {
  }

  lemma WholeSegment(g: Problem)
    ensures Brackets(g, 0.0, 1.0)
  {
    forall t | 0.0 <= t <= 1.0
      ensures Beaten(g, 0.0, 1.0, t)
    {
      BeatenBy(g, 0.0, 1.0, t, t);
    }
  }

  lemma ResultBounds(g: Problem, low: real, high: real, minimum: real, best: real, capsule: real)
    requires Sound(g) && Brackets(g, low, high) && 0.0 <= best <= 1.0 && minimum == Squared(g, best)
    requires minimum <= Squared(g, (low + high) / 2.0)
    ensures g.f(minimum) == Distance(g, best) >= 0.0
    ensures Times(high - low, Length(g)) <= 2.0 * BIAS_M ==>
              forall t :: 0.0 <= t <= 1.0 ==> Max(g.f(minimum) - BIAS_M, 0.0) <= Distance(g, t)
  {
    hide Norm, Squared, Distance, Times, Length;
    var mid := (low + high) / 2.0;
    DistanceIsRoot(g, best);
    DistanceIsRoot(g, mid);
    SquareRootMonotone(g.f, minimum, Squared(g, mid));
    if Times(high - low, Length(g)) <= 2.0 * BIAS_M {
      forall t | 0.0 <= t <= 1.0
        ensures Max(g.f(minimum) - BIAS_M, 0.0) <= Distance(g, t)
      {
        MiddleIsClose(g, low, high, t);
        DistanceIsRoot(g, t);
      }
    }
  }
}
