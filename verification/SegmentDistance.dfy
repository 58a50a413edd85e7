/** Closest points of two segments, as `segment_clearance_detail` computes them.

    The squared distance between the points at parameters s and t is a convex
    quadratic in (s, t).  The code picks (s, t) by a cascade of clamps with a
    fixed cut-off below which lengths and the determinant are taken to be zero.
    `CodeIsNearestIffResolved` says exactly when that choice is a global minimum
    over the unit square. */
module SegmentDistance {
  import opened RealFacts
  import opened Geometry

  /** The cut-off 1.0e-18 of the source. */
  const NEGLIGIBLE: real := 0.000000000000000001

  /** Inner products of the directions d1, d2 and the offset r = a0 - b0. */
  datatype Gram = Gram(a: real, b: real, c: real, e: real, f: real, rr: real)

  function GramOf(a0: Vec3, a1: Vec3, b0: Vec3, b1: Vec3): Gram {
    var d1 := Subtract(a1, a0);
    var d2 := Subtract(b1, b0);
    var r := Subtract(a0, b0);
    Gram(Dot(d1, d1), Dot(d1, d2), Dot(d1, r), Dot(d2, d2), Dot(d2, r), Dot(r, r))
  }

  /** Squared distance between the two centreline points at s and t. */
  function DistanceSquared(a0: Vec3, a1: Vec3, b0: Vec3, b1: Vec3, s: real, t: real): real {
    var difference := Subtract(AddScaled(a0, Subtract(a1, a0), s), AddScaled(b0, Subtract(b1, b0), t));
    Dot(difference, difference)
  }

  /** The same number, in terms of the inner products alone. */
  function Quadratic(g: Gram, s: real, t: real): real {
    g.a * (s * s) - 2.0 * (g.b * (s * t)) + g.e * (t * t) + 2.0 * (g.c * s) - 2.0 * (g.f * t) + g.rr
  }

  /** (s, t) is a global minimiser over the unit square. */
  ghost predicate Nearest(g: Gram, s: real, t: real) {
    && InUnit(s) && InUnit(t)
    && forall u: real, v: real :: InUnit(u) && InUnit(v) ==> Quadratic(g, s, t) <= Quadratic(g, u, v)
  }

  // Half the partial derivatives of the quadratic.
  function SlopeS(g: Gram, s: real, t: real): real {
    g.a * s - g.b * t + g.c
  }

  function SlopeT(g: Gram, s: real, t: real): real {
    g.e * t - g.b * s - g.f
  }

  /** First-order optimality on the unit square. */
  predicate Stationary(g: Gram, s: real, t: real) {
    && InUnit(s) && InUnit(t)
    && (s < 1.0 ==> SlopeS(g, s, t) >= 0.0)
    && (s > 0.0 ==> SlopeS(g, s, t) <= 0.0)
    && (t < 1.0 ==> SlopeT(g, s, t) >= 0.0)
    && (t > 0.0 ==> SlopeT(g, s, t) <= 0.0)
  }

  /** What every Gram record of real vectors satisfies. */
  predicate IsGram(g: Gram) {
    && g.a >= 0.0 && g.e >= 0.0
    && g.b * g.b <= g.a * g.e
    && (g.a <= 0.0 ==> g.b == 0.0 && g.c == 0.0)
    && (g.e <= 0.0 ==> g.b == 0.0 && g.f == 0.0)
    && (g.a * g.e <= g.b * g.b ==> g.c * g.e == g.b * g.f)
  }

  lemma ZeroNormIsZero(p: Vec3)
    requires Dot(p, p) <= 0.0
    ensures p == Vec3(0.0, 0.0, 0.0)
  {
    SumOfSquares(Dot(p, p), p.x, p.y, p.z);
  }

  lemma ZeroDot(q: Vec3)
    ensures Dot(Vec3(0.0, 0.0, 0.0), q) == 0.0 == Dot(q, Vec3(0.0, 0.0, 0.0))
  {
  }

  lemma ZeroVector(p: Vec3, q: Vec3)
    requires Dot(p, p) <= 0.0
    ensures Dot(p, q) == 0.0 == Dot(q, p)
  {
    ZeroNormIsZero(p);
    ZeroDot(q);
  }

  lemma ParallelProjections(p: Vec3, q: Vec3, r: Vec3)
    requires Dot(p, p) * Dot(q, q) <= Dot(p, q) * Dot(p, q)
    ensures Dot(p, r) * Dot(q, q) == Dot(p, q) * Dot(q, r)
  {
    GramDeterminant(p, q);
    assert Dot(p, q) * Dot(q, r) - Dot(p, r) * Dot(q, q) ==
           (p.x * q.y - p.y * q.x) * (q.x * r.y - q.y * r.x) +
           (p.x * q.z - p.z * q.x) * (q.x * r.z - q.z * r.x) +
           (p.y * q.z - p.z * q.y) * (q.y * r.z - q.z * r.y);
  }

  lemma SegmentsHaveGram(a0: Vec3, a1: Vec3, b0: Vec3, b1: Vec3)
    ensures IsGram(GramOf(a0, a1, b0, b1))
  {
    var d1 := Subtract(a1, a0);
    var d2 := Subtract(b1, b0);
    var r := Subtract(a0, b0);
    DotSelfNonNegative(d1);
    DotSelfNonNegative(d2);
    GramDeterminant(d1, d2);
    if Dot(d1, d1) <= 0.0 {
      ZeroVector(d1, d2);
      ZeroVector(d1, r);
    }
    if Dot(d2, d2) <= 0.0 {
      ZeroVector(d2, d1);
      ZeroVector(d2, r);
    }
    if Dot(d1, d1) * Dot(d2, d2) <= Dot(d1, d2) * Dot(d1, d2) {
      ParallelProjections(d1, d2, r);
    }
  }

  /** The Gram record contributed by one coordinate of |r + s d1 - t d2|^2. */
  function CoordinateGram(d1: real, d2: real, r: real): Gram {
    Gram(d1 * d1, d1 * d2, d1 * r, d2 * d2, d2 * r, r * r)
  }

  function CoordinateSquare(a: real, b: real, d1: real, d2: real, s: real, t: real): real {
    ((a + d1 * s) - (b + d2 * t)) * ((a + d1 * s) - (b + d2 * t))
  }

  lemma ExpandCoordinate(a: real, b: real, d1: real, d2: real, s: real, t: real)
    ensures CoordinateSquare(a, b, d1, d2, s, t) == Quadratic(CoordinateGram(d1, d2, a - b), s, t)
  {
    var r := a - b;
    assert (a + d1 * s) - (b + d2 * t) == r + d1 * s - d2 * t;
  }

  function GramSum(g: Gram, h: Gram): Gram {
    Gram(g.a + h.a, g.b + h.b, g.c + h.c, g.e + h.e, g.f + h.f, g.rr + h.rr)
  }

  lemma QuadraticAdditive(g: Gram, h: Gram, s: real, t: real)
    ensures Quadratic(GramSum(g, h), s, t) == Quadratic(g, s, t) + Quadratic(h, s, t)
  {
    Distribute(g.a, h.a, s * s);
    Distribute(g.b, h.b, s * t);
    Distribute(g.e, h.e, t * t);
    Distribute(g.c, h.c, s);
    Distribute(g.f, h.f, t);
  }

  lemma Distribute(x: real, y: real, k: real)
    ensures (x + y) * k == x * k + y * k
  {
  }

  lemma GramByCoordinates(a0: Vec3, a1: Vec3, b0: Vec3, b1: Vec3)
    ensures var d1, d2, r := Subtract(a1, a0), Subtract(b1, b0), Subtract(a0, b0);
            GramOf(a0, a1, b0, b1) ==
            GramSum(GramSum(CoordinateGram(d1.x, d2.x, r.x), CoordinateGram(d1.y, d2.y, r.y)),
                    CoordinateGram(d1.z, d2.z, r.z))
  {
  }

  lemma DistanceByCoordinates(a0: Vec3, a1: Vec3, b0: Vec3, b1: Vec3, s: real, t: real)
    ensures var d1, d2 := Subtract(a1, a0), Subtract(b1, b0);
            DistanceSquared(a0, a1, b0, b1, s, t) ==
            CoordinateSquare(a0.x, b0.x, d1.x, d2.x, s, t) + CoordinateSquare(a0.y, b0.y, d1.y, d2.y, s, t)
            + CoordinateSquare(a0.z, b0.z, d1.z, d2.z, s, t)
  {
  }

  lemma DistanceIsQuadratic(a0: Vec3, a1: Vec3, b0: Vec3, b1: Vec3, s: real, t: real)
    ensures DistanceSquared(a0, a1, b0, b1, s, t) == Quadratic(GramOf(a0, a1, b0, b1), s, t)
  {
    var d1, d2, r := Subtract(a1, a0), Subtract(b1, b0), Subtract(a0, b0);
    var gx, gy, gz := CoordinateGram(d1.x, d2.x, r.x), CoordinateGram(d1.y, d2.y, r.y), CoordinateGram(d1.z, d2.z, r.z);
    hide CoordinateGram, CoordinateSquare, DistanceSquared, Quadratic, GramOf, GramSum;
    DistanceByCoordinates(a0, a1, b0, b1, s, t);
    ExpandCoordinate(a0.x, b0.x, d1.x, d2.x, s, t);
    ExpandCoordinate(a0.y, b0.y, d1.y, d2.y, s, t);
    ExpandCoordinate(a0.z, b0.z, d1.z, d2.z, s, t);
    QuadraticAdditive(gx, gy, s, t);
    QuadraticAdditive(GramSum(gx, gy), gz, s, t);
    GramByCoordinates(a0, a1, b0, b1);
  }

  // ---------------------------------------------------------------------------
  // First-order optimality characterises the minimum.

  /** The quadratic around (s, t), exactly. */
  lemma SecondOrderExpansion(g: Gram, s: real, t: real, u: real, v: real)
    ensures Quadratic(g, u, v) - Quadratic(g, s, t) ==
            2.0 * (SlopeS(g, s, t) * (u - s)) + 2.0 * (SlopeT(g, s, t) * (v - t))
            + (g.a * ((u - s) * (u - s)) - 2.0 * (g.b * ((u - s) * (v - t))) + g.e * ((v - t) * (v - t)))
  {
  }

  /** a x^2 - 2 b x y + e y^2 is non-negative. */
  lemma FormNonNegative(g: Gram, x: real, y: real)
    requires IsGram(g)
    ensures g.a * (x * x) - 2.0 * (g.b * (x * y)) + g.e * (y * y) >= 0.0
  {
    var q := g.a * (x * x) - 2.0 * (g.b * (x * y)) + g.e * (y * y);
    SquareSign(y);
    if g.a <= 0.0 {
      assert g.b * (x * y) == 0.0 by { assert 0.0 * (x * y) == 0.0; }
      assert g.a * (x * x) == 0.0 by { assert g.a == 0.0; assert 0.0 * (x * x) == 0.0; }
      MulNonNegative(g.e, y * y);
    } else {
      var m := g.a * x - g.b * y;
      SquareSign(m);
      MulNonNegative(g.a * g.e - g.b * g.b, y * y);
      assert g.a * q == m * m + (g.a * g.e - g.b * g.b) * (y * y);
      NegativeFactor(g.a, q);
    }
  }

  /** On the unit interval an optimal slope never points towards another point. */
  lemma SlopeAwayFromInterior(slope: real, s: real, u: real)
    requires InUnit(s) && InUnit(u)
    requires (s < 1.0 ==> slope >= 0.0) && (s > 0.0 ==> slope <= 0.0)
    ensures slope * (u - s) >= 0.0
  {
    if u >= s {
      if s < 1.0 { MulNonNegative(slope, u - s); } else { assert u - s == 0.0; assert slope * 0.0 == 0.0; }
    } else {
      MulNonNegative(-slope, s - u);
      assert (-slope) * (s - u) == slope * (u - s);
    }
  }

  lemma StationaryIsNearest(g: Gram, s: real, t: real)
    requires IsGram(g) && Stationary(g, s, t)
    ensures Nearest(g, s, t)
  {
    forall u: real, v: real | InUnit(u) && InUnit(v)
      ensures Quadratic(g, s, t) <= Quadratic(g, u, v)
    {
      StationaryBeats(g, s, t, u, v);
    }
  }

  lemma StationaryBeats(g: Gram, s: real, t: real, u: real, v: real)
    requires IsGram(g) && Stationary(g, s, t) && InUnit(u) && InUnit(v)
    ensures Quadratic(g, s, t) <= Quadratic(g, u, v)
  {
    hide Quadratic, SlopeS, SlopeT, IsGram;
    SecondOrderExpansion(g, s, t, u, v);
    FormNonNegative(g, u - s, v - t);
    NoDescent(Quadratic(g, s, t), Quadratic(g, u, v), SlopeS(g, s, t), SlopeT(g, s, t), s, t, u, v,
              g.a * ((u - s) * (u - s)) - 2.0 * (g.b * ((u - s) * (v - t))) + g.e * ((v - t) * (v - t)));
  }

  lemma NoDescent(here: real, there: real, slopeS: real, slopeT: real, s: real, t: real, u: real, v: real, form: real)
    requires InUnit(s) && InUnit(t) && InUnit(u) && InUnit(v) && form >= 0.0
    requires (s < 1.0 ==> slopeS >= 0.0) && (s > 0.0 ==> slopeS <= 0.0)
    requires (t < 1.0 ==> slopeT >= 0.0) && (t > 0.0 ==> slopeT <= 0.0)
    requires there - here == 2.0 * (slopeS * (u - s)) + 2.0 * (slopeT * (v - t)) + form
    ensures here <= there
  {
    SlopeAwayFromInterior(slopeS, s, u);
    SlopeAwayFromInterior(slopeT, t, v);
  }

  /** A step of at most `room` against a slope of size m makes progress. */
  lemma DescentStep(m: real, a: real, room: real) returns (d: real)
    requires m > 0.0 && a >= 0.0 && 0.0 < room <= 1.0
    ensures 0.0 < d <= room
    ensures a * (d * d) - 2.0 * (m * d) < 0.0
  {
    var k := m / (m + a);
    assert k * (m + a) == m;
    assert 0.0 < k <= 1.0;
    d := room * k;
    var gap1 := MulMonotone(room, k, 1.0);
    var gap2 := MulMonotone(k, room, 1.0);
    assert d <= k;
    var gap3 := MulMonotone(a, d, k);
    assert a * k <= m by { assert k * m >= 0.0; assert a * k == m - k * m; }
    var gap4 := MulMonotone(d, a * d, m);
    assert d * (a * d) == a * (d * d);
    MulPositive(d, m);
  }

  /** Exchanging the two segments. */
  function Swap(g: Gram): Gram {
    Gram(g.e, g.b, -g.f, g.a, -g.c, g.rr)
  }

  lemma SwapFacts(g: Gram, s: real, t: real)
    ensures Quadratic(Swap(g), t, s) == Quadratic(g, s, t)
    ensures SlopeS(Swap(g), t, s) == SlopeT(g, s, t)
  {
  }

  lemma AlongS(g: Gram, s: real, t: real, d: real)
    ensures Quadratic(g, s + d, t) == Quadratic(g, s, t) + 2.0 * (SlopeS(g, s, t) * d) + g.a * (d * d)
  {
    SecondOrderExpansion(g, s, t, s + d, t);
  }

  /** A non-stationary s can be improved with t held fixed. */
  lemma ImproveS(g: Gram, s: real, t: real) returns (u: real)
    requires g.a >= 0.0 && InUnit(s)
    ensures InUnit(u)
    ensures s < 1.0 && SlopeS(g, s, t) < 0.0 ==> Quadratic(g, u, t) < Quadratic(g, s, t)
    ensures s > 0.0 && SlopeS(g, s, t) > 0.0 ==> Quadratic(g, u, t) < Quadratic(g, s, t)
  {
    var slope := SlopeS(g, s, t);
    u := s;
    if s < 1.0 && slope < 0.0 {
      var d := DescentStep(-slope, g.a, 1.0 - s);
      u := s + d;
      AlongS(g, s, t, d);
    } else if s > 0.0 && slope > 0.0 {
      var d := DescentStep(slope, g.a, s);
      u := s - d;
      AlongS(g, s, t, -d);
      assert (-d) * (-d) == d * d && slope * (-d) == -(slope * d);
    }
  }

  lemma NearestIsStationary(g: Gram, s: real, t: real)
    requires IsGram(g) && Nearest(g, s, t)
    ensures Stationary(g, s, t)
  {
    var u := ImproveS(g, s, t);
    assert Quadratic(g, s, t) <= Quadratic(g, u, t);
    var v := ImproveS(Swap(g), t, s);
    SwapFacts(g, s, t);
    SwapFacts(g, s, v);
    assert Quadratic(g, s, t) <= Quadratic(g, s, v);
  }

  // ---------------------------------------------------------------------------
  // The code's choice of parameters.

  function Determinant(g: Gram): real {
    g.a * g.e - g.b * g.b
  }

  /** The s tried first when both segments have length. */
  function TrialS(g: Gram): real {
    if Determinant(g) > NEGLIGIBLE then Clamp01((g.b * g.f - g.c * g.e) / Determinant(g)) else 0.0
  }

  datatype Parameters = Parameters(s: real, t: real)

  function ClosestParameters(g: Gram): (p: Parameters)
    ensures InUnit(p.s) && InUnit(p.t)
  {
    if g.a <= NEGLIGIBLE && g.e <= NEGLIGIBLE then Parameters(0.0, 0.0)
    else if g.a <= NEGLIGIBLE then Parameters(0.0, Clamp01(g.f / g.e))
    else if g.e <= NEGLIGIBLE then Parameters(Clamp01(-g.c / g.a), 0.0)
    else
      var s := TrialS(g);
      var t := (g.b * s + g.f) / g.e;
      if t < 0.0 then Parameters(Clamp01(-g.c / g.a), 0.0)
      else if t > 1.0 then Parameters(Clamp01((g.b - g.c) / g.a), 1.0)
      else Parameters(s, t)
  }

  /** The slope the code does not look at has the right sign.  Where the cut-off
      does not intervene there is nothing left to check. */
  predicate Resolved(g: Gram) {
    if g.a <= NEGLIGIBLE && g.e <= NEGLIGIBLE then g.c >= 0.0 && g.f <= 0.0
    else if g.a <= NEGLIGIBLE then g.b * Clamp01(g.f / g.e) <= g.c
    else if g.e <= NEGLIGIBLE then g.b * Clamp01(-g.c / g.a) + g.f <= 0.0
    else if Determinant(g) > NEGLIGIBLE then true
    else if g.f < 0.0 then g.b * Clamp01(-g.c / g.a) + g.f <= 0.0
    else if g.f > g.e then g.b * Clamp01((g.b - g.c) / g.a) + g.f >= g.e
    else g.b * g.f <= g.c * g.e
  }

  /** The same, in terms of the point chosen. */
  predicate ResolvedAt(g: Gram, s: real, t: real) {
    if g.a <= NEGLIGIBLE && g.e <= NEGLIGIBLE then g.c >= 0.0 && g.f <= 0.0
    else if g.a <= NEGLIGIBLE then g.b * t <= g.c
    else if g.e <= NEGLIGIBLE then g.b * s + g.f <= 0.0
    else if Determinant(g) > NEGLIGIBLE then true
    else if g.f < 0.0 then g.b * s + g.f <= 0.0
    else if g.f > g.e then g.b * s + g.f >= g.e
    else g.b * g.f <= g.c * g.e
  }

  /** Clamping the root p / k of the slope k x - p. */
  lemma ClampedRoot(p: real, k: real)
    requires k > 0.0
    ensures var x := Clamp01(p / k);
            InUnit(x) && (x < 1.0 ==> k * x >= p) && (x > 0.0 ==> k * x <= p)
  {
    Quotient(p, k);
    if p / k < 0.0 {
      var gap5 := MulStrict(k, p / k, 0.0);
    } else if p / k > 1.0 {
      var gap6 := MulStrict(k, 1.0, p / k);
    }
  }

  lemma QuotientOrder(p: real, k: real)
    requires k > 0.0
    ensures p / k < 0.0 <==> p < 0.0
    ensures p / k > 1.0 <==> p > k
  {
    Quotient(p, k);
    var x := p / k;
    if x < 0.0 { var gap7 := MulStrict(k, x, 0.0); } else { var gap8 := MulMonotone(k, 0.0, x); }
    if x > 1.0 { var gap9 := MulStrict(k, 1.0, x); } else { var gap10 := MulMonotone(k, x, 1.0); }
  }

  /** The slope in s along the line of stationary t: D x - (b f - c e), over e. */
  function Residual(g: Gram, x: real): real {
    g.e * (g.a * x + g.c) - g.b * (g.b * x + g.f)
  }

  lemma ResidualLinear(g: Gram, x: real, y: real)
    requires IsGram(g)
    ensures Residual(g, x) == Determinant(g) * x - (g.b * g.f - g.c * g.e)
    ensures x <= y ==> Residual(g, x) <= Residual(g, y)
  {
    assert Residual(g, x) == Determinant(g) * x - (g.b * g.f - g.c * g.e);
    assert Residual(g, y) == Determinant(g) * y - (g.b * g.f - g.c * g.e);
    if x <= y { var gap11 := MulMonotone(Determinant(g), x, y); }
  }

  /** The trial s is stationary for the residual, unless the cut-off chose it. */
  lemma TrialStationary(g: Gram)
    requires IsGram(g)
    requires Determinant(g) > NEGLIGIBLE || Determinant(g) <= 0.0
    ensures var s := TrialS(g);
            InUnit(s) && (s < 1.0 ==> Residual(g, s) >= 0.0) && (s > 0.0 ==> Residual(g, s) <= 0.0)
  {
    ResidualLinear(g, TrialS(g), TrialS(g));
    if Determinant(g) > NEGLIGIBLE {
      ClampedRoot(g.b * g.f - g.c * g.e, Determinant(g));
    }
  }

  /** With e y - b z = res, opposite signs of y and res against b force z <= 0. */
  lemma ReclampSign(b: real, e: real, y: real, z: real)
    requires e > 0.0
    requires b > 0.0 ==> y <= 0.0 && e * y - b * z >= 0.0
    requires b < 0.0 ==> y >= 0.0 && e * y - b * z <= 0.0
    requires b == 0.0 ==> z <= 0.0
    ensures z <= 0.0
  {
    if b > 0.0 {
      var gap12 := MulMonotone(e, y, 0.0);
      NegativeFactor(b, -z);
      assert b * (-z) == -(b * z);
    } else if b < 0.0 {
      var gap13 := MulMonotone(e, 0.0, y);
      NegativeFactor(-b, -z);
      assert (-b) * (-z) == b * z;
    }
  }

  /** b x + f stays non-positive on the side of s where it decreases. */
  lemma SameSide(b: real, f: real, s: real, x: real)
    requires b * s + f < 0.0
    requires (b > 0.0 && x <= s) || (b < 0.0 && s <= x) || b == 0.0
    ensures b * x + f <= 0.0
  {
    var bx := b * x;
    var bs := b * s;
    if b > 0.0 {
      var gap14 := MulMonotone(b, x, s);
    } else if b < 0.0 {
      var gap15 := MulMonotone(-b, s, x);
      assert (-b) * s == -bs && (-b) * x == -bx;
    }
  }

  /** Re-clamping s after t hit its lower end keeps t at that end. */
  lemma LowerReclamp(b: real, e: real, f: real, s: real, x: real, y: real, rs: real, rx: real)
    requires e > 0.0 && InUnit(s) && InUnit(x)
    requires (s < 1.0 ==> rs >= 0.0) && (s > 0.0 ==> rs <= 0.0)
    requires (x < 1.0 ==> y >= 0.0) && (x > 0.0 ==> y <= 0.0)
    requires (s <= x ==> rs <= rx) && (x <= s ==> rx <= rs)
    requires rx == e * y - b * (b * x + f)
    requires b * s + f < 0.0
    ensures b * x + f <= 0.0
  {
    if (b > 0.0 && x <= s) || (b < 0.0 && s <= x) || b == 0.0 {
      SameSide(b, f, s, x);
    } else {
      ReclampSign(b, e, y, b * x + f);
    }
  }

  /** The mirrored form of `LowerReclamp`, for the upper end t = 1. */
  lemma UpperReclamp(b: real, e: real, f: real, s: real, x: real, y: real, rs: real, rx: real)
    requires e > 0.0 && InUnit(s) && InUnit(x)
    requires (s < 1.0 ==> rs >= 0.0) && (s > 0.0 ==> rs <= 0.0)
    requires (x < 1.0 ==> y - b >= 0.0) && (x > 0.0 ==> y - b <= 0.0)
    requires (s <= x ==> rs <= rx) && (x <= s ==> rx <= rs)
    requires rx == e * y - b * (b * x + f)
    requires b * s + f > e
    ensures b * x + f >= e
  {
    var b' := -b;
    assert b' * s + (e - f) < 0.0 by { assert b' * s == -(b * s); }
    assert b' * x + (e - f) == e - (b * x + f);
    assert e * (y - b) - b' * (b' * x + (e - f)) == rx by {
      assert b' * (e - (b * x + f)) == -(b * e) + b * (b * x + f);
      assert e * (y - b) == e * y - b * e;
    }
    LowerReclamp(b', e, e - f, s, x, y - b, rs, rx);
  }

  // The three ways the two-length cascade can end, with the values it returns.

  /** The unclamped t times e. */
  function TrialT(g: Gram): real {
    g.b * TrialS(g) + g.f
  }

  lemma TrialTCutOff(g: Gram)
    requires Determinant(g) <= NEGLIGIBLE
    ensures TrialT(g) == g.f
  {
    assert TrialS(g) == 0.0;
  }

  lemma LowerValue(g: Gram)
    requires g.a > NEGLIGIBLE && g.e > NEGLIGIBLE && TrialT(g) < 0.0
    ensures ClosestParameters(g) == Parameters(Clamp01(-g.c / g.a), 0.0)
  {
    QuotientOrder(TrialT(g), g.e);
  }

  lemma UpperValue(g: Gram)
    requires g.a > NEGLIGIBLE && g.e > NEGLIGIBLE && TrialT(g) > g.e
    ensures ClosestParameters(g) == Parameters(Clamp01((g.b - g.c) / g.a), 1.0)
  {
    QuotientOrder(TrialT(g), g.e);
  }

  lemma MiddleValue(g: Gram)
    requires g.a > NEGLIGIBLE && g.e > NEGLIGIBLE && 0.0 <= TrialT(g) <= g.e
    ensures ClosestParameters(g) == Parameters(TrialS(g), TrialT(g) / g.e)
  {
    QuotientOrder(TrialT(g), g.e);
  }

  /** At t = 0 with s clamped, only the slope in t is left to check. */
  lemma StationaryAtZero(g: Gram, x: real)
    requires InUnit(x) && (x < 1.0 ==> g.a * x >= -g.c) && (x > 0.0 ==> g.a * x <= -g.c)
    ensures Stationary(g, x, 0.0) <==> g.b * x + g.f <= 0.0
  {
  }

  lemma StationaryAtOne(g: Gram, x: real)
    requires InUnit(x) && (x < 1.0 ==> g.a * x >= g.b - g.c) && (x > 0.0 ==> g.a * x <= g.b - g.c)
    ensures Stationary(g, x, 1.0) <==> g.b * x + g.f >= g.e
  {
  }

  // Facts about the three outcomes, without mention of how s was tried.

  /** s is the root of the residual, clamped; x is the re-clamped root in s. */
  lemma LowerReclampAt(g: Gram, s: real, x: real, rs: real, rx: real)
    requires g.e > 0.0 && InUnit(s) && InUnit(x)
    requires (s < 1.0 ==> rs >= 0.0) && (s > 0.0 ==> rs <= 0.0)
    requires (x < 1.0 ==> g.a * x >= -g.c) && (x > 0.0 ==> g.a * x <= -g.c)
    requires (s <= x ==> rs <= rx) && (x <= s ==> rx <= rs)
    requires rx == Residual(g, x)
    requires g.b * s + g.f < 0.0
    ensures g.b * x + g.f <= 0.0
  {
    LowerReclamp(g.b, g.e, g.f, s, x, g.a * x + g.c, rs, rx);
  }

  lemma UpperReclampAt(g: Gram, s: real, x: real, rs: real, rx: real)
    requires g.e > 0.0 && InUnit(s) && InUnit(x)
    requires (s < 1.0 ==> rs >= 0.0) && (s > 0.0 ==> rs <= 0.0)
    requires (x < 1.0 ==> g.a * x >= g.b - g.c) && (x > 0.0 ==> g.a * x <= g.b - g.c)
    requires (s <= x ==> rs <= rx) && (x <= s ==> rx <= rs)
    requires rx == Residual(g, x)
    requires g.b * s + g.f > g.e
    ensures g.b * x + g.f >= g.e
  {
    UpperReclamp(g.b, g.e, g.f, s, x, g.a * x + g.c, rs, rx);
  }

  lemma LowerResolved(g: Gram, x: real)
    requires IsGram(g) && g.a > NEGLIGIBLE && g.e > NEGLIGIBLE && Determinant(g) > NEGLIGIBLE
    requires TrialT(g) < 0.0
    requires InUnit(x) && (x < 1.0 ==> g.a * x >= -g.c) && (x > 0.0 ==> g.a * x <= -g.c)
    ensures g.b * x + g.f <= 0.0
  {
    TrialStationary(g);
    ResidualOrder(g, TrialS(g), x);
    LowerReclampAt(g, TrialS(g), x, Residual(g, TrialS(g)), Residual(g, x));
  }

  lemma UpperResolved(g: Gram, x: real)
    requires IsGram(g) && g.a > NEGLIGIBLE && g.e > NEGLIGIBLE && Determinant(g) > NEGLIGIBLE
    requires TrialT(g) > g.e
    requires InUnit(x) && (x < 1.0 ==> g.a * x >= g.b - g.c) && (x > 0.0 ==> g.a * x <= g.b - g.c)
    ensures g.b * x + g.f >= g.e
  {
    TrialStationary(g);
    ResidualOrder(g, TrialS(g), x);
    UpperReclampAt(g, TrialS(g), x, Residual(g, TrialS(g)), Residual(g, x));
  }

  lemma ResidualOrder(g: Gram, s: real, x: real)
    requires IsGram(g)
    ensures (s <= x ==> Residual(g, s) <= Residual(g, x)) && (x <= s ==> Residual(g, x) <= Residual(g, s))
  {
    ResidualLinear(g, s, x);
    ResidualLinear(g, x, s);
  }

  /** With t solved exactly, the slope in s is the residual over e. */
  lemma MiddleSlope(g: Gram, s: real, t: real)
    requires g.e > 0.0 && t * g.e == g.b * s + g.f
    ensures SlopeT(g, s, t) == 0.0
    ensures SlopeS(g, s, t) >= 0.0 <==> Residual(g, s) >= 0.0
    ensures SlopeS(g, s, t) <= 0.0 <==> Residual(g, s) <= 0.0
  {
    var y := SlopeS(g, s, t);
    assert g.e * y == Residual(g, s) by {
      assert g.e * (g.b * t) == g.b * (t * g.e);
    }
    FactorSign(g.e, y);
  }

  lemma FactorSign(k: real, y: real)
    requires k > 0.0
    ensures y >= 0.0 <==> k * y >= 0.0
    ensures y <= 0.0 <==> k * y <= 0.0
  {
    NegativeFactor(k, y);
    NegativeFactor(k, -y);
    assert k * (-y) == -(k * y);
    if y >= 0.0 {
      MulNonNegative(k, y);
    } else {
      MulNonNegative(k, -y);
    }
  }

  lemma LowerVerdict(g: Gram, x: real)
    requires g.a > NEGLIGIBLE && g.e > NEGLIGIBLE
    requires InUnit(x) && (x < 1.0 ==> g.a * x >= -g.c) && (x > 0.0 ==> g.a * x <= -g.c)
    requires Determinant(g) > NEGLIGIBLE ==> g.b * x + g.f <= 0.0
    requires Determinant(g) <= NEGLIGIBLE ==> g.f < 0.0
    ensures Stationary(g, x, 0.0) <==> ResolvedAt(g, x, 0.0)
  {
    StationaryAtZero(g, x);
  }

  lemma UpperVerdict(g: Gram, x: real)
    requires g.a > NEGLIGIBLE && g.e > NEGLIGIBLE
    requires InUnit(x) && (x < 1.0 ==> g.a * x >= g.b - g.c) && (x > 0.0 ==> g.a * x <= g.b - g.c)
    requires Determinant(g) > NEGLIGIBLE ==> g.b * x + g.f >= g.e
    requires Determinant(g) <= NEGLIGIBLE ==> g.f > g.e
    ensures Stationary(g, x, 1.0) <==> ResolvedAt(g, x, 1.0)
  {
    StationaryAtOne(g, x);
  }

  lemma MiddleVerdict(g: Gram, s: real, t: real)
    requires g.a > NEGLIGIBLE && g.e > NEGLIGIBLE && InUnit(s) && InUnit(t)
    requires t * g.e == g.b * s + g.f
    requires Determinant(g) > NEGLIGIBLE ==>
               (s < 1.0 ==> Residual(g, s) >= 0.0) && (s > 0.0 ==> Residual(g, s) <= 0.0)
    requires Determinant(g) <= NEGLIGIBLE ==>
               s == 0.0 && 0.0 <= g.f <= g.e && Residual(g, s) == g.c * g.e - g.b * g.f
    ensures Stationary(g, s, t) <==> ResolvedAt(g, s, t)
  {
    MiddleSlope(g, s, t);
  }

  lemma FirstPointVerdict(g: Gram, t: real)
    requires g.a <= NEGLIGIBLE && g.e > NEGLIGIBLE
    requires InUnit(t) && (t < 1.0 ==> g.e * t >= g.f) && (t > 0.0 ==> g.e * t <= g.f)
    ensures Stationary(g, 0.0, t) <==> ResolvedAt(g, 0.0, t)
  {
    assert SlopeT(g, 0.0, t) == g.e * t - g.f;
    assert SlopeS(g, 0.0, t) == g.c - g.b * t;
  }

  lemma SecondPointVerdict(g: Gram, s: real)
    requires g.a > NEGLIGIBLE && g.e <= NEGLIGIBLE
    requires InUnit(s) && (s < 1.0 ==> g.a * s >= -g.c) && (s > 0.0 ==> g.a * s <= -g.c)
    ensures Stationary(g, s, 0.0) <==> ResolvedAt(g, s, 0.0)
  {
    StationaryAtZero(g, s);
  }

  lemma LowerCase(g: Gram, x: real)
    requires IsGram(g) && g.a > NEGLIGIBLE && g.e > NEGLIGIBLE && TrialT(g) < 0.0
    requires x == Clamp01(-g.c / g.a)
    ensures Stationary(g, x, 0.0) <==> ResolvedAt(g, x, 0.0)
  {
    ClampedRoot(-g.c, g.a);
    if Determinant(g) > NEGLIGIBLE { LowerResolved(g, x); } else { TrialTCutOff(g); }
    LowerVerdict(g, x);
  }

  lemma UpperCase(g: Gram, x: real)
    requires IsGram(g) && g.a > NEGLIGIBLE && g.e > NEGLIGIBLE && TrialT(g) > g.e
    requires x == Clamp01((g.b - g.c) / g.a)
    ensures Stationary(g, x, 1.0) <==> ResolvedAt(g, x, 1.0)
  {
    ClampedRoot(g.b - g.c, g.a);
    if Determinant(g) > NEGLIGIBLE { UpperResolved(g, x); } else { TrialTCutOff(g); }
    UpperVerdict(g, x);
  }

  lemma ResidualAtZero(g: Gram)
    ensures Residual(g, 0.0) == g.c * g.e - g.b * g.f
  {
    assert g.a * 0.0 + g.c == g.c && g.b * 0.0 + g.f == g.f;
  }

  lemma MiddleCase(g: Gram, s: real, t: real)
    requires IsGram(g) && g.a > NEGLIGIBLE && g.e > NEGLIGIBLE && 0.0 <= TrialT(g) <= g.e
    requires s == TrialS(g) && t == TrialT(g) / g.e
    ensures Stationary(g, s, t) <==> ResolvedAt(g, s, t)
  {
    QuotientOrder(TrialT(g), g.e);
    Quotient(TrialT(g), g.e);
    if Determinant(g) > NEGLIGIBLE { TrialStationary(g); } else { TrialTCutOff(g); ResidualAtZero(g); }
    MiddleVerdict(g, s, t);
  }

  lemma TwoLengthCase(g: Gram, s: real, t: real)
    requires IsGram(g) && g.a > NEGLIGIBLE && g.e > NEGLIGIBLE
    requires ClosestParameters(g) == Parameters(s, t)
    ensures Stationary(g, s, t) <==> ResolvedAt(g, s, t)
  {
    hide Stationary, ResolvedAt, IsGram, TrialT, TrialS, Clamp01;
    if TrialT(g) < 0.0 {
      LowerValue(g);
      LowerCase(g, s);
    } else if TrialT(g) > g.e {
      UpperValue(g);
      UpperCase(g, s);
    } else {
      MiddleValue(g);
      MiddleCase(g, s, t);
    }
  }

  lemma OriginVerdict(g: Gram)
    requires g.a <= NEGLIGIBLE && g.e <= NEGLIGIBLE
    ensures Stationary(g, 0.0, 0.0) <==> ResolvedAt(g, 0.0, 0.0)
  {
    assert SlopeS(g, 0.0, 0.0) == g.c && SlopeT(g, 0.0, 0.0) == -g.f;
  }

  lemma PointCase(g: Gram, s: real, t: real)
    requires IsGram(g) && (g.a <= NEGLIGIBLE || g.e <= NEGLIGIBLE)
    requires ClosestParameters(g) == Parameters(s, t)
    ensures Stationary(g, s, t) <==> ResolvedAt(g, s, t)
  {
    hide Stationary, ResolvedAt, IsGram, Clamp01;
    if g.a <= NEGLIGIBLE && g.e <= NEGLIGIBLE {
      OriginVerdict(g);
    } else if g.a <= NEGLIGIBLE {
      ClampedRoot(g.f, g.e);
      FirstPointVerdict(g, t);
    } else {
      ClampedRoot(-g.c, g.a);
      SecondPointVerdict(g, s);
    }
  }

  lemma ResolvedAtPoint(g: Gram, s: real, t: real)
    requires ClosestParameters(g) == Parameters(s, t) && (g.a <= NEGLIGIBLE || g.e <= NEGLIGIBLE)
    ensures Resolved(g) <==> ResolvedAt(g, s, t)
  {
    hide Clamp01, Determinant, TrialS;
  }

  lemma ResolvedAtLengths(g: Gram, s: real, t: real)
    requires ClosestParameters(g) == Parameters(s, t) && g.a > NEGLIGIBLE && g.e > NEGLIGIBLE
    ensures Resolved(g) <==> ResolvedAt(g, s, t)
  {
    hide Clamp01, Determinant, ClosestParameters;
    if Determinant(g) <= NEGLIGIBLE {
      TrialTCutOff(g);
      if g.f < 0.0 {
        LowerValue(g);
      } else if g.f > g.e {
        UpperValue(g);
      }
    }
  }

  /** The condition on the inputs is the condition at the point chosen from them. */
  lemma ResolvedAtChoice(g: Gram, s: real, t: real)
    requires ClosestParameters(g) == Parameters(s, t)
    ensures Resolved(g) <==> ResolvedAt(g, s, t)
  {
    hide Resolved, ResolvedAt, ClosestParameters;
    if g.a <= NEGLIGIBLE || g.e <= NEGLIGIBLE {
      ResolvedAtPoint(g, s, t);
    } else {
      ResolvedAtLengths(g, s, t);
    }
  }

  /** The chosen point satisfies first-order optimality exactly when resolved. */
  lemma StationaryIffResolved(g: Gram, s: real, t: real)
    requires IsGram(g) && ClosestParameters(g) == Parameters(s, t)
    ensures Stationary(g, s, t) <==> Resolved(g)
  {
    ResolvedAtChoice(g, s, t);
    if g.a > NEGLIGIBLE && g.e > NEGLIGIBLE {
      TwoLengthCase(g, s, t);
    } else {
      PointCase(g, s, t);
    }
  }

  /** The code's point is a global minimiser over the unit square if and only if
      the slopes it skipped because of the cut-off have the right sign. */
  lemma CodeIsNearestIffResolved(a0: Vec3, a1: Vec3, b0: Vec3, b1: Vec3)
    ensures var g := GramOf(a0, a1, b0, b1);
            Nearest(g, ClosestParameters(g).s, ClosestParameters(g).t) <==> Resolved(g)
  {
    var g := GramOf(a0, a1, b0, b1);
    var s, t := ClosestParameters(g).s, ClosestParameters(g).t;
    SegmentsHaveGram(a0, a1, b0, b1);
    StationaryIffResolved(g, s, t);
    if Resolved(g) {
      StationaryIsNearest(g, s, t);
    }
    if Nearest(g, s, t) {
      NearestIsStationary(g, s, t);
    }
  }

  /** Zero, or larger than the cut-off. */
  predicate CleanlySized(x: real) {
    x <= 0.0 || x > NEGLIGIBLE
  }

  /** When each length and the determinant is zero or above the cut-off (parallel
      segments and points included) the choice is always resolved. */
  lemma CleanInputsAreResolved(g: Gram)
    requires IsGram(g)
    requires CleanlySized(g.a) && CleanlySized(g.e) && CleanlySized(Determinant(g))
    ensures Resolved(g)
  {
    if g.a > NEGLIGIBLE && g.e > NEGLIGIBLE && Determinant(g) <= NEGLIGIBLE {
      TrialTCutOff(g);
      TrialStationary(g);
      if g.f < 0.0 {
        LowerValue(g);
        ParallelLower(g, Clamp01(-g.c / g.a));
      } else if g.f > g.e {
        UpperValue(g);
        ParallelUpper(g, Clamp01((g.b - g.c) / g.a));
      }
    }
  }

  lemma ParallelLower(g: Gram, x: real)
    requires IsGram(g) && g.a > NEGLIGIBLE && g.e > NEGLIGIBLE && Determinant(g) <= 0.0
    requires g.f < 0.0 && x == Clamp01(-g.c / g.a)
    ensures g.b * x + g.f <= 0.0
  {
    ClampedRoot(-g.c, g.a);
    ParallelResidual(g, x);
    assert g.b * 0.0 + g.f == g.f;
    LowerReclampAt(g, 0.0, x, 0.0, Residual(g, x));
  }

  lemma ParallelUpper(g: Gram, x: real)
    requires IsGram(g) && g.a > NEGLIGIBLE && g.e > NEGLIGIBLE && Determinant(g) <= 0.0
    requires g.f > g.e && x == Clamp01((g.b - g.c) / g.a)
    ensures g.b * x + g.f >= g.e
  {
    ClampedRoot(g.b - g.c, g.a);
    ParallelResidual(g, x);
    assert g.b * 0.0 + g.f == g.f;
    UpperReclampAt(g, 0.0, x, 0.0, Residual(g, x));
  }

  lemma ParallelResidual(g: Gram, x: real)
    requires IsGram(g) && Determinant(g) <= 0.0
    ensures Residual(g, x) == 0.0
  {
    ResidualLinear(g, x, x);
    assert Determinant(g) == 0.0;
    assert 0.0 * x == 0.0;
  }

  /** A segment of length w at height 1 along x, over a segment of length h along y
      that starts at x = q. */
  lemma CrossedScene(w: real, h: real, q: real)
    ensures GramOf(Vec3(0.0, 0.0, 1.0), Vec3(w, 0.0, 1.0), Vec3(q, 0.0, 0.0), Vec3(q, h, 0.0)) ==
            Gram(w * w, 0.0, -(w * q), h * h, 0.0, q * q + 1.0)
  {
  }

  /** The cut-off matters: a 0.5 m segment crossed one metre away by a perpendicular
      segment 1.2 nm long.  The determinant falls below the cut-off, s stays at 0, and
      the squared distance is reported as 17/16 instead of 1. */
  lemma CutOffCanMissTheMinimum()
    ensures var g := GramOf(Vec3(0.0, 0.0, 1.0), Vec3(0.5, 0.0, 1.0), Vec3(0.25, 0.0, 0.0), Vec3(0.25, 0.0000000012, 0.0));
            && ClosestParameters(g) == Parameters(0.0, 0.0) && !Resolved(g)
            && Quadratic(g, 0.0, 0.0) == 1.0625 && Quadratic(g, 0.5, 0.0) == 1.0
  {
    hide ClosestParameters, Resolved, Quadratic, GramOf;
    CrossedScene(0.5, 0.0000000012, 0.25);
    MissedGram(Gram(0.25, 0.0, -0.125, 0.00000000000000000144, 0.0, 1.0625));
  }

  lemma MissedGram(g: Gram)
    requires g == Gram(0.25, 0.0, -0.125, 0.00000000000000000144, 0.0, 1.0625)
    ensures ClosestParameters(g) == Parameters(0.0, 0.0) && !Resolved(g)
    ensures Quadratic(g, 0.0, 0.0) == 1.0625 && Quadratic(g, 0.5, 0.0) == 1.0
  {
    assert Determinant(g) == 0.00000000000000000036;
    assert !(g.b * g.f <= g.c * g.e);
    MissedByCutOff(g);
  }

  /** A cut-off determinant with the wrong slope at s = 0 is never resolved. */
  lemma MissedByCutOff(g: Gram)
    requires g.a > NEGLIGIBLE && g.e > NEGLIGIBLE && Determinant(g) <= NEGLIGIBLE
    requires 0.0 <= g.f <= g.e && !(g.b * g.f <= g.c * g.e)
    ensures ClosestParameters(g) == Parameters(0.0, g.f / g.e) && !Resolved(g)
  {
    TrialTCutOff(g);
    MiddleValue(g);
  }

  // ---------------------------------------------------------------------------
  // The routine itself.

  /** A clearance in metres, or the fail-closed minus infinity. */
  datatype Clearance = Unusable | Metres(value: real)

  /** Distance between the centreline points at s and t, less the summed radii. */
  function ClearanceAt(sqrt: real -> real, a0: Vec3, a1: Vec3, b0: Vec3, b1: Vec3,
                       radii: real, s: real, t: real): real {
    sqrt(DistanceSquared(a0, a1, b0, b1, s, t)) - radii
  }

  method SegmentClearanceDetail(sqrt: real -> real, a0: Vec3, a1: Vec3, b0: Vec3, b1: Vec3,
                                radiusA: real, radiusB: real)
    returns (clearance: Clearance, s: real, t: real)
    requires IsSquareRoot(sqrt)
    ensures clearance == Unusable <==> radiusA < 0.0 || radiusB < 0.0
    ensures Parameters(s, t) == if clearance == Unusable then Parameters(0.0, 0.0) else ClosestParameters(GramOf(a0, a1, b0, b1))
    ensures clearance.Metres? ==> clearance.value == ClearanceAt(sqrt, a0, a1, b0, b1, radiusA + radiusB, s, t)
    ensures clearance.Metres? && Resolved(GramOf(a0, a1, b0, b1)) ==>
              forall u: real, v: real :: InUnit(u) && InUnit(v) ==>
                clearance.value <= ClearanceAt(sqrt, a0, a1, b0, b1, radiusA + radiusB, u, v)
  {
    if radiusA < 0.0 || radiusB < 0.0 {
      return Unusable, 0.0, 0.0;
    }
    var chosen := ClosestParameters(GramOf(a0, a1, b0, b1));
    s, t := chosen.s, chosen.t;
    var pointA := AddScaled(a0, Subtract(a1, a0), s);
    var pointB := AddScaled(b0, Subtract(b1, b0), t);
    var difference := Subtract(pointA, pointB);
    clearance := Metres(sqrt(Dot(difference, difference)) - (radiusA + radiusB));
    MinimumDistance(sqrt, a0, a1, b0, b1, radiusA + radiusB);
  }

  lemma MinimumDistance(sqrt: real -> real, a0: Vec3, a1: Vec3, b0: Vec3, b1: Vec3, radii: real)
    requires IsSquareRoot(sqrt)
    ensures Resolved(GramOf(a0, a1, b0, b1)) ==>
              var Parameters(s, t) := ClosestParameters(GramOf(a0, a1, b0, b1));
              forall u: real, v: real :: InUnit(u) && InUnit(v) ==>
                ClearanceAt(sqrt, a0, a1, b0, b1, radii, s, t) <= ClearanceAt(sqrt, a0, a1, b0, b1, radii, u, v)
  {
    var g := GramOf(a0, a1, b0, b1);
    if Resolved(g) {
      var s, t := ClosestParameters(g).s, ClosestParameters(g).t;
      CodeIsNearestIffResolved(a0, a1, b0, b1);
      forall u: real, v: real | InUnit(u) && InUnit(v)
        ensures ClearanceAt(sqrt, a0, a1, b0, b1, radii, s, t) <= ClearanceAt(sqrt, a0, a1, b0, b1, radii, u, v)
      {
        DistanceIsQuadratic(a0, a1, b0, b1, s, t);
        DistanceIsQuadratic(a0, a1, b0, b1, u, v);
        DotSelfNonNegative(Subtract(AddScaled(a0, Subtract(a1, a0), s), AddScaled(b0, Subtract(b1, b0), t)));
        SquareRootMonotone(sqrt, DistanceSquared(a0, a1, b0, b1, s, t), DistanceSquared(a0, a1, b0, b1, u, v));
      }
    }
  }
}
