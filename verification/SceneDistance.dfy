/** What a collision report says about the arms themselves: capsules around eight points a
    side, and the pole between them. */
module SceneDistance {
  import opened Common
  import opened RealFacts
  import opened Geometry
  import opened PlanarNorm
  import opened CollisionScene
  import SD = SegmentDistance
  import CS = CylinderSearch

  const ARM_RADIUS_M: real := 0.05
  const TOOL_RADIUS_M: real := 0.075
  const POLE: CS.Cylinder := CS.Cylinder(0.04242640687119285, 0.008, 0.758)

  /** The centreline points of both arms, by side and index. */
  type Points = (nat, nat) -> Vec3

  /** Capsule radius of a segment against the other arm. */
  function Radius(segment: nat): real {
    if segment == 6 then TOOL_RADIUS_M else ARM_RADIUS_M
  }

  /** And against the pole, where the first link counts as its centreline. */
  function PoleRadius(segment: nat): real {
    if segment == 0 then 0.0 else Radius(segment)
  }

  /** The bodies: links of 50 mm, tools of 75 mm, the first link against the pole only as its
      centreline, and the pole's circumscribed cylinder. */
  lemma BodiesAre(segment: nat)
    ensures Radius(segment) == (if segment == 6 then 0.075 else 0.05)
    ensures PoleRadius(segment) == (if segment == 0 then 0.0 else if segment == 6 then 0.075 else 0.05)
    ensures POLE.radius == 0.04242640687119285 && POLE.bottom == 0.008 && POLE.top == 0.758
  {
  }

  function PairGram(p: Points, left: nat, right: nat): SD.Gram {
    SD.GramOf(p(0, left), p(0, left + 1), p(1, right), p(1, right + 1))
  }

  /** Clearance of two segments' points at s and t. */
  function PairGap(f: real -> real, p: Points, left: nat, right: nat, s: real, t: real): real {
    SD.ClearanceAt(f, p(0, left), p(0, left + 1), p(1, right), p(1, right + 1), Radius(left) + Radius(right), s, t)
  }

  function PoleProblem(f: real -> real, p: Points, side: nat, segment: nat): CS.Problem {
    CS.Problem(f, POLE, p(side, segment), Subtract(p(side, segment + 1), p(side, segment)))
  }

  /** Every clearance of the points, as the two routines compute them. */
  function SceneOf(f: real -> real, p: Points): Scene {
    Scene(
      (left: nat, right: nat) =>
        var chosen := SD.ClosestParameters(PairGram(p, left, right));
        Detail(PairGap(f, p, left, right, chosen.s, chosen.t), chosen.s, chosen.t),
      (side: nat, segment: nat) => CS.Reported(PoleProblem(f, p, side, segment), PoleRadius(segment)))
  }

  /** Both routines, called for one pair and one segment, give the scene's entries. */
  method Measure(f: real -> real, p: Points, left: nat, right: nat, side: nat, segment: nat)
    returns (pair: Detail, pole: real)
    requires IsSquareRoot(f)
    ensures pair == SceneOf(f, p).pair(left, right) && pole == SceneOf(f, p).pole(side, segment)
  {
    hide SD.ClosestParameters, SD.ClearanceAt, CS.Reported;
    var clearance, s, t := SD.SegmentClearanceDetail(f, p(0, left), p(0, left + 1), p(1, right), p(1, right + 1),
                                                     Radius(left), Radius(right));
    pair := Detail(clearance.value, s, t);
    var valid, value :=
      CS.CapsuleClearance(f, p(side, segment), p(side, segment + 1), POLE, PoleRadius(segment));
    pole := value;
  }

  // ---------------------------------------------------------------------------
  // The true clearance of check k, point by point along the centrelines.

  function Gap(f: real -> real, p: Points, k: nat, s: real, t: real): real {
    if k < ARM_PAIRS then PairGap(f, p, k / SEGMENTS, k % SEGMENTS, s, t)
    else
      var side, segment := (k - ARM_PAIRS) / SEGMENTS, (k - ARM_PAIRS) % SEGMENTS;
      CS.Distance(PoleProblem(f, p, side, segment), t) - PoleRadius(segment)
  }

  /** The clearances of check k over both centrelines. */
  function Gaps(f: real -> real, p: Points, k: nat): (real, real) -> real {
    (s, t) => Gap(f, p, k, s, t)
  }

  /** None of these clearances is less. */
  ghost predicate Beyond(gaps: (real, real) -> real, least: real) {
    forall s: real, t: real :: InUnit(s) && InUnit(t) ==> least <= gaps(s, t)
  }

  /** Some of these clearances is no more. */
  ghost predicate Within(gaps: (real, real) -> real, most: real) {
    exists s: real, t: real :: InUnit(s) && InUnit(t) && gaps(s, t) <= most
  }

  lemma BeyondLess(gaps: (real, real) -> real, least: real, less: real)
    requires Beyond(gaps, least) && less <= least
    ensures Beyond(gaps, less)
  {
  }

  lemma WithinMore(gaps: (real, real) -> real, most: real, more: real)
    requires Within(gaps, most) && most <= more
    ensures Within(gaps, more)
  {
  }

  lemma BothSides(gaps: (real, real) -> real, least: real, most: real)
    requires Beyond(gaps, least) && Within(gaps, most)
    ensures least <= most
  {
  }

  /** Inputs on which the routine finds the minimum: for a pair of segments, the cut-offs skip
      no slope; for a segment and the pole, it is not absurdly long. */
  predicate Exact(f: real -> real, p: Points, k: nat) {
    if k < ARM_PAIRS then SD.Resolved(PairGram(p, k / SEGMENTS, k % SEGMENTS))
    else CS.Length(PoleProblem(f, p, (k - ARM_PAIRS) / SEGMENTS, (k - ARM_PAIRS) % SEGMENTS)) <= CS.LONGEST_M
  }

  lemma PairIsTrue(f: real -> real, p: Points, left: nat, right: nat)
    requires IsSquareRoot(f)
    ensures var d := SceneOf(f, p).pair(left, right);
            && InUnit(d.s) && InUnit(d.t) && d.value == PairGap(f, p, left, right, d.s, d.t)
            && (SD.Resolved(PairGram(p, left, right)) ==>
                  forall s: real, t: real :: InUnit(s) && InUnit(t) ==> d.value <= PairGap(f, p, left, right, s, t))
  {
    hide SD.ClearanceAt, SD.Resolved, SD.GramOf;
    SD.MinimumDistance(f, p(0, left), p(0, left + 1), p(1, right), p(1, right + 1), Radius(left) + Radius(right));
  }

  lemma PoleIsTrue(f: real -> real, p: Points, side: nat, segment: nat)
    requires IsSquareRoot(f)
    ensures var g, v := PoleProblem(f, p, side, segment), SceneOf(f, p).pole(side, segment);
            && (CS.Length(g) <= CS.LONGEST_M ==> forall t :: InUnit(t) ==> v <= CS.Distance(g, t) - PoleRadius(segment))
            && InUnit(CS.Found(g)) && CS.Distance(g, CS.Found(g)) - PoleRadius(segment) <= v + CS.BIAS_M
  {
    hide CS.Reported, CS.Distance, CS.Length, CS.Shrink, Times, CS.Found;
    var g := PoleProblem(f, p, side, segment);
    CS.ReportedIsClose(g, PoleRadius(segment));
    if CS.Length(g) <= CS.LONGEST_M {
      CS.BracketIsShort(g);
    }
  }

  /** Each value is the true clearance of its check: not above it anywhere, and reached to
      within the bias of the search. */
  lemma ValueIsTrue(f: real -> real, p: Points, k: nat)
    requires IsSquareRoot(f) && k < CHECKS
    ensures Exact(f, p, k) ==> Beyond(Gaps(f, p, k), Value(SceneOf(f, p), k))
    ensures Within(Gaps(f, p, k), Value(SceneOf(f, p), k) + CS.BIAS_M)
  {
    hide SceneOf, PairGap, CS.Found, CS.Distance, CS.Length, PoleProblem, SD.Resolved, PairGram, Radius, PoleRadius;
    if k < ARM_PAIRS {
      PairIsTrue(f, p, k / SEGMENTS, k % SEGMENTS);
      var d := SceneOf(f, p).pair(k / SEGMENTS, k % SEGMENTS);
      assert Gaps(f, p, k)(d.s, d.t) == d.value;
    } else {
      var side, segment := (k - ARM_PAIRS) / SEGMENTS, (k - ARM_PAIRS) % SEGMENTS;
      PoleIsTrue(f, p, side, segment);
      var g := PoleProblem(f, p, side, segment);
      var t := CS.Found(g);
      assert Gaps(f, p, k)(t, t) == CS.Distance(g, t) - PoleRadius(segment);
    }
  }

  // ---------------------------------------------------------------------------
  // From centrelines to solids.

  function Separation(f: real -> real, x: Vec3, y: Vec3): real {
    f(CS.Apart(x, y))
  }

  function Along(a: Vec3, b: Vec3, t: real): Vec3 {
    AddScaled(a, Subtract(b, a), t)
  }

  /** The points within a radius of the segment from a to b. */
  ghost predicate InCapsule(f: real -> real, a: Vec3, b: Vec3, radius: real, x: Vec3) {
    exists t :: InUnit(t) && Separation(f, x, Along(a, b, t)) <= radius
  }

  ghost predicate InFirst(f: real -> real, p: Points, k: nat, x: Vec3) {
    if k < ARM_PAIRS then InCapsule(f, p(0, k / SEGMENTS), p(0, k / SEGMENTS + 1), Radius(k / SEGMENTS), x)
    else
      var side, segment := (k - ARM_PAIRS) / SEGMENTS, (k - ARM_PAIRS) % SEGMENTS;
      InCapsule(f, p(side, segment), p(side, segment + 1), PoleRadius(segment), x)
  }

  ghost predicate InSecond(f: real -> real, p: Points, k: nat, y: Vec3) {
    if k < ARM_PAIRS then InCapsule(f, p(1, k % SEGMENTS), p(1, k % SEGMENTS + 1), Radius(k % SEGMENTS), y)
    else CS.Inside(f, POLE, y)
  }

  /** Any point of the one solid of check k is this far from any point of the other. */
  ghost predicate SolidsApart(f: real -> real, p: Points, k: nat, gap: real) {
    forall x, y :: InFirst(f, p, k, x) && InSecond(f, p, k, y) ==> gap <= Separation(f, x, y)
  }

  function Sum(u: Vec3, v: Vec3): Vec3 {
    Vec3(u.x + v.x, u.y + v.y, u.z + v.z)
  }

  lemma LengthIsNorm(f: real -> real, v: Vec3)
    requires IsSquareRoot(f)
    ensures f(Dot(v, v)) == Norm(f, Norm(f, v.x, v.y), Abs(v.z)) && Norm(f, v.x, v.y) >= 0.0
  {
    NormSquare(f, v.x, v.y);
    CS.AbsSquare(v.z);
    NormOfSquares(f, Norm(f, v.x, v.y), Abs(v.z), Dot(v, v));
  }

  lemma TriangleInSpace(f: real -> real, u: Vec3, v: Vec3)
    requires IsSquareRoot(f)
    ensures f(Dot(Sum(u, v), Sum(u, v))) <= f(Dot(u, u)) + f(Dot(v, v))
  {
    hide Norm, Dot;
    LengthIsNorm(f, u);
    LengthIsNorm(f, v);
    LengthIsNorm(f, Sum(u, v));
    var n, m := Norm(f, u.x, u.y), Norm(f, v.x, v.y);
    Triangle(f, u.x, u.y, v.x, v.y);
    NormMonotone(f, Norm(f, u.x + v.x, u.y + v.y), Abs(u.z + v.z), n + m, Abs(u.z) + Abs(v.z));
    Triangle(f, n, Abs(u.z), m, Abs(v.z));
  }

  lemma Detour(f: real -> real, x: Vec3, y: Vec3, z: Vec3)
    requires IsSquareRoot(f)
    ensures Separation(f, x, z) <= Separation(f, x, y) + Separation(f, y, z)
    ensures Separation(f, x, y) == Separation(f, y, x)
  {
    var u, v := Subtract(x, y), Subtract(y, z);
    assert Sum(u, v) == Subtract(x, z);
    Backwards(x, y);
    hide Dot;
    TriangleInSpace(f, u, v);
  }

  lemma Backwards(x: Vec3, y: Vec3)
    ensures CS.Apart(x, y) == CS.Apart(y, x)
  {
  }

  /** Two points near two others are as far apart as those, less how near. */
  lemma Inflated(f: real -> real, u: Vec3, v: Vec3, x: Vec3, y: Vec3, gap: real, near: real, far: real)
    requires IsSquareRoot(f)
    requires Separation(f, x, u) <= near && Separation(f, y, v) <= far && gap <= Separation(f, u, v) - (near + far)
    ensures gap <= Separation(f, x, y)
  {
    hide Separation;
    Detour(f, u, x, v);
    Detour(f, x, y, v);
    Detour(f, y, v, x);
  }

  lemma GapIsSeparation(f: real -> real, p: Points, left: nat, right: nat, s: real, t: real)
    ensures PairGap(f, p, left, right, s, t)
            == Separation(f, Along(p(0, left), p(0, left + 1), s), Along(p(1, right), p(1, right + 1), t))
               - (Radius(left) + Radius(right))
  {
  }

  /** The two gaps to the pole measure the way to its nearest point. */
  lemma PoleSeparation(g: CS.Problem, t: real, y: Vec3)
    requires CS.Sound(g) && CS.Inside(g.f, g.c, y)
    ensures CS.Distance(g, t) <= Separation(g.f, CS.At(g, t), y)
  {
    hide CS.Squared, CS.Distance, CS.Inside, CS.DistanceSquared;
    CS.DistanceIsRoot(g, t);
    CS.NoPointIsCloser(g.f, g.c, CS.At(g, t), y);
    SquaredIs(g, t);
    SquareRootMonotone(g.f, CS.Squared(g, t), CS.Apart(CS.At(g, t), y));
  }

  lemma SquaredIs(g: CS.Problem, t: real)
    ensures CS.Squared(g, t) == CS.DistanceSquared(g.f, g.c, CS.At(g, t))
  {
  }

  lemma AtIsAlong(f: real -> real, p: Points, side: nat, segment: nat, t: real)
    ensures CS.At(PoleProblem(f, p, side, segment), t) == Along(p(side, segment), p(side, segment + 1), t)
  {
  }

  lemma RootOfZero(f: real -> real)
    requires IsSquareRoot(f)
    ensures f(0.0) == 0.0
  {
    SquareSign(f(0.0));
  }

  lemma NoSeparation(f: real -> real, y: Vec3)
    requires IsSquareRoot(f)
    ensures Separation(f, y, y) == 0.0
  {
    hide IsSquareRoot;
    assert CS.Apart(y, y) == 0.0;
    RootOfZero(f);
  }

  lemma CapsulesApart(f: real -> real, p: Points, k: nat, gap: real)
    requires IsSquareRoot(f) && k < ARM_PAIRS
    ensures Beyond(Gaps(f, p, k), gap) ==> SolidsApart(f, p, k, gap)
  {
    hide IsSquareRoot, Separation, Radius, PairGap, Along;
    var left, right := k / SEGMENTS, k % SEGMENTS;
    forall x, y | Beyond(Gaps(f, p, k), gap) && InFirst(f, p, k, x) && InSecond(f, p, k, y)
      ensures gap <= Separation(f, x, y)
    {
      var s :| InUnit(s) && Separation(f, x, Along(p(0, left), p(0, left + 1), s)) <= Radius(left);
      var t :| InUnit(t) && Separation(f, y, Along(p(1, right), p(1, right + 1), t)) <= Radius(right);
      GapIsSeparation(f, p, left, right, s, t);
      assert gap <= Gaps(f, p, k)(s, t);
      Inflated(f, Along(p(0, left), p(0, left + 1), s), Along(p(1, right), p(1, right + 1), t), x, y, gap,
               Radius(left), Radius(right));
    }
  }

  lemma CapsuleAndPoleApart(f: real -> real, p: Points, k: nat, gap: real)
    requires IsSquareRoot(f) && ARM_PAIRS <= k
    ensures Beyond(Gaps(f, p, k), gap) ==> SolidsApart(f, p, k, gap)
  {
    hide Separation, PoleRadius, CS.Distance, CS.Inside, Along;
    var side, segment := (k - ARM_PAIRS) / SEGMENTS, (k - ARM_PAIRS) % SEGMENTS;
    var g := PoleProblem(f, p, side, segment);
    forall x, y | Beyond(Gaps(f, p, k), gap) && InFirst(f, p, k, x) && InSecond(f, p, k, y)
      ensures gap <= Separation(f, x, y)
    {
      var t :| InUnit(t) && Separation(f, x, Along(p(side, segment), p(side, segment + 1), t)) <= PoleRadius(segment);
      AtIsAlong(f, p, side, segment, t);
      PoleSeparation(g, t, y);
      NoSeparation(f, y);
      assert gap <= Gaps(f, p, k)(t, t);
      Inflated(f, CS.At(g, t), y, x, y, gap, PoleRadius(segment), 0.0);
    }
  }

  /** Centrelines that keep the radii and a gap between them keep the solids that far apart. */
  lemma BeyondKeepsSolidsApart(f: real -> real, p: Points, k: nat, gap: real)
    requires IsSquareRoot(f)
    ensures Beyond(Gaps(f, p, k), gap) ==> SolidsApart(f, p, k, gap)
  {
    hide Beyond, SolidsApart;
    if k < ARM_PAIRS {
      CapsulesApart(f, p, k, gap);
    } else {
      CapsuleAndPoleApart(f, p, k, gap);
    }
  }

  // ---------------------------------------------------------------------------
  // What the reports mean.

  /** The scoped minimum bounds the true distance of everything not exempt; and unless the mesh
      gap is the least, something not exempt really comes within a nanometre of it. */
  lemma ReportBoundsTheArms(f: real -> real, p: Points, threshold: real, c: Contact, r: Report)
    requires IsSquareRoot(f) && ScopedResult(SceneOf(f, p), threshold, c, r)
    ensures r.minimum.Some?
    ensures forall k :: 0 <= k < CHECKS && Counted(Exempt(SceneOf(f, p), threshold, c), k) && Exact(f, p, k) ==>
              SolidsApart(f, p, k, r.minimum.value)
    ensures r.minimum == StartOf(c)
            || exists k :: 0 <= k < CHECKS && Counted(Exempt(SceneOf(f, p), threshold, c), k)
                           && Within(Gaps(f, p, k), r.minimum.value + CS.BIAS_M)
  {
    hide Value, SceneOf, Exempt, Exact, Beyond, Within, SolidsApart, MinUpTo;
    var sc := SceneOf(f, p);
    var exempt := Exempt(sc, threshold, c);
    ClearKeepsThreshold(sc, threshold, c, r);
    MinIsLeast(sc, StartOf(c), exempt, CHECKS);
    forall k | 0 <= k < CHECKS && Counted(exempt, k) && Exact(f, p, k)
      ensures SolidsApart(f, p, k, r.minimum.value)
    {
      ValueIsTrue(f, p, k);
      BeyondLess(Gaps(f, p, k), Value(sc, k), r.minimum.value);
      BeyondKeepsSolidsApart(f, p, k, r.minimum.value);
    }
    if r.minimum != StartOf(c) {
      var k :| 0 <= k < CHECKS && Counted(exempt, k) && r.minimum.value == Value(sc, k);
      ValueIsTrue(f, p, k);
    }
  }

  lemma ApartLess(f: real -> real, p: Points, k: nat, gap: real, less: real)
    requires SolidsApart(f, p, k, gap) && less <= gap
    ensures SolidsApart(f, p, k, less)
  {
    hide InFirst, InSecond, Separation;
  }

  /** Clear means apart: everything not exempt is at least the threshold away. */
  lemma ClearMeansApart(f: real -> real, p: Points, threshold: real, c: Contact, r: Report)
    requires IsSquareRoot(f) && ScopedResult(SceneOf(f, p), threshold, c, r) && r.clear
    ensures forall k :: 0 <= k < CHECKS && Counted(Exempt(SceneOf(f, p), threshold, c), k) && Exact(f, p, k) ==>
              SolidsApart(f, p, k, threshold)
  {
    hide SceneOf, Exempt, Exact, SolidsApart, ScopedResult;
    ReportBoundsTheArms(f, p, threshold, c, r);
    ClearKeepsThreshold(SceneOf(f, p), threshold, c, r);
    forall k | 0 <= k < CHECKS && Counted(Exempt(SceneOf(f, p), threshold, c), k) && Exact(f, p, k)
      ensures SolidsApart(f, p, k, threshold)
    {
      ApartLess(f, p, k, r.minimum.value, threshold);
    }
  }

  /** And apart means clear, to a nanometre: if everything not exempt and the mesh gap are that
      much further than the threshold, the report is clear. */
  lemma ApartMeansClear(f: real -> real, p: Points, threshold: real, c: Contact, r: Report)
    requires IsSquareRoot(f) && ScopedResult(SceneOf(f, p), threshold, c, r)
    requires StartOf(c).Some? ==> StartOf(c).value >= threshold
    requires forall k :: 0 <= k < CHECKS && Counted(Exempt(SceneOf(f, p), threshold, c), k) ==>
               Beyond(Gaps(f, p, k), threshold + CS.BIAS_M)
    ensures r.clear
  {
    hide SceneOf, Exempt, Exact, SolidsApart, Within, Beyond, ScopedResult;
    ReportBoundsTheArms(f, p, threshold, c, r);
    ClearKeepsThreshold(SceneOf(f, p), threshold, c, r);
    if r.minimum != StartOf(c) {
      var k :| 0 <= k < CHECKS && Counted(Exempt(SceneOf(f, p), threshold, c), k)
               && Within(Gaps(f, p, k), r.minimum.value + CS.BIAS_M);
      BothSides(Gaps(f, p, k), threshold + CS.BIAS_M, r.minimum.value + CS.BIAS_M);
    }
  }

  /** The evaluator that stops at the first violation: clear means everything is apart, and a
      violation names two things that really come that close. */
  lemma EarlyReportIsTrue(f: real -> real, p: Points, threshold: real, r: Report)
    requires IsSquareRoot(f) && EarlyResult(SceneOf(f, p), threshold, r)
    ensures r.clear ==> forall k :: 0 <= k < CHECKS && Exact(f, p, k) ==> SolidsApart(f, p, k, threshold)
    ensures !r.clear ==>
              exists k :: 0 <= k < CHECKS && Names(r, k) && Within(Gaps(f, p, k), threshold + CS.BIAS_M)
  {
    hide Value, SceneOf, Exact, Beyond, Within, SolidsApart, MinUpTo, Names;
    var sc := SceneOf(f, p);
    if r.clear {
      forall k | 0 <= k < CHECKS && Exact(f, p, k)
        ensures SolidsApart(f, p, k, threshold)
      {
        ValueIsTrue(f, p, k);
        BeyondLess(Gaps(f, p, k), Value(sc, k), threshold);
        BeyondKeepsSolidsApart(f, p, k, threshold);
      }
    } else {
      var n :| 0 <= n < CHECKS && ClearTo(sc, threshold, n) && Value(sc, n) < threshold && Names(r, n)
               && r.minimum == MinUpTo(sc, None, false, n + 1);
      ValueIsTrue(f, p, n);
      WithinMore(Gaps(f, p, n), Value(sc, n) + CS.BIAS_M, threshold + CS.BIAS_M);
    }
  }
}
