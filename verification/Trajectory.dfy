/** Segment durations and the reference the controller commands.

    `TrajectoryDuration` computes the least whole number of nanoseconds that meets
    every joint's velocity, acceleration and jerk constant.  `PlanRespectsLimits`
    concludes that over a whole plan, across segments, the commanded position,
    velocity and acceleration change no faster than the scaled limits allow. */
module Trajectory {
  import opened Common
  import opened RealFacts
  import opened Geometry
  import opened Polynomials
  import opened Smoothstep

  const ARMS: nat := 2
  const JOINTS: nat := 7

  datatype Limits = Limits(velocity: real, acceleration: real, jerk: real)

  type Pose = seq<seq<real>>

  predicate ShapedPose(q: Pose) {
    |q| == ARMS && forall side :: 0 <= side < ARMS ==> |q[side]| == JOINTS
  }

  predicate PositiveLimits(l: Limits) {
    l.velocity > 0.0 && l.acceleration > 0.0 && l.jerk > 0.0
  }

  /** `valid_scale`. */
  predicate ValidScale(x: real) {
    0.0 < x <= 1.0
  }

  predicate ValidScales(s: Limits) {
    ValidScale(s.velocity) && ValidScale(s.acceleration) && ValidScale(s.jerk)
  }

  predicate ShapedLimits(limits: seq<seq<Limits>>) {
    && |limits| == ARMS
    && forall side :: 0 <= side < ARMS ==>
         |limits[side]| == JOINTS && forall joint :: 0 <= joint < JOINTS ==> PositiveLimits(limits[side][joint])
  }

  /** The limits a joint is planned against. */
  function Scaled(l: Limits, s: Limits): Limits {
    Limits(l.velocity * s.velocity, l.acceleration * s.acceleration, l.jerk * s.jerk)
  }

  lemma ScaledPositive(l: Limits, s: Limits)
    requires PositiveLimits(l) && ValidScales(s)
    ensures PositiveLimits(Scaled(l, s))
  {
    MulPositive(l.velocity, s.velocity);
    MulPositive(l.acceleration, s.acceleration);
    MulPositive(l.jerk, s.jerk);
  }

  function Cube(x: real): real {
    Times(x, Times(x, x))
  }

  /** T seconds are enough to move this far within the (scaled) limits. */
  predicate JointEnough(distance: real, l: Limits, T: real) {
    && Times(T, l.velocity) >= 2.2 * distance
    && Times(Square(T), l.acceleration) >= 8.0 * distance
    && Times(Cube(T), l.jerk) >= 60.0 * distance
  }

  ghost predicate IsCubeRoot(f: real -> real) {
    forall x: real :: x >= 0.0 ==> f(x) >= 0.0 && Cube(f(x)) == x
  }

  // ---------------------------------------------------------------------------
  // Each candidate duration is the threshold of one constraint.

  lemma QuotientThreshold(T: real, p: real, rate: real)
    requires rate > 0.0
    ensures T >= p / rate <==> Times(T, rate) >= p
  {
    var x := p / rate;
    assert x * rate == p;
    if T >= x {
      var gap := MulMonotone(rate, x, T);
    } else {
      var gap := MulStrict(rate, T, x);
    }
  }

  lemma SquareThreshold(f: real -> real, T: real, x: real)
    requires IsSquareRoot(f) && x >= 0.0 && T >= 0.0
    ensures T >= f(x) <==> Square(T) >= x
  {
    SquareOrder(T, f(x));
  }

  lemma CubeOrder(x: real, y: real)
    requires x >= 0.0 && y >= 0.0
    ensures x < y ==> Cube(x) < Cube(y)
  {
    if x < y {
      SquareOrder(x, y);
      MulNonNegative(x, x);
      CubeGap(x, y, x * x, y * y);
    }
  }

  lemma CubeGap(x: real, y: real, xx: real, yy: real)
    requires 0.0 <= x < y && 0.0 <= xx < yy && xx == Times(x, x) && yy == Times(y, y)
    ensures Cube(x) < Cube(y)
  {
    var g1 := MulMonotone(x, xx, yy);
    var g2 := MulStrict(yy, x, y);
    assert Cube(x) == x * xx && Cube(y) == y * yy;
  }

  lemma CubeThreshold(f: real -> real, T: real, x: real)
    requires IsCubeRoot(f) && x >= 0.0 && T >= 0.0
    ensures T >= f(x) <==> Cube(T) >= x
  {
    hide Cube;
    CubeOrder(T, f(x));
    CubeOrder(f(x), T);
  }

  lemma DistanceQuotient(d: real, k: real, rate: real)
    requires d >= 0.0 && k > 0.0 && rate > 0.0
    ensures d * k / rate >= 0.0
  {
    MulNonNegative(d, k);
    QuotientNonNegative(d * k, rate);
  }

  /** T meets a joint's three constants exactly when it is at least the three candidates. */
  lemma JointThreshold(sqrt: real -> real, cbrt: real -> real, d: real, l: Limits, T: real)
    requires IsSquareRoot(sqrt) && IsCubeRoot(cbrt) && PositiveLimits(l) && d >= 0.0 && T >= 0.0
    ensures JointEnough(d, l, T) <==>
              T >= d * 2.2 / l.velocity && T >= sqrt(d * 8.0 / l.acceleration) && T >= cbrt(d * 60.0 / l.jerk)
  {
    DistanceQuotient(d, 8.0, l.acceleration);
    DistanceQuotient(d, 60.0, l.jerk);
    hide Times, Square, Cube, IsSquareRoot, IsCubeRoot;
    QuotientThreshold(T, d * 2.2, l.velocity);
    SquareThreshold(sqrt, T, d * 8.0 / l.acceleration);
    QuotientThreshold(Square(T), d * 8.0, l.acceleration);
    CubeThreshold(cbrt, T, d * 60.0 / l.jerk);
    QuotientThreshold(Cube(T), d * 60.0, l.jerk);
  }

  // ---------------------------------------------------------------------------
  // The duration search over both arms.

  /** Everything that decides a duration apart from the candidate itself. */
  datatype Move = Move(cycleNs: nat, start: Pose, target: Pose, limits: seq<seq<Limits>>, scales: Limits,
                       active: seq<bool>)

  predicate ValidMove(m: Move) {
    && ShapedPose(m.start) && ShapedPose(m.target) && ShapedLimits(m.limits) && ValidScales(m.scales)
    && |m.active| == ARMS
  }

  function Distance(m: Move, side: nat, joint: nat): (d: real)
    requires ValidMove(m) && side < ARMS && joint < JOINTS
    ensures d >= 0.0
  {
    Abs(m.target[side][joint] - m.start[side][joint])
  }

  predicate JointReady(m: Move, side: nat, joint: nat, T: real)
    requires ValidMove(m) && side < ARMS && joint < JOINTS
  {
    m.active[side] ==> JointEnough(Distance(m, side, joint), Scaled(m.limits[side][joint], m.scales), T)
  }

  /** Ten control cycles, in seconds. */
  function Floor10(m: Move): real {
    (m.cycleNs as real) * 0.00000001
  }

  /** The constraints of the joints visited before (side, joint). */
  ghost predicate EnoughBefore(m: Move, T: real, side: nat, joint: nat)
    requires ValidMove(m)
  {
    && T >= Floor10(m)
    && forall s: nat, j: nat :: s < ARMS && j < JOINTS && (s < side || (s == side && j < joint)) ==> JointReady(m, s, j, T)
  }

  /** `seconds` is the exact threshold of the constraints visited so far. */
  ghost predicate Threshold(m: Move, seconds: real, side: nat, joint: nat)
    requires ValidMove(m)
  {
    && seconds >= 0.0
    && forall T: real :: T >= 0.0 ==> (T >= seconds <==> EnoughBefore(m, T, side, joint))
  }

  function Seconds(ns: nat): real {
    (ns as real) * 0.000000001
  }

  /** n nanoseconds satisfy every constraint of the move. */
  ghost predicate Enough(m: Move, n: nat)
    requires ValidMove(m)
  {
    EnoughBefore(m, Seconds(n), ARMS, 0)
  }

  lemma VisitJoint(m: Move, side: nat, joint: nat, before: real, after: real, sqrt: real -> real, cbrt: real -> real)
    requires ValidMove(m) && side < ARMS && joint < JOINTS
    requires IsSquareRoot(sqrt) && IsCubeRoot(cbrt)
    requires Threshold(m, before, side, joint)
    requires m.active[side]
    requires PositiveLimits(Scaled(m.limits[side][joint], m.scales))
    requires var d, l := Distance(m, side, joint), Scaled(m.limits[side][joint], m.scales);
             after == Max(Max(Max(before, d * 2.2 / l.velocity), sqrt(d * 8.0 / l.acceleration)),
                          cbrt(d * 60.0 / l.jerk))
    ensures Threshold(m, after, side, joint + 1)
  {
    var d, l := Distance(m, side, joint), Scaled(m.limits[side][joint], m.scales);
    hide JointEnough, IsSquareRoot, IsCubeRoot, Scaled, Distance, PositiveLimits;
    var next := joint + 1;
    forall T: real | T >= 0.0
      ensures T >= after <==> EnoughBefore(m, T, side, next)
    {
      JointThreshold(sqrt, cbrt, d, l, T);
      assert T >= before <==> EnoughBefore(m, T, side, joint);
      assert EnoughBefore(m, T, side, next) <==> EnoughBefore(m, T, side, joint) && JointReady(m, side, joint, T);
    }
  }

  lemma SkipArm(m: Move, side: nat, seconds: real)
    requires ValidMove(m) && side < ARMS && !m.active[side]
    requires Threshold(m, seconds, side, 0)
    ensures Threshold(m, seconds, side + 1, 0)
  {
    var next := side + 1;
    forall T: real | T >= 0.0
      ensures T >= seconds <==> EnoughBefore(m, T, next, 0)
    {
      assert T >= seconds <==> EnoughBefore(m, T, side, 0);
    }
  }

  lemma NextArm(m: Move, side: nat, seconds: real)
    requires ValidMove(m) && side < ARMS
    requires Threshold(m, seconds, side, JOINTS)
    ensures Threshold(m, seconds, side + 1, 0)
  {
    var next := side + 1;
    forall T: real | T >= 0.0
      ensures T >= seconds <==> EnoughBefore(m, T, next, 0)
    {
      assert T >= seconds <==> EnoughBefore(m, T, side, JOINTS);
    }
  }

  function Ceiling(x: real): int {
    -((-x).Floor)
  }

  /** Rounding the threshold up to whole nanoseconds, saturating at 64 bits. */
  lemma RoundUp(m: Move, seconds: real, ns: nat)
    requires ValidMove(m) && Threshold(m, seconds, ARMS, 0)
    requires ns == if Ceiling(seconds * 1000000000.0) >= U64_MAXIMUM then U64_MAXIMUM else Ceiling(seconds * 1000000000.0)
    ensures ns < U64_MAXIMUM ==> Enough(m, ns)
    ensures forall n: nat :: n < ns ==> !Enough(m, n)
  {
    hide EnoughBefore;
    var exact := seconds * 1000000000.0;
    assert exact <= Ceiling(exact) as real < exact + 1.0;
    if ns < U64_MAXIMUM {
      assert Seconds(ns) >= seconds;
    }
    forall n: nat | n < ns
      ensures !Enough(m, n)
    {
      assert n as real <= (ns - 1) as real;
      assert Seconds(n) < seconds;
    }
  }

  /** `Controller::trajectory_duration`. */
  method TrajectoryDuration(m: Move, sqrt: real -> real, cbrt: real -> real) returns (ns: nat)
    requires ValidMove(m) && IsSquareRoot(sqrt) && IsCubeRoot(cbrt)
    ensures ns <= U64_MAXIMUM
    ensures ns < U64_MAXIMUM ==> Enough(m, ns)
    ensures forall n: nat :: n < ns ==> !Enough(m, n)
  {
    hide JointEnough, IsSquareRoot, IsCubeRoot;
    var seconds := Floor10(m);
    assert seconds >= 0.0;
    for side := 0 to ARMS
      invariant Threshold(m, seconds, side, 0)
    {
      if !m.active[side] {
        SkipArm(m, side, seconds);
        continue;
      }
      for joint := 0 to JOINTS
        invariant Threshold(m, seconds, side, joint)
      {
        ghost var before := seconds;
        var distance := Abs(m.target[side][joint] - m.start[side][joint]);
        ScaledPositive(m.limits[side][joint], m.scales);
        var limit := Scaled(m.limits[side][joint], m.scales);
        seconds := Max(seconds, distance * 2.2 / limit.velocity);
        seconds := Max(seconds, sqrt(distance * 8.0 / limit.acceleration));
        seconds := Max(seconds, cbrt(distance * 60.0 / limit.jerk));
        VisitJoint(m, side, joint, before, seconds, sqrt, cbrt);
      }
      NextArm(m, side, seconds);
    }
    var nanoseconds := Ceiling(seconds * 1000000000.0);
    assert nanoseconds >= 0;
    ns := if nanoseconds >= U64_MAXIMUM then U64_MAXIMUM else nanoseconds;
    RoundUp(m, seconds, ns);
  }

  /** Every duration is positive: it spans at least ten cycles unless saturated. */
  lemma DurationPositive(m: Move, ns: nat)
    requires ValidMove(m) && m.cycleNs > 0
    requires ns <= U64_MAXIMUM && (ns < U64_MAXIMUM ==> Enough(m, ns))
    ensures ns > 0
  {
    hide JointReady;
    assert Floor10(m) > 0.0;
  }
}
