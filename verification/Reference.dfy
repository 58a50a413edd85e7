/** The commanded reference along a plan: which segment a time falls in, and how fast
    position, velocity and acceleration can change. */
module Reference {
  import opened Common
  import opened RealFacts
  import opened Geometry
  import opened Polynomials
  import opened Smoothstep
  import opened Trajectory

  // ---------------------------------------------------------------------------
  // One segment.

  datatype Quantity = Position | Velocity | Acceleration

  function Law(q: Quantity): seq<real> {
    match q
    case Position => POSITION
    case Velocity => VELOCITY
    case Acceleration => ACCELERATION
  }

  /** Largest slope of the law on the unit interval. */
  function Peak(q: Quantity): real {
    match q
    case Position => VELOCITY_PEAK
    case Velocity => ACCELERATION_PEAK
    case Acceleration => JERK_PEAK
  }

  /** The limit on the rate of change of a quantity. */
  function Rate(q: Quantity, l: Limits): real {
    match q
    case Position => l.velocity
    case Velocity => l.acceleration
    case Acceleration => l.jerk
  }

  /** Dividing by this turns a derivative in u into a derivative in seconds. */
  function TimeScale(q: Quantity, T: real): real {
    match q
    case Position => 1.0
    case Velocity => T
    case Acceleration => Times(T, T)
  }

  /** Value at fraction u of a segment of T seconds that moves by `delta` from `from`. */
  function SegmentValue(q: Quantity, from: real, delta: real, T: real, u: real): real
    requires T > 0.0
  {
    TimeScalePositive(q, T);
    (if q == Position then from else 0.0) + Times(delta, Eval(Law(q), u)) / TimeScale(q, T)
  }

  lemma TimeScalePositive(q: Quantity, T: real)
    requires T > 0.0
    ensures TimeScale(q, T) > 0.0
  {
    MulPositive(T, T);
  }

  lemma LawSlope(q: Quantity)
    ensures SlopeBounded(Law(q), Peak(q))
  {
    forall x: real | InUnit(x)
      ensures Within(Slope(Law(q), x), Peak(q))
    {
      SlopeIsDerivative(Law(q), x);
      DerivativeCoefficients();
      hide Eval, Slope, Differentiate;
      match q
      case Position => VelocityPeak(x);
      case Velocity => AccelerationPeak(x);
      case Acceleration => JerkPeak(x);
    }
  }

  /** The planner's constants 2.2, 8 and 60 cover the peaks. */
  lemma EnoughCoversPeak(q: Quantity, d: real, l: Limits, T: real)
    requires d >= 0.0 && JointEnough(d, l, T)
    ensures Times(Times(TimeScale(q, T), T), Rate(q, l)) >= Times(Peak(q), d)
  {
    assert Times(1.0, T) == T;
    assert Times(Times(T, T), T) == Cube(T);
  }

  lemma ScaledChange(delta: real, change: real, peak: real, du: real, s: real, T: real, rate: real)
    requires s > 0.0 && du >= 0.0
    requires Abs(change) <= peak * du
    requires Times(Times(s, T), rate) >= Times(peak, Abs(delta))
    ensures Abs(Times(delta, change) / s) <= Times(rate, Times(T, du))
  {
    TimesBounds(delta, change, peak, du, s, T, rate);
    hide Times, Abs;
    DivideBound(Times(delta, change), s, Times(rate, Times(T, du)));
  }

  lemma TimesBounds(delta: real, change: real, peak: real, du: real, s: real, T: real, rate: real)
    requires du >= 0.0 && Abs(change) <= peak * du
    requires Times(Times(s, T), rate) >= Times(peak, Abs(delta))
    ensures Abs(Times(delta, change)) <= s * Times(rate, Times(T, du))
  {
    AbsProduct(delta, change);
    var g1 := MulMonotone(Abs(delta), Abs(change), peak * du);
    var g2 := MulMonotone(du, Times(peak, Abs(delta)), Times(Times(s, T), rate));
    hide Abs;
    assert Abs(delta) * (peak * du) == du * Times(peak, Abs(delta));
    assert du * Times(Times(s, T), rate) == s * Times(rate, Times(T, du));
  }

  lemma DivideBound(x: real, s: real, bound: real)
    requires s > 0.0 && Abs(x) <= s * bound
    ensures Abs(x / s) <= bound
  {
    var y := x / s;
    assert s * y == x;
    if y > bound {
      var g := MulStrict(s, bound, y);
    } else if -y > bound {
      var g := MulStrict(s, bound, -y);
      assert s * (-y) == -x;
    }
  }

  /** Within one segment a quantity changes no faster than its limit. */
  lemma SegmentRate(q: Quantity, from: real, delta: real, T: real, l: Limits, u: real, v: real)
    requires T > 0.0 && JointEnough(Abs(delta), l, T) && InUnit(u) && InUnit(v)
    ensures Abs(SegmentValue(q, from, delta, T, v) - SegmentValue(q, from, delta, T, u))
         <= Times(Rate(q, l), Times(T, Abs(v - u)))
  {
    LawSlope(q);
    MeanValueInequality(Law(q), Peak(q), u, v);
    EnoughCoversPeak(q, Abs(delta), l, T);
    TimeScalePositive(q, T);
    var eu, ev, s := Eval(Law(q), u), Eval(Law(q), v), TimeScale(q, T);
    SplitChange(delta, eu, ev, s);
    hide Eval, SlopeBounded, JointEnough, TimeScale, Peak;
    ScaledChange(delta, ev - eu, Peak(q), Abs(v - u), s, T, Rate(q, l));
  }

  lemma SplitChange(delta: real, eu: real, ev: real, s: real)
    requires s > 0.0
    ensures Times(delta, ev) / s - Times(delta, eu) / s == Times(delta, ev - eu) / s
  {
    assert Times(delta, ev - eu) == Times(delta, ev) - Times(delta, eu);
  }

  // ---------------------------------------------------------------------------
  // A whole plan: knots of one joint at the waypoint times.

  predicate Increasing(times: seq<nat>) {
    |times| >= 2 && times[0] == 0 && forall i, j :: 0 <= i < j < |times| ==> times[i] < times[j]
  }

  predicate Rising(times: seq<nat>) {
    |times| >= 2 && forall i, j :: 0 <= i < j < |times| ==> times[i] <= times[j]
  }

  /** The segment chosen for an elapsed time: the first that has not ended before it. */
  function FindSegment(times: seq<nat>, elapsed: nat, segment: nat): (r: nat)
    requires 1 <= segment < |times|
    ensures segment <= r < |times|
    ensures r > segment ==> elapsed > times[r - 1]
    ensures r + 1 < |times| ==> elapsed <= times[r]
    decreases |times| - segment
  {
    if segment + 1 < |times| && elapsed > times[segment] then FindSegment(times, elapsed, segment + 1) else segment
  }

  function SegmentElapsed(times: seq<nat>, k: nat, elapsed: nat): (e: nat)
    requires Rising(times) && 1 <= k < |times|
    ensures e <= times[k] - times[k - 1]
  {
    if elapsed <= times[k - 1] then 0
    else if elapsed - times[k - 1] < times[k] - times[k - 1] then elapsed - times[k - 1]
    else times[k] - times[k - 1]
  }

  /** The parameter u of a segment, 1 for an empty one. */
  function Fraction(times: seq<nat>, k: nat, elapsed: nat): (u: real)
    requires Rising(times) && 1 <= k < |times|
    ensures InUnit(u)
  {
    var duration := times[k] - times[k - 1];
    if duration == 0 then 1.0
    else
      UnitQuotient(SegmentElapsed(times, k, elapsed) as real, duration as real);
      (SegmentElapsed(times, k, elapsed) as real) / (duration as real)
  }

  lemma UnitQuotient(p: real, d: real)
    requires d > 0.0 && 0.0 <= p <= d
    ensures 0.0 <= p / d <= 1.0
  {
  }

  lemma SecondsPositive(n: nat)
    requires n > 0
    ensures Seconds(n) > 0.0
  {
  }

  /** A quantity at an elapsed time, seen as a point of segment k. */
  function AtSegment(q: Quantity, knots: seq<real>, times: seq<nat>, k: nat, elapsed: nat): real
    requires Increasing(times) && |knots| == |times| && 1 <= k < |times|
  {
    SecondsPositive(times[k] - times[k - 1]);
    SegmentValue(q, knots[k - 1], knots[k] - knots[k - 1], Seconds(times[k] - times[k - 1]), Fraction(times, k, elapsed))
  }

  /** A quantity of one joint at an elapsed time of the plan. */
  function PlanValue(q: Quantity, knots: seq<real>, times: seq<nat>, elapsed: nat): real
    requires Increasing(times) && |knots| == |times|
  {
    AtSegment(q, knots, times, FindSegment(times, elapsed, 1), elapsed)
  }

  /** Every segment lasts long enough for the joint. */
  predicate Feasible(knots: seq<real>, times: seq<nat>, l: Limits) {
    && Increasing(times) && |knots| == |times|
    && forall k :: 1 <= k < |times| ==> JointEnough(Abs(knots[k] - knots[k - 1]), l, Seconds(times[k] - times[k - 1]))
  }

  /** The laws start at 0 and end at 1 in position and at rest otherwise. */
  lemma LawEnds(q: Quantity)
    ensures Eval(Law(q), 0.0) == 0.0
    ensures Eval(Law(q), 1.0) == if q == Position then 1.0 else 0.0
  {
    PositionForm(0.0);
    PositionForm(1.0);
    VelocityForm(0.0);
    VelocityForm(1.0);
    AccelerationForm(0.0);
    AccelerationForm(1.0);
  }

  lemma SegmentEnds(q: Quantity, from: real, delta: real, T: real)
    requires T > 0.0
    ensures SegmentValue(q, from, delta, T, 0.0) == if q == Position then from else 0.0
    ensures SegmentValue(q, from, delta, T, 1.0) == if q == Position then from + delta else 0.0
  {
    LawEnds(q);
    TimeScalePositive(q, T);
    hide Eval;
    assert Times(delta, 0.0) == 0.0 && Times(delta, 1.0) == delta;
    SimpleQuotients(TimeScale(q, T));
    assert delta / 1.0 == delta;
  }

  /** Neighbouring segments agree at the knot between them, at rest. */
  lemma KnotValue(q: Quantity, knots: seq<real>, times: seq<nat>, k: nat)
    requires Increasing(times) && |knots| == |times| && 1 <= k < |times|
    ensures AtSegment(q, knots, times, k, times[k]) == if q == Position then knots[k] else 0.0
    ensures AtSegment(q, knots, times, k, times[k - 1]) == if q == Position then knots[k - 1] else 0.0
  {
    var d := (times[k] - times[k - 1]) as real;
    SimpleQuotients(d);
    SecondsPositive(times[k] - times[k - 1]);
    hide SegmentValue;
    SegmentEnds(q, knots[k - 1], knots[k] - knots[k - 1], Seconds(times[k] - times[k - 1]));
  }

  lemma FractionStep(times: seq<nat>, k: nat, a: nat, b: nat)
    requires Increasing(times) && 1 <= k < |times| && times[k - 1] <= a <= b <= times[k]
    ensures Times(Seconds(times[k] - times[k - 1]), Abs(Fraction(times, k, b) - Fraction(times, k, a))) == Seconds(b - a)
  {
    var d := (times[k] - times[k - 1]) as real;
    var p, r := (a - times[k - 1]) as real, (b - times[k - 1]) as real;
    assert Fraction(times, k, a) == p / d && Fraction(times, k, b) == r / d;
    QuotientGap(p, r, d);
  }

  lemma QuotientGap(p: real, r: real, d: real)
    requires d > 0.0 && p <= r
    ensures Times(d * 0.000000001, Abs(r / d - p / d)) == (r - p) * 0.000000001
  {
    var x, y := p / d, r / d;
    Quotient(p, d);
    Quotient(r, d);
    if y < x {
      var g := MulStrict(d, y, x);
    }
  }

  /** Two times of the same segment. */
  lemma SameSegment(q: Quantity, knots: seq<real>, times: seq<nat>, l: Limits, k: nat, a: nat, b: nat)
    requires Feasible(knots, times, l) && 1 <= k < |times| && times[k - 1] <= a <= b <= times[k]
    ensures Abs(AtSegment(q, knots, times, k, b) - AtSegment(q, knots, times, k, a)) <= Times(Rate(q, l), Seconds(b - a))
  {
    SecondsPositive(times[k] - times[k - 1]);
    FractionStep(times, k, a, b);
    hide JointEnough, Times, SegmentValue, Fraction, Seconds, Rate;
    SegmentRate(q, knots[k - 1], knots[k] - knots[k - 1], Seconds(times[k] - times[k - 1]), l,
                Fraction(times, k, a), Fraction(times, k, b));
  }

  /** The plan's value anywhere in the closed span of segment k is that segment's. */
  lemma PlanAt(q: Quantity, knots: seq<real>, times: seq<nat>, k: nat, b: nat)
    requires Increasing(times) && |knots| == |times| && 1 <= k < |times| && times[k - 1] <= b <= times[k]
    ensures PlanValue(q, knots, times, b) == AtSegment(q, knots, times, k, b)
  {
    var r := FindSegment(times, b, 1);
    if b > times[k - 1] || k == 1 {
      assert r == k;
    } else {
      assert r == k - 1;
      KnotValue(q, knots, times, k);
      KnotValue(q, knots, times, k - 1);
    }
  }

  /** After the last waypoint the reference holds. */
  lemma PlanAfter(q: Quantity, knots: seq<real>, times: seq<nat>, b: nat)
    requires Increasing(times) && |knots| == |times| && b >= times[|times| - 1]
    ensures PlanValue(q, knots, times, b) == PlanValue(q, knots, times, times[|times| - 1])
  {
    var k := |times| - 1;
    PlanAt(q, knots, times, k, times[k]);
    if b > times[k] {
      assert FindSegment(times, b, 1) == k;
      assert Fraction(times, k, b) == Fraction(times, k, times[k]);
    }
  }

  lemma RateMonotone(rate: real, x: nat, y: nat)
    requires rate > 0.0
    ensures Times(rate, Seconds(x + y)) == Times(rate, Seconds(x)) + Times(rate, Seconds(y))
    ensures Times(rate, Seconds(y)) >= 0.0
  {
    assert Seconds(x + y) == Seconds(x) + Seconds(y);
    MulNonNegative(rate, Seconds(y));
  }

  lemma {:induction false} FromSegment(q: Quantity, knots: seq<real>, times: seq<nat>, l: Limits, k: nat, a: nat, b: nat)
    requires Feasible(knots, times, l) && PositiveLimits(l)
    requires 1 <= k < |times| && times[k - 1] <= a <= times[k] && a <= b
    ensures Abs(PlanValue(q, knots, times, b) - PlanValue(q, knots, times, a)) <= Times(Rate(q, l), Seconds(b - a))
    decreases |times| - k
  {
    hide JointEnough, Times, AtSegment, Seconds, PlanValue;
    PlanAt(q, knots, times, k, a);
    if b <= times[k] {
      PlanAt(q, knots, times, k, b);
      SameSegment(q, knots, times, l, k, a, b);
    } else {
      var m := times[k];
      PlanAt(q, knots, times, k, m);
      SameSegment(q, knots, times, l, k, a, m);
      if k + 1 == |times| {
        PlanAfter(q, knots, times, b);
      } else {
        FromSegment(q, knots, times, l, k + 1, m, b);
      }
      RateMonotone(Rate(q, l), m - a, b - m);
      assert (m - a) + (b - m) == b - a;
    }
  }

  /** Over a whole feasible plan, across segments and past its end, the commanded
      position changes no faster than the velocity limit, the commanded velocity no
      faster than the acceleration limit, and the acceleration no faster than the jerk limit. */
  lemma PlanRespectsLimits(q: Quantity, knots: seq<real>, times: seq<nat>, l: Limits, a: nat, b: nat)
    requires Feasible(knots, times, l) && PositiveLimits(l) && a <= b
    ensures Abs(PlanValue(q, knots, times, b) - PlanValue(q, knots, times, a)) <= Times(Rate(q, l), Seconds(b - a))
  {
    hide JointEnough, Times, Seconds, PlanValue;
    if a <= times[|times| - 1] {
      FromSegment(q, knots, times, l, FindSegment(times, a, 1), a, b);
    } else {
      PlanAfter(q, knots, times, a);
      PlanAfter(q, knots, times, b);
      RateMonotone(Rate(q, l), 0, b - a);
    }
  }

  /** The limit on velocity or acceleration itself. */
  function Limit(q: Quantity, l: Limits): real
    requires q != Position
  {
    if q == Velocity then l.velocity else l.acceleration
  }

  lemma ScaledValue(delta: real, e: real, peak: real, s: real, rate: real)
    requires s > 0.0 && Abs(e) <= peak && Times(s, rate) >= Times(peak, Abs(delta))
    ensures Abs(Times(delta, e) / s) <= rate
  {
    AbsProduct(delta, e);
    var gap := MulMonotone(Abs(delta), Abs(e), peak);
    DivideBound(Times(delta, e), s, rate);
  }

  lemma LawPeak(q: Quantity, x: real)
    requires q != Position && InUnit(x)
    ensures Abs(Eval(Law(q), x)) <= if q == Velocity then VELOCITY_PEAK else ACCELERATION_PEAK
  {
    hide Eval;
    if q == Velocity {
      VelocityPeak(x);
    } else {
      AccelerationPeak(x);
    }
  }

  /** Within one segment velocity and acceleration keep their limits. */
  lemma SegmentWithinLimit(q: Quantity, from: real, delta: real, T: real, l: Limits, u: real)
    requires q != Position && T > 0.0 && JointEnough(Abs(delta), l, T) && InUnit(u)
    ensures Abs(SegmentValue(q, from, delta, T, u)) <= Limit(q, l)
  {
    LawPeak(q, u);
    TimeScalePositive(q, T);
    var e, s := Eval(Law(q), u), TimeScale(q, T);
    var peak := if q == Velocity then VELOCITY_PEAK else ACCELERATION_PEAK;
    assert Times(s, Limit(q, l)) >= Times(peak, Abs(delta));
    hide Eval, JointEnough, TimeScale;
    ScaledValue(delta, e, peak, s, Limit(q, l));
  }

  /** At every moment of a feasible plan the commanded velocity and acceleration themselves are
      within the scaled limits. */
  lemma PlanWithinLimits(q: Quantity, knots: seq<real>, times: seq<nat>, l: Limits, b: nat)
    requires Feasible(knots, times, l) && q != Position
    ensures Abs(PlanValue(q, knots, times, b)) <= Limit(q, l)
  {
    hide JointEnough, SegmentValue, Fraction, Seconds;
    var k := FindSegment(times, b, 1);
    SecondsPositive(times[k] - times[k - 1]);
    SegmentWithinLimit(q, knots[k - 1], knots[k] - knots[k - 1], Seconds(times[k] - times[k - 1]), l, Fraction(times, k, b));
  }

  /** The plan passes through every waypoint at its time, at rest. */
  lemma PlanMeetsWaypoints(knots: seq<real>, times: seq<nat>, k: nat)
    requires Increasing(times) && |knots| == |times| && k < |times|
    ensures PlanValue(Position, knots, times, times[k]) == knots[k]
    ensures PlanValue(Velocity, knots, times, times[k]) == 0.0
    ensures PlanValue(Acceleration, knots, times, times[k]) == 0.0
  {
    hide AtSegment, PlanValue;
    var s := if k == 0 then 1 else k;
    PlanAt(Position, knots, times, s, times[k]);
    PlanAt(Velocity, knots, times, s, times[k]);
    PlanAt(Acceleration, knots, times, s, times[k]);
    KnotValue(Position, knots, times, s);
    KnotValue(Velocity, knots, times, s);
    KnotValue(Acceleration, knots, times, s);
  }

  /** The law stays in [0, 1]: in Bernstein form all its coefficients are non-negative,
      and it is symmetric about the midpoint. */
  lemma LawRange(x: real)
    requires InUnit(x)
    ensures InUnit(Eval(POSITION, x))
  {
    hide Eval, StepPolynomial;
    LawNonNegative(x);
    LawNonNegative(1.0 - x);
    PositionForm(x);
    LawSymmetric(x, 1.0 - x);
  }

  lemma LawSymmetric(x: real, y: real)
    requires y == 1.0 - x
    ensures StepPolynomial(x) + StepPolynomial(y) == 1.0
  {
  }

  lemma LawNonNegative(x: real)
    requires InUnit(x)
    ensures StepPolynomial(x) >= 0.0
  {
    var y := 1.0 - x;
    var yy, xx := y * y, x * x;
    MulNonNegative(y, y);
    MulNonNegative(x, x);
    MulNonNegative(yy, y);
    MulNonNegative(yy, x);
    MulNonNegative(xx, y);
    MulNonNegative(xx, x);
    var c := 35.0 * (yy * y) + 21.0 * (yy * x) + 7.0 * (xx * y) + xx * x;
    MulNonNegative(xx, xx);
    MulNonNegative(xx * xx, c);
    assert StepPolynomial(x) == (xx * xx) * c;
  }

  /** The commanded position of a joint stays between the two waypoints around it. */
  lemma PlanStaysBetween(knots: seq<real>, times: seq<nat>, e: nat)
    requires Increasing(times) && |knots| == |times|
    ensures var k := FindSegment(times, e, 1);
            Min(knots[k - 1], knots[k]) <= PlanValue(Position, knots, times, e) <= Max(knots[k - 1], knots[k])
  {
    var k := FindSegment(times, e, 1);
    var u := Fraction(times, k, e);
    var delta := knots[k] - knots[k - 1];
    LawRange(u);
    var w := Eval(POSITION, u);
    hide Eval, FindSegment, Fraction;
    assert PlanValue(Position, knots, times, e) == knots[k - 1] + delta * w by { assert delta * w / 1.0 == delta * w; }
    if delta >= 0.0 {
      MulNonNegative(delta, w);
      var g := MulMonotone(delta, w, 1.0);
    } else {
      MulNonNegative(-delta, w);
      var g := MulMonotone(-delta, w, 1.0);
      assert (-delta) * w == -(delta * w);
    }
  }

  // ---------------------------------------------------------------------------
  // The controller's loops.

  predicate ShapedWaypoints(waypoints: seq<Pose>) {
    forall w :: 0 <= w < |waypoints| ==> ShapedPose(waypoints[w])
  }

  /** The waypoint values of one joint. */
  function Knots(waypoints: seq<Pose>, side: nat, joint: nat): (knots: seq<real>)
    requires side < ARMS && joint < JOINTS && ShapedWaypoints(waypoints)
    ensures |knots| == |waypoints|
  {
    seq(|waypoints|, k requires 0 <= k < |waypoints| => waypoints[k][side][joint])
  }

  /** The commanded joint references of one control cycle. */
  method ReferenceAt(waypoints: seq<Pose>, times: seq<nat>, elapsed: nat)
    returns (q: array2<real>, dq: array2<real>)
    requires Increasing(times) && |waypoints| == |times| && ShapedWaypoints(waypoints)
    ensures q.Length0 == dq.Length0 == ARMS && q.Length1 == dq.Length1 == JOINTS
    ensures forall side, joint :: 0 <= side < ARMS && 0 <= joint < JOINTS ==>
              q[side, joint] == PlanValue(Position, Knots(waypoints, side, joint), times, elapsed)
    ensures forall side, joint :: 0 <= side < ARMS && 0 <= joint < JOINTS ==>
              dq[side, joint] == PlanValue(Velocity, Knots(waypoints, side, joint), times, elapsed)
  {
    hide Smoothstep7, Smoothstep7Derivative, Fraction, Times, PlanValue;
    q, dq := new real[ARMS, JOINTS], new real[ARMS, JOINTS];
    var segment := 1;
    while segment + 1 < |times| && elapsed > times[segment]
      invariant 1 <= segment < |times|
      invariant FindSegment(times, elapsed, 1) == FindSegment(times, elapsed, segment)
    {
      segment := segment + 1;
    }
    var duration := times[segment] - times[segment - 1];
    var spent := if elapsed <= times[segment - 1] then 0
                 else if elapsed - times[segment - 1] < duration then elapsed - times[segment - 1] else duration;
    var u := if duration == 0 then 1.0 else (spent as real) / (duration as real);
    FractionIs(times, segment, elapsed, spent, duration);
    var positionScale := Smoothstep7(u);
    var velocityScale := if spent >= duration then 0.0
                         else Smoothstep7Derivative(u) * 1000000000.0 / (duration as real);
    var from, to := waypoints[segment - 1], waypoints[segment];
    for side := 0 to ARMS
      invariant forall s, j :: 0 <= s < side && 0 <= j < JOINTS ==>
                  q[s, j] == from[s][j] + Times(to[s][j] - from[s][j], positionScale)
      invariant forall s, j :: 0 <= s < side && 0 <= j < JOINTS ==>
                  dq[s, j] == Times(to[s][j] - from[s][j], velocityScale)
    {
      for joint := 0 to JOINTS
        invariant forall s, j :: 0 <= s < ARMS && 0 <= j < JOINTS && (s < side || (s == side && j < joint)) ==>
                    q[s, j] == from[s][j] + Times(to[s][j] - from[s][j], positionScale)
        invariant forall s, j :: 0 <= s < ARMS && 0 <= j < JOINTS && (s < side || (s == side && j < joint)) ==>
                    dq[s, j] == Times(to[s][j] - from[s][j], velocityScale)
      {
        var delta := to[side][joint] - from[side][joint];
        q[side, joint] := from[side][joint] + Times(delta, positionScale);
        dq[side, joint] := Times(delta, velocityScale);
      }
    }
    forall s, j | 0 <= s < ARMS && 0 <= j < JOINTS
      ensures q[s, j] == PlanValue(Position, Knots(waypoints, s, j), times, elapsed)
      ensures dq[s, j] == PlanValue(Velocity, Knots(waypoints, s, j), times, elapsed)
    {
      CommandIsPlanValue(Knots(waypoints, s, j), times, elapsed, segment, u, positionScale, velocityScale);
    }
  }

  lemma FractionIs(times: seq<nat>, k: nat, elapsed: nat, spent: nat, duration: nat)
    requires Increasing(times) && 1 <= k < |times| && duration == times[k] - times[k - 1]
    requires spent == SegmentElapsed(times, k, elapsed)
    ensures Fraction(times, k, elapsed) == if duration == 0 then 1.0 else (spent as real) / (duration as real)
  {
  }

  /** The source's scale factors are the laws at u, per second. */
  lemma CommandIsPlanValue(knots: seq<real>, times: seq<nat>, elapsed: nat, k: nat, u: real, ps: real, vs: real)
    requires Increasing(times) && |knots| == |times|
    requires k == FindSegment(times, elapsed, 1) && u == Fraction(times, k, elapsed)
    requires ps == Smoothstep7(u)
    requires var duration := times[k] - times[k - 1];
             vs == if SegmentElapsed(times, k, elapsed) >= duration then 0.0
                   else Smoothstep7Derivative(u) * 1000000000.0 / (duration as real)
    ensures PlanValue(Position, knots, times, elapsed) == knots[k - 1] + Times(knots[k] - knots[k - 1], ps)
    ensures PlanValue(Velocity, knots, times, elapsed) == Times(knots[k] - knots[k - 1], vs)
  {
    var duration := times[k] - times[k - 1];
    var delta := knots[k] - knots[k - 1];
    SmoothstepIsPosition(u);
    if SegmentElapsed(times, k, elapsed) >= duration {
      SimpleQuotients(duration as real);
      LawEnds(Velocity);
    }
    SecondsPositive(duration);
    hide Eval, FindSegment, Fraction, SegmentElapsed, Smoothstep7, Smoothstep7Derivative, Times;
    SegmentCommand(knots[k - 1], delta, Seconds(duration), u, ps);
    VelocityCommand(delta, Eval(VELOCITY, u), duration as real, vs, SegmentElapsed(times, k, elapsed) >= duration);
  }

  lemma SegmentCommand(from: real, delta: real, T: real, u: real, ps: real)
    requires T > 0.0 && ps == Eval(POSITION, u)
    ensures SegmentValue(Position, from, delta, T, u) == from + Times(delta, ps)
    ensures SegmentValue(Velocity, from, delta, T, u) == Times(delta, Eval(VELOCITY, u)) / T
  {
    hide Eval, Times;
    assert Times(delta, ps) / 1.0 == Times(delta, ps);
  }

  lemma VelocityCommand(delta: real, e: real, d: real, vs: real, done: bool)
    requires d > 0.0 && (done ==> e == 0.0)
    requires vs == if done then 0.0 else e * 1000000000.0 / d
    ensures Times(delta, e) / (d * 0.000000001) == Times(delta, vs)
  {
    if done {
      SimpleQuotients(d * 0.000000001);
      assert Times(delta, 0.0) == 0.0;
    } else {
      PerSecond(delta, e, d);
    }
  }

  lemma PerSecond(delta: real, e: real, d: real)
    requires d > 0.0
    ensures delta * e / (d * 0.000000001) == delta * (e * 1000000000.0 / d)
  {
    var x, y := delta * e / (d * 0.000000001), e * 1000000000.0 / d;
    Quotient(delta * e, d * 0.000000001);
    Quotient(e * 1000000000.0, d);
    assert d * x == delta * e * 1000000000.0;
    assert d * (delta * y) == delta * (y * d);
    CancelFactor(d, x, delta * y);
  }

  lemma CancelFactor(d: real, x: real, y: real)
    requires d > 0.0 && d * x == d * y
    ensures x == y
  {
    if x < y {
      var g := MulStrict(d, x, y);
    } else if y < x {
      var g := MulStrict(d, y, x);
    }
  }

  // ---------------------------------------------------------------------------
  // Building the waypoint times of a paired plan.

  /** What the two-arm planner needs to time its waypoints. */
  datatype Timing = Timing(cycleNs: nat, waypoints: seq<Pose>, limits: seq<seq<Limits>>, scales: Limits)

  predicate ValidTiming(p: Timing) {
    && p.cycleNs > 0 && |p.waypoints| >= 2 && ShapedWaypoints(p.waypoints)
    && ShapedLimits(p.limits) && ValidScales(p.scales)
  }

  /** The move of segment k, with both arms active. */
  function SegmentMove(p: Timing, k: nat): (m: Move)
    requires ValidTiming(p) && 1 <= k < |p.waypoints|
    ensures ValidMove(m) && m.cycleNs == p.cycleNs
  {
    Move(p.cycleNs, p.waypoints[k - 1], p.waypoints[k], p.limits, p.scales, [true, true])
  }

  /** A timetable, possibly beyond 64 bits, giving every segment enough time. */
  ghost predicate Timetable(p: Timing, times: seq<nat>)
    requires ValidTiming(p)
  {
    && 1 <= |times| <= |p.waypoints| && times[0] == 0
    && forall k :: 1 <= k < |times| ==> times[k - 1] <= times[k] && Enough(SegmentMove(p, k), times[k] - times[k - 1])
  }

  /** `times` is no later than any timetable at its own waypoints. */
  ghost predicate Earliest(p: Timing, times: seq<nat>)
    requires ValidTiming(p)
  {
    forall other: seq<nat>, k: nat :: Timetable(p, other) && k < |times| && k < |other| ==> times[k] <= other[k]
  }

  datatype TimesResult = Unreachable | Timed(times: seq<nat>)

  /** The waypoint-time loop of `plan_paired_common`.  With three or more waypoints a
      saturated duration never survives the overflow test, so the result is the
      earliest timetable, and refusal means that no timetable fits in 64 bits. */
  method PlanTimes(p: Timing, sqrt: real -> real, cbrt: real -> real) returns (r: TimesResult)
    requires ValidTiming(p) && IsSquareRoot(sqrt) && IsCubeRoot(cbrt)
    ensures r.Timed? ==> |r.times| == |p.waypoints| && Increasing(r.times) && Earliest(p, r.times)
    ensures r.Timed? && |p.waypoints| >= 3 ==> Timetable(p, r.times)
    ensures r.Unreachable? ==>
              !exists other: seq<nat> :: Timetable(p, other) && |other| == |p.waypoints| && other[|other| - 1] <= U64_MAXIMUM
  {
    hide Enough, IsSquareRoot, IsCubeRoot, Earliest, SegmentMove, ShapedWaypoints, ShapedLimits;
    var times := [0];
    var w := 1;
    StartTimes(p);
    hide Timetable;
    while w < |p.waypoints|
      invariant 1 <= w <= |p.waypoints| && |times| == w && times[0] == 0
      invariant forall i, j :: 0 <= i < j < w ==> times[i] < times[j]
      invariant times[w - 1] <= U64_MAXIMUM
      invariant Earliest(p, times)
      invariant Timetable(p, times) || (w == 2 && times[1] == U64_MAXIMUM)
    {
      var m := SegmentMove(p, w);
      var segment := TrajectoryDuration(m, sqrt, cbrt);
      DurationPositive(m, segment);
      LaterTimes(p, times, segment);
      var extended := times + [times[w - 1] + segment];
      if segment > U64_MAXIMUM - times[w - 1] {
        NoTimetable(p, extended);
        return Unreachable;
      }
      if segment < U64_MAXIMUM {
        ExtendTimetable(p, times, segment);
      }
      times := extended;
      w := w + 1;
    }
    r := Timed(times);
  }

  /** Appending a least duration keeps a timetable earliest. */
  lemma LaterTimes(p: Timing, times: seq<nat>, segment: nat)
    requires ValidTiming(p) && 1 <= |times| < |p.waypoints| && Earliest(p, times)
    requires forall n: nat :: n < segment ==> !Enough(SegmentMove(p, |times|), n)
    ensures Earliest(p, times + [times[|times| - 1] + segment])
  {
    var w := |times|;
    hide Enough;
    forall other: seq<nat>, k: nat | Timetable(p, other) && k < w + 1 && k < |other|
      ensures (times + [times[w - 1] + segment])[k] <= other[k]
    {
      if k == w {
        assert times[w - 1] <= other[w - 1];
        assert Enough(SegmentMove(p, w), other[w] - other[w - 1]);
      }
    }
  }

  lemma StartTimes(p: Timing)
    requires ValidTiming(p)
    ensures Timetable(p, [0]) && Earliest(p, [0])
  {
  }

  lemma ExtendTimetable(p: Timing, times: seq<nat>, segment: nat)
    requires ValidTiming(p) && 1 <= |times| < |p.waypoints| && Timetable(p, times)
    requires Enough(SegmentMove(p, |times|), segment)
    ensures Timetable(p, times + [times[|times| - 1] + segment])
  {
    hide Enough;
  }

  lemma NoTimetable(p: Timing, times: seq<nat>)
    requires ValidTiming(p) && 1 <= |times| <= |p.waypoints| && Earliest(p, times) && times[|times| - 1] > U64_MAXIMUM
    ensures !exists other: seq<nat> :: Timetable(p, other) && |other| == |p.waypoints| && other[|other| - 1] <= U64_MAXIMUM
  {
    hide Enough;
    forall other: seq<nat> | Timetable(p, other) && |other| == |p.waypoints|
      ensures other[|other| - 1] > U64_MAXIMUM
    {
      Monotone(p, other, |times| - 1, |other| - 1);
    }
  }

  lemma {:induction false} Monotone(p: Timing, other: seq<nat>, i: nat, j: nat)
    requires ValidTiming(p) && Timetable(p, other) && i <= j < |other|
    ensures other[i] <= other[j]
    decreases j
  {
    if i < j {
      Monotone(p, other, i, j - 1);
    }
  }

  /** A timed plan of three or more waypoints is feasible for every joint of both arms. */
  lemma TimedIsFeasible(p: Timing, times: seq<nat>, side: nat, joint: nat)
    requires ValidTiming(p) && Timetable(p, times) && |times| == |p.waypoints| && Increasing(times)
    requires side < ARMS && joint < JOINTS
    ensures Feasible(Knots(p.waypoints, side, joint), times, Scaled(p.limits[side][joint], p.scales))
  {
    var knots := Knots(p.waypoints, side, joint);
    hide JointEnough, Scaled;
    forall k | 1 <= k < |times|
      ensures JointEnough(Abs(knots[k] - knots[k - 1]), Scaled(p.limits[side][joint], p.scales),
                          Seconds(times[k] - times[k - 1]))
    {
      assert JointReady(SegmentMove(p, k), side, joint, Seconds(times[k] - times[k - 1]));
    }
  }

  /** So every plan the planner times keeps each joint, at every moment, within the joint's own
      limits times the request's scales: velocity and acceleration themselves, and how fast the
      acceleration changes. */
  lemma TimedPlanKeepsLimits(p: Timing, times: seq<nat>, side: nat, joint: nat, a: nat, b: nat)
    requires ValidTiming(p) && Timetable(p, times) && |times| == |p.waypoints| && Increasing(times)
    requires side < ARMS && joint < JOINTS && a <= b
    ensures var knots, own := Knots(p.waypoints, side, joint), p.limits[side][joint];
            && Abs(PlanValue(Velocity, knots, times, b)) <= Times(own.velocity, p.scales.velocity)
            && Abs(PlanValue(Acceleration, knots, times, b)) <= Times(own.acceleration, p.scales.acceleration)
            && Abs(PlanValue(Acceleration, knots, times, b) - PlanValue(Acceleration, knots, times, a))
               <= Times(Times(own.jerk, p.scales.jerk), (b - a) as real * 0.000000001)
  {
    var knots, l := Knots(p.waypoints, side, joint), Scaled(p.limits[side][joint], p.scales);
    hide Feasible, Times, PlanValue, Scaled, PositiveLimits;
    TimedIsFeasible(p, times, side, joint);
    LimitsArePositive(p, side, joint);
    ScaledIs(p.limits[side][joint], p.scales);
    PlanWithinLimits(Velocity, knots, times, l, b);
    PlanWithinLimits(Acceleration, knots, times, l, b);
    PlanRespectsLimits(Acceleration, knots, times, l, a, b);
  }

  lemma ScaledIs(l: Limits, s: Limits)
    ensures Scaled(l, s) == Limits(Times(l.velocity, s.velocity), Times(l.acceleration, s.acceleration), Times(l.jerk, s.jerk))
  {
  }

  lemma LimitsArePositive(p: Timing, side: nat, joint: nat)
    requires ValidTiming(p) && side < ARMS && joint < JOINTS
    ensures PositiveLimits(Scaled(p.limits[side][joint], p.scales))
  {
    ScaledPositive(p.limits[side][joint], p.scales);
  }
}
