/** The seventh-order time law, its first three derivatives and their peaks. */
module Smoothstep {
  import opened RealFacts
  import opened Polynomials

  /** The polynomial of the law, in the source's factored form. */
  function StepPolynomial(x: real): real {
    x * x * x * x * (35.0 + x * (-84.0 + x * (70.0 - 20.0 * x)))
  }

  /** `smoothstep7` of the source. */
  function Smoothstep7(u: real): real {
    StepPolynomial(Clamp01(u))
  }

  /** `smoothstep7_derivative` of the source. */
  function Smoothstep7Derivative(u: real): real {
    var x := Clamp01(u);
    var oneMinus := 1.0 - x;
    140.0 * x * x * x * oneMinus * oneMinus * oneMinus
  }

  // Coefficients of the law and of its derivatives.
  const POSITION: seq<real> := [0.0, 0.0, 0.0, 0.0, 35.0, -84.0, 70.0, -20.0]
  const VELOCITY: seq<real> := [0.0, 0.0, 0.0, 140.0, -420.0, 420.0, -140.0]
  const ACCELERATION: seq<real> := [0.0, 0.0, 420.0, -1680.0, 2100.0, -840.0]
  const JERK: seq<real> := [0.0, 840.0, -5040.0, 8400.0, -4200.0]

  // The peaks 2.1875, 8 and 52.5 on the unit interval; the exact peak of the
  // acceleration is about 7.51, and 8 is the constant the planner uses.
  const VELOCITY_PEAK: real := 2.1875
  const ACCELERATION_PEAK: real := 8.0
  const JERK_PEAK: real := 52.5

  lemma DerivativeCoefficients()
    ensures Differentiate(POSITION) == VELOCITY
    ensures Differentiate(VELOCITY) == ACCELERATION
    ensures Differentiate(ACCELERATION) == JERK
  {
  }

  lemma Shift(p: seq<real>, x: real)
    ensures Eval([0.0] + p, x) == x * Eval(p, x)
  {
    assert ([0.0] + p)[1..] == p;
  }

  lemma Cubic(a: real, b: real, c: real, d: real, x: real)
    ensures Eval([a, b, c, d], x) == a + x * (b + x * (c + x * d))
  {
    Prepend(a, [b, c, d], x);
    Prepend(b, [c, d], x);
    Prepend(c, [d], x);
    Prepend(d, [], x);
    assert [a] + [b, c, d] == [a, b, c, d] && [b] + [c, d] == [b, c, d] && [c] + [d] == [c, d] && [d] + [] == [d];
  }

  lemma Prepend(a: real, p: seq<real>, x: real)
    ensures Eval([a] + p, x) == a + x * Eval(p, x)
  {
    assert ([a] + p)[1..] == p;
  }

  lemma PositionForm(x: real)
    ensures Eval(POSITION, x) == StepPolynomial(x)
  {
    var c := [35.0, -84.0, 70.0, -20.0];
    assert POSITION == [0.0] + ([0.0] + ([0.0] + ([0.0] + c)));
    Shift(c, x);
    Shift([0.0] + c, x);
    Shift([0.0] + ([0.0] + c), x);
    Shift([0.0] + ([0.0] + ([0.0] + c)), x);
    Cubic(35.0, -84.0, 70.0, -20.0, x);
  }

  lemma VelocityForm(x: real)
    ensures Eval(VELOCITY, x) == 140.0 * (Bump(x) * (Bump(x) * Bump(x)))
  {
    var c := [140.0, -420.0, 420.0, -140.0];
    assert VELOCITY == [0.0] + ([0.0] + ([0.0] + c));
    Shift(c, x);
    Shift([0.0] + c, x);
    Shift([0.0] + ([0.0] + c), x);
    Cubic(140.0, -420.0, 420.0, -140.0, x);
  }

  lemma AccelerationForm(x: real)
    ensures Eval(ACCELERATION, x) == 420.0 * ((Bump(x) * Bump(x)) * (1.0 - 2.0 * x))
  {
    var c := [420.0, -1680.0, 2100.0, -840.0];
    assert ACCELERATION == [0.0] + ([0.0] + c);
    Shift(c, x);
    Shift([0.0] + c, x);
    Cubic(420.0, -1680.0, 2100.0, -840.0, x);
  }

  lemma JerkForm(x: real)
    ensures Eval(JERK, x) == 840.0 * (Bump(x) * (1.0 - 5.0 * Bump(x)))
  {
    var c := [840.0, -5040.0, 8400.0, -4200.0];
    assert JERK == [0.0] + c;
    Shift(c, x);
    Cubic(840.0, -5040.0, 8400.0, -4200.0, x);
  }

  /** x (1 - x), which lies in [0, 1/4] on the unit interval. */
  function Bump(x: real): real {
    x * (1.0 - x)
  }

  lemma BumpRange(x: real)
    requires InUnit(x)
    ensures 0.0 <= Bump(x) <= 0.25
  {
    MulNonNegative(x, 1.0 - x);
    SquareSign(1.0 - 2.0 * x);
    assert (1.0 - 2.0 * x) * (1.0 - 2.0 * x) == 1.0 - 4.0 * Bump(x);
  }

  lemma SmoothstepIsPosition(x: real)
    requires InUnit(x)
    ensures Smoothstep7(x) == Eval(POSITION, x)
    ensures Smoothstep7Derivative(x) == Eval(VELOCITY, x) == Slope(POSITION, x)
  {
    PositionForm(x);
    VelocityForm(x);
    DerivativeCoefficients();
    SlopeIsDerivative(POSITION, x);
    hide Eval, Slope, Differentiate;
    assert 140.0 * (Bump(x) * (Bump(x) * Bump(x))) == 140.0 * x * x * x * (1.0 - x) * (1.0 - x) * (1.0 - x);
  }

  lemma VelocityPeak(x: real)
    requires InUnit(x)
    ensures 0.0 <= Eval(VELOCITY, x) <= VELOCITY_PEAK
  {
    VelocityForm(x);
    BumpRange(x);
    CubePeak(Bump(x));
  }

  lemma CubePeak(w: real)
    requires 0.0 <= w <= 0.25
    ensures 0.0 <= 140.0 * (w * (w * w)) <= VELOCITY_PEAK
  {
    MulNonNegative(w, w);
    MulNonNegative(w, w * w);
    var g1 := MulMonotone(w, w, 0.25);
    var g2 := MulMonotone(w, w * w, 0.0625);
  }

  /** v^4 (1 - v) is at most 4^4 / 5^5 for non-negative v. */
  lemma QuarticPeak(v: real)
    requires v >= 0.0
    ensures ((v * v) * (v * v)) * (1.0 - v) <= 0.08192
  {
    var d := v - 0.8;
    SquareSign(d);
    var v2 := v * v;
    assert v2 >= 0.0 by { MulNonNegative(v, v); }
    var v3 := v * v2;
    assert v3 >= 0.0 by { MulNonNegative(v, v2); }
    var k := v3 + 0.6 * v2 + 0.32 * v + 0.128;
    MulNonNegative(d * d, k);
    assert 0.08192 - ((v * v) * (v * v)) * (1.0 - v) == (d * d) * k;
  }

  /** With z = 1 - 2x, 420 w^2 z is 26.25 z (1 - z^2)^2, whose square is bounded by QuarticPeak. */
  lemma AccelerationPeak(x: real)
    requires InUnit(x)
    ensures Within(Eval(ACCELERATION, x), ACCELERATION_PEAK)
  {
    AccelerationForm(x);
    BumpRange(x);
    var z := 1.0 - 2.0 * x;
    var w := Bump(x);
    var v := 4.0 * w;
    hide Eval;
    assert v == 1.0 - z * z;
    QuarticPeak(v);
    var a := 420.0 * ((w * w) * z);
    SquareOfAcceleration(a, v, z, w);
    SquareOrder(ACCELERATION_PEAK, Abs(a));
    assert Abs(a) * Abs(a) == a * a;
  }

  lemma SquareOfAcceleration(a: real, v: real, z: real, w: real)
    requires a == 420.0 * ((w * w) * z) && v == 4.0 * w && v == 1.0 - z * z
    requires ((v * v) * (v * v)) * (1.0 - v) <= 0.08192
    ensures a * a <= 64.0
  {
    assert a == 26.25 * ((v * v) * z);
    assert a * a == 689.0625 * (((v * v) * (v * v)) * (z * z));
  }

  lemma JerkPeak(x: real)
    requires InUnit(x)
    ensures Within(Eval(JERK, x), JERK_PEAK)
  {
    JerkForm(x);
    BumpRange(x);
    JerkRange(Bump(x));
  }

  lemma JerkRange(w: real)
    requires 0.0 <= w <= 0.25
    ensures Within(840.0 * (w * (1.0 - 5.0 * w)), JERK_PEAK)
  {
    MulNonNegative(0.25 - w, 5.0 * w + 0.25);
    SquareSign(w - 0.1);
    assert (0.25 - w) * (5.0 * w + 0.25) == w * (1.0 - 5.0 * w) + 0.0625;
    assert (w - 0.1) * (w - 0.1) == 0.01 - 0.2 * (w * (1.0 - 5.0 * w));
  }
}
