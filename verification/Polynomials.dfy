/** Real polynomials as coefficient lists, their derivative, and the mean value
    inequality on the unit interval.

    `TangentError` ties `Slope` to `Eval` (it is the derivative), and
    `MeanValueInequality` turns a bound on the derivative into a bound on change. */
module Polynomials {
  import opened RealFacts

  /** p[0] + p[1] x + p[2] x^2 + ... */
  function Eval(p: seq<real>, x: real): real {
    if p == [] then 0.0 else p[0] + x * Eval(p[1..], x)
  }

  /** The derivative, by the product rule on p[0] + x q(x). */
  function Slope(p: seq<real>, x: real): real {
    if p == [] then 0.0 else Eval(p[1..], x) + x * Slope(p[1..], x)
  }

  // Crude constants for the unit interval: values, change and second-order error.
  function ValueBound(p: seq<real>): (b: real)
    ensures b >= 0.0
  {
    if p == [] then 0.0 else Abs(p[0]) + ValueBound(p[1..])
  }

  function ChangeBound(p: seq<real>): (b: real)
    ensures b >= 0.0
  {
    if p == [] then 0.0 else ValueBound(p[1..]) + ChangeBound(p[1..])
  }

  function ErrorBound(p: seq<real>): (b: real)
    ensures b >= 0.0
  {
    if p == [] then 0.0 else ChangeBound(p[1..]) + ErrorBound(p[1..])
  }

  /** a lies in [-b, b]. */
  predicate Within(a: real, b: real) {
    -b <= a <= b
  }

  lemma WithinSum(a: real, b: real, c: real, d: real)
    requires Within(a, b) && Within(c, d)
    ensures Within(a + c, b + d)
  {
  }

  lemma WithinScale(k: real, a: real, b: real)
    requires k >= 0.0 && Within(a, b)
    ensures Within(k * a, k * b)
  {
    var upper := MulMonotone(k, a, b);
    var lower := MulMonotone(k, -b, a);
    assert k * (-b) == -(k * b);
  }

  /** Scaling by a factor from the unit interval does not enlarge the bound. */
  lemma WithinUnitScale(x: real, a: real, b: real)
    requires InUnit(x) && Within(a, b)
    ensures Within(x * a, b)
  {
    WithinScale(x, a, b);
    var gap := MulMonotone(b, x, 1.0);
  }

  lemma {:induction false} ValueBounded(p: seq<real>, x: real)
    requires InUnit(x)
    ensures Within(Eval(p, x), ValueBound(p))
  {
    if p != [] {
      var q := p[1..];
      ValueBounded(q, x);
      var xqx := x * Eval(q, x);
      WithinUnitScale(x, Eval(q, x), ValueBound(q));
      WithinSum(p[0], Abs(p[0]), xqx, ValueBound(q));
      assert Eval(p, x) == p[0] + xqx;
    }
  }

  // From here on products in contracts are written with `Times`, and lemmas that
  // only combine others hide its definition.

  /** One step of every recursive definition, with the values named. */
  lemma Unfold(p: seq<real>, x: real) returns (q: seq<real>, qx: real, xqx: real)
    requires p != []
    ensures q == p[1..] && qx == Eval(q, x) && xqx == Times(x, qx)
    ensures Eval(p, x) == p[0] + xqx && Slope(p, x) == qx + Times(x, Slope(q, x))
    ensures ChangeBound(p) == ValueBound(q) + ChangeBound(q)
    ensures ErrorBound(p) == ChangeBound(q) + ErrorBound(q)
  {
    q := p[1..];
    qx := Eval(q, x);
    xqx := Times(x, qx);
  }

  lemma ZeroTimes(y: real)
    ensures Times(0.0, y) == 0.0
  {
  }

  /** |p(x + h) - p(x)| <= ChangeBound(p) h on the unit interval. */
  lemma {:induction false} ChangeBounded(p: seq<real>, x: real, y: real, h: real)
    requires 0.0 <= x <= y <= 1.0 && y == x + h
    ensures Within(Eval(p, y) - Eval(p, x), Times(ChangeBound(p), h))
  {
    hide Times;
    if p == [] {
      ZeroTimes(h);
      return;
    }
    hide Eval, ValueBound, ChangeBound;
    var q, qx, cx := Unfold(p, x);
    var q', qy, cy := Unfold(p, y);
    ChangeBounded(q, x, y, h);
    ValueBounded(q, y);
    ChangeStep(qx, qy, cx, cy, x, y, h, ValueBound(q), ChangeBound(q), ChangeBound(p));
  }

  lemma ChangeStep(qx: real, qy: real, cx: real, cy: real, x: real, y: real, h: real, vb: real, cb: real, pb: real)
    requires 0.0 <= x <= y <= 1.0 && y == x + h && pb == vb + cb
    requires cx == Times(x, qx) && cy == Times(y, qy)
    requires Within(qy, vb) && Within(qy - qx, Times(cb, h))
    ensures Within(cy - cx, Times(pb, h))
  {
    WithinScale(h, qy, vb);
    WithinUnitScale(x, qy - qx, cb * h);
    assert cy - cx == h * qy + x * (qy - qx);
    assert pb * h == h * vb + cb * h;
  }

  /** The derivative is the slope of the tangent, with a quadratic error. */
  lemma {:induction false} TangentError(p: seq<real>, x: real, y: real, h: real)
    requires 0.0 <= x <= y <= 1.0 && y == x + h
    ensures Within(Eval(p, y) - Eval(p, x) - Times(Slope(p, x), h), Times(ErrorBound(p), Times(h, h)))
  {
    hide Times;
    if p == [] {
      ZeroTimes(h);
      ZeroTimes(Times(h, h));
      return;
    }
    hide Eval, Slope, ChangeBound, ErrorBound;
    var q, qx, cx := Unfold(p, x);
    var q', qy, cy := Unfold(p, y);
    TangentError(q, x, y, h);
    ChangeBounded(q, x, y, h);
    TangentStep(qx, qy, cx, cy, Slope(q, x), Slope(p, x), x, y, h, ChangeBound(q), ErrorBound(q), ErrorBound(p));
  }

  lemma TangentStep(qx: real, qy: real, cx: real, cy: real, slope: real, pslope: real, x: real, y: real, h: real,
                    cb: real, eb: real, pb: real)
    requires 0.0 <= x <= y <= 1.0 && y == x + h
    requires cx == Times(x, qx) && cy == Times(y, qy) && pslope == qx + Times(x, slope) && pb == cb + eb
    requires Within(qy - qx, Times(cb, h)) && Within(qy - qx - Times(slope, h), Times(eb, Times(h, h)))
    ensures Within(cy - cx - Times(pslope, h), Times(pb, Times(h, h)))
  {
    hide Times;
    var rest := qy - qx - Times(slope, h);
    UnitTimesWithin(x, rest, Times(eb, Times(h, h)));
    TimesWithin(h, qy - qx, Times(cb, h));
    TangentIdentity(x, h, qx, qy, slope);
    ErrorIdentity(h, cb, eb);
  }

  lemma TangentIdentity(x: real, h: real, qx: real, qy: real, slope: real)
    ensures Times(x + h, qy) - Times(x, qx) - Times(qx + Times(x, slope), h) ==
            Times(x, qy - qx - Times(slope, h)) + Times(qy - qx, h)
  {
  }

  lemma ErrorIdentity(h: real, cb: real, eb: real)
    ensures Times(cb + eb, Times(h, h)) == Times(Times(cb, h), h) + Times(eb, Times(h, h))
  {
  }

  lemma UnitTimesWithin(x: real, a: real, b: real)
    requires InUnit(x) && Within(a, b)
    ensures Within(Times(x, a), b)
  {
    WithinUnitScale(x, a, b);
  }

  /** A bound that holds up to k / n for every n holds. */
  lemma Archimedes(x: real, y: real, k: real) returns (n: nat)
    requires k >= 0.0
    ensures n >= 1
    ensures Times(x, n as real) <= Times(y, n as real) + k ==> x <= y
  {
    n := 1;
    if x > y {
      var d := x - y;
      n := CountBeyond(k, d);
      assert x * (n as real) == y * (n as real) + d * (n as real);
    }
  }

  lemma CountBeyond(k: real, d: real) returns (n: nat)
    requires k >= 0.0 && d > 0.0
    ensures n >= 1 && d * (n as real) > k
  {
    var r := k / d;
    assert d * r == k;
    assert r >= 0.0 by { QuotientNonNegative(k, d); }
    n := r.Floor + 1;
    var gap := MulStrict(d, r, n as real);
  }

  /** Every slope on the unit interval lies in [-M, M]. */
  ghost predicate SlopeBounded(p: seq<real>, M: real) {
    forall x: real :: InUnit(x) ==> Within(Slope(p, x), M)
  }

  /** k steps of length h from u reach x and change p by at most k times the bound of one. */
  lemma {:induction false} StepsBounded(p: seq<real>, M: real, u: real, h: real, k: nat, r: real, x: real, step: real)
    requires SlopeBounded(p, M)
    requires r == k as real && x == u + Times(h, r) && step == Times(M, h) + Times(ErrorBound(p), Times(h, h))
    requires 0.0 <= u && 0.0 <= h && x <= 1.0
    ensures Within(Eval(p, x) - Eval(p, u), Times(r, step))
    decreases k
  {
    hide Times, Eval, ErrorBound, SlopeBounded;
    if k == 0 {
      ZeroTimes(h);
      ZeroTimes(step);
      TimesCommutes(h, r);
      return;
    }
    var before := x - h;
    OneLess(h, r);
    OneLess(step, r);
    TimesCommutes(step, r);
    TimesCommutes(step, r - 1.0);
    TimesNonNegative(h, r - 1.0);
    StepsBounded(p, M, u, h, k - 1, r - 1.0, before, step);
    OneStep(p, M, before, x, h, step);
  }

  lemma OneLess(h: real, r: real)
    ensures Times(h, r - 1.0) == Times(h, r) - h
  {
  }

  lemma TimesCommutes(x: real, y: real)
    ensures Times(x, y) == Times(y, x)
  {
  }

  lemma TimesNonNegative(x: real, y: real)
    requires x >= 0.0 && y >= 0.0
    ensures Times(x, y) >= 0.0
  {
    MulNonNegative(x, y);
  }

  lemma OneStep(p: seq<real>, M: real, x: real, y: real, h: real, step: real)
    requires SlopeBounded(p, M) && 0.0 <= x <= y <= 1.0 && y == x + h
    requires step == Times(M, h) + Times(ErrorBound(p), Times(h, h))
    ensures Within(Eval(p, y) - Eval(p, x), step)
  {
    assert Within(Slope(p, x), M);
    hide Times, Eval, Slope, ErrorBound, SlopeBounded;
    TangentError(p, x, y, h);
    TimesWithin(h, Slope(p, x), M);
  }

  lemma TimesWithin(h: real, slope: real, M: real)
    requires h >= 0.0 && Within(slope, M)
    ensures Within(Times(slope, h), Times(M, h))
  {
    WithinScale(h, slope, M);
  }

  lemma OrderedMeanValue(p: seq<real>, M: real, u: real, v: real)
    requires SlopeBounded(p, M) && 0.0 <= u <= v <= 1.0
    ensures Within(Eval(p, v) - Eval(p, u), M * (v - u))
  {
    hide Eval, SlopeBounded, ErrorBound;
    var d := v - u;
    var change := Eval(p, v) - Eval(p, u);
    var bound := M * d;
    var k := ErrorTerm(ErrorBound(p), d);
    var n := Archimedes(change, bound, k);
    SubdivisionBound(p, M, u, v, d, n, n as real, k, change, bound);
    var m := Archimedes(-change, bound, k);
    SubdivisionBound(p, M, u, v, d, m, m as real, k, change, bound);
  }

  lemma ErrorTerm(eb: real, d: real) returns (k: real)
    requires eb >= 0.0
    ensures k == Times(eb, Times(d, d)) && k >= 0.0
  {
    k := eb * (d * d);
    SquareSign(d);
    MulNonNegative(eb, d * d);
  }

  /** The bound obtained from n equal steps, multiplied by n. */
  lemma SubdivisionBound(p: seq<real>, M: real, u: real, v: real, d: real, n: nat, r: real,
                         k: real, change: real, bound: real)
    requires SlopeBounded(p, M) && 0.0 <= u <= v <= 1.0 && n >= 1 && r == n as real && d == v - u
    requires change == Eval(p, v) - Eval(p, u) && bound == Times(M, d) && k == Times(ErrorBound(p), Times(d, d))
    ensures Times(change, r) <= Times(bound, r) + k && Times(-change, r) <= Times(bound, r) + k
  {
    var h := d / r;
    assert Times(h, r) == d && h >= 0.0 by { QuotientNonNegative(d, r); }
    hide Times, Eval, SlopeBounded, ErrorBound;
    var step := Times(M, h) + Times(ErrorBound(p), Times(h, h));
    StepsBounded(p, M, u, h, n, r, v, step);
    ScaleByCount(change, M, ErrorBound(p), h, d, r, step, bound, k);
  }

  lemma ScaleByCount(change: real, M: real, eb: real, h: real, d: real, r: real, step: real, bound: real, k: real)
    requires r >= 1.0 && Times(h, r) == d && step == Times(M, h) + Times(eb, Times(h, h))
    requires Within(change, Times(r, step)) && bound == Times(M, d) && k == Times(eb, Times(d, d))
    ensures Times(change, r) <= Times(bound, r) + k && Times(-change, r) <= Times(bound, r) + k
  {
    var b := r * step;
    var upper := MulMonotone(r, change, b);
    var lower := MulMonotone(r, -b, change);
    assert r * b == (M * (h * r)) * r + eb * ((h * r) * (h * r));
    assert r * (-b) == -(r * b);
  }

  /** A polynomial changes no faster than its derivative allows. */
  lemma MeanValueInequality(p: seq<real>, M: real, u: real, v: real)
    requires SlopeBounded(p, M) && InUnit(u) && InUnit(v)
    ensures Abs(Eval(p, v) - Eval(p, u)) <= M * Abs(v - u)
  {
    hide Eval, SlopeBounded;
    if u <= v {
      OrderedMeanValue(p, M, u, v);
    } else {
      OrderedMeanValue(p, M, v, u);
    }
  }

  // ---------------------------------------------------------------------------
  // Coefficients of the derivative.

  function ScaledFrom(q: seq<real>, k: nat): seq<real> {
    seq(|q|, i requires 0 <= i < |q| => Times((k + i) as real, q[i]))
  }

  /** The coefficient list [1 p[1], 2 p[2], ...]. */
  function Differentiate(p: seq<real>): seq<real> {
    if p == [] then [] else ScaledFrom(p[1..], 1)
  }

  lemma {:induction false} ScaledFromEval(q: seq<real>, k: nat, kr: real, x: real)
    requires kr == k as real
    ensures Eval(ScaledFrom(q, k), x) == Times(kr, Eval(q, x)) + Times(x, Slope(q, x))
  {
    if q == [] {
      ZeroTimes(kr);
      ZeroTimes(x);
    } else {
      ScaledFromEval(q[1..], k + 1, kr + 1.0, x);
      ScaledStep(q, k, kr, x);
    }
  }

  lemma ScaledStep(q: seq<real>, k: nat, kr: real, x: real)
    requires kr == k as real && q != []
    requires Eval(ScaledFrom(q[1..], k + 1), x) == Times(kr + 1.0, Eval(q[1..], x)) + Times(x, Slope(q[1..], x))
    ensures Eval(ScaledFrom(q, k), x) == Times(kr, Eval(q, x)) + Times(x, Slope(q, x))
  {
    var s := ScaledFrom(q, k);
    ScaledTail(q, k);
    var q', er, xer := Unfold(q, x);
    var s', es, xes := Unfold(s, x);
    assert s[0] == Times(kr, q[0]);
    hide Times, Eval, Slope, ScaledFrom;
    ScaledIdentity(kr, x, q[0], er, Slope(q', x));
  }

  lemma ScaledTail(q: seq<real>, k: nat)
    requires q != []
    ensures ScaledFrom(q, k)[1..] == ScaledFrom(q[1..], k + 1)
  {
    hide Times;
  }

  lemma ScaledIdentity(k: real, x: real, q0: real, er: real, sr: real)
    ensures Times(k, q0) + Times(x, Times(k + 1.0, er) + Times(x, sr)) ==
            Times(k, q0 + Times(x, er)) + Times(x, er + Times(x, sr))
  {
  }

  lemma SlopeIsDerivative(p: seq<real>, x: real)
    ensures Slope(p, x) == Eval(Differentiate(p), x)
  {
    if p != [] {
      ScaledFromEval(p[1..], 1, 1.0, x);
    }
  }
}
