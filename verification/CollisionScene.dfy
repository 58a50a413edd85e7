/** The two evaluators of a collision scene: one returns at the first violation, the other
    looks at everything and may exempt one terminal contact. */
module CollisionScene {
  import opened Common
  import opened RealFacts

  const SEGMENTS: nat := 7
  const ARM_PAIRS: nat := 49
  const CHECKS: nat := 63
  const TERMINAL: nat := 48
  const CLAW_RAIL_M: real := 0.025
  const RAIL_INTRUSION_M: real := 0.002

  /** Clearance of two segments with the parameters of their closest points. */
  datatype Detail = Detail(value: real, s: real, t: real)

  /** Every clearance of a finite scene: segment against segment, segment against pole. */
  datatype Scene = Scene(pair: (nat, nat) -> Detail, pole: (nat, nat) -> real)

  datatype Kind = NoViolation | ArmArm | Pole

  datatype Report = Report(clear: bool, kind: Kind, side: nat, a: nat, b: nat, minimum: Option<real>)

  /** Exact gaps between the claw meshes: hand to hand, and the least of all others. */
  datatype Claw = Claw(handGap: real, otherGap: real)

  /** What may exempt the terminal pair: the policy, whether the caps face each other (given
      the closest parameters and whether opposed axes are required), and mesh evidence. */
  datatype Contact = NoContact | TerminalCaps(facing: (real, real, bool) -> bool, claw: Option<Claw>)

  // ---------------------------------------------------------------------------
  // All checks, in the order both evaluators make them.

  function Value(sc: Scene, k: nat): real {
    if k < ARM_PAIRS then sc.pair(k / SEGMENTS, k % SEGMENTS).value
    else sc.pole((k - ARM_PAIRS) / SEGMENTS, (k - ARM_PAIRS) % SEGMENTS)
  }

  /** How a report names a check. */
  predicate Names(r: Report, k: nat) {
    if k < ARM_PAIRS then r.kind == ArmArm && r.side == 0 && r.a == k / SEGMENTS && r.b == k % SEGMENTS
    else k < CHECKS && r.kind == Pole && r.side == (k - ARM_PAIRS) / SEGMENTS && r.a == (k - ARM_PAIRS) % SEGMENTS && r.b == 0
  }

  function Lower(m: Option<real>, v: real): Option<real> {
    if m == None || v < m.value then Some(v) else m
  }

  /** Minimum over the first k checks, leaving out the exempt one. */
  function MinUpTo(sc: Scene, start: Option<real>, exempt: bool, k: nat): Option<real> {
    if k == 0 then start
    else if exempt && k - 1 == TERMINAL then MinUpTo(sc, start, exempt, k - 1)
    else Lower(MinUpTo(sc, start, exempt, k - 1), Value(sc, k - 1))
  }

  predicate Counted(exempt: bool, k: nat) {
    k < CHECKS && !(exempt && k == TERMINAL)
  }

  /** A minimum is below everything counted, and is one of the things counted. */
  lemma {:induction false} MinIsLeast(sc: Scene, start: Option<real>, exempt: bool, k: nat)
    requires k <= CHECKS
    ensures var m := MinUpTo(sc, start, exempt, k);
            && (start.Some? ==> m.Some? && m.value <= start.value)
            && (forall j :: 0 <= j < k && Counted(exempt, j) ==> m.Some? && m.value <= Value(sc, j))
            && (m.Some? ==> m == start || exists j :: 0 <= j < k && Counted(exempt, j) && m.value == Value(sc, j))
  {
    hide Value;
    if k > 0 {
      MinIsLeast(sc, start, exempt, k - 1);
      var before := MinUpTo(sc, start, exempt, k - 1);
      if before.Some? && before != start {
        var j :| 0 <= j < k - 1 && Counted(exempt, j) && before.value == Value(sc, j);
        assert j < k;
      }
    }
  }

  // ---------------------------------------------------------------------------
  // The evaluator that stops at the first violation.

  ghost predicate ClearTo(sc: Scene, threshold: real, k: nat) {
    forall j :: 0 <= j < k ==> Value(sc, j) >= threshold
  }

  /** Clear with the overall minimum, or the first violation with the minimum so far. */
  ghost predicate EarlyResult(sc: Scene, threshold: real, r: Report) {
    if ClearTo(sc, threshold, CHECKS) then
      r == Report(true, NoViolation, 0, 0, 0, MinUpTo(sc, None, false, CHECKS))
    else
      && !r.clear
      && exists n :: 0 <= n < CHECKS && ClearTo(sc, threshold, n) && Value(sc, n) < threshold && Names(r, n)
                     && r.minimum == MinUpTo(sc, None, false, n + 1)
  }

  method Evaluate(sc: Scene, threshold: real) returns (r: Report)
    ensures EarlyResult(sc, threshold, r)
  {
    hide Value;
    var minimum: Option<real> := None;
    for left := 0 to SEGMENTS
      invariant ClearTo(sc, threshold, SEGMENTS * left) && minimum == MinUpTo(sc, None, false, SEGMENTS * left)
    {
      for right := 0 to SEGMENTS
        invariant ClearTo(sc, threshold, SEGMENTS * left + right)
        invariant minimum == MinUpTo(sc, None, false, SEGMENTS * left + right)
      {
        var value := sc.pair(left, right).value;
        PairValue(sc, left, right);
        minimum := Lower(minimum, value);
        if value < threshold {
          r := Report(false, ArmArm, 0, left, right, minimum);
          FirstViolation(sc, threshold, r, SEGMENTS * left + right);
          return;
        }
      }
    }
    for side := 0 to 2
      invariant ClearTo(sc, threshold, ARM_PAIRS + SEGMENTS * side)
      invariant minimum == MinUpTo(sc, None, false, ARM_PAIRS + SEGMENTS * side)
    {
      for segment := 0 to SEGMENTS
        invariant ClearTo(sc, threshold, ARM_PAIRS + SEGMENTS * side + segment)
        invariant minimum == MinUpTo(sc, None, false, ARM_PAIRS + SEGMENTS * side + segment)
      {
        var value := sc.pole(side, segment);
        PoleValue(sc, side, segment);
        minimum := Lower(minimum, value);
        if value < threshold {
          r := Report(false, Pole, side, segment, 0, minimum);
          FirstViolation(sc, threshold, r, ARM_PAIRS + SEGMENTS * side + segment);
          return;
        }
      }
    }
    return Report(true, NoViolation, 0, 0, 0, minimum);
  }

  lemma PairValue(sc: Scene, left: nat, right: nat)
    requires left < SEGMENTS && right < SEGMENTS
    ensures Value(sc, SEGMENTS * left + right) == sc.pair(left, right).value
    ensures SEGMENTS * left + right < ARM_PAIRS
    ensures (SEGMENTS * left + right) / SEGMENTS == left && (SEGMENTS * left + right) % SEGMENTS == right
    ensures SEGMENTS * left + right == TERMINAL <==> left == 6 && right == 6
  {
  }

  lemma PoleValue(sc: Scene, side: nat, segment: nat)
    requires side < 2 && segment < SEGMENTS
    ensures Value(sc, ARM_PAIRS + SEGMENTS * side + segment) == sc.pole(side, segment)
    ensures ARM_PAIRS + SEGMENTS * side + segment < CHECKS
    ensures (SEGMENTS * side + segment) / SEGMENTS == side && (SEGMENTS * side + segment) % SEGMENTS == segment
  {
  }

  lemma FirstViolation(sc: Scene, threshold: real, r: Report, n: nat)
    requires n < CHECKS && ClearTo(sc, threshold, n) && Value(sc, n) < threshold && Names(r, n) && !r.clear
    requires r.minimum == MinUpTo(sc, None, false, n + 1)
    ensures EarlyResult(sc, threshold, r)
  {
    hide Value, Names;
  }

  // ---------------------------------------------------------------------------
  // The evaluator that looks at everything.

  function ClawOf(c: Contact): Option<Claw> {
    if c.NoContact? then None else c.claw
  }

  function StartOf(c: Contact): Option<real> {
    if ClawOf(c) == None then None else Some(ClawOf(c).value.otherGap)
  }

  /** The terminal pair is exempt only under the contact policy, only when it is below the
      threshold, with facing caps, and with mesh evidence that nothing but the rails is near. */
  predicate Exempt(sc: Scene, threshold: real, c: Contact) {
    && c.TerminalCaps?
    && var d := sc.pair(6, 6);
    && d.value < threshold && c.facing(d.s, d.t, c.claw == None)
    && (c.claw.Some? ==>
          c.claw.value.handGap >= CLAW_RAIL_M - RAIL_INTRUSION_M && c.claw.value.otherGap >= threshold)
  }

  /** Running worst violation: its clearance and its place. */
  datatype Worst = Nothing | AtClaw(gap: real) | AtCheck(value: real, k: nat)

  predicate IsWorse(w: Worst, v: real, threshold: real) {
    v < threshold && match w case Nothing => true case AtClaw(gap) => v < gap case AtCheck(value, _) => v < value
  }

  /** The worst of the violations so far, if there is one. */
  ghost predicate WorstSoFar(sc: Scene, threshold: real, c: Contact, exempt: bool, k: nat, w: Worst) {
    && (forall j :: 0 <= j < k && Counted(exempt, j) ==>
          Value(sc, j) >= threshold || (w != Nothing && WorstValue(w) <= Value(sc, j)))
    && (StartOf(c).Some? ==> StartOf(c).value >= threshold || (w != Nothing && WorstValue(w) <= StartOf(c).value))
    && match w
       case Nothing => true
       case AtClaw(gap) => StartOf(c) == Some(gap) && gap < threshold
       case AtCheck(value, n) => n < k && Counted(exempt, n) && value == Value(sc, n) < threshold
  }

  function WorstValue(w: Worst): real {
    match w case Nothing => 0.0 case AtClaw(gap) => gap case AtCheck(value, _) => value
  }

  /** The scoped report: the minimum over everything not exempt; clear exactly if all of that
      keeps the threshold; otherwise the place of the least clearance. */
  ghost predicate ScopedResult(sc: Scene, threshold: real, c: Contact, r: Report) {
    var exempt := Exempt(sc, threshold, c);
    && r.minimum == MinUpTo(sc, StartOf(c), exempt, CHECKS)
    && (r.clear <==> (StartOf(c).Some? ==> StartOf(c).value >= threshold)
                     && forall k :: 0 <= k < CHECKS && Counted(exempt, k) ==> Value(sc, k) >= threshold)
    && (r.clear ==> r.kind == NoViolation)
    && (!r.clear ==>
          || (r.kind == ArmArm && r.side == 0 && r.a == 6 && r.b == 6 && r.minimum == StartOf(c))
          || exists k :: 0 <= k < CHECKS && Counted(exempt, k) && Names(r, k) && r.minimum == Some(Value(sc, k)))
  }

  method EvaluateScoped(sc: Scene, threshold: real, c: Contact) returns (r: Report)
    ensures ScopedResult(sc, threshold, c, r)
  {
    hide Value, Exempt, MinUpTo, WorstSoFar;
    ghost var exempt := Exempt(sc, threshold, c);
    var minimum, worst := ScanArms(sc, threshold, c);
    minimum, worst := ScanPoles(sc, threshold, c, minimum, worst);
    r := MakeReport(worst, minimum);
    WorstIsMinimum(sc, threshold, c, exempt, worst, r);
  }

  method ScanArms(sc: Scene, threshold: real, c: Contact) returns (minimum: Option<real>, worst: Worst)
    ensures minimum == MinUpTo(sc, StartOf(c), Exempt(sc, threshold, c), ARM_PAIRS)
    ensures WorstSoFar(sc, threshold, c, Exempt(sc, threshold, c), ARM_PAIRS, worst)
  {
    hide Value, Exempt;
    ghost var exempt := Exempt(sc, threshold, c);
    minimum, worst := StartOf(c), Nothing;
    if minimum.Some? && minimum.value < threshold {
      worst := AtClaw(minimum.value);
    }
    hide WorstSoFar, IsWorse;
    for left := 0 to SEGMENTS
      invariant minimum == MinUpTo(sc, StartOf(c), exempt, SEGMENTS * left)
      invariant WorstSoFar(sc, threshold, c, exempt, SEGMENTS * left, worst)
    {
      for right := 0 to SEGMENTS
        invariant minimum == MinUpTo(sc, StartOf(c), exempt, SEGMENTS * left + right)
        invariant WorstSoFar(sc, threshold, c, exempt, SEGMENTS * left + right, worst)
      {
        var k := SEGMENTS * left + right;
        PairValue(sc, left, right);
        var value := sc.pair(left, right).value;
        if left == 6 && right == 6 && Exempt(sc, threshold, c) {
          SkipExempt(sc, threshold, c, exempt, k, worst);
        } else {
          minimum := Lower(minimum, value);
          WorstStep(sc, threshold, c, exempt, k, worst);
          if IsWorse(worst, value, threshold) {
            worst := AtCheck(value, k);
          }
        }
      }
    }
  }

  method ScanPoles(sc: Scene, threshold: real, c: Contact, before: Option<real>, worstBefore: Worst)
    returns (minimum: Option<real>, worst: Worst)
    requires before == MinUpTo(sc, StartOf(c), Exempt(sc, threshold, c), ARM_PAIRS)
    requires WorstSoFar(sc, threshold, c, Exempt(sc, threshold, c), ARM_PAIRS, worstBefore)
    ensures minimum == MinUpTo(sc, StartOf(c), Exempt(sc, threshold, c), CHECKS)
    ensures WorstSoFar(sc, threshold, c, Exempt(sc, threshold, c), CHECKS, worst)
  {
    hide Value, Exempt, WorstSoFar, IsWorse;
    ghost var exempt := Exempt(sc, threshold, c);
    minimum, worst := before, worstBefore;
    for side := 0 to 2
      invariant minimum == MinUpTo(sc, StartOf(c), exempt, ARM_PAIRS + SEGMENTS * side)
      invariant WorstSoFar(sc, threshold, c, exempt, ARM_PAIRS + SEGMENTS * side, worst)
    {
      for segment := 0 to SEGMENTS
        invariant minimum == MinUpTo(sc, StartOf(c), exempt, ARM_PAIRS + SEGMENTS * side + segment)
        invariant WorstSoFar(sc, threshold, c, exempt, ARM_PAIRS + SEGMENTS * side + segment, worst)
      {
        var k := ARM_PAIRS + SEGMENTS * side + segment;
        PoleValue(sc, side, segment);
        var value := sc.pole(side, segment);
        minimum := Lower(minimum, value);
        WorstStep(sc, threshold, c, exempt, k, worst);
        if IsWorse(worst, value, threshold) {
          worst := AtCheck(value, k);
        }
      }
    }
  }

  function MakeReport(w: Worst, minimum: Option<real>): Report {
    match w
    case Nothing => Report(true, NoViolation, 0, 0, 0, minimum)
    case AtClaw(_) => Report(false, ArmArm, 0, 6, 6, minimum)
    case AtCheck(_, k) =>
      if k < ARM_PAIRS then Report(false, ArmArm, 0, k / SEGMENTS, k % SEGMENTS, minimum)
      else Report(false, Pole, (k - ARM_PAIRS) / SEGMENTS, (k - ARM_PAIRS) % SEGMENTS, 0, minimum)
  }

  lemma SkipExempt(sc: Scene, threshold: real, c: Contact, exempt: bool, k: nat, w: Worst)
    requires exempt && k == TERMINAL && WorstSoFar(sc, threshold, c, exempt, k, w)
    ensures WorstSoFar(sc, threshold, c, exempt, k + 1, w)
  {
    hide Value;
  }

  lemma WorstStep(sc: Scene, threshold: real, c: Contact, exempt: bool, k: nat, w: Worst)
    requires Counted(exempt, k) && WorstSoFar(sc, threshold, c, exempt, k, w)
    ensures WorstSoFar(sc, threshold, c, exempt, k + 1,
                       if IsWorse(w, Value(sc, k), threshold) then AtCheck(Value(sc, k), k) else w)
  {
    hide Value;
  }

  lemma WorstIsMinimum(sc: Scene, threshold: real, c: Contact, exempt: bool, w: Worst, r: Report)
    requires exempt == Exempt(sc, threshold, c) && WorstSoFar(sc, threshold, c, exempt, CHECKS, w)
    requires r == MakeReport(w, MinUpTo(sc, StartOf(c), exempt, CHECKS))
    ensures ScopedResult(sc, threshold, c, r)
  {
    hide Value, Exempt, MinUpTo;
    var m := MinUpTo(sc, StartOf(c), exempt, CHECKS);
    MinIsLeast(sc, StartOf(c), exempt, CHECKS);
    if w.AtCheck? {
      assert Names(r, w.k);
      assert m == Some(Value(sc, w.k));
    }
  }

  // ---------------------------------------------------------------------------
  // How they relate.

  /** Without a contact policy both give the same verdict; when clear, the same minimum; when
      not, the scoped minimum is never larger. */
  lemma EvaluatorsAgree(sc: Scene, threshold: real, early: Report, scoped: Report)
    requires EarlyResult(sc, threshold, early) && ScopedResult(sc, threshold, NoContact, scoped)
    ensures early.clear == scoped.clear
    ensures early.clear ==> early.minimum == scoped.minimum
    ensures early.minimum.Some? && scoped.minimum.Some? && scoped.minimum.value <= early.minimum.value
  {
    hide Value, MinUpTo, Names;
    MinIsLeast(sc, None, false, CHECKS);
    assert Counted(false, 0);
    if !early.clear {
      var n :| 0 <= n < CHECKS && ClearTo(sc, threshold, n) && Value(sc, n) < threshold && Names(early, n)
               && early.minimum == MinUpTo(sc, None, false, n + 1);
      MinIsLeast(sc, None, false, n + 1);
      assert Counted(false, n);
    }
  }

  /** A clear verdict means the threshold is kept by everything that was not exempt, the
      reported minimum included. */
  lemma ClearKeepsThreshold(sc: Scene, threshold: real, c: Contact, r: Report)
    requires ScopedResult(sc, threshold, c, r)
    ensures r.minimum.Some?
    ensures r.clear <==> r.minimum.value >= threshold
    ensures forall k :: 0 <= k < CHECKS && Counted(Exempt(sc, threshold, c), k) ==> r.minimum.value <= Value(sc, k)
    ensures c.TerminalCaps? && c.claw.Some? ==> r.minimum.value <= c.claw.value.otherGap
  {
    hide Value, MinUpTo, Names, Exempt;
    MinIsLeast(sc, StartOf(c), Exempt(sc, threshold, c), CHECKS);
    assert Counted(Exempt(sc, threshold, c), 0);
  }

  /** When the terminal pair is excused: the policy allows it, the pair is too close, its caps face
      each other (with opposed axes when there is no mesh evidence), and, with it, the hands are at
      least 23 mm apart and every other pair of meshes keeps the threshold. */
  predicate Excused(sc: Scene, threshold: real, c: Contact) {
    && c.TerminalCaps? && sc.pair(6, 6).value < threshold
    && c.facing(sc.pair(6, 6).s, sc.pair(6, 6).t, c.claw.None?)
    && (c.claw.Some? ==> c.claw.value.handGap >= 0.023 && c.claw.value.otherGap >= threshold)
  }

  lemma ExemptIs(sc: Scene, threshold: real, c: Contact)
    ensures Exempt(sc, threshold, c) <==> Excused(sc, threshold, c)
  {
  }

  /** The contact policy can only exempt the terminal pair, never anything else, and only when it
      is excused; otherwise what it calls clear is clear without it. */
  lemma ContactExemptsOnePair(sc: Scene, threshold: real, c: Contact, strict: Report, scoped: Report)
    requires ScopedResult(sc, threshold, NoContact, strict) && ScopedResult(sc, threshold, c, scoped)
    ensures scoped.clear <==>
            && (forall k :: 0 <= k < CHECKS && k != TERMINAL ==> Value(sc, k) >= threshold)
            && (Value(sc, TERMINAL) >= threshold || Excused(sc, threshold, c))
            && (c.TerminalCaps? && c.claw.Some? ==> c.claw.value.otherGap >= threshold)
    ensures strict.clear <==> forall k :: 0 <= k < CHECKS ==> Value(sc, k) >= threshold
  {
    hide Value, MinUpTo, Names, Exempt, Excused;
    ExemptIs(sc, threshold, c);
    NeverExempt(sc, threshold);
    var exempt := Exempt(sc, threshold, c);
    assert forall k :: 0 <= k < CHECKS && k != TERMINAL ==> Counted(exempt, k);
    assert Counted(exempt, TERMINAL) <==> !exempt;
    assert forall k :: 0 <= k < CHECKS ==> Counted(false, k);
  }

  lemma NeverExempt(sc: Scene, threshold: real)
    ensures !Exempt(sc, threshold, NoContact)
  {
  }
}
