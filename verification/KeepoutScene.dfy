/** What the keepout monitor guards: the arms themselves, at every pose it lets a command go on
    from. */
module KeepoutScene {
  import opened Common
  import opened Geometry
  import opened CollisionScene
  import opened SceneDistance
  import A = ArmFeedback
  import C = ControllerModel
  import S = ControllerSafety
  import R = ControllerRuns

  /** Kinematics and mesh evidence: where the centrelines are, if they can be computed, and what
      the contact policy has to go by. */
  datatype Sight = Sight(sqrt: real -> real, points: (A.Joints, A.Joints, bool) -> Option<Points>,
                         contact: (A.Joints, A.Joints, bool) -> Contact)

  /** The keepout evaluation of one pose is a scoped report at the intervention floor. */
  ghost predicate Sees(w: C.World, eye: Sight, l: A.Joints, r: A.Joints, policy: bool) {
    var k := w.keepout(l, r, policy);
    && (eye.contact(l, r, policy) == NoContact <== !policy)
    && match eye.points(l, r, policy)
       case None => !k.clear && k.clearance == None
       case Some(p) =>
         exists report :: ScopedResult(SceneOf(eye.sqrt, p), C.INTERVENTION_M, eye.contact(l, r, policy), report)
                          && k.clear == report.clear && k.clearance == report.minimum
  }

  ghost predicate Watches(w: C.World, eye: Sight) {
    IsSquareRoot(eye.sqrt) && forall l, r, policy :: Sees(w, eye, l, r, policy)
  }

  lemma ClearIsAboveFloor(w: C.World, eye: Sight, l: A.Joints, r: A.Joints, policy: bool)
    requires Sees(w, eye, l, r, policy)
    ensures var k := w.keepout(l, r, policy);
            k.clear ==> k.clearance.Some? && k.clearance.value >= C.INTERVENTION_M
  {
    hide SceneOf, ScopedResult;
    match eye.points(l, r, policy)
    case None =>
    case Some(p) =>
      var c := eye.contact(l, r, policy);
      var report :| ScopedResult(SceneOf(eye.sqrt, p), C.INTERVENTION_M, c, report)
                    && w.keepout(l, r, policy).clear == report.clear
                    && w.keepout(l, r, policy).clearance == report.minimum;
      ClearKeepsThreshold(SceneOf(eye.sqrt, p), C.INTERVENTION_M, c, report);
  }

  /** Such a monitor meets what the keepout bound asks of it. */
  lemma WatchingKeepsFloor(w: C.World, eye: Sight)
    requires Watches(w, eye)
    ensures R.ClearMeansFloor(w)
  {
    hide Sees;
    forall l, r, policy
      ensures w.keepout(l, r, policy).clear ==>
                w.keepout(l, r, policy).clearance.Some? && w.keepout(l, r, policy).clearance.value >= C.INTERVENTION_M
    {
      assert Sees(w, eye, l, r, policy);
      ClearIsAboveFloor(w, eye, l, r, policy);
    }
  }

  /** Everything the policy does not exempt is at least this far apart at a pose. */
  ghost predicate PoseApart(eye: Sight, l: A.Joints, r: A.Joints, policy: bool, gap: real) {
    && eye.points(l, r, policy).Some?
    && var p := eye.points(l, r, policy).value;
    var exempt := Exempt(SceneOf(eye.sqrt, p), C.INTERVENTION_M, eye.contact(l, r, policy));
    && (exempt ==> policy)
    && forall k :: 0 <= k < CHECKS && Counted(exempt, k) && Exact(eye.sqrt, p, k) ==> SolidsApart(eye.sqrt, p, k, gap)
  }

  lemma ClearanceIsReal(w: C.World, eye: Sight, l: A.Joints, r: A.Joints, policy: bool, gap: real)
    requires IsSquareRoot(eye.sqrt) && Sees(w, eye, l, r, policy)
    requires w.keepout(l, r, policy).clearance.Some? && w.keepout(l, r, policy).clearance.value >= gap
    ensures PoseApart(eye, l, r, policy, gap)
  {
    hide SceneOf, ScopedResult, Exact, SolidsApart;
    var p, c := eye.points(l, r, policy).value, eye.contact(l, r, policy);
    var sc := SceneOf(eye.sqrt, p);
    var report :| ScopedResult(sc, C.INTERVENTION_M, c, report) && w.keepout(l, r, policy).clearance == report.minimum;
    ReportBoundsTheArms(eye.sqrt, p, C.INTERVENTION_M, c, report);
    var exempt := Exempt(sc, C.INTERVENTION_M, c);
    forall k | 0 <= k < CHECKS && Counted(exempt, k) && Exact(eye.sqrt, p, k)
      ensures SolidsApart(eye.sqrt, p, k, gap)
    {
      ApartLess(eye.sqrt, p, k, report.minimum.value, gap);
    }
  }

  /** Over every run: in each monitored cycle that lets a command go on, at the pose it measured,
      the arms are really that far from each other and from the pole: 10 mm, less one micrometre
      for each of the latest consecutive cycles below the floor. */
  lemma GuardedCommandStaysApart(w: C.World, eye: Sight, s: C.State, ops: seq<C.Op>, op: C.Op, id: nat, n: nat)
    requires Watches(w, eye) && S.Good(s) && R.Bounded(s, id, n) && op.OpAdvance?
    requires var y := C.Run(w, s, ops);
             && y.commandId == id == C.Apply(w, y, op).s.commandId && R.Evaluated(w, y, op).Some?
    ensures var y := C.Run(w, s, ops);
            var seen := R.Pumped(w, y, op).value;
            PoseApart(eye, A.MeasuredQ(seen.arms.left), A.MeasuredQ(seen.arms.right),
                      seen.executing.value.motion.terminalContact,
                      R.Floor(R.CountBelow(w, y, op, R.CountBelowRun(w, s, ops, n))))
  {
    hide C.Apply, S.Good, C.Run, R.Pumped, R.Floor, R.CountBelow, R.CountBelowRun, Sees, PoseApart, R.ClearMeansFloor;
    var y := C.Run(w, s, ops);
    WatchingKeepsFloor(w, eye);
    S.RunKeepsGood(w, s, ops);
    R.KeepoutBound(w, s, ops, id, n);
    R.StepStaysBounded(w, y, op, id, R.CountBelowRun(w, s, ops, n));
    R.CycleRemembers(w, y, op);
    var seen := R.Pumped(w, y, op).value;
    var l, r := A.MeasuredQ(seen.arms.left), A.MeasuredQ(seen.arms.right);
    var policy := seen.executing.value.motion.terminalContact;
    assert Sees(w, eye, l, r, policy);
    ClearanceIsReal(w, eye, l, r, policy, R.Floor(R.CountBelow(w, y, op, R.CountBelowRun(w, s, ops, n))));
  }
}
