/** One simulated drive: its plant, its last measurement, and the eight-byte feedback
    frame that carries the one into the other. */
module Motors {
  import opened Common
  import opened RealFacts

  datatype MotorRecord = MotorRecord(
    embeddedId: nat, qScale: real, qOffset: real, pmax: real, vmax: real, tmax: real,
    lower: real, upper: real, maxVelocity: real, maxAcceleration: real)

  /** What the manifest constructor demands of a motor before a runtime is built on it. */
  type MotorConfig = c: MotorRecord
    | c.qScale != 0.0 && c.pmax > 0.0 && c.vmax > 0.0 && c.tmax > 0.0 && c.maxVelocity > 0.0
      && c.maxAcceleration > 0.0 && c.embeddedId < 16
    witness MotorRecord(0, 1.0, 0.0, 1.0, 1.0, 1.0, 0.0, 1.0, 1.0, 1.0)

  const Q_MAXIMUM: nat := 65535
  const FIELD_MAXIMUM: nat := 4095

  datatype Frame = Frame(data: seq<byte>, tNs: nat)

  datatype Measured = Measured(rawQ: real, rawDq: real, rawTau: real, status: nat, tNs: nat, valid: bool)

  datatype Motor = Motor(
    config: MotorConfig,
    measured: Measured,
    plantQ: real, plantDq: real, commandQ: real, commandDq: real,
    enabled: bool, blocked: bool, reactionGain: real,
    faultStatus: nat)

  function Clamp(x: real, low: real, high: real): real {
    Max(low, Min(x, high))
  }

  // ---------------------------------------------------------------------------
  // Quantised fields.

  /** Rounds half away from zero; only non-negative values occur. */
  function Round(x: real): int {
    if x >= 0.0 then (x + 0.5).Floor else -((0.5 - x).Floor)
  }

  /** Position of a clamped value in its span, from 0 to 1. */
  function Unit(value: real, span: real): (u: real)
    requires span > 0.0
    ensures 0.0 <= u <= 1.0
  {
    var v := Clamp(value, -span, span);
    UnitRange(v, span);
    (v + span) / (2.0 * span)
  }

  function Encode(value: real, span: real, maximum: nat): (n: nat)
    requires span > 0.0
    ensures n <= maximum
  {
    var u := Unit(value, span);
    UnitOfMaximum(u, maximum as real);
    Round(Times(u, maximum as real))
  }

  function Decode(n: nat, span: real, maximum: nat): real
    requires maximum > 0
  {
    n as real / maximum as real * (2.0 * span) - span
  }

  /** A value after a trip through its field. */
  function Requantised(value: real, span: real, maximum: nat): real
    requires span > 0.0 && maximum > 0
  {
    Decode(Encode(value, span, maximum), span, maximum)
  }

  lemma HalfStep(k: real, u: real, m: real, span: real)
    requires m > 0.0 && span > 0.0 && -0.5 <= k - Times(u, m) <= 0.5
    ensures var d := k / m * (2.0 * span) - u * (2.0 * span); -(span / m) <= d <= span / m
  {
    var e, w := k - u * m, 2.0 * span / m;
    SpanStep(k, u, m, span);
    QuotientNonNegative(2.0 * span, m);
    var low := MulMonotone(w, -0.5, e);
    var high := MulMonotone(w, e, 0.5);
    assert w * 0.5 == span / m;
  }

  lemma SpanStep(k: real, u: real, m: real, span: real)
    requires m > 0.0
    ensures k / m * (2.0 * span) - u * (2.0 * span) == (2.0 * span / m) * (k - u * m)
  {
    var i := 1.0 / m;
    assert k / m == k * i && 2.0 * span / m == 2.0 * span * i && m * i == 1.0;
    assert (2.0 * span * i) * (k - u * m) == k * i * (2.0 * span) - u * (2.0 * span) * (m * i);
  }

  /** The trip moves a value, once clamped to the span, by at most half a step of the field. */
  lemma RequantisedIsNear(value: real, span: real, maximum: nat)
    requires span > 0.0 && maximum > 0
    ensures Abs(Requantised(value, span, maximum) - Clamp(value, -span, span)) <= span / maximum as real
  {
    var m, u, v := maximum as real, Unit(value, span), Clamp(value, -span, span);
    var k := Encode(value, span, maximum);
    UnitOfMaximum(u, m);
    hide Times;
    assert -0.5 <= k as real - Times(u, m) <= 0.5;
    HalfStep(k as real, u, m, span);
    UnitMeans(v, span, u);
  }

  lemma UnitMeans(v: real, span: real, u: real)
    requires span > 0.0 && u == (v + span) / (2.0 * span)
    ensures u * (2.0 * span) - span == v
  {
  }

  lemma UnitRange(v: real, span: real)
    requires span > 0.0 && -span <= v <= span
    ensures 0.0 <= (v + span) / (2.0 * span) <= 1.0
  {
  }

  lemma UnitOfMaximum(u: real, m: real)
    requires 0.0 <= u <= 1.0 && m >= 0.0
    ensures 0.0 <= Times(u, m) <= m
  {
    MulNonNegative(u, m);
    var gap := MulMonotone(m, u, 1.0);
  }

  /** A decoded field is inside the span and encodes to itself again. */
  lemma EncodeInvertsDecode(n: nat, span: real, maximum: nat)
    requires span > 0.0 && 0 < maximum && n <= maximum
    ensures -span <= Decode(n, span, maximum) <= span
    ensures Encode(Decode(n, span, maximum), span, maximum) == n
  {
    var m := maximum as real;
    var fraction := n as real / m;
    FractionRange(n as real, m, fraction);
    var v := Decode(n, span, maximum);
    DecodedRange(fraction, span, v);
    CancelSpan(fraction, span, v);
    assert Unit(v, span) == fraction;
  }

  lemma FractionRange(n: real, m: real, fraction: real)
    requires 0.0 <= n <= m && m > 0.0 && fraction == n / m
    ensures 0.0 <= fraction <= 1.0 && Times(fraction, m) == n
  {
  }

  lemma DecodedRange(fraction: real, span: real, v: real)
    requires 0.0 <= fraction <= 1.0 && span > 0.0 && v == fraction * (2.0 * span) - span
    ensures -span <= v <= span
  {
    var gap := MulMonotone(2.0 * span, fraction, 1.0);
    MulNonNegative(fraction, 2.0 * span);
  }

  lemma CancelSpan(fraction: real, span: real, v: real)
    requires span > 0.0 && v == fraction * (2.0 * span) - span
    ensures (v + span) / (2.0 * span) == fraction
  {
  }

  // ---------------------------------------------------------------------------
  // The frame.

  datatype Fields = Fields(status: nat, q: nat, dq: nat, tau: nat)

  predicate InRange(f: Fields) {
    f.status < 16 && f.q <= Q_MAXIMUM && f.dq <= FIELD_MAXIMUM && f.tau <= FIELD_MAXIMUM
  }

  function Pack(f: Fields, id: nat): (data: seq<byte>)
    requires InRange(f) && id < 16
    ensures |data| == 8
  {
    [16 * f.status + id, f.q / 256, f.q % 256, f.dq / 16, 16 * (f.dq % 16) + f.tau / 256, f.tau % 256, 25, 25]
  }

  function Unpack(data: seq<byte>): (f: Fields)
    requires |data| == 8
    ensures InRange(f)
  {
    Fields((data[0] as nat) / 16, 256 * (data[1] as nat) + (data[2] as nat),
           16 * (data[3] as nat) + (data[4] as nat) / 16, 256 * ((data[4] as nat) % 16) + (data[5] as nat))
  }

  lemma UnpackInvertsPack(f: Fields, id: nat)
    requires InRange(f) && id < 16
    ensures Unpack(Pack(f, id)) == f
  {
    var d := Pack(f, id);
    assert (d[0] as nat) / 16 == f.status;
    assert (d[4] as nat) / 16 == f.dq % 16 && (d[4] as nat) % 16 == f.tau / 256;
  }

  /** Status and identifier in the first byte, then position in 16 bits, velocity and torque in
      12 bits each, most significant first. */
  lemma FrameIsOneNumber(f: Fields, id: nat)
    requires InRange(f) && id < 16
    ensures var d := Pack(f, id);
            256 * (256 * (256 * (256 * (256 * (d[0] as nat) + d[1] as nat) + d[2] as nat) + d[3] as nat) + d[4] as nat) + d[5] as nat
            == (((f.status * 16 + id) * 65536 + f.q) * 4096 + f.dq) * 4096 + f.tau
  {
  }

  /** The lowest field value stands for the lower end of the span, the highest for the upper. */
  lemma FieldEnds(span: real, maximum: nat)
    requires maximum > 0
    ensures Decode(0, span, maximum) == -span && Decode(maximum, span, maximum) == span
  {
    SimpleQuotients(maximum as real);
  }

  // ---------------------------------------------------------------------------
  // Operations.

  function Command(m: Motor, q: real, dq: real): Motor {
    m.(commandQ := (q - m.config.qOffset) / m.config.qScale, commandDq := dq / m.config.qScale)
  }

  function SetBlocked(m: Motor, blocked: bool, gain: real): Motor {
    m.(blocked := blocked, reactionGain := if gain > 0.0 then gain else m.config.tmax / 0.15)
  }

  /** What the servo loop asks of the drive. */
  function Acceleration(m: Motor): real {
    var desired :=
      Clamp(m.commandDq + 8.0 * (m.commandQ - m.plantQ), -m.config.maxVelocity, m.config.maxVelocity);
    Clamp((desired - m.plantDq) / 0.08, -m.config.maxAcceleration, m.config.maxAcceleration)
  }

  function NextVelocity(m: Motor, dt: real): real {
    Clamp(m.plantDq + Times(Acceleration(m), dt), -m.config.maxVelocity, m.config.maxVelocity)
  }

  /** Where the plant is after `dt` seconds of following its command. */
  function StepPlant(m: Motor, dt: real): Motor {
    var dq := NextVelocity(m, dt);
    var q := m.plantQ + Times(dq, dt);
    var remaining := m.commandQ - q;
    var still := Abs(m.commandDq) < 0.000000001;
    // the second test reads the velocity the first may already have cleared
    var crossed := Times(m.commandQ - m.plantQ, remaining) < 0.0 && still;
    var arrived := Abs(remaining) < 0.00005 && still && Abs(if crossed then 0.0 else dq) < 0.001;
    if crossed || arrived then m.(plantQ := m.commandQ, plantDq := 0.0) else m.(plantQ := q, plantDq := dq)
  }

  /** A step is no faster than the drive's velocity and, unless it arrives, changes velocity no
      faster than its acceleration. */
  lemma StepIsLimited(m: Motor, dt: real)
    requires dt >= 0.0 && -m.config.maxVelocity <= m.plantDq <= m.config.maxVelocity
    ensures var n := StepPlant(m, dt);
            && -m.config.maxVelocity <= n.plantDq <= m.config.maxVelocity
            && ((n.plantQ == m.commandQ && n.plantDq == 0.0)
                || (Abs(n.plantQ - m.plantQ) <= Times(m.config.maxVelocity, dt)
                    && Abs(n.plantDq - m.plantDq) <= Times(m.config.maxAcceleration, dt)))
  {
    hide Times;
    Stretch(Acceleration(m), m.config.maxAcceleration, dt);
    Stretch(NextVelocity(m, dt), m.config.maxVelocity, dt);
  }

  lemma Stretch(x: real, limit: real, dt: real)
    requires -limit <= x <= limit && dt >= 0.0
    ensures -Times(limit, dt) <= Times(x, dt) <= Times(limit, dt)
  {
    var low := MulMonotone(dt, -limit, x);
    var high := MulMonotone(dt, x, limit);
  }

  /** A drive commanded to rest never steps past its command. */
  lemma StepStopsAtCommand(m: Motor, dt: real)
    requires m.commandDq == 0.0
    ensures m.plantQ < m.commandQ ==> StepPlant(m, dt).plantQ <= m.commandQ
    ensures m.plantQ > m.commandQ ==> StepPlant(m, dt).plantQ >= m.commandQ
  {
    hide NextVelocity, Times;
    OppositeSigns(m.commandQ - m.plantQ, m.commandQ - (m.plantQ + Times(NextVelocity(m, dt), dt)));
  }

  lemma OppositeSigns(x: real, y: real)
    ensures (x > 0.0 && y < 0.0) || (x < 0.0 && y > 0.0) <==> Times(x, y) < 0.0
  {
  }

  /** Started from rest it moves towards its command, and at its command it stays. */
  lemma StepMovesToCommand(m: Motor, dt: real)
    requires dt >= 0.0 && m.commandDq == 0.0 && m.plantDq == 0.0
    ensures m.plantQ <= m.commandQ ==> m.plantQ <= StepPlant(m, dt).plantQ
    ensures m.plantQ >= m.commandQ ==> m.plantQ >= StepPlant(m, dt).plantQ
  {
    hide Times;
    SameSign(Acceleration(m), dt);
    SameSign(NextVelocity(m, dt), dt);
  }

  lemma SameSign(x: real, dt: real)
    requires dt >= 0.0
    ensures x >= 0.0 ==> Times(x, dt) >= 0.0
    ensures x <= 0.0 ==> Times(x, dt) <= 0.0
  {
    if x >= 0.0 {
      MulNonNegative(x, dt);
    } else {
      MulNonNegative(-x, dt);
      assert (-x) * dt == -(x * dt);
    }
  }

  function AfterStep(m: Motor, dt: real, frozen: bool): (r: Motor)
    ensures r.config == m.config && r.measured == m.measured && r.enabled == m.enabled
    ensures r.faultStatus == m.faultStatus && r.commandQ == m.commandQ && r.commandDq == m.commandDq
    ensures frozen ==> r == m
  {
    if frozen || m.blocked then m else StepPlant(m, dt)
  }

  function Status(m: Motor): nat {
    if m.faultStatus != 0 then m.faultStatus % 16 else if m.enabled then 1 else 0
  }

  function ContactTorque(m: Motor): real {
    if m.blocked then m.reactionGain * ((m.commandQ - m.plantQ) * m.config.qScale) else 0.0
  }

  /** The same torque, on the drive's side of the joint mapping. */
  function DriveTorque(m: Motor): real {
    ContactTorque(m) * m.config.qScale
  }

  function PlantFields(m: Motor): (f: Fields)
    ensures InRange(f)
  {
    Fields(Status(m), Encode(m.plantQ, m.config.pmax, Q_MAXIMUM), Encode(m.plantDq, m.config.vmax, FIELD_MAXIMUM),
           Encode(DriveTorque(m), m.config.tmax, FIELD_MAXIMUM))
  }

  /** The frame a stepped motor sends. */
  function Capture(m: Motor, captureNs: nat): (f: Frame)
    ensures |f.data| == 8 && f.tNs == captureNs
  {
    Frame(Pack(PlantFields(m), m.config.embeddedId), captureNs)
  }

  /** What a frame says, in the spans of its motor. */
  function Reading(c: MotorConfig, f: Frame): (r: Measured)
    requires |f.data| == 8
    ensures r.tNs == f.tNs && r.valid
  {
    var fields := Unpack(f.data);
    Measured(Decode(fields.q, c.pmax, Q_MAXIMUM), Decode(fields.dq, c.vmax, FIELD_MAXIMUM),
             Decode(fields.tau, c.tmax, FIELD_MAXIMUM), fields.status, f.tNs, true)
  }

  function Publish(m: Motor, f: Frame): (r: Motor)
    requires |f.data| == 8
    ensures r.measured.tNs == f.tNs && r.measured.valid
  {
    m.(measured := Reading(m.config, f))
  }

  function ForceState(m: Motor, q: real, dq: real, ns: nat): (r: Motor)
    ensures r.config == m.config && r.enabled == m.enabled && r.faultStatus == m.faultStatus
    ensures r.measured.tNs == ns && r.measured.valid
  {
    var plantQ, plantDq := (q - m.config.qOffset) / m.config.qScale, dq / m.config.qScale;
    var forced := m.(plantQ := plantQ, plantDq := plantDq, commandQ := plantQ, commandDq := plantDq);
    Publish(forced, Capture(AfterStep(forced, 0.0, true), ns))
  }

  function MappedQ(m: Motor): real {
    m.config.qScale * m.measured.rawQ + m.config.qOffset
  }

  function MappedDq(m: Motor): real {
    m.config.qScale * m.measured.rawDq
  }

  function MappedTau(m: Motor): real {
    m.measured.rawTau / m.config.qScale
  }

  /** The measured position came out of a frame. */
  ghost predicate OnGrid(m: Motor) {
    exists n: nat :: n <= Q_MAXIMUM && m.measured.rawQ == Decode(n, m.config.pmax, Q_MAXIMUM)
  }

  lemma PublishIsOnGrid(m: Motor, f: Frame)
    requires |f.data| == 8
    ensures OnGrid(Publish(m, f))
  {
    var n := Unpack(f.data).q;
    assert Publish(m, f).measured.rawQ == Decode(n, m.config.pmax, Q_MAXIMUM);
  }

  lemma ForceStateIsOnGrid(m: Motor, q: real, dq: real, ns: nat)
    ensures OnGrid(ForceState(m, q, dq, ns))
  {
    hide Reading, Capture, OnGrid;
    var plantQ, plantDq := (q - m.config.qOffset) / m.config.qScale, dq / m.config.qScale;
    var forced := m.(plantQ := plantQ, plantDq := plantDq, commandQ := plantQ, commandDq := plantDq);
    PublishIsOnGrid(AfterStep(forced, 0.0, true), Capture(AfterStep(forced, 0.0, true), ns));
  }

  lemma CancelMapping(raw: real, scale: real, offset: real, mapped: real)
    requires scale != 0.0 && mapped == scale * raw + offset
    ensures (mapped - offset) / scale == raw
  {
  }

  /** An obstacle is pressed with the gain times how far the joint is from its command; without
      one there is no torque. */
  lemma TorqueIsPressure(m: Motor)
    ensures var wanted := m.config.qScale * m.commandQ + m.config.qOffset;
            var reached := m.config.qScale * m.plantQ + m.config.qOffset;
            DriveTorque(m) == if m.blocked then m.reactionGain * (wanted - reached) * m.config.qScale else 0.0
  {
  }

  /** Without a gain of its own an obstacle brings the drive to its rated torque at 0.15 rad. */
  lemma ObstacleGain(m: Motor, gain: real)
    ensures var b := SetBlocked(m, true, gain);
            b.blocked && if gain > 0.0 then b.reactionGain == gain else b.reactionGain * 0.15 == m.config.tmax
  {
  }

  /** What is measured is the plant, to the resolution of the frame: status, position,
      velocity and contact torque. */
  lemma CaptureThenPublish(m: Motor, ns: nat)
    ensures var r := Publish(m, Capture(m, ns)).measured;
            && r.status == (if m.faultStatus != 0 then m.faultStatus % 16 else if m.enabled then 1 else 0)
            && r.tNs == ns && r.valid
            && r.rawQ == Requantised(m.plantQ, m.config.pmax, Q_MAXIMUM)
            && r.rawDq == Requantised(m.plantDq, m.config.vmax, FIELD_MAXIMUM)
            && r.rawTau == Requantised(DriveTorque(m), m.config.tmax, FIELD_MAXIMUM)
  {
    hide Decode, Encode, Pack, Unpack, DriveTorque;
    UnpackInvertsPack(PlantFields(m), m.config.embeddedId);
  }

  /** This close to the clamped value: half a step of the field. */
  predicate NearField(measured: real, value: real, span: real, maximum: nat)
    requires maximum > 0
  {
    Abs(measured - Clamp(value, -span, span)) <= span / maximum as real
  }

  /** A forced state is measured as the state asked for, clamped to what the frame can carry
      and to within half a step of it, without torque. */
  lemma ForcedMeasurement(m: Motor, q: real, dq: real, ns: nat)
    ensures var rawQ, rawDq := (q - m.config.qOffset) / m.config.qScale, dq / m.config.qScale;
            var r := ForceState(m, q, dq, ns).measured;
            && r.status == Status(m) && r.tNs == ns && r.valid
            && r.rawQ == Requantised(rawQ, m.config.pmax, Q_MAXIMUM)
            && r.rawDq == Requantised(rawDq, m.config.vmax, FIELD_MAXIMUM)
            && NearField(r.rawQ, rawQ, m.config.pmax, Q_MAXIMUM) && NearField(r.rawDq, rawDq, m.config.vmax, FIELD_MAXIMUM)
            && NearField(r.rawTau, 0.0, m.config.tmax, FIELD_MAXIMUM)
  {
    hide Decode, Encode, Pack, Unpack, Clamp, Requantised, DriveTorque;
    var plantQ, plantDq := (q - m.config.qOffset) / m.config.qScale, dq / m.config.qScale;
    var forced := m.(plantQ := plantQ, plantDq := plantDq, commandQ := plantQ, commandDq := plantDq);
    CaptureThenPublish(forced, ns);
    NoTorque(forced);
    RequantisedIsNear(plantQ, m.config.pmax, Q_MAXIMUM);
    RequantisedIsNear(plantDq, m.config.vmax, FIELD_MAXIMUM);
    RequantisedIsNear(0.0, m.config.tmax, FIELD_MAXIMUM);
  }

  lemma NoTorque(m: Motor)
    requires m.commandQ == m.plantQ
    ensures DriveTorque(m) == 0.0
  {
  }

  /** Stopping in place does not move the measured pose: the hold re-encodes to the same
      field, however often it is repeated. */
  lemma HoldDoesNotDrift(m: Motor, dq: real, ns: nat)
    requires OnGrid(m)
    ensures var held := ForceState(m, MappedQ(m), dq, ns);
            held.measured.rawQ == m.measured.rawQ && MappedQ(held) == MappedQ(m) && OnGrid(held)
  {
    hide Decode, Encode, ForceState, NearField;
    var n: nat :| n <= Q_MAXIMUM && m.measured.rawQ == Decode(n, m.config.pmax, Q_MAXIMUM);
    CancelMapping(m.measured.rawQ, m.config.qScale, m.config.qOffset, MappedQ(m));
    EncodeInvertsDecode(n, m.config.pmax, Q_MAXIMUM);
    ForcedMeasurement(m, MappedQ(m), dq, ns);
  }
}
