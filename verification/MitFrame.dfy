/** The MIT command frame: five quantities clamped or refused, truncated to their fields and
    packed into eight bytes. */
module MitFrame {
  import opened Common
  import opened RealFacts

  const POSITION_MAXIMUM: nat := 65535
  const FIELD_MAXIMUM: nat := 4095

  // ---------------------------------------------------------------------------
  // Quantising by truncation.

  function FromUint(n: nat, lower: real, upper: real, maximum: nat): real
    requires maximum > 0
  {
    Times(n as real / maximum as real, upper - lower) + lower
  }

  function ToUint(value: real, lower: real, upper: real, maximum: nat): int
    requires lower < upper
  {
    (Times(value - lower, maximum as real) / (upper - lower)).Floor
  }

  /** Distance between neighbouring field values. */
  function FieldStep(lower: real, upper: real, maximum: nat): real
    requires maximum > 0
  {
    (upper - lower) / maximum as real
  }

  lemma StepForm(n: nat, lower: real, upper: real, maximum: nat)
    requires maximum > 0
    ensures FromUint(n, lower, upper, maximum) == lower + Times(n as real, FieldStep(lower, upper, maximum))
  {
    var m, span := maximum as real, upper - lower;
    assert (n as real / m) * span == n as real * (span / m);
  }

  lemma Ratio(value: real, lower: real, upper: real, maximum: nat)
    requires lower < upper && maximum > 0
    ensures var x := Times(value - lower, maximum as real) / (upper - lower);
            Times(x, FieldStep(lower, upper, maximum)) == value - lower
  {
    var m, span := maximum as real, upper - lower;
    var x := (value - lower) * m / span;
    assert x * span == (value - lower) * m;
    assert x * (span / m) == (x * span) / m;
  }

  lemma StepPositive(lower: real, upper: real, maximum: nat)
    requires lower < upper && maximum > 0
    ensures FieldStep(lower, upper, maximum) > 0.0
  {
  }

  lemma FloorBetween(x: real, s: real, n: int)
    requires s > 0.0 && n == x.Floor
    ensures Times(n as real, s) <= Times(x, s) < Times(n as real, s) + s
  {
    var low := MulMonotone(s, n as real, x);
    var high := MulStrict(s, x, n as real + 1.0);
  }

  lemma ZeroToMaximum(x: real, s: real, span: real, maximum: nat)
    requires s > 0.0 && 0.0 <= Times(x, s) <= span && Times(maximum as real, s) == span
    ensures 0.0 <= x <= maximum as real
  {
    if x < 0.0 {
      var gap := MulStrict(s, x, 0.0);
    }
    if x > maximum as real {
      var gap := MulStrict(s, maximum as real, x);
    }
  }

  /** A value in range encodes into its field and decodes to at most one step below itself. */
  lemma TruncatesDownward(value: real, lower: real, upper: real, maximum: nat)
    requires lower < upper && maximum > 0 && lower <= value <= upper
    ensures var n := ToUint(value, lower, upper, maximum);
            0 <= n <= maximum
            && FromUint(n, lower, upper, maximum) <= value
            && value < FromUint(n, lower, upper, maximum) + FieldStep(lower, upper, maximum)
  {
    hide Times, FieldStep, FromUint;
    var x, s := Times(value - lower, maximum as real) / (upper - lower), FieldStep(lower, upper, maximum);
    var n := ToUint(value, lower, upper, maximum);
    StepPositive(lower, upper, maximum);
    Ratio(value, lower, upper, maximum);
    StepForm(maximum, lower, upper, maximum);
    FullScale(lower, upper, maximum);
    ZeroToMaximum(x, s, upper - lower, maximum);
    FloorBetween(x, s, n);
    StepForm(n, lower, upper, maximum);
  }

  lemma FullScale(lower: real, upper: real, maximum: nat)
    requires maximum > 0
    ensures Times(maximum as real, FieldStep(lower, upper, maximum)) == upper - lower
  {
  }

  /** Every field value is the code of what it decodes to. */
  lemma FieldRoundTrip(n: nat, lower: real, upper: real, maximum: nat)
    requires lower < upper && maximum > 0
    ensures ToUint(FromUint(n, lower, upper, maximum), lower, upper, maximum) == n
  {
    hide FromUint, FieldStep;
    var value, s := FromUint(n, lower, upper, maximum), FieldStep(lower, upper, maximum);
    var x := Times(value - lower, maximum as real) / (upper - lower);
    StepForm(n, lower, upper, maximum);
    Ratio(value, lower, upper, maximum);
    StepPositive(lower, upper, maximum);
    SameFactor(x, n as real, s);
  }

  lemma SameFactor(x: real, y: real, s: real)
    requires s > 0.0 && Times(x, s) == Times(y, s)
    ensures x == y
  {
  }

  // ---------------------------------------------------------------------------
  // Packing.

  datatype Raw = Raw(position: nat, velocity: nat, kp: nat, kd: nat, torque: nat)

  predicate InFields(r: Raw) {
    && r.position <= POSITION_MAXIMUM && r.velocity <= FIELD_MAXIMUM && r.kp <= FIELD_MAXIMUM && r.kd <= FIELD_MAXIMUM
    && r.torque <= FIELD_MAXIMUM
  }

  function Pack(r: Raw): (data: seq<byte>)
    requires InFields(r)
    ensures |data| == 8
  {
    [r.position / 256, r.position % 256, r.velocity / 16, 16 * (r.velocity % 16) + r.kp / 256, r.kp % 256,
     r.kd / 16, 16 * (r.kd % 16) + r.torque / 256, r.torque % 256]
  }

  function Unpack(d: seq<byte>): (r: Raw)
    requires |d| == 8
    ensures InFields(r)
  {
    Raw(256 * (d[0] as nat) + (d[1] as nat), 16 * (d[2] as nat) + (d[3] as nat) / 16,
        256 * ((d[3] as nat) % 16) + (d[4] as nat), 16 * (d[5] as nat) + (d[6] as nat) / 16,
        256 * ((d[6] as nat) % 16) + (d[7] as nat))
  }

  lemma SplitNibbles(high: nat, low: nat)
    requires low < 16
    ensures (16 * high + low) / 16 == high && (16 * high + low) % 16 == low
  {
  }

  lemma UnpackInvertsPack(r: Raw)
    requires InFields(r)
    ensures Unpack(Pack(r)) == r
  {
    SplitNibbles(r.velocity % 16, r.kp / 256);
    SplitNibbles(r.kd % 16, r.torque / 256);
  }

  /** No two commands share a frame, and every eight bytes are some command. */
  lemma PackInvertsUnpack(d: seq<byte>)
    requires |d| == 8
    ensures Pack(Unpack(d)) == d
  {
    var p, r := Pack(Unpack(d)), Unpack(d);
    SplitNibbles(d[2] as nat, (d[3] as nat) / 16);
    SplitNibbles(d[5] as nat, (d[6] as nat) / 16);
    LowByte((d[3] as nat) % 16, d[4]);
    LowByte((d[6] as nat) % 16, d[7]);
    LowByte(d[0] as nat, d[1]);
    forall i | 0 <= i < 8
      ensures p[i] == d[i]
    {
    }
  }

  /** The bytes of a frame as one number, the first most significant. */
  function BigEndian(d: seq<byte>): nat {
    if d == [] then 0 else 256 * BigEndian(d[..|d| - 1]) + d[|d| - 1] as nat
  }

  /** Position in the upper 16 bits, then velocity, kp, kd and torque in 12 bits each. */
  function Assembled(r: Raw): nat {
    (((r.position * 4096 + r.velocity) * 4096 + r.kp) * 4096 + r.kd) * 4096 + r.torque
  }

  lemma EightBytes(d: seq<byte>)
    requires |d| == 8
    ensures BigEndian(d) ==
            0x1_0000_0000 * (256 * (256 * (256 * (d[0] as nat) + d[1] as nat) + d[2] as nat) + d[3] as nat)
            + 256 * (256 * (256 * (d[4] as nat) + d[5] as nat) + d[6] as nat) + d[7] as nat
  {
    assert d[..7][..6] == d[..6] && d[..6][..5] == d[..5] && d[..5][..4] == d[..4] && d[..4][..3] == d[..3]
           && d[..3][..2] == d[..2] && d[..2][..1] == d[..1] && d[..1][..0] == [];
    assert BigEndian(d[..1]) == d[0] as nat;
    assert BigEndian(d[..2]) == 256 * BigEndian(d[..1]) + d[1] as nat;
    assert BigEndian(d[..3]) == 256 * BigEndian(d[..2]) + d[2] as nat;
    assert BigEndian(d[..4]) == 256 * BigEndian(d[..3]) + d[3] as nat;
    assert BigEndian(d[..5]) == 256 * BigEndian(d[..4]) + d[4] as nat;
    assert BigEndian(d[..6]) == 256 * BigEndian(d[..5]) + d[5] as nat;
    assert BigEndian(d[..7]) == 256 * BigEndian(d[..6]) + d[6] as nat;
  }

  /** Every frame is its five fields written one after the other. */
  lemma FrameIsOneNumber(d: seq<byte>)
    requires |d| == 8
    ensures BigEndian(d) == Assembled(Unpack(d))
  {
    EightBytes(d);
  }

  lemma LowByte(high: nat, low: byte)
    ensures (256 * high + low as nat) / 256 == high && (256 * high + low as nat) % 256 == low as nat
  {
  }

  // ---------------------------------------------------------------------------
  // Encoding a command.

  datatype Quantity = Position | Velocity | Kp | Kd | Torque

  datatype Command = Command(position: real, velocity: real, kp: real, kd: real, torque: real)

  datatype Ranges = Ranges(pmax: real, vmax: real, tmax: real)

  datatype Outcome = Encoded(data: seq<byte>, saturated: set<Quantity>) | EInval | ERange

  predicate ValidRanges(g: Ranges) {
    g.pmax > 0.0 && g.vmax > 0.0 && g.tmax > 0.0
  }

  function Wanted(c: Command, k: Quantity): real {
    match k case Position => c.position case Velocity => c.velocity case Kp => c.kp case Kd => c.kd case Torque => c.torque
  }

  function Upper(g: Ranges, k: Quantity): real {
    match k case Position => g.pmax case Velocity => g.vmax case Kp => 500.0 case Kd => 5.0 case Torque => g.tmax
  }

  function Lower(g: Ranges, k: Quantity): real {
    if k == Kp || k == Kd then 0.0 else -Upper(g, k)
  }

  predicate Within(g: Ranges, c: Command, k: Quantity) {
    Lower(g, k) <= Wanted(c, k) <= Upper(g, k)
  }

  function Limited(g: Ranges, c: Command, k: Quantity): real {
    Max(Lower(g, k), Min(Wanted(c, k), Upper(g, k)))
  }

  function Code(g: Ranges, c: Command, k: Quantity): int
    requires ValidRanges(g)
  {
    ToUint(Limited(g, c, k), Lower(g, k), Upper(g, k), if k == Position then POSITION_MAXIMUM else FIELD_MAXIMUM)
  }

  /** Limits one quantity as the policy says. */
  method LimitValue(g: Ranges, c: Command, k: Quantity, saturate: bool, mask: set<Quantity>)
    returns (ok: bool, value: real, mask': set<Quantity>)
    requires ValidRanges(g)
    ensures ok <==> saturate || Within(g, c, k)
    ensures ok ==> value == Limited(g, c, k) && mask' == if Within(g, c, k) then mask else mask + {k}
  {
    var input, lower, upper := Wanted(c, k), Lower(g, k), Upper(g, k);
    ok, value, mask' := true, input, mask;
    if input < lower || input > upper {
      if !saturate {
        return false, value, mask;
      }
      mask' := mask + {k};
      value := if input < lower then lower else upper;
    }
  }

  /** Encodes a command.  It is refused exactly for a bad identifier or range, or, unless
      saturating, for a quantity out of range; otherwise the frame carries every quantity,
      limited, to within one field step below, and the mask names what was limited. */
  method EncodeMit(sendId: nat, g: Ranges, c: Command, saturate: bool) returns (r: Outcome)
    ensures r == EInval <==> !(0 < sendId <= SFF_MASK) || !ValidRanges(g)
    ensures r == ERange <==> 0 < sendId <= SFF_MASK && ValidRanges(g) && !saturate && exists k :: !Within(g, c, k)
    ensures r.Encoded? ==>
              && |r.data| == 8 && (forall k :: k in r.saturated <==> !Within(g, c, k))
              && var raw := Unpack(r.data);
              && BigEndian(r.data) == Assembled(raw)
              && Carries(g, c, Position, raw.position) && Carries(g, c, Velocity, raw.velocity)
              && Carries(g, c, Kp, raw.kp) && Carries(g, c, Kd, raw.kd) && Carries(g, c, Torque, raw.torque)
  {
    hide Limited, Within, Carries, Unpack, Pack, BigEndian, Assembled;
    if !(0 < sendId <= SFF_MASK) || !ValidRanges(g) {
      return EInval;
    }
    var mask: set<Quantity> := {};
    var ok, position, velocity, kp, kd, torque;
    ok, position, mask := LimitValue(g, c, Position, saturate, mask);
    if !ok {
      return ERange;
    }
    ok, velocity, mask := LimitValue(g, c, Velocity, saturate, mask);
    if !ok {
      return ERange;
    }
    ok, kp, mask := LimitValue(g, c, Kp, saturate, mask);
    if !ok {
      return ERange;
    }
    ok, kd, mask := LimitValue(g, c, Kd, saturate, mask);
    if !ok {
      return ERange;
    }
    ok, torque, mask := LimitValue(g, c, Torque, saturate, mask);
    if !ok {
      return ERange;
    }
    CodeCarries(g, c, Position);
    CodeCarries(g, c, Velocity);
    CodeCarries(g, c, Kp);
    CodeCarries(g, c, Kd);
    CodeCarries(g, c, Torque);
    var raw := Raw(ToUint(position, -g.pmax, g.pmax, POSITION_MAXIMUM), ToUint(velocity, -g.vmax, g.vmax, FIELD_MAXIMUM),
                   ToUint(kp, 0.0, 500.0, FIELD_MAXIMUM), ToUint(kd, 0.0, 5.0, FIELD_MAXIMUM),
                   ToUint(torque, -g.tmax, g.tmax, FIELD_MAXIMUM));
    UnpackInvertsPack(raw);
    FrameIsOneNumber(Pack(raw));
    forall k: Quantity | true
      ensures k in mask <==> !Within(g, c, k)
      ensures saturate || Within(g, c, k)
    {
      match k case Position => case Velocity => case Kp => case Kd => case Torque =>
    }
    return Encoded(Pack(raw), mask);
  }

  /** A field holds the limited quantity to within one step below. */
  ghost predicate Carries(g: Ranges, c: Command, k: Quantity, n: nat) {
    var maximum := if k == Position then POSITION_MAXIMUM else FIELD_MAXIMUM;
    var decoded := FromUint(n, Lower(g, k), Upper(g, k), maximum);
    n <= maximum && decoded <= Limited(g, c, k) < decoded + FieldStep(Lower(g, k), Upper(g, k), maximum)
  }

  lemma CodeCarries(g: Ranges, c: Command, k: Quantity)
    requires ValidRanges(g)
    ensures Code(g, c, k) >= 0 && Carries(g, c, k, Code(g, c, k))
    ensures Code(g, c, k) <= if k == Position then POSITION_MAXIMUM else FIELD_MAXIMUM
  {
    hide ToUint, FromUint, FieldStep;
    TruncatesDownward(Limited(g, c, k), Lower(g, k), Upper(g, k), if k == Position then POSITION_MAXIMUM else FIELD_MAXIMUM);
  }
}
