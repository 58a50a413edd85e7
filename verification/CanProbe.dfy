/** The probe for expected motors: one refresh to each, then a verdict over whatever the bus
    delivers until the deadline. */
module CanProbe {
  import opened Common

  const MAX_MOTORS: nat := 8

  datatype Motor = Motor(joint: nat, motorId: nat, sendId: nat, receiveId: nat, sound: bool)

  /** A received frame; `clean` covers its record version and the extended-frame flags. */
  datatype Frame = Frame(clean: bool, canId: nat, dlc: nat, first: nat, receivedNs: nat)

  datatype Status = OK | EInval | EIo | EState | EFault | ETimeout | TransportError(code: nat)

  datatype Outcome = Delivered(frame: Frame) | TimedOut | Failed(code: nat)

  /** Everything the transport will answer: the send of each refresh, the clock, and each
      receive in turn. */
  datatype Transport = Transport(send: nat -> Option<nat>, sendError: nat, now: Option<nat>, receive: nat -> Outcome)

  // ---------------------------------------------------------------------------
  // Manifest validation.

  predicate MotorOk(m: Motor) {
    && m.sound && m.joint < MAX_MOTORS && m.motorId <= 15 && 0 < m.sendId <= SFF_MASK && 0 < m.receiveId <= SFF_MASK
  }

  predicate Apart(a: Motor, b: Motor) {
    a.joint != b.joint && a.sendId != b.sendId && a.receiveId != b.receiveId && a.motorId != b.motorId
  }

  ghost predicate ValidManifest(motors: seq<Motor>) {
    && 0 < |motors| <= 8
    && (forall i :: 0 <= i < |motors| ==>
          && motors[i].sound && motors[i].joint < 8 && motors[i].motorId < 16
          && 0 < motors[i].sendId < 0x800 && 0 < motors[i].receiveId < 0x800)
    && (forall i, j :: 0 <= j < i < |motors| ==> motors[j].joint != motors[i].joint && motors[j].motorId != motors[i].motorId)
    && (forall i, j :: 0 <= j < i < |motors| ==> motors[j].sendId != motors[i].sendId && motors[j].receiveId != motors[i].receiveId)
  }

  method ValidateManifest(motors: seq<Motor>) returns (ok: bool)
    ensures ok <==> ValidManifest(motors)
  {
    if |motors| == 0 || |motors| > MAX_MOTORS {
      return false;
    }
    for i := 0 to |motors|
      invariant forall k :: 0 <= k < i ==> MotorOk(motors[k])
      invariant forall k, j :: 0 <= j < k < i ==> Apart(motors[j], motors[k])
    {
      if !MotorOk(motors[i]) {
        return false;
      }
      for j := 0 to i
        invariant forall k :: 0 <= k < j ==> Apart(motors[k], motors[i])
      {
        if !Apart(motors[j], motors[i]) {
          return false;
        }
      }
    }
    return true;
  }

  // ---------------------------------------------------------------------------
  // What one frame counts as.

  datatype Kind = Invalid | Unexpected | Stale | Enabled(i: nat) | Faulted(i: nat) | Fresh(i: nat)

  /** What was asked: the motors, when each refresh was sent, and the deadline. */
  datatype Request = Request(motors: seq<Motor>, epochs: seq<nat>, deadlineNs: nat)

  predicate Sound(r: Request) {
    |r.epochs| == |r.motors|
  }

  function Matching(motors: seq<Motor>, canId: nat): (i: nat)
    ensures i <= |motors| && (i < |motors| ==> motors[i].receiveId == canId)
  {
    if motors == [] then 0 else if motors[0].receiveId == canId then 0 else 1 + Matching(motors[1..], canId)
  }

  predicate KnownStatus(status: nat) {
    status == 0 || status == 1 || 8 <= status <= 14
  }

  function KindOf(r: Request, f: Frame): Kind
    requires Sound(r)
  {
    if !f.clean || f.receivedNs > r.deadlineNs then Invalid
    else
      var i := Matching(r.motors, f.canId);
      if i == |r.motors| then Unexpected
      else if f.receivedNs <= r.epochs[i] then Stale
      else if f.dlc != 8 || f.canId > SFF_MASK || f.first % 16 != r.motors[i].motorId || !KnownStatus(f.first / 16) then
        Invalid
      else if f.first / 16 == 1 then Enabled(i)
      else if f.first / 16 != 0 then Faulted(i)
      else Fresh(i)
  }

  function Count(r: Request, frames: seq<Frame>, k: Kind): nat
    requires Sound(r)
  {
    if frames == [] then 0
    else Count(r, frames[..|frames| - 1], k) + if KindOf(r, frames[|frames| - 1]) == k then 1 else 0
  }

  // ---------------------------------------------------------------------------
  // The verdict as a function of the counts.

  predicate NoEnabled(r: Request, frames: seq<Frame>)
    requires Sound(r)
  {
    forall i :: 0 <= i < |r.motors| ==> Count(r, frames, Enabled(i)) == 0
  }

  predicate NoFaultOrDuplicate(r: Request, frames: seq<Frame>)
    requires Sound(r)
  {
    forall i :: 0 <= i < |r.motors| ==> Count(r, frames, Faulted(i)) == 0 && Count(r, frames, Fresh(i)) <= 1
  }

  predicate AllFresh(r: Request, frames: seq<Frame>)
    requires Sound(r)
  {
    (forall i :: 0 <= i < |r.motors| ==> Count(r, frames, Fresh(i)) >= 1) && Count(r, frames, Stale) == 0
  }

  function Verdict(r: Request, frames: seq<Frame>, limitReached: bool): Status
    requires Sound(r)
  {
    if !NoEnabled(r, frames) then EState
    else if !NoFaultOrDuplicate(r, frames) then EFault
    else if limitReached || !AllFresh(r, frames) then ETimeout
    else OK
  }

  /** OK exactly when the bus went quiet in time and every motor answered once: on time, after
      its request, disabled; with nothing enabled, faulted or stale. */
  lemma OkIff(r: Request, frames: seq<Frame>, limitReached: bool)
    requires Sound(r)
    ensures Verdict(r, frames, limitReached) == OK
            <==> !limitReached && Count(r, frames, Stale) == 0
                 && forall i :: 0 <= i < |r.motors| ==>
                      && Count(r, frames, Fresh(i)) == 1 && Count(r, frames, Enabled(i)) == 0
                      && Count(r, frames, Faulted(i)) == 0
  {
    hide Count;
  }

  // ---------------------------------------------------------------------------
  // The verdict on the fields of the frames.

  /** The frame came on motor i's identifier before the deadline. */
  predicate HeardFrom(r: Request, i: nat, f: Frame)
    requires i < |r.motors|
  {
    f.clean && f.canId == r.motors[i].receiveId && f.receivedNs <= r.deadlineNs
  }

  /** It came after the refresh, and carries feedback of the drive itself. */
  predicate Answers(r: Request, i: nat, f: Frame)
    requires Sound(r) && i < |r.motors|
  {
    HeardFrom(r, i, f) && r.epochs[i] < f.receivedNs && f.dlc == 8 && f.first % 16 == r.motors[i].motorId
  }

  /** The drive reports itself disabled: its status nibble is zero. */
  predicate SaysDisabled(r: Request, i: nat, f: Frame)
    requires Sound(r) && i < |r.motors|
  {
    Answers(r, i, f) && f.first < 16
  }

  predicate SaysEnabled(r: Request, i: nat, f: Frame)
    requires Sound(r) && i < |r.motors|
  {
    Answers(r, i, f) && 16 <= f.first < 32
  }

  predicate SaysFaulted(r: Request, i: nat, f: Frame)
    requires Sound(r) && i < |r.motors|
  {
    Answers(r, i, f) && 128 <= f.first < 240
  }

  /** It was sent before the drive was asked. */
  predicate Premature(r: Request, i: nat, f: Frame)
    requires Sound(r) && i < |r.motors|
  {
    HeardFrom(r, i, f) && f.receivedNs <= r.epochs[i]
  }

  lemma {:induction false} MatchingIsTheOne(motors: seq<Motor>, canId: nat, i: nat)
    requires i < |motors| && motors[i].receiveId == canId
    requires forall j :: 0 <= j < |motors| && j != i ==> motors[j].receiveId != canId
    ensures Matching(motors, canId) == i
    decreases |motors|
  {
    if i > 0 {
      assert forall j :: 0 <= j < |motors[1..]| ==> motors[1..][j] == motors[j + 1];
      MatchingIsTheOne(motors[1..], canId, i - 1);
    }
  }

  /** In a valid manifest identifiers are different. */
  lemma ManifestSeparates(motors: seq<Motor>, i: nat)
    requires ValidManifest(motors) && i < |motors|
    ensures motors[i].receiveId <= SFF_MASK && Matching(motors, motors[i].receiveId) == i
  {
    forall j | 0 <= j < |motors| && j != i
      ensures motors[j].receiveId != motors[i].receiveId
    {
      if j > i {
        assert motors[i].receiveId != motors[j].receiveId;
      }
    }
    MatchingIsTheOne(motors, motors[i].receiveId, i);
  }

  /** What a frame counts as, read off its fields. */
  lemma KindOnFields(r: Request, f: Frame, i: nat)
    requires Sound(r) && ValidManifest(r.motors) && i < |r.motors|
    ensures KindOf(r, f) == Fresh(i) <==> SaysDisabled(r, i, f)
    ensures KindOf(r, f) == Enabled(i) <==> SaysEnabled(r, i, f)
    ensures KindOf(r, f) == Faulted(i) <==> SaysFaulted(r, i, f)
    ensures Premature(r, i, f) ==> KindOf(r, f) == Stale
  {
    hide ValidManifest, Matching;
    ManifestSeparates(r.motors, i);
  }

  lemma StaleOnFields(r: Request, f: Frame)
    requires Sound(r)
    ensures KindOf(r, f) == Stale ==> exists i :: 0 <= i < |r.motors| && Premature(r, i, f)
  {
    hide Matching;
    var i := Matching(r.motors, f.canId);
    if KindOf(r, f) == Stale {
      assert Premature(r, i, f);
    }
  }

  lemma {:induction false} CountIsZero(r: Request, frames: seq<Frame>, k: Kind)
    requires Sound(r)
    ensures Count(r, frames, k) == 0 <==> forall n :: 0 <= n < |frames| ==> KindOf(r, frames[n]) != k
    decreases |frames|
  {
    hide KindOf;
    if frames != [] {
      var last := |frames| - 1;
      CountIsZero(r, frames[..last], k);
      assert forall n :: 0 <= n < last ==> frames[..last][n] == frames[n];
    }
  }

  /** Exactly one of the frames is of this kind. */
  ghost predicate One(r: Request, frames: seq<Frame>, k: Kind, n: nat)
    requires Sound(r)
  {
    n < |frames| && KindOf(r, frames[n]) == k && forall j :: 0 <= j < |frames| && j != n ==> KindOf(r, frames[j]) != k
  }

  lemma CountIsOne(r: Request, frames: seq<Frame>, k: Kind)
    requires Sound(r)
    ensures Count(r, frames, k) == 1 <==> exists n :: One(r, frames, k, n)
  {
    hide KindOf, Count;
    CountIsZero(r, frames, k);
    if Count(r, frames, k) >= 1 {
      var n :| 0 <= n < |frames| && KindOf(r, frames[n]) == k;
      OneOrMore(r, frames, k, n);
    }
    if n: nat :| One(r, frames, k, n) {
      OneOrMore(r, frames, k, n);
    }
  }

  lemma OneOrMore(r: Request, frames: seq<Frame>, k: Kind, n: nat)
    requires Sound(r) && n < |frames| && KindOf(r, frames[n]) == k
    ensures Count(r, frames, k) == 1 <==> One(r, frames, k, n)
    ensures (exists m :: One(r, frames, k, m)) ==> One(r, frames, k, n)
  {
    hide KindOf, Count;
    var rest := frames[..n] + frames[n + 1..];
    CountWithout(r, frames, k, n);
    CountIsZero(r, rest, k);
    assert forall j :: 0 <= j < n ==> rest[j] == frames[j];
    assert forall j :: n < j < |frames| ==> rest[j - 1] == frames[j];
  }

  /** Motor i answered once, disabled, and neither enabled nor faulted nor before it was asked. */
  ghost predicate AnsweredOnce(r: Request, frames: seq<Frame>, i: nat)
    requires Sound(r) && i < |r.motors|
  {
    && (exists n :: 0 <= n < |frames| && SaysDisabled(r, i, frames[n])
                    && forall j :: 0 <= j < |frames| && j != n ==> !SaysDisabled(r, i, frames[j]))
    && forall j :: 0 <= j < |frames| ==>
         !SaysEnabled(r, i, frames[j]) && !SaysFaulted(r, i, frames[j]) && !Premature(r, i, frames[j])
  }

  lemma AnsweredOnFields(r: Request, frames: seq<Frame>, i: nat)
    requires Sound(r) && ValidManifest(r.motors) && i < |r.motors|
    requires Count(r, frames, Stale) == 0
    ensures AnsweredOnce(r, frames, i) <==>
            Count(r, frames, Fresh(i)) == 1 && Count(r, frames, Enabled(i)) == 0 && Count(r, frames, Faulted(i)) == 0
  {
    hide KindOf, Count, SaysDisabled, SaysEnabled, SaysFaulted, Premature, ValidManifest;
    forall f: Frame
      ensures KindOf(r, f) == Fresh(i) <==> SaysDisabled(r, i, f)
      ensures KindOf(r, f) == Enabled(i) <==> SaysEnabled(r, i, f)
      ensures KindOf(r, f) == Faulted(i) <==> SaysFaulted(r, i, f)
      ensures Premature(r, i, f) ==> KindOf(r, f) == Stale
    {
      KindOnFields(r, f, i);
    }
    CountIsOne(r, frames, Fresh(i));
    CountIsZero(r, frames, Enabled(i));
    CountIsZero(r, frames, Faulted(i));
    CountIsZero(r, frames, Stale);
    if n: nat :| One(r, frames, Fresh(i), n) {
      assert SaysDisabled(r, i, frames[n]);
    }
    if AnsweredOnce(r, frames, i) {
      var n :| 0 <= n < |frames| && SaysDisabled(r, i, frames[n])
               && forall j :: 0 <= j < |frames| && j != n ==> !SaysDisabled(r, i, frames[j]);
      assert One(r, frames, Fresh(i), n);
    }
  }

  /** OK exactly when the bus went quiet before the limit and every motor answered once. */
  lemma OkOnFields(r: Request, frames: seq<Frame>, limitReached: bool)
    requires Sound(r) && ValidManifest(r.motors)
    ensures Verdict(r, frames, limitReached) == OK <==>
            !limitReached && forall i :: 0 <= i < |r.motors| ==> AnsweredOnce(r, frames, i)
  {
    hide KindOf, Count, Verdict, ValidManifest;
    OkIff(r, frames, limitReached);
    CountIsZero(r, frames, Stale);
    if Count(r, frames, Stale) == 0 {
      forall i | 0 <= i < |r.motors|
        ensures AnsweredOnce(r, frames, i) <==>
                Count(r, frames, Fresh(i)) == 1 && Count(r, frames, Enabled(i)) == 0 && Count(r, frames, Faulted(i)) == 0
      {
        AnsweredOnFields(r, frames, i);
      }
    } else {
      var n :| 0 <= n < |frames| && KindOf(r, frames[n]) == Stale;
      StaleOnFields(r, frames[n]);
      var i :| 0 <= i < |r.motors| && Premature(r, i, frames[n]);
      assert !AnsweredOnce(r, frames, i);
    }
  }

  /** EState exactly when some drive reported itself enabled. */
  lemma EnabledOnFields(r: Request, frames: seq<Frame>, limitReached: bool)
    requires Sound(r) && ValidManifest(r.motors)
    ensures Verdict(r, frames, limitReached) == EState <==>
            exists i, n :: 0 <= i < |r.motors| && 0 <= n < |frames| && SaysEnabled(r, i, frames[n])
  {
    hide KindOf, Count, ValidManifest, SaysEnabled, NoFaultOrDuplicate, AllFresh;
    forall i | 0 <= i < |r.motors|
      ensures Count(r, frames, Enabled(i)) == 0 <==> forall n :: 0 <= n < |frames| ==> !SaysEnabled(r, i, frames[n])
    {
      CountIsZero(r, frames, Enabled(i));
      forall n | 0 <= n < |frames|
        ensures KindOf(r, frames[n]) == Enabled(i) <==> SaysEnabled(r, i, frames[n])
      {
        KindOnFields(r, frames[n], i);
      }
    }
    if i: nat, n: nat :| i < |r.motors| && n < |frames| && SaysEnabled(r, i, frames[n]) {
      assert Count(r, frames, Enabled(i)) != 0;
    }
  }

  // Order and unrelated traffic do not matter.

  lemma {:induction false} CountWithout(r: Request, frames: seq<Frame>, k: Kind, j: nat)
    requires Sound(r) && j < |frames|
    ensures Count(r, frames, k) == Count(r, frames[..j] + frames[j + 1..], k) + if KindOf(r, frames[j]) == k then 1 else 0
    decreases |frames|
  {
    hide KindOf;
    var n := |frames| - 1;
    if j == n {
      assert frames[..j] + frames[j + 1..] == frames[..n];
    } else {
      CountWithout(r, frames[..n], k, j);
      var rest := frames[..j] + frames[j + 1..];
      assert rest[..n - 1] == frames[..n][..j] + frames[..n][j + 1..];
      assert rest[n - 1] == frames[n];
    }
  }

  lemma {:induction false} CountIgnoresOrder(r: Request, a: seq<Frame>, b: seq<Frame>, k: Kind)
    requires Sound(r) && multiset(a) == multiset(b)
    ensures Count(r, a, k) == Count(r, b, k)
    decreases |a|
  {
    hide KindOf;
    if a == [] {
      assert |b| == |multiset(b)| == 0;
    } else {
      var n, last := |a| - 1, a[|a| - 1];
      assert last in multiset(b);
      var j :| 0 <= j < |b| && b[j] == last;
      Without(a, n);
      Without(b, j);
      assert a[..n] + a[n + 1..] == a[..n];
      hide Count;
      CountIgnoresOrder(r, a[..n], b[..j] + b[j + 1..], k);
      CountWithout(r, a, k, n);
      CountWithout(r, b, k, j);
    }
  }

  lemma Without(s: seq<Frame>, j: nat)
    requires j < |s|
    ensures multiset(s[..j] + s[j + 1..]) == multiset(s) - multiset{s[j]}
  {
    assert s == s[..j] + [s[j]] + s[j + 1..];
  }

  lemma VerdictIgnoresOrder(r: Request, a: seq<Frame>, b: seq<Frame>, limitReached: bool)
    requires Sound(r) && multiset(a) == multiset(b)
    ensures Verdict(r, a, limitReached) == Verdict(r, b, limitReached)
  {
    hide Count;
    CountIgnoresOrder(r, a, b, Stale);
    forall i | 0 <= i < |r.motors|
      ensures Count(r, a, Enabled(i)) == Count(r, b, Enabled(i))
      ensures Count(r, a, Faulted(i)) == Count(r, b, Faulted(i))
      ensures Count(r, a, Fresh(i)) == Count(r, b, Fresh(i))
    {
      CountIgnoresOrder(r, a, b, Enabled(i));
      CountIgnoresOrder(r, a, b, Faulted(i));
      CountIgnoresOrder(r, a, b, Fresh(i));
    }
  }

  /** A frame of another bus member, a late one or one that does not decode changes nothing. */
  lemma VerdictIgnoresUnrelated(r: Request, frames: seq<Frame>, j: nat, limitReached: bool)
    requires Sound(r) && j < |frames| && (KindOf(r, frames[j]) == Invalid || KindOf(r, frames[j]) == Unexpected)
    ensures Verdict(r, frames, limitReached) == Verdict(r, frames[..j] + frames[j + 1..], limitReached)
  {
    hide Count, KindOf;
    var rest := frames[..j] + frames[j + 1..];
    CountWithout(r, frames, Stale, j);
    forall i | 0 <= i < |r.motors|
      ensures Count(r, frames, Enabled(i)) == Count(r, rest, Enabled(i))
      ensures Count(r, frames, Faulted(i)) == Count(r, rest, Faulted(i))
      ensures Count(r, frames, Fresh(i)) == Count(r, rest, Fresh(i))
    {
      CountWithout(r, frames, Enabled(i), j);
      CountWithout(r, frames, Faulted(i), j);
      CountWithout(r, frames, Fresh(i), j);
    }
  }

  // ---------------------------------------------------------------------------
  // The probe.

  datatype Report = Report(expected: set<nat>, enabled: set<nat>, faulted: set<nat>, answered: set<nat>, duplicate: set<nat>,
                           received: nat, invalid: nat, unexpected: nat, stale: nat, limitReached: bool)

  /** The mask of the first n motors, one bit after the other. */
  function FirstBits(n: nat): (mask: set<nat>)
    ensures forall i :: i in mask <==> 0 <= i < n
  {
    if n == 0 then {} else FirstBits(n - 1) + {n - 1}
  }

  /** The report's counters are the counts, and its masks say which of them are non-zero. */
  ghost predicate Tallies(r: Request, frames: seq<Frame>, p: Report) {
    && Sound(r) && p.received == |frames| && p.stale == Count(r, frames, Stale)
    && p.invalid == Count(r, frames, Invalid) && p.unexpected == Count(r, frames, Unexpected)
    && p.expected == FirstBits(|r.motors|)
    && (forall i :: i in p.enabled <==> 0 <= i < |r.motors| && Count(r, frames, Enabled(i)) > 0)
    && (forall i :: i in p.faulted <==> 0 <= i < |r.motors| && Count(r, frames, Faulted(i)) > 0)
    && (forall i :: i in p.answered <==> 0 <= i < |r.motors| && Count(r, frames, Fresh(i)) > 0)
    && (forall i :: i in p.duplicate <==> 0 <= i < |r.motors| && Count(r, frames, Fresh(i)) > 1)
  }

  function Tally(p: Report, k: Kind): Report {
    var q := p.(received := p.received + 1);
    match k
    case Invalid => q.(invalid := q.invalid + 1)
    case Unexpected => q.(unexpected := q.unexpected + 1)
    case Stale => q.(stale := q.stale + 1)
    case Enabled(i) => q.(enabled := q.enabled + {i})
    case Faulted(i) => q.(faulted := q.faulted + {i})
    case Fresh(i) => q.(answered := q.answered + {i}, duplicate := if i in q.answered then q.duplicate + {i} else q.duplicate)
  }

  lemma KindInRange(r: Request, f: Frame)
    requires Sound(r)
    ensures var k := KindOf(r, f); (k.Enabled? || k.Faulted? || k.Fresh?) ==> k.i < |r.motors|
  {
  }

  lemma CountsAppend(r: Request, frames: seq<Frame>, f: Frame)
    requires Sound(r)
    ensures forall k :: Count(r, frames + [f], k) == Count(r, frames, k) + if KindOf(r, f) == k then 1 else 0
  {
    hide KindOf;
    var longer := frames + [f];
    assert longer[..|frames|] == frames;
  }

  lemma TallyStep(r: Request, frames: seq<Frame>, p: Report, f: Frame)
    requires Tallies(r, frames, p)
    ensures Tallies(r, frames + [f], Tally(p, KindOf(r, f)))
  {
    hide KindOf, Count;
    KindInRange(r, f);
    CountsAppend(r, frames, f);
  }

  lemma TalliesDecide(r: Request, frames: seq<Frame>, p: Report)
    requires Tallies(r, frames, p)
    ensures p.enabled == {} <==> NoEnabled(r, frames)
    ensures p.faulted == {} && p.duplicate == {} <==> NoFaultOrDuplicate(r, frames)
    ensures p.answered == p.expected && p.stale == 0 <==> AllFresh(r, frames)
  {
    hide Count;
    if NoEnabled(r, frames) {
      assert forall i :: i !in p.enabled;
    }
    if NoFaultOrDuplicate(r, frames) {
      assert forall i :: i !in p.faulted && i !in p.duplicate;
    }
    if AllFresh(r, frames) {
      assert forall i :: i in p.answered <==> i in p.expected;
    }
  }

  /** How many frames the bus delivers before it times out, fails or the limit is reached. */
  function Deliveries(t: Transport, from: nat, cap: nat): (n: nat)
    requires from <= cap
    ensures from <= n <= cap && (n < cap ==> !t.receive(n).Delivered?)
    ensures forall k :: from <= k < n ==> t.receive(k).Delivered?
    decreases cap - from
  {
    if from == cap || !t.receive(from).Delivered? then from else Deliveries(t, from + 1, cap)
  }

  /** Those frames, in order. */
  function Heard(t: Transport, cap: nat): seq<Frame> {
    var n := Deliveries(t, 0, cap);
    seq(n, k requires 0 <= k < n => t.receive(k).frame)
  }

  /** The first i of them. */
  function FirstHeard(t: Transport, i: nat): seq<Frame>
    requires forall k :: 0 <= k < i ==> t.receive(k).Delivered?
  {
    seq(i, k requires 0 <= k < i => t.receive(k).frame)
  }

  lemma {:induction false} DeliveriesSkip(t: Transport, from: nat, i: nat, cap: nat)
    requires from <= i <= cap && forall k :: from <= k < i ==> t.receive(k).Delivered?
    ensures Deliveries(t, from, cap) == Deliveries(t, i, cap)
    decreases i - from
  {
    if from < i {
      DeliveriesSkip(t, from + 1, i, cap);
    }
  }

  /** Sends every refresh; the motors' request times, or the transport's error. */
  method SendRefreshes(t: Transport, motors: seq<Motor>) returns (epochs: Option<seq<nat>>)
    ensures epochs.Some? <==> forall i :: 0 <= i < |motors| ==> t.send(i).Some?
    ensures epochs.Some? ==> |epochs.value| == |motors| && forall i :: 0 <= i < |motors| ==> t.send(i) == Some(epochs.value[i])
  {
    var sent: seq<nat> := [];
    for i := 0 to |motors|
      invariant |sent| == i && forall k :: 0 <= k < i ==> t.send(k) == Some(sent[k])
    {
      var e := t.send(i);
      if e == None {
        return None;
      }
      sent := sent + [e.value];
    }
    return Some(sent);
  }

  lemma FirstTallies(r: Request)
    requires Sound(r)
    ensures Tallies(r, [], Report(FirstBits(|r.motors|), {}, {}, {}, {}, 0, 0, 0, 0, false))
  {
  }

  lemma TalliesIgnoreLimit(r: Request, frames: seq<Frame>, p: Report, limit: bool)
    requires Tallies(r, frames, p)
    ensures Tallies(r, frames, p.(limitReached := limit))
  {
    hide Count;
  }

  /** Receives until the bus times out, fails, or the limit is reached. */
  method Collect(t: Transport, r: Request, cap: nat) returns (p: Report, failed: Option<nat>)
    requires Sound(r)
    ensures Tallies(r, Heard(t, cap), p)
    ensures var n := |Heard(t, cap)|;
            failed == (if n < cap && t.receive(n).Failed? then Some(t.receive(n).code) else None)
            && (failed == None ==> (p.limitReached <==> n == cap))
  {
    hide KindOf, Tally, Tallies, Sound;
    FirstTallies(r);
    failed := None;
    p := Report(FirstBits(|r.motors|), {}, {}, {}, {}, 0, 0, 0, 0, false);
    assert FirstHeard(t, 0) == [];
    for i := 0 to cap
      invariant (forall k :: 0 <= k < i ==> t.receive(k).Delivered?) && Tallies(r, FirstHeard(t, i), p) && failed == None
    {
      DeliveriesSkip(t, 0, i, cap);
      match t.receive(i)
      case TimedOut =>
        TalliesIgnoreLimit(r, FirstHeard(t, i), p, false);
        p := p.(limitReached := false);
        return;
      case Failed(code) =>
        failed := Some(code);
        return;
      case Delivered(f) =>
        TallyStep(r, FirstHeard(t, i), p, f);
        assert FirstHeard(t, i + 1) == FirstHeard(t, i) + [f];
        p := Tally(p, KindOf(r, f));
    }
    DeliveriesSkip(t, 0, cap, cap);
    TalliesIgnoreLimit(r, FirstHeard(t, cap), p, true);
    p := p.(limitReached := true);
  }

  lemma HeardAtMost(t: Transport, cap: nat)
    ensures |Heard(t, cap)| <= cap
  {
  }

  /** Every refresh went out. */
  ghost predicate Asked(t: Transport, motors: seq<Motor>) {
    forall i :: 0 <= i < |motors| ==> t.send(i).Some?
  }

  /** When each refresh went out, and until when answers count. */
  ghost function RequestOf(t: Transport, motors: seq<Motor>, timeoutNs: nat): (r: Request)
    requires Asked(t, motors) && t.now.Some?
    ensures Sound(r)
  {
    Request(motors, seq(|motors|, i requires 0 <= i < |motors| => t.send(i).value), t.now.value + timeoutNs)
  }

  /** The probe's answer.  Once the refreshes are out and the clock is read, it is the verdict
      over the frames delivered, unless a receive fails. */
  method Probe(t: Transport, motors: seq<Motor>, timeoutNs: nat, cap: nat) returns (status: Status, p: Report)
    ensures timeoutNs == 0 || cap == 0 || !ValidManifest(motors) ==> status == EInval
    ensures timeoutNs > 0 && cap > 0 && ValidManifest(motors) ==>
              if !Asked(t, motors) then status == TransportError(t.sendError)
              else if t.now == None || t.now.value + timeoutNs > U64_MAXIMUM
                      || exists i :: 0 <= i < |motors| && t.send(i).value > t.now.value then status == EIo
              else
                var frames, n := Heard(t, cap), |Heard(t, cap)|;
                if n < cap && t.receive(n).Failed? then status == TransportError(t.receive(n).code)
                else status == Verdict(RequestOf(t, motors, timeoutNs), frames, n == cap)
                     && Tallies(RequestOf(t, motors, timeoutNs), frames, p)
                     && (status == OK <==>
                           n < cap && forall i :: 0 <= i < |motors| ==>
                             AnsweredOnce(RequestOf(t, motors, timeoutNs), frames, i))
  {
    hide KindOf, Count, NoEnabled, NoFaultOrDuplicate, AllFresh, AnsweredOnce, Tallies, Heard;
    p := Report({}, {}, {}, {}, {}, 0, 0, 0, 0, false);
    if timeoutNs == 0 || cap == 0 {
      return EInval, p;
    }
    var valid := ValidateManifest(motors);
    if !valid {
      return EInval, p;
    }
    var epochs := SendRefreshes(t, motors);
    if epochs == None {
      return TransportError(t.sendError), p;
    }
    if t.now == None || t.now.value + timeoutNs > U64_MAXIMUM {
      return EIo, p;
    }
    if exists i :: 0 <= i < |motors| && epochs.value[i] > t.now.value {
      return EIo, p;
    }
    var request := Request(motors, epochs.value, t.now.value + timeoutNs);
    assert request == RequestOf(t, motors, timeoutNs);
    var failed;
    p, failed := Collect(t, request, cap);
    if failed.Some? {
      return TransportError(failed.value), p;
    }
    TalliesDecide(request, Heard(t, cap), p);
    HeardAtMost(t, cap);
    OkOnFields(request, Heard(t, cap), p.limitReached);
    status :=
      if p.enabled != {} then EState
      else if p.faulted != {} || p.duplicate != {} then EFault
      else if p.limitReached then ETimeout
      else if p.answered != p.expected || p.stale != 0 then ETimeout
      else OK;
  }
}
