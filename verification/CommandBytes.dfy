/** What the transport lets through, read off the bytes of the frames. */
module CommandBytes {
  import opened Common
  import opened CanFrames
  import opened Transport

  predicate Zero(f: Frame, from: nat) {
    forall i :: from <= i < 8 ==> f.data[i] == 0
  }

  /** Sent on the parameter identifier to one drive, whose number is in the first two bytes. */
  predicate ToDrive(f: Frame, command: byte) {
    && f.canId == 0x7ff && f.dlc == 8 && f.data[2] == command
    && 0 < (f.data[0] as nat) + 256 * (f.data[1] as nat) < 0x7ff
  }

  /** Seven bytes of ones and a command, sent on the drive's own identifier. */
  predicate Special(f: Frame, command: byte) {
    0 < f.canId < 0x7ff && f.dlc == 8 && f.data[7] == command && forall i :: 0 <= i < 7 ==> f.data[i] == 0xff
  }

  predicate ReadsRegister(f: Frame) {
    ToDrive(f, 0x33) && (f.data[3] <= 36 || 50 <= f.data[3] <= 55 || 80 <= f.data[3] <= 81) && Zero(f, 4)
  }

  predicate AsksStatus(f: Frame) {
    ToDrive(f, 0xcc) && Zero(f, 3)
  }

  /** What needs no authority: it asks and changes nothing. */
  predicate Asks(f: Frame) {
    ReadsRegister(f) || AsksStatus(f)
  }

  /** The number written, least significant byte first. */
  function Written(f: Frame): nat {
    (f.data[4] as nat) + 256 * (f.data[5] as nat) + 65536 * (f.data[6] as nat) + 16777216 * (f.data[7] as nat)
  }

  /** Registers 0 to 10 and 21 to 35 only; identifiers, control mode and baud rate in range. */
  predicate WritesRegister(f: Frame, accepts: FloatRule) {
    && ToDrive(f, 0x55)
    && (f.data[3] <= 10 || 21 <= f.data[3] <= 35)
    && (f.data[3] == 7 || f.data[3] == 8 ==> Written(f) <= 0x7ff)
    && (f.data[3] == 10 ==> 1 <= Written(f) <= 4)
    && (f.data[3] == 35 ==> Written(f) <= 9)
    && (f.data[3] <= 6 || 21 <= f.data[3] <= 34 ==> accepts(f.data[3] as nat, Written(f)))
  }

  predicate Saves(f: Frame) {
    ToDrive(f, 0xaa) && Zero(f, 3)
  }

  /** What needs an authority: it changes the drive. */
  predicate Changes(f: Frame, accepts: FloatRule) {
    || WritesRegister(f, accepts) || Saves(f)
    || Special(f, 0xfb) || Special(f, 0xfc) || Special(f, 0xfd) || Special(f, 0xfe)
  }

  /** The classes mean this of the bytes. */
  lemma ClassesOnBytes(f: Frame, accepts: FloatRule)
    ensures var r := Classify(f, accepts);
            && (r.Class? && QueryClass(r.value) <==> Asks(f))
            && (r.Class? && DangerousClass(r.value) <==> Changes(f, accepts))
            && (r == Class(Enable) <==> Special(f, 0xfc)) && (r == Class(Disable) <==> Special(f, 0xfd))
            && (r == Class(SetZero) <==> Special(f, 0xfe)) && (r == Class(ClearError) <==> Special(f, 0xfb))
            && (r == Class(RegisterWrite) <==> WritesRegister(f, accepts)) && (r == Class(SaveParameters) <==> Saves(f))
  {
  }

  /** No frame both asks and changes. */
  lemma AskingChangesNothing(f: Frame, accepts: FloatRule)
    ensures !(Asks(f) && Changes(f, accepts))
  {
  }

  /** In every interleaving: a frame handed over without a grant only asks; every frame that
      changes a drive spent a grant of its own, issued for exactly these bytes and good until its
      deadline; and a backend that refuses issuance is asked and nothing else. */
  lemma OnlyAskingIsFree(c: Config, events: seq<Event>)
    ensures var s := Run(c, START, events);
            forall i :: 0 <= i < |s.handed| ==>
              var h := s.handed[i];
              && (h.serial == None <==> Asks(h.frame))
              && (h.serial.Some? <==> Changes(h.frame, c.accepts))
              && (h.serial.Some? ==>
                    && h.serial.value < |s.issued| && s.issued[h.serial.value].frame == h.frame
                    && h.nowNs < h.deadlineNs <= s.issued[h.serial.value].expiryNs)
              && (!c.permits ==> h.serial == None) && h.nowNs < h.deadlineNs <= h.nowNs + c.horizonNs
    ensures var s := Run(c, START, events);
            forall i, j :: 0 <= i < j < |s.handed| && s.handed[i].serial.Some? ==> s.handed[i].serial != s.handed[j].serial
  {
    hide Run, Classify, Asks, Changes, QueryClass, DangerousClass;
    RunFromStart(c, events);
    var s := Run(c, START, events);
    forall i | 0 <= i < |s.handed|
      ensures var h := s.handed[i];
              && (h.serial == None <==> Asks(h.frame))
              && (h.serial.Some? <==> Changes(h.frame, c.accepts))
    {
      assert Justified(c, s.issued, s.handed[i]);
      ClassesOnBytes(s.handed[i].frame, c.accepts);
      AskingOrChanging(s.handed[i].cls);
      AskingChangesNothing(s.handed[i].frame, c.accepts);
    }
  }

  lemma AskingOrChanging(cls: FrameClass)
    ensures !cls.Unknown? && !cls.Motion? ==> QueryClass(cls) || DangerousClass(cls)
  {
  }

  /** When a send must get through: it is open and timely, and either asks without an authority or
      brings the live grant of exactly these bytes, good until its deadline. */
  predicate MayGo(c: Config, s: State, a: SendArgs, nowNs: nat) {
    && !s.closed && nowNs < a.deadlineNs <= nowNs + c.horizonNs
    && if a.authority == None then Asks(a.frame)
       else
         var key := a.authority.value;
         && Changes(a.frame, c.accepts) && key.nonce == c.nonce && key.token in s.grants
         && s.grants[key.token].frame == a.frame && nowNs < s.grants[key.token].expiryNs
         && a.deadlineNs <= s.grants[key.token].expiryNs
  }

  lemma MayGoIs(c: Config, s: State, a: SendArgs, nowNs: nat)
    requires GrantsIssued(c, s)
    ensures MayGo(c, s, a, nowNs) <==> SendAllowed(c, s, a, Some(nowNs))
  {
    hide Classify, Asks, Changes, QueryClass, DangerousClass;
    ClassesOnBytes(a.frame, c.accepts);
    AskingChangesNothing(a.frame, c.accepts);
    if Classify(a.frame, c.accepts).Class? {
      AskingOrChanging(Classify(a.frame, c.accepts).value);
      NeverBoth(Classify(a.frame, c.accepts).value);
    }
  }

  lemma NeverBoth(cls: FrameClass)
    ensures QueryClass(cls) || DangerousClass(cls) ==> !cls.Unknown? && !cls.Motion?
    ensures !(QueryClass(cls) && DangerousClass(cls))
  {
  }

  /** After any interleaving an uninterrupted send hands over its frame, and that alone, exactly
      when it may go; its grant is then gone. */
  lemma SendGoesExactly(c: Config, events: seq<Event>, a: SendArgs, nowNs: nat)
    requires Run(c, START, events).sender == SendEntered(a)
    ensures var s := Run(c, START, events);
            var end := Run(c, s, SendSteps(Some(nowNs)));
            && (MayGo(c, s, a, nowNs) ==>
                  && |end.handed| == |s.handed| + 1 && end.handed[..|s.handed|] == s.handed
                  && end.handed[|s.handed|].frame == a.frame && end.handed[|s.handed|].deadlineNs == a.deadlineNs
                  && end.grants == if a.authority.Some? then s.grants - {a.authority.value.token} else s.grants)
            && (!MayGo(c, s, a, nowNs) ==> end.handed == s.handed)
  {
    hide Run, SendAllowed, MayGo, GrantsIssued;
    RunFromStart(c, events);
    MayGoIs(c, Run(c, START, events), a, nowNs);
    SendReachesBackendIffAllowed(c, Run(c, START, events), a, Some(nowNs));
  }

  /** An uninterrupted issue makes a grant exactly for bytes that change a drive, from an open
      transport whose backend permits it, for a time ahead of at most five seconds. */
  lemma IssueGrantsExactly(c: Config, s: State, i: IssueArgs, nowNs: nat, token: nat)
    requires s.guard == IssueEntered(i) && token !in s.grants
    ensures var end := Step(c, Step(c, Step(c, s, IssueReadClosed), IssueReadClock(Some(nowNs))), IssueInsert(Some(token), true));
            if !s.closed && c.permits && Changes(i.frame, c.accepts) && nowNs < i.expiryNs <= nowNs + 5_000_000_000 then
              && |end.issued| == |s.issued| + 1 && end.grants.Keys == s.grants.Keys + {token}
              && end.grants[token].frame == i.frame && end.grants[token].expiryNs == i.expiryNs
            else end.grants == s.grants && end.issued == s.issued
  {
    hide Classify, Changes, DangerousClass;
    ClassesOnBytes(i.frame, c.accepts);
  }

  /** A send that brings an expired grant is refused, and the grant is gone. */
  lemma ExpiredGrantIsErased(c: Config, s: State)
    requires s.sender.SendTimed? && !QueryClass(s.sender.cls) && s.sender.a.authority.Some?
    requires var key := s.sender.a.authority.value;
             key.nonce == c.nonce && key.token in s.grants && s.grants[key.token].expiryNs <= s.sender.nowNs
    ensures Step(c, s, SendAuthorize) == s.(sender := NoSender, grants := s.grants - {s.sender.a.authority.value.token})
  {
  }
}
