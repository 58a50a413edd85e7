/** The command transport as interleaved steps.

    A call is cut at every lock operation and every read of shared state.  A call that
    waits for its mutex has done nothing yet, so the state keeps one slot per mutex: the
    call inside it, if any.  An event that is not possible at the moment (its mutex is
    taken, its call is at another point) leaves the state unchanged, so every list of
    events is an interleaving and every interleaving is a list of events.  Each issued
    grant gets a serial number that exists only in the model. */
module Transport {
  import opened Common
  import opened CanFrames

  const MAXIMUM_AUTHORITY_LIFETIME_NS: nat := 5_000_000_000

  /** What is fixed when the transport is built. */
  datatype Config = Config(nonce: nat, horizonNs: nat, permits: bool, accepts: FloatRule)

  datatype Grant = Grant(frame: Frame, cls: FrameClass, expiryNs: nat, serial: nat)

  datatype Authority = Authority(nonce: nat, token: nat)

  datatype SendArgs = SendArgs(frame: Frame, deadlineNs: nat, authority: Option<Authority>)

  datatype IssueArgs = IssueArgs(frame: Frame, expiryNs: nat)

  /** The call inside the send mutex, and how far it has come. */
  datatype Sender = NoSender
                  | SendEntered(a: SendArgs)
                  | SendAdmitted(a: SendArgs)
                  | SendTimed(a: SendArgs, cls: FrameClass, nowNs: nat)
                  | SendCleared(a: SendArgs, cls: FrameClass, nowNs: nat, serial: Option<nat>)

  datatype Receiver = NoReceiver | ReceiveEntered | ReceiveAdmitted

  /** The call inside the close mutex: an issue or a close. */
  datatype Guard = NoGuard
                 | IssueEntered(i: IssueArgs)
                 | IssueAdmitted(i: IssueArgs)
                 | IssueTimed(i: IssueArgs, cls: FrameClass)
                 | CloseEntered
                 | CloseMarked
                 | CloseJoined

  /** A frame given to the backend, with the moment and grant that allowed it. */
  datatype HandOver = HandOver(frame: Frame, cls: FrameClass, deadlineNs: nat, nowNs: nat, serial: Option<nat>)

  datatype State = State(
    closed: bool,
    closeReturned: bool,
    sender: Sender,
    receiver: Receiver,
    guard: Guard,
    grants: map<nat, Grant>,
    issued: seq<Grant>,
    handed: seq<HandOver>)

  const START: State := State(false, false, NoSender, NoReceiver, NoGuard, map[], [], [])

  /** One atomic move.  Clock readings, random tokens and their failures are chosen by
      the environment. */
  datatype Event = BeginSend(a: SendArgs)
                 | SendReadClosed
                 | SendReadClock(clock: Option<nat>)
                 | SendAuthorize
                 | SendHandOver
                 | BeginReceive
                 | ReceiveReadClosed
                 | ReceiveFinish
                 | BeginIssue(i: IssueArgs)
                 | IssueReadClosed
                 | IssueReadClock(clock: Option<nat>)
                 | IssueInsert(token: Option<nat>, memory: bool)
                 | BeginClose
                 | CloseMark
                 | CloseJoin
                 | CloseClear

  predicate DeadlineOk(c: Config, deadlineNs: nat, nowNs: nat) {
    nowNs < deadlineNs && deadlineNs - nowNs <= c.horizonNs
  }

  datatype Consumed = Consumed(rest: map<nat, Grant>, serial: Option<nat>)

  /** `consumeAuthority`: the remaining grants, and the serial consumed on success. */
  function Consume(c: Config, grants: map<nat, Grant>, a: SendArgs, cls: FrameClass, nowNs: nat): Consumed {
    if a.authority == None || a.authority.value.nonce != c.nonce || a.authority.value.token !in grants then
      Consumed(grants, None)
    else
      var token := a.authority.value.token;
      var g := grants[token];
      if g.expiryNs <= nowNs then Consumed(grants - {token}, None)
      else if a.deadlineNs > g.expiryNs || g.cls != cls || g.frame != a.frame then Consumed(grants, None)
      else Consumed(grants - {token}, Some(g.serial))
  }

  function Admit(c: Config, a: SendArgs, clock: Option<nat>): Sender {
    if Classify(a.frame, c.accepts).BadFrame? then NoSender
    else
      var cls := Classify(a.frame, c.accepts).value;
      if cls.Unknown? || cls.Motion? || clock == None || !DeadlineOk(c, a.deadlineNs, clock.value) then NoSender
      else SendTimed(a, cls, clock.value)
  }

  function Authorize(c: Config, s: State): State
    requires s.sender.SendTimed?
  {
    var a, cls, now := s.sender.a, s.sender.cls, s.sender.nowNs;
    if QueryClass(cls) then
      s.(sender := if a.authority != None then NoSender else SendCleared(a, cls, now, None))
    else
      var consumed := Consume(c, s.grants, a, cls, now);
      s.(grants := consumed.rest,
         sender := if consumed.serial == None then NoSender else SendCleared(a, cls, now, consumed.serial))
  }

  function HandOverFrame(s: State): State
    requires s.sender.SendCleared?
  {
    var h := HandOver(s.sender.a.frame, s.sender.cls, s.sender.a.deadlineNs, s.sender.nowNs, s.sender.serial);
    s.(handed := s.handed + [h], sender := NoSender)
  }

  function AdmitIssue(c: Config, i: IssueArgs, clock: Option<nat>): Guard {
    if Classify(i.frame, c.accepts).BadFrame? then NoGuard
    else
      var cls := Classify(i.frame, c.accepts).value;
      if !DangerousClass(cls) || clock == None || i.expiryNs <= clock.value
         || i.expiryNs - clock.value > MAXIMUM_AUTHORITY_LIFETIME_NS
      then NoGuard
      else IssueTimed(i, cls)
  }

  /** Enters the grant under a fresh token; if the caller's handle cannot be allocated, the
      grant is erased again before the lock is released. */
  function Insert(s: State, token: Option<nat>, memory: bool): State
    requires s.guard.IssueTimed?
  {
    if token == None then s.(guard := NoGuard)
    else if token.value in s.grants then s  // drawn again
    else
      var g := Grant(s.guard.i.frame, s.guard.cls, s.guard.i.expiryNs, |s.issued|);
      var inserted := s.grants[token.value := g];
      if memory then s.(grants := inserted, issued := s.issued + [g], guard := NoGuard)
      else s.(grants := inserted - {token.value}, guard := NoGuard)
  }

  function Step(c: Config, s: State, e: Event): State {
    match e
    case BeginSend(a) => if s.sender.NoSender? then s.(sender := SendEntered(a)) else s
    case SendReadClosed =>
      if s.sender.SendEntered? then s.(sender := if s.closed then NoSender else SendAdmitted(s.sender.a)) else s
    case SendReadClock(clock) =>
      if s.sender.SendAdmitted? then s.(sender := Admit(c, s.sender.a, clock)) else s
    case SendAuthorize => if s.sender.SendTimed? then Authorize(c, s) else s
    case SendHandOver => if s.sender.SendCleared? then HandOverFrame(s) else s
    case BeginReceive => if s.receiver.NoReceiver? then s.(receiver := ReceiveEntered) else s
    case ReceiveReadClosed =>
      if s.receiver.ReceiveEntered? then s.(receiver := if s.closed then NoReceiver else ReceiveAdmitted) else s
    case ReceiveFinish => if s.receiver.ReceiveAdmitted? then s.(receiver := NoReceiver) else s
    case BeginIssue(i) => if s.guard.NoGuard? then s.(guard := IssueEntered(i)) else s
    case IssueReadClosed =>
      if s.guard.IssueEntered? then
        s.(guard := if s.closed || !c.permits then NoGuard else IssueAdmitted(s.guard.i))
      else s
    case IssueReadClock(clock) =>
      if s.guard.IssueAdmitted? then s.(guard := AdmitIssue(c, s.guard.i, clock)) else s
    case IssueInsert(token, memory) => if s.guard.IssueTimed? then Insert(s, token, memory) else s
    case BeginClose => if s.guard.NoGuard? then s.(guard := CloseEntered) else s
    case CloseMark => if s.guard.CloseEntered? then s.(closed := true, guard := CloseMarked) else s
    case CloseJoin =>
      // both operation mutexes taken together and released at once
      if s.guard.CloseMarked? && s.sender.NoSender? && s.receiver.NoReceiver? then s.(guard := CloseJoined) else s
    case CloseClear =>
      if s.guard.CloseJoined? then s.(grants := map[], closeReturned := true, guard := NoGuard) else s
  }

  function Run(c: Config, s: State, events: seq<Event>): State
    decreases |events|
  {
    if events == [] then s else Run(c, Step(c, s, events[0]), events[1..])
  }

  // ---------------------------------------------------------------------------
  // Invariants of every interleaving.

  /** No send or receive is past its check of the closed flag. */
  predicate Drained(s: State) {
    (s.sender.NoSender? || s.sender.SendEntered?) && !s.receiver.ReceiveAdmitted?
  }

  /** Past its first store a close has stopped new work, past its join no operation is in
      progress, and once one returned no grant is left or can be made. */
  predicate CloseSettles(s: State) {
    && (s.guard.CloseMarked? || s.guard.CloseJoined? ==> s.closed)
    && (s.guard.CloseJoined? ==> Drained(s))
    && (s.closeReturned ==> s.closed && Drained(s) && s.grants == map[]
                            && !s.guard.IssueAdmitted? && !s.guard.IssueTimed?)
    && (s.guard.IssueAdmitted? || s.guard.IssueTimed? ==> !s.closed)
  }

  /** What a frame must satisfy before its authority is looked at. */
  predicate Admissible(c: Config, frame: Frame, deadlineNs: nat, cls: FrameClass, nowNs: nat) {
    Classify(frame, c.accepts) == Class(cls) && !cls.Unknown? && !cls.Motion? && DeadlineOk(c, deadlineNs, nowNs)
  }

  /** The grant allows exactly this frame until at least its deadline. */
  predicate Covers(g: Grant, frame: Frame, cls: FrameClass, deadlineNs: nat, nowNs: nat) {
    g.frame == frame && g.cls == cls && nowNs < g.expiryNs && deadlineNs <= g.expiryNs
  }

  /** A frame goes without a grant exactly when it is a query; otherwise its grant covers it. */
  predicate Justified(c: Config, issued: seq<Grant>, h: HandOver) {
    && Admissible(c, h.frame, h.deadlineNs, h.cls, h.nowNs)
    && (h.serial == None <==> QueryClass(h.cls))
    && (h.serial.Some? ==> h.serial.value < |issued|
                           && Covers(issued[h.serial.value], h.frame, h.cls, h.deadlineNs, h.nowNs))
  }

  predicate CallsJustified(c: Config, s: State) {
    && (s.sender.SendTimed? ==>
          Admissible(c, s.sender.a.frame, s.sender.a.deadlineNs, s.sender.cls, s.sender.nowNs))
    && (s.sender.SendCleared? ==>
          Justified(c, s.issued,
            HandOver(s.sender.a.frame, s.sender.cls, s.sender.a.deadlineNs, s.sender.nowNs, s.sender.serial)))
    && (s.guard.IssueAdmitted? ==> c.permits)
    && (s.guard.IssueTimed? ==>
          c.permits && DangerousClass(s.guard.cls) && Classify(s.guard.i.frame, c.accepts) == Class(s.guard.cls))
  }

  ghost predicate HandedJustified(c: Config, s: State) {
    forall i :: 0 <= i < |s.handed| ==> Justified(c, s.issued, s.handed[i])
  }

  ghost predicate GrantsIssued(c: Config, s: State) {
    && (|s.issued| > 0 ==> c.permits)
    && (forall k :: 0 <= k < |s.issued| ==>
          s.issued[k].serial == k && DangerousClass(s.issued[k].cls)
          && Classify(s.issued[k].frame, c.accepts) == Class(s.issued[k].cls))
    && (forall token :: token in s.grants ==>
          s.grants[token].serial < |s.issued| && s.issued[s.grants[token].serial] == s.grants[token])
  }

  /** The grant is neither live nor spent on a frame already handed over. */
  ghost predicate Unspent(s: State, serial: nat) {
    && (forall token :: token in s.grants ==> s.grants[token].serial != serial)
    && (forall i :: 0 <= i < |s.handed| ==> s.handed[i].serial != Some(serial))
  }

  ghost predicate SerialsOnce(s: State) {
    && (forall a, b :: a in s.grants && b in s.grants && a != b ==> s.grants[a].serial != s.grants[b].serial)
    && (forall i, j :: 0 <= i < j < |s.handed| && s.handed[i].serial.Some? ==> s.handed[i].serial != s.handed[j].serial)
    && (forall token, i :: token in s.grants && 0 <= i < |s.handed| ==> s.handed[i].serial != Some(s.grants[token].serial))
    && (s.sender.SendCleared? && s.sender.serial.Some? ==> Unspent(s, s.sender.serial.value))
  }

  ghost predicate Inv(c: Config, s: State) {
    CloseSettles(s) && CallsJustified(c, s) && HandedJustified(c, s) && GrantsIssued(c, s) && SerialsOnce(s)
  }

  lemma StartHolds(c: Config)
    ensures Inv(c, START)
  {
  }

  lemma StepKeepsClose(c: Config, s: State, e: Event)
    requires CloseSettles(s)
    ensures CloseSettles(Step(c, s, e))
  {
  }

  lemma StepKeepsCalls(c: Config, s: State, e: Event)
    requires CallsJustified(c, s) && GrantsIssued(c, s)
    ensures CallsJustified(c, Step(c, s, e))
  {
  }

  lemma StepKeepsHanded(c: Config, s: State, e: Event)
    requires CallsJustified(c, s) && HandedJustified(c, s)
    ensures HandedJustified(c, Step(c, s, e))
  {
  }

  /** Authorizing takes at most the named grant away and changes none. */
  lemma AuthorizeOnlyRemoves(c: Config, s: State)
    requires s.sender.SendTimed?
    ensures Authorize(c, s).issued == s.issued && Authorize(c, s).handed == s.handed
    ensures forall token :: token in Authorize(c, s).grants ==>
              token in s.grants && Authorize(c, s).grants[token] == s.grants[token]
  {
  }

  /** A failed allocation leaves no grant behind. */
  lemma FailedIssueLeavesNothing(s: State, token: Option<nat>)
    requires s.guard.IssueTimed?
    ensures var next := Insert(s, token, false);
            next == s || next == s.(guard := NoGuard)
  {
    if token.Some? && token.value !in s.grants {
      var g := Grant(s.guard.i.frame, s.guard.cls, s.guard.i.expiryNs, |s.issued|);
      assert s.grants[token.value := g] - {token.value} == s.grants;
    }
  }

  lemma InsertKeepsGrants(c: Config, s: State, token: Option<nat>, memory: bool)
    requires s.guard.IssueTimed? && c.permits && DangerousClass(s.guard.cls) && GrantsIssued(c, s)
    requires Classify(s.guard.i.frame, c.accepts) == Class(s.guard.cls)
    ensures GrantsIssued(c, Insert(s, token, memory))
  {
    hide DangerousClass, Classify;
    FailedIssueLeavesNothing(s, token);
    var next := Insert(s, token, memory);
    assert forall k :: 0 <= k < |s.issued| ==> next.issued[k] == s.issued[k];
  }

  lemma StepKeepsGrants(c: Config, s: State, e: Event)
    requires CallsJustified(c, s) && GrantsIssued(c, s)
    ensures GrantsIssued(c, Step(c, s, e))
  {
    hide Authorize, HandOverFrame, Insert, DangerousClass, Justified, Admissible, Classify;
    if e.SendAuthorize? && s.sender.SendTimed? {
      AuthorizeOnlyRemoves(c, s);
    } else if e.SendHandOver? && s.sender.SendCleared? {
      assert HandOverFrame(s).issued == s.issued && HandOverFrame(s).grants == s.grants by { HandOverOnlyAppends(s); }
    } else if e.IssueInsert? && s.guard.IssueTimed? {
      InsertKeepsGrants(c, s, e.token, e.memory);
    } else {
      assert Step(c, s, e).issued == s.issued;
      assert Step(c, s, e).grants == s.grants || Step(c, s, e).grants == map[];
    }
  }

  lemma HandOverOnlyAppends(s: State)
    requires s.sender.SendCleared?
    ensures HandOverFrame(s).issued == s.issued && HandOverFrame(s).grants == s.grants
  {
  }

  lemma AuthorizeKeepsSerials(c: Config, s: State)
    requires s.sender.SendTimed? && SerialsOnce(s)
    ensures SerialsOnce(Authorize(c, s))
  {
    hide QueryClass;
    var next := Authorize(c, s);
    AuthorizeOnlyRemoves(c, s);
    if next.sender.SendCleared? && next.sender.serial.Some? {
      var token := s.sender.a.authority.value.token;
      assert token in s.grants && s.grants[token].serial == next.sender.serial.value;
      assert next.grants == s.grants - {token};
    }
  }

  lemma HandOverKeepsSerials(c: Config, s: State)
    requires s.sender.SendCleared? && SerialsOnce(s)
    ensures SerialsOnce(HandOverFrame(s))
  {
    var next := HandOverFrame(s);
    var n := |s.handed|;
    assert forall i :: 0 <= i < n ==> next.handed[i] == s.handed[i];
    assert next.handed[n].serial == s.sender.serial;
  }

  /** Serials in use are those issued so far. */
  ghost predicate SerialsBelow(s: State, n: nat) {
    && (forall token :: token in s.grants ==> s.grants[token].serial < n)
    && (forall i :: 0 <= i < |s.handed| && s.handed[i].serial.Some? ==> s.handed[i].serial.value < n)
    && (s.sender.SendCleared? && s.sender.serial.Some? ==> s.sender.serial.value < n)
  }

  lemma SerialsAreIssued(c: Config, s: State)
    requires HandedJustified(c, s) && GrantsIssued(c, s)
    requires s.sender.SendCleared? && s.sender.serial.Some? ==> s.sender.serial.value < |s.issued|
    ensures SerialsBelow(s, |s.issued|)
  {
    hide Admissible, Covers, DangerousClass, QueryClass, Classify;
    assert forall i :: 0 <= i < |s.handed| ==> Justified(c, s.issued, s.handed[i]);
  }

  lemma EntryKeepsSerials(s: State, token: Option<nat>)
    requires s.guard.IssueTimed? && SerialsOnce(s) && SerialsBelow(s, |s.issued|)
    ensures SerialsOnce(Insert(s, token, true))
  {
  }

  lemma ReleaseKeepsSerials(s: State)
    requires SerialsOnce(s)
    ensures SerialsOnce(s.(guard := NoGuard))
  {
  }

  lemma InsertKeepsSerials(c: Config, s: State, token: Option<nat>, memory: bool)
    requires s.guard.IssueTimed? && CallsJustified(c, s) && HandedJustified(c, s) && GrantsIssued(c, s) && SerialsOnce(s)
    ensures SerialsOnce(Insert(s, token, memory))
  {
    hide Insert, SerialsOnce, SerialsBelow, HandedJustified, GrantsIssued, Admissible, Covers, DangerousClass, QueryClass;
    if memory {
      SerialsAreIssued(c, s);
      EntryKeepsSerials(s, token);
    } else {
      FailedIssueLeavesNothing(s, token);
      ReleaseKeepsSerials(s);
    }
  }

  lemma StepKeepsSerials(c: Config, s: State, e: Event)
    requires CallsJustified(c, s) && HandedJustified(c, s) && GrantsIssued(c, s) && SerialsOnce(s)
    ensures SerialsOnce(Step(c, s, e))
  {
    hide Authorize, HandOverFrame, Insert, CallsJustified, HandedJustified, GrantsIssued;
    if e.SendAuthorize? && s.sender.SendTimed? {
      AuthorizeKeepsSerials(c, s);
    } else if e.SendHandOver? && s.sender.SendCleared? {
      HandOverKeepsSerials(c, s);
    } else if e.IssueInsert? && s.guard.IssueTimed? {
      InsertKeepsSerials(c, s, e.token, e.memory);
    } else {
      assert Step(c, s, e).handed == s.handed;
      assert Step(c, s, e).grants == s.grants || Step(c, s, e).grants == map[];
    }
  }

  lemma StepKeepsInvariant(c: Config, s: State, e: Event)
    requires Inv(c, s)
    ensures Inv(c, Step(c, s, e))
  {
    hide Step;
    StepKeepsClose(c, s, e);
    StepKeepsCalls(c, s, e);
    StepKeepsHanded(c, s, e);
    StepKeepsGrants(c, s, e);
    StepKeepsSerials(c, s, e);
  }

  lemma {:induction false} RunKeepsInvariant(c: Config, s: State, events: seq<Event>)
    requires Inv(c, s)
    ensures Inv(c, Run(c, s, events))
    decreases |events|
  {
    if events != [] {
      StepKeepsInvariant(c, s, events[0]);
      RunKeepsInvariant(c, Step(c, s, events[0]), events[1..]);
    }
  }

  // ---------------------------------------------------------------------------
  // What every interleaving guarantees.

  /** In every interleaving: a frame other than a query reaches the backend only by spending
      a grant that was issued for exactly that frame and outlives its deadline, and no grant
      is spent twice. */
  lemma EveryFrameSpendsItsOwnGrant(c: Config, events: seq<Event>)
    ensures var s := Run(c, START, events);
            forall i :: 0 <= i < |s.handed| && !QueryClass(s.handed[i].cls) ==>
              && s.handed[i].serial.Some?
              && s.handed[i].serial.value < |s.issued|
              && Covers(s.issued[s.handed[i].serial.value], s.handed[i].frame, s.handed[i].cls,
                        s.handed[i].deadlineNs, s.handed[i].nowNs)
    ensures var s := Run(c, START, events);
            forall i, j :: 0 <= i < j < |s.handed| && !QueryClass(s.handed[i].cls) ==>
              s.handed[i].serial != s.handed[j].serial
  {
    hide Run;
    RunFromStart(c, events);
  }

  lemma RunFromStart(c: Config, events: seq<Event>)
    ensures Inv(c, Run(c, START, events))
  {
    StartHolds(c);
    RunKeepsInvariant(c, START, events);
  }

  /** A backend that refuses issuance only ever receives well-formed, timely queries. */
  lemma RefusingBackendSeesQueriesOnly(c: Config, events: seq<Event>)
    requires !c.permits
    ensures forall h :: h in Run(c, START, events).handed ==>
              QueryClass(h.cls) && Classify(h.frame, c.accepts) == Class(h.cls) && DeadlineOk(c, h.deadlineNs, h.nowNs)
  {
    hide Run;
    RunFromStart(c, events);
  }

  /** Every frame the backend ever gets: never motion or unknown, and outside the parameter
      identifier only the four special frames of seven 0xff bytes and a command. */
  lemma BackendFrames(c: Config, events: seq<Event>)
    ensures forall h :: h in Run(c, START, events).handed ==>
              && QueryClass(h.cls) != DangerousClass(h.cls)
              && h.frame.dlc == 8 && 0 < h.frame.canId <= SFF_MASK
              && (h.frame.canId < SFF_MASK ==> AllBytes(h.frame, 0, 7, 0xff) && 0xfb <= h.frame.data[7] <= 0xfe)
              && (h.frame.canId == SFF_MASK ==> h.frame.data[2] in {0x33, 0xcc, 0x55, 0xaa} && ValidMotorTarget(TargetId(h.frame)))
  {
    hide Run;
    RunFromStart(c, events);
  }

  /** Once a close has returned, whatever runs afterwards or was still waiting hands nothing
      over, and no grant exists. */
  lemma {:induction false} NothingAfterClose(c: Config, s: State, events: seq<Event>)
    requires CloseSettles(s) && s.closeReturned
    ensures Run(c, s, events).closeReturned
    ensures Run(c, s, events).handed == s.handed
    ensures Run(c, s, events).issued == s.issued
    ensures Run(c, s, events).grants == map[]
    decreases |events|
  {
    if events != [] {
      StepKeepsClose(c, s, events[0]);
      NothingAfterClose(c, Step(c, s, events[0]), events[1..]);
    }
  }

  lemma {:induction false} RunJoins(c: Config, s: State, before: seq<Event>, after: seq<Event>)
    ensures Run(c, s, before + after) == Run(c, Run(c, s, before), after)
    decreases |before|
  {
    if before == [] {
      assert before + after == after;
    } else {
      assert (before + after)[1..] == before[1..] + after;
      RunJoins(c, Step(c, s, before[0]), before[1..], after);
    }
  }

  /** The same over whole runs: a run is cut at any point where some close has returned. */
  lemma CloseIsFinal(c: Config, before: seq<Event>, after: seq<Event>)
    requires Run(c, START, before).closeReturned
    ensures Run(c, START, before + after).handed == Run(c, START, before).handed
    ensures Run(c, START, before + after).issued == Run(c, START, before).issued
    ensures Run(c, START, before + after).grants == map[]
  {
    RunFromStart(c, before);
    RunJoins(c, START, before, after);
    NothingAfterClose(c, Run(c, START, before), after);
  }

  // ---------------------------------------------------------------------------
  // The other direction: what is allowed does go through.

  /** A send inside its mutex, run to its end without interruption. */
  function SendSteps(clock: Option<nat>): seq<Event> {
    [SendReadClosed, SendReadClock(clock), SendAuthorize, SendHandOver]
  }

  /** Whether a send that reads this clock must reach the backend. */
  predicate SendAllowed(c: Config, s: State, a: SendArgs, clock: Option<nat>) {
    && !s.closed
    && clock.Some?
    && Classify(a.frame, c.accepts).Class?
    && var cls := Classify(a.frame, c.accepts).value;
    && Admissible(c, a.frame, a.deadlineNs, cls, clock.value)
    && if QueryClass(cls) then a.authority == None
       else
         && a.authority.Some? && a.authority.value.nonce == c.nonce && a.authority.value.token in s.grants
         && Covers(s.grants[a.authority.value.token], a.frame, cls, a.deadlineNs, clock.value)
  }

  /** An uninterrupted send reaches the backend exactly when it is allowed; then it is that
      frame alone that is added, and its token is gone. */
  lemma SendReachesBackendIffAllowed(c: Config, s: State, a: SendArgs, clock: Option<nat>)
    requires s.sender == SendEntered(a)
    ensures var end := Run(c, s, SendSteps(clock));
            && end.sender.NoSender?
            && end.issued == s.issued
            && (SendAllowed(c, s, a, clock) ==>
                  |end.handed| == |s.handed| + 1 && end.handed[..|s.handed|] == s.handed
                  && end.handed[|s.handed|].frame == a.frame && end.handed[|s.handed|].deadlineNs == a.deadlineNs
                  && (a.authority.Some? ==> end.grants == s.grants - {a.authority.value.token})
                  && (a.authority == None ==> end.grants == s.grants))
            && (!SendAllowed(c, s, a, clock) ==> end.handed == s.handed)
  {
    hide Step, Run, Classify, QueryClass, DangerousClass, SendAllowed;
    var s1 := Step(c, s, SendReadClosed);
    var s2 := Step(c, s1, SendReadClock(clock));
    var s3 := Step(c, s2, SendAuthorize);
    RunFour(c, s, SendReadClosed, SendReadClock(clock), SendAuthorize, SendHandOver);
    SendAdmits(c, s, a, clock);
    SendAuthorizes(c, s2, a, clock);
    SendEnds(c, s3);
  }

  /** Up to the deadline check the send goes on exactly if it is open, timely and well formed. */
  lemma SendAdmits(c: Config, s: State, a: SendArgs, clock: Option<nat>)
    requires s.sender == SendEntered(a)
    ensures var t := Step(c, Step(c, s, SendReadClosed), SendReadClock(clock));
            && t == s.(sender := t.sender)
            && if !s.closed && clock.Some? && Classify(a.frame, c.accepts).Class?
                  && Admissible(c, a.frame, a.deadlineNs, Classify(a.frame, c.accepts).value, clock.value)
               then t.sender == SendTimed(a, Classify(a.frame, c.accepts).value, clock.value)
               else t.sender == NoSender && !SendAllowed(c, s, a, clock)
    ensures var t := Step(c, Step(c, s, SendReadClosed), SendReadClock(clock));
            SendAllowed(c, t, a, clock) == SendAllowed(c, s, a, clock)
  {
    hide Classify, QueryClass, DangerousClass, Consume;
  }

  /** From there it is cleared exactly if its authority allows it, which the grant then pays for. */
  lemma SendAuthorizes(c: Config, s: State, a: SendArgs, clock: Option<nat>)
    requires s.sender.SendTimed? ==>
               clock.Some? && !s.closed && Classify(a.frame, c.accepts).Class?
               && s.sender == SendTimed(a, Classify(a.frame, c.accepts).value, clock.value)
               && Admissible(c, a.frame, a.deadlineNs, Classify(a.frame, c.accepts).value, clock.value)
    ensures var t := Step(c, s, SendAuthorize);
            && t == s.(sender := t.sender, grants := t.grants)
            && (!s.sender.SendTimed? ==> t == s)
            && (s.sender.SendTimed? ==>
                  if SendAllowed(c, s, a, clock) then
                    && t.sender.SendCleared? && t.sender.a == a
                    && t.grants == if a.authority.Some? then s.grants - {a.authority.value.token} else s.grants
                  else t.sender == NoSender)
  {
    hide Classify, QueryClass, DangerousClass;
  }

  lemma SendEnds(c: Config, s: State)
    ensures var t := Step(c, s, SendHandOver);
            if !s.sender.SendCleared? then t == s
            else
              && t.sender == NoSender && t.issued == s.issued && t.grants == s.grants
              && |t.handed| == |s.handed| + 1 && t.handed[..|s.handed|] == s.handed
              && t.handed[|s.handed|].frame == s.sender.a.frame && t.handed[|s.handed|].deadlineNs == s.sender.a.deadlineNs
  {
  }

  lemma RunFour(c: Config, s: State, e1: Event, e2: Event, e3: Event, e4: Event)
    ensures Run(c, s, [e1, e2, e3, e4]) == Step(c, Step(c, Step(c, Step(c, s, e1), e2), e3), e4)
  {
    hide Step;
    assert [e1, e2, e3, e4][1..] == [e2, e3, e4];
    assert [e2, e3, e4][1..] == [e3, e4];
    assert [e3, e4][1..] == [e4];
    var s2 := Step(c, Step(c, s, e1), e2);
    assert Run(c, s2, [e3, e4]) == Run(c, Step(c, s2, e3), [e4]) == Step(c, Step(c, s2, e3), e4);
    assert Run(c, s, [e1, e2, e3, e4]) == Run(c, Step(c, s, e1), [e2, e3, e4]) == Run(c, s2, [e3, e4]);
  }

  /** Issuing really makes the grant that such a send needs. */
  lemma IssuedGrantAllowsSend(c: Config, s: State, i: IssueArgs, clock: nat, token: nat, a: SendArgs, now: nat)
    requires s.guard == IssueEntered(i) && !s.closed && c.permits && token !in s.grants
    requires Classify(i.frame, c.accepts).Class? && DangerousClass(Classify(i.frame, c.accepts).value)
    requires clock < i.expiryNs <= clock + MAXIMUM_AUTHORITY_LIFETIME_NS
    requires a == SendArgs(i.frame, a.deadlineNs, Some(Authority(c.nonce, token)))
    requires DeadlineOk(c, a.deadlineNs, now) && a.deadlineNs <= i.expiryNs
    ensures var end := Step(c, Step(c, Step(c, s, IssueReadClosed), IssueReadClock(Some(clock))), IssueInsert(Some(token), true));
            end.guard.NoGuard? && SendAllowed(c, end, a, Some(now))
  {
  }
}
