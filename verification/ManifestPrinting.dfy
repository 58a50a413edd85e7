/** The printer and parser as they run, and the mapping patch. */
module ManifestPrinting {
  import opened Common
  import opened DelimitedText
  import opened ManifestText

  // ---------------------------------------------------------------------------
  // Printing by appending.

  /** Fields each followed by a bar. */
  function Barred(fields: seq<string>): string {
    if fields == [] then "" else fields[0] + ['|'] + Barred(fields[1..])
  }

  lemma {:induction false} BarredAppend(a: seq<string>, x: string)
    ensures Barred(a + [x]) == Barred(a) + x + ['|']
    decreases |a|
  {
    if a == [] {
      assert a + [x] == [x];
      assert [x][1..] == [];
    } else {
      assert (a + [x])[1..] == a[1..] + [x];
      BarredAppend(a[1..], x);
    }
  }

  lemma {:induction false} BarredThenLast(a: seq<string>, x: string)
    ensures Barred(a) + x == Join(a + [x])
    decreases |a|
  {
    if a == [] {
      assert a + [x] == [x];
    } else {
      assert (a + [x])[1..] == a[1..] + [x];
      BarredThenLast(a[1..], x);
    }
  }

  /** One more field and its bar. */
  lemma FieldAppends(start: string, done: seq<string>, x: string)
    ensures start + Barred(done) + x + ['|'] == start + Barred(done + [x])
  {
    hide Barred;
    BarredAppend(done, x);
    assert start + Barred(done) + x + ['|'] == start + (Barred(done) + x + ['|']);
  }

  /** Appends each number and a bar after the fields already there. */
  method AppendInts(c: Codec, out: string, xs: seq<int>, ghost start: string, ghost done: seq<string>) returns (longer: string)
    requires out == start + Barred(done)
    ensures longer == start + Barred(done + ShowInts(c, xs))
  {
    hide Barred;
    ghost var all := ShowInts(c, xs);
    longer := out;
    assert done + all[..0] == done;
    for i := 0 to |xs|
      invariant longer == start + Barred(done + all[..i])
    {
      FieldAppends(start, done + all[..i], all[i]);
      assert done + all[..i] + [all[i]] == done + all[..i + 1];
      longer := longer + c.showInt(xs[i]) + ['|'];
    }
    assert all[..|xs|] == all;
  }

  method AppendReals(c: Codec, out: string, xs: seq<real>, ghost start: string, ghost done: seq<string>) returns (longer: string)
    requires out == start + Barred(done)
    ensures longer == start + Barred(done + ShowReals(c, xs))
  {
    hide Barred;
    ghost var all := ShowReals(c, xs);
    longer := out;
    assert done + all[..0] == done;
    for i := 0 to |xs|
      invariant longer == start + Barred(done + all[..i])
    {
      FieldAppends(start, done + all[..i], all[i]);
      assert done + all[..i] + [all[i]] == done + all[..i + 1];
      longer := longer + c.showReal(xs[i]) + ['|'];
    }
    assert all[..|xs|] == all;
  }

  method AppendMotor(c: Codec, out: string, m: Motor, index: nat) returns (longer: string)
    ensures longer == out + Join(MotorFields(c, m, index)) + ['\n']
  {
    hide Join, Barred, ShowInts, ShowReals, MotorFields;
    var place, direction, evidence := [index / JOINTS, index % JOINTS], [m.direction], [m.evidenceKind, m.evidenceRevision];
    ghost var done := ["motor"];
    OneBarred("motor");
    longer := out + "motor" + ['|'];
    assert longer == out + ("motor" + ['|']);
    longer := AppendInts(c, longer, place, out, done);
    done := done + ShowInts(c, place);
    longer := AppendInts(c, longer, m.identity, out, done);
    done := done + ShowInts(c, m.identity);
    longer := AppendReals(c, longer, m.limits, out, done);
    done := done + ShowReals(c, m.limits);
    longer := AppendInts(c, longer, direction, out, done);
    done := done + ShowInts(c, direction);
    FieldAppends(out, done, m.serial);
    FieldAppends(out, done + [m.serial], m.jointName);
    longer := longer + m.serial + ['|'] + m.jointName + ['|'];
    done := done + [m.serial] + [m.jointName];
    longer := AppendInts(c, longer, evidence, out, done);
    done := done + ShowInts(c, evidence);
    LineEnds(out, done, m.evidenceRecord);
    MotorAssembles(c, m, index);
    longer := longer + m.evidenceRecord + ['\n'];
  }

  /** The last field has no bar. */
  lemma LineEnds(start: string, done: seq<string>, x: string)
    ensures start + Barred(done) + x == start + Join(done + [x])
  {
    hide Barred, Join;
    BarredThenLast(done, x);
    assert start + Barred(done) + x == start + (Barred(done) + x);
  }

  /** The pieces appended are the line's fields. */
  lemma MotorAssembles(c: Codec, m: Motor, index: nat)
    ensures ["motor"] + ShowInts(c, [index / JOINTS, index % JOINTS]) + ShowInts(c, m.identity) + ShowReals(c, m.limits)
            + ShowInts(c, [m.direction]) + [m.serial] + [m.jointName] + ShowInts(c, [m.evidenceKind, m.evidenceRevision])
            + [m.evidenceRecord]
            == MotorFields(c, m, index)
  {
    assert ["motor"] + ShowInts(c, [index / JOINTS, index % JOINTS])
           == ["motor", c.showInt(index / JOINTS), c.showInt(index % JOINTS)];
    TailAssembles(c, m);
  }

  lemma TailAssembles(c: Codec, m: Motor)
    ensures ShowInts(c, [m.direction]) + [m.serial] + [m.jointName] + ShowInts(c, [m.evidenceKind, m.evidenceRevision])
            + [m.evidenceRecord]
            == [c.showInt(m.direction), m.serial, m.jointName, c.showInt(m.evidenceKind), c.showInt(m.evidenceRevision),
                m.evidenceRecord]
  {
  }

  lemma OneBarred(x: string)
    ensures Barred([x]) == x + ['|']
  {
    assert [x][1..] == [];
  }

  method AppendSummary(c: Codec, out: string, m: Manifest) returns (longer: string)
    ensures longer == out + Join(SummaryFields(c, m)) + ['\n']
  {
    hide Join, Barred;
    OneBarred("summary");
    longer := out + "summary" + ['|'];
    assert longer == out + ("summary" + ['|']);
    var numbers := [m.state, m.backend, m.manifestRevision, m.modelRevision, m.inventoryRevision];
    longer := AppendInts(c, longer, numbers, out, ["summary"]);
    var shown := if m.fingerprint == "" then "-" else m.fingerprint;
    LineEnds(out, ["summary"] + ShowInts(c, numbers), shown);
    assert ["summary"] + ShowInts(c, numbers) + [shown] == SummaryFields(c, m);
    longer := longer + shown + ['\n'];
  }

  /** The printer. */
  method PrintCanonical(w: World, m: Manifest, includeDigest: bool) returns (out: string)
    requires |m.motors| == MOTORS
    ensures out == Canonical(w, m, includeDigest)
  {
    hide Join, SummaryFields, MotorFields, Unlines;
    var c := w.codec;
    out := HEADER + ['\n'];
    out := AppendSummary(c, out, m);
    ghost var lines := BodyLines(c, m);
    UnlinesTwo(lines);
    for index := 0 to MOTORS
      invariant out == Unlines(lines[..index + 2])
    {
      out := AppendMotor(c, out, m.motors[index], index);
      assert lines[..index + 3] == lines[..index + 2] + [lines[index + 2]];
      UnlinesAppend(lines[..index + 2], [lines[index + 2]]);
      UnlinesOne(lines[index + 2]);
    }
    assert lines[..MOTORS + 2] == lines;
    if includeDigest {
      out := out + DIGEST_WORD;
      out := out + (if m.digest == "" then w.sha(out) else m.digest);
      out := out + ['\n'];
    }
  }

  lemma UnlinesOne(line: string)
    ensures Unlines([line]) == line + ['\n']
  {
    assert [line][1..] == [];
  }

  lemma UnlinesTwo(lines: seq<string>)
    requires |lines| >= 2
    ensures Unlines(lines[..2]) == lines[0] + ['\n'] + lines[1] + ['\n']
  {
    UnlinesOne(lines[0]);
    UnlinesOne(lines[1]);
    UnlinesAppend([lines[0]], [lines[1]]);
    assert lines[..2] == [lines[0]] + [lines[1]];
  }

  // ---------------------------------------------------------------------------
  // Parsing line by line.

  method ReadMotors(c: Codec, lines: seq<string>) returns (motors: Option<seq<Motor>>)
    requires |lines| == MOTORS
    ensures motors == ParseMotors(c, lines, 0)
  {
    hide ParseMotor, ParseMotors;
    var found: seq<Motor> := [];
    assert lines[0..] == lines;
    NothingFound(ParseMotors(c, lines, 0));
    for index := 0 to MOTORS
      invariant ParseMotors(c, lines, 0) == Found(found, ParseMotors(c, lines[index..], index))
    {
      var m := ParseMotor(c, lines[index], index);
      MotorStep(c, lines[index..], index, found);
      assert lines[index..][1..] == lines[index + 1..];
      if m == None {
        return None;
      }
      found := found + [m.value];
    }
    assert lines[MOTORS..] == [];
    MotorsEnd(c, found);
    return Some(found);
  }

  /** Motors found so far, then the rest. */
  function Found(found: seq<Motor>, rest: Option<seq<Motor>>): Option<seq<Motor>> {
    if rest == None then None else Some(found + rest.value)
  }

  lemma NothingFound(rest: Option<seq<Motor>>)
    ensures Found([], rest) == rest
  {
    if rest.Some? {
      assert [] + rest.value == rest.value;
    }
  }

  lemma MotorsEnd(c: Codec, found: seq<Motor>)
    ensures Found(found, ParseMotors(c, [], MOTORS)) == Some(found)
  {
    assert found + [] == found;
  }

  lemma MotorStep(c: Codec, lines: seq<string>, index: nat, found: seq<Motor>)
    requires lines != []
    ensures var m := ParseMotor(c, lines[0], index);
            Found(found, ParseMotors(c, lines, index))
            == if m == None then None else Found(found + [m.value], ParseMotors(c, lines[1..], index + 1))
  {
    hide ParseMotor;
    var m, rest := ParseMotor(c, lines[0], index), ParseMotors(c, lines[1..], index + 1);
    if m.Some? && rest.Some? {
      assert found + ([m.value] + rest.value) == found + [m.value] + rest.value;
    }
  }

  /** The parser. */
  method ParseManifest(w: World, text: string) returns (m: Option<Manifest>)
    ensures m == Parse(w, text)
  {
    hide ParseSummary, ParseMotors, ParseSignature, DigestMatches, LinesOf, Fields;
    if !Framed(text) {
      return None;
    }
    var split := SplitLines(text);
    if split == None {
      return None;
    }
    var lines := split.value;
    if (|lines| != 17 && |lines| != 18) || lines[0] != HEADER || !DigestMatches(w, text, lines[BODY_LINES]) {
      return None;
    }
    var digest := Split(lines[BODY_LINES]);
    DigestFields(w, text, lines[BODY_LINES]);
    var summary := ParseSummary(w.codec, lines[1]);
    if summary == None {
      return None;
    }
    var motors := ReadMotors(w.codec, lines[2..BODY_LINES]);
    if motors == None {
      return None;
    }
    var signature := None;
    if |lines| == 18 {
      signature := ParseSignature(lines[17]);
      if signature == None {
        return None;
      }
    }
    var record := summary.value.(motors := motors.value, digest := digest[1], signature := signature);
    return if Accepted(w, record) then Some(record) else None;
  }

  lemma DigestFields(w: World, text: string, line: string)
    requires DigestMatches(w, text, line)
    ensures |Fields(line)| == 2
  {
    hide Fields, FirstOccurrence;
  }

  // ---------------------------------------------------------------------------
  // The mapping patch.

  datatype EvidenceKind = ManualFixture | HardwareQualified | SimulationOnly | OtherEvidence(code: int)

  function EvidenceCode(k: EvidenceKind): int {
    match k
    case ManualFixture => 1
    case HardwareQualified => 2
    case SimulationOnly => 3
    case OtherEvidence(code) => code
  }

  datatype Patch = Patch(expectedRevision: int, replacementRevision: int, side: nat, joint: nat, a: real, b: real,
                         serial: string, evidenceKind: EvidenceKind, fixtureRevision: int, qualificationRevision: int,
                         evidenceRecord: string)

  const LOCALLY_VALID: int := 2
  const ARMABLE: int := 4

  function PatchMotor(m: Motor, p: Patch): Motor
    requires |m.limits| == LIMITS
  {
    m.(limits := m.limits[0 := p.a][1 := p.b], direction := if p.a > 0.0 then 1 else -1,
       evidenceKind := EvidenceCode(p.evidenceKind),
       evidenceRevision := if p.fixtureRevision != 0 then p.fixtureRevision else p.qualificationRevision,
       evidenceRecord := p.evidenceRecord)
  }

  predicate PatchApplies(base: Manifest, p: Patch) {
    && |base.motors| == MOTORS && (forall i :: 0 <= i < MOTORS ==> |base.motors[i].limits| == LIMITS)
    && p.expectedRevision == base.manifestRevision < p.replacementRevision
    && p.side < 2 && p.joint < JOINTS && (p.a == 1.0 || p.a == -1.0)
    && base.motors[p.side * JOINTS + p.joint].serial == p.serial
    && (base.backend != VIRTUAL_BACKEND ==> !p.evidenceKind.SimulationOnly?) && !p.evidenceKind.OtherEvidence?
    && SafeText(p.evidenceRecord, RECORD)
  }

  /** The patched record before it is sealed. */
  function Patched(base: Manifest, p: Patch): Manifest
    requires PatchApplies(base, p)
  {
    var index := p.side * JOINTS + p.joint;
    base.(motors := base.motors[index := PatchMotor(base.motors[index], p)], manifestRevision := p.replacementRevision,
          state := if base.backend == VIRTUAL_BACKEND then ARMABLE else LOCALLY_VALID, signature := None)
  }

  function ApplyPatch(w: World, base: Manifest, p: Patch): Option<Manifest> {
    if !PatchApplies(base, p) then None
    else
      var m := Patched(base, p);
      if Accepted(w, m) then Some(m.(digest := w.sha(Canonical(w, m, false)))) else None
  }

  /** The body of the text does not depend on the digest. */
  lemma BodyIgnoresDigest(w: World, m: Manifest, d: string)
    requires |m.motors| == MOTORS
    ensures Canonical(w, m.(digest := d), false) == Canonical(w, m, false)
  {
    assert MotorLines(w.codec, m.(digest := d)) == MotorLines(w.codec, m);
    assert SummaryFields(w.codec, m.(digest := d)) == SummaryFields(w.codec, m);
    hide Join, SummaryFields, MotorFields, Unlines;
  }

  /** The sealed result of a patch survives printing and parsing. */
  lemma PatchedRecordSurvives(w: World, base: Manifest, p: Patch)
    requires Invertible(w.codec) && HexHash(w) && ApplyPatch(w, base, p).Some?
    requires Printable(w.codec, base.(signature := None)) && w.codec.representable(p.a) && w.codec.representable(p.b)
    requires InWidth(p.replacementRevision, U64) && InWidth(p.fixtureRevision, U64) && InWidth(p.qualificationRevision, U64)
    ensures var r := ApplyPatch(w, base, p).value; Parse(w, Canonical(w, r, true)) == Some(r)
  {
    hide Canonical, Parse, Invertible, SafeText, LowerHex, Printable, PatchApplies, Patched;
    var m := Patched(base, p);
    var d := w.sha(Canonical(w, m, false));
    PatchedIsPrintable(w.codec, base, p);
    PrintableMotorCount(w.codec, m);
    BodyIgnoresDigest(w, m, d);
    assert LowerHex(d);
    PrintableIgnoresDigest(w.codec, m, d);
    SealedRecordSurvives(w, m.(digest := d));
  }

  lemma PrintableMotorCount(c: Codec, m: Manifest)
    requires Printable(c, m)
    ensures |m.motors| == MOTORS
  {
  }

  lemma PrintableIgnoresDigest(c: Codec, m: Manifest, d: string)
    requires Printable(c, m)
    ensures Printable(c, m.(digest := d))
  {
    hide PrintableMotor, LowerHex;
  }

  /** A patch raises the revision, changes one motor's mapping and evidence and nothing else,
      and drops any signature. */
  lemma PatchChangesOneMotor(w: World, base: Manifest, p: Patch)
    requires ApplyPatch(w, base, p).Some?
    ensures var r := ApplyPatch(w, base, p).value;
            && base.manifestRevision == p.expectedRevision < p.replacementRevision == r.manifestRevision
            && r.state == (if base.backend == VIRTUAL_BACKEND then ARMABLE else LOCALLY_VALID) && r.signature == None
            && p.side < 2 && p.joint < JOINTS
            && r == base.(state := r.state, manifestRevision := r.manifestRevision, motors := r.motors, digest := r.digest,
                          signature := None)
            && |r.motors| == MOTORS
            && (forall i :: 0 <= i < MOTORS && i != p.side * JOINTS + p.joint ==> r.motors[i] == base.motors[i])
            && Remapped(base.motors[p.side * JOINTS + p.joint], r.motors[p.side * JOINTS + p.joint], p)
            && (p.evidenceKind == SimulationOnly ==> base.backend == VIRTUAL_BACKEND)
  {
    hide SafeText, Canonical;
  }

  /** The motor named by the patch, with its scale a, offset b and the direction of a, and the
      evidence for them; the rest is as before. */
  predicate Remapped(before: Motor, after: Motor, p: Patch) {
    && before.serial == p.serial && |after.limits| == |before.limits| == LIMITS
    && after.limits[0] == p.a && after.limits[1] == p.b && after.limits[2..] == before.limits[2..]
    && ((p.a == 1.0 && after.direction == 1) || (p.a == -1.0 && after.direction == -1))
    && after.identity == before.identity && after.serial == before.serial && after.jointName == before.jointName
    && after.evidenceRecord == p.evidenceRecord
    && after.evidenceRevision == (if p.fixtureRevision == 0 then p.qualificationRevision else p.fixtureRevision)
    && match p.evidenceKind
       case ManualFixture => after.evidenceKind == 1
       case HardwareQualified => after.evidenceKind == 2
       case SimulationOnly => after.evidenceKind == 3
       case OtherEvidence(_) => false
  }

  lemma PatchedIsPrintable(c: Codec, base: Manifest, p: Patch)
    requires PatchApplies(base, p) && Printable(c, base.(signature := None))
    requires c.representable(p.a) && c.representable(p.b)
    requires InWidth(p.replacementRevision, U64) && InWidth(p.fixtureRevision, U64) && InWidth(p.qualificationRevision, U64)
    ensures Printable(c, Patched(base, p))
  {
    hide SafeText, LowerHex;
    var index := p.side * JOINTS + p.joint;
    assert PrintableMotor(c, base.motors[index]);
    assert PrintableMotor(c, PatchMotor(base.motors[index], p));
  }
}
