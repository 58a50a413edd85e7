/** The canonical manifest text, its printer and its parser. */
module ManifestText {
  import opened Common
  import opened DelimitedText

  const HEADER: string := "OPENARM_RUNTIME_MANIFEST|1"
  const DIGEST_WORD: string := "sha256|"
  const MAXIMUM_TEXT: nat := 65536
  const MOTORS: nat := 14
  const JOINTS: nat := 7
  const BODY_LINES: nat := 16
  const TOKEN: nat := 64
  const SERIAL: nat := 32
  const NAME: nat := 48
  const RECORD: nat := 64
  const VIRTUAL_BACKEND: int := 1

  /** The integer types of the record's fields. */
  datatype Width = U32 | U64 | I32

  predicate InWidth(n: int, w: Width) {
    match w
    case U32 => 0 <= n < 0x1_0000_0000
    case U64 => 0 <= n < 0x1_0000_0000_0000_0000
    case I32 => -0x8000_0000 <= n < 0x8000_0000
  }

  /** Number conversion of the C++ library.  Reading is told the type of the field; only numbers
      that fit it and representable doubles are ever printed. */
  datatype Codec = Codec(
    showInt: int -> string, readInt: (string, Width) -> Option<int>,
    showReal: real -> string, readReal: string -> Option<real>, representable: real -> bool)

  /** One motor's line.  `identity` holds type, send, receive and embedded identifiers,
      control mode, bitrate, timeout and the three version numbers; `limits` holds scale,
      offset, lower, upper, velocity, acceleration, jerk, the three spans and gear ratio. */
  datatype Motor = Motor(
    identity: seq<int>, limits: seq<real>, direction: int, serial: string, jointName: string,
    evidenceKind: int, evidenceRevision: int, evidenceRecord: string)

  const IDENTITY: nat := 10
  const LIMITS: nat := 11

  datatype Signature = Signature(version: nat, keyId: string, tag: string)

  datatype Manifest = Manifest(
    state: int, backend: int, manifestRevision: int, modelRevision: int, inventoryRevision: int,
    fingerprint: string, motors: seq<Motor>, busNames: seq<string>, digest: string, signature: Option<Signature>)

  /** The hash, and the record validation that both ends apply. */
  datatype World = World(codec: Codec, sha: string -> string, accepts: Manifest -> bool)

  // ---------------------------------------------------------------------------
  // Text that survives the delimiters.

  ghost predicate Clean(s: string) {
    Lacks(s, '|') && Lacks(s, '\n') && Lacks(s, '\0') && |s| <= TOKEN
  }

  predicate SafeChar(c: char) {
    'a' <= c <= 'z' || 'A' <= c <= 'Z' || '0' <= c <= '9' || c == '_' || c == '-' || c == '.' || c == ':'
  }

  predicate SafeText(s: string, capacity: nat) {
    s != "" && |s| < capacity && forall i :: 0 <= i < |s| ==> SafeChar(s[i])
  }

  predicate LowerHex(s: string) {
    |s| == 64 && forall i :: 0 <= i < |s| ==> '0' <= s[i] <= '9' || 'a' <= s[i] <= 'f'
  }

  /** Nothing outside a field's type is ever read into it. */
  ghost predicate RefusesOverflow(c: Codec) {
    forall s, w :: c.readInt(s, w).Some? ==> InWidth(c.readInt(s, w).value, w)
  }

  /** Reading a printed number gives the number back, and its token is short and clean. */
  ghost predicate Invertible(c: Codec) {
    && (forall n, w :: InWidth(n, w) ==> c.readInt(c.showInt(n), w) == Some(n) && Clean(c.showInt(n)))
    && (forall x :: RealReadsBack(c, x))
  }

  ghost predicate RealReadsBack(c: Codec, x: real) {
    c.representable(x) ==> c.readReal(c.showReal(x)) == Some(x) && Clean(c.showReal(x))
  }

  predicate PrintableMotor(c: Codec, m: Motor) {
    && |m.identity| == IDENTITY && (forall i :: 0 <= i < IDENTITY ==> InWidth(m.identity[i], U32))
    && |m.limits| == LIMITS && (forall i :: 0 <= i < LIMITS ==> c.representable(m.limits[i]))
    && InWidth(m.direction, I32) && InWidth(m.evidenceKind, U32) && InWidth(m.evidenceRevision, U64)
    && SafeText(m.serial, SERIAL) && SafeText(m.jointName, NAME) && SafeText(m.evidenceRecord, RECORD)
  }

  predicate Printable(c: Codec, m: Manifest) {
    && InWidth(m.state, U32) && InWidth(m.backend, U32)
    && InWidth(m.manifestRevision, U64) && InWidth(m.modelRevision, U64) && InWidth(m.inventoryRevision, U64)
    && (m.fingerprint == "" || LowerHex(m.fingerprint))
    && |m.motors| == MOTORS && (forall i :: 0 <= i < MOTORS ==> PrintableMotor(c, m.motors[i]))
    && m.busNames == BusNames(m.backend)
    && m.signature == None
  }

  function BusNames(backend: int): seq<string> {
    if backend == VIRTUAL_BACKEND then ["virtual0", "virtual1"] else ["can0", "can1"]
  }

  // ---------------------------------------------------------------------------
  // Printing.

  function ShowInts(c: Codec, xs: seq<int>): (s: seq<string>)
    ensures |s| == |xs|
  {
    seq(|xs|, i requires 0 <= i < |xs| => c.showInt(xs[i]))
  }

  function ShowReals(c: Codec, xs: seq<real>): (s: seq<string>)
    ensures |s| == |xs|
  {
    seq(|xs|, i requires 0 <= i < |xs| => c.showReal(xs[i]))
  }

  function SummaryFields(c: Codec, m: Manifest): (fields: seq<string>)
    ensures |fields| == 7
  {
    ["summary", c.showInt(m.state), c.showInt(m.backend), c.showInt(m.manifestRevision), c.showInt(m.modelRevision),
     c.showInt(m.inventoryRevision), if m.fingerprint == "" then "-" else m.fingerprint]
  }

  function MotorFields(c: Codec, m: Motor, index: nat): (fields: seq<string>)
    ensures |fields| == 9 + |m.identity| + |m.limits|
  {
    ["motor", c.showInt(index / JOINTS), c.showInt(index % JOINTS)] + ShowInts(c, m.identity) + ShowReals(c, m.limits)
    + [c.showInt(m.direction), m.serial, m.jointName, c.showInt(m.evidenceKind), c.showInt(m.evidenceRevision),
       m.evidenceRecord]
  }

  function MotorLines(c: Codec, m: Manifest): (lines: seq<string>)
    ensures |lines| == |m.motors|
  {
    seq(|m.motors|, i requires 0 <= i < |m.motors| => Join(MotorFields(c, m.motors[i], i)))
  }

  function BodyLines(c: Codec, m: Manifest): seq<string> {
    [HEADER, Join(SummaryFields(c, m))] + MotorLines(c, m)
  }

  /** What the digest line says; an absent digest is computed over the line's own start too. */
  function PrintedDigest(w: World, m: Manifest): string {
    if m.digest == "" then w.sha(Unlines(BodyLines(w.codec, m)) + DIGEST_WORD) else m.digest
  }

  function Canonical(w: World, m: Manifest, includeDigest: bool): string {
    var body := Unlines(BodyLines(w.codec, m));
    if includeDigest then body + DIGEST_WORD + PrintedDigest(w, m) + ['\n'] else body
  }

  // ---------------------------------------------------------------------------
  // Parsing.

  function ReadInts(c: Codec, tokens: seq<string>, w: Width): Option<seq<int>> {
    if tokens == [] then Some([])
    else
      var first, rest := c.readInt(tokens[0], w), ReadInts(c, tokens[1..], w);
      if first == None || rest == None then None else Some([first.value] + rest.value)
  }

  function ReadReals(c: Codec, tokens: seq<string>): Option<seq<real>> {
    if tokens == [] then Some([])
    else
      var first, rest := c.readReal(tokens[0]), ReadReals(c, tokens[1..]);
      if first == None || rest == None then None else Some([first.value] + rest.value)
  }

  function ParseMotor(c: Codec, line: string, index: nat): Option<Motor> {
    var f := Fields(line);
    if |f| != 30 || f[0] != "motor" then None
    else
      var place := ReadInts(c, f[1..3], U32);
      var identity, limits, direction := ReadInts(c, f[3..13], U32), ReadReals(c, f[13..24]), c.readInt(f[24], I32);
      var kind, revision := c.readInt(f[27], U32), c.readInt(f[28], U64);
      if place == Some([index / JOINTS, index % JOINTS]) && identity.Some? && limits.Some? && direction.Some?
         && SafeText(f[25], SERIAL) && SafeText(f[26], NAME) && kind.Some? && revision.Some? && SafeText(f[29], RECORD)
      then
        Some(Motor(identity.value, limits.value, direction.value, f[25], f[26], kind.value, revision.value, f[29]))
      else None
  }

  function ParseMotors(c: Codec, lines: seq<string>, index: nat): Option<seq<Motor>>
    decreases |lines|
  {
    if lines == [] then Some([])
    else
      var first, rest := ParseMotor(c, lines[0], index), ParseMotors(c, lines[1..], index + 1);
      if first == None || rest == None then None else Some([first.value] + rest.value)
  }

  /** The summary line, giving a manifest without motors. */
  function ParseSummary(c: Codec, line: string): Option<Manifest> {
    var f := Fields(line);
    if |f| != 7 || f[0] != "summary" then None
    else
      var n, r := ReadInts(c, f[1..3], U32), ReadInts(c, f[3..6], U64);
      if n == None || r == None || |n.value| != 2 || |r.value| != 3 then None
      else
        Some(Manifest(n.value[0], n.value[1], r.value[0], r.value[1], r.value[2], if f[6] == "-" then "" else f[6],
                      [], BusNames(n.value[1]), "", None))
  }

  function ParseSignature(line: string): Option<Signature> {
    var f := Fields(line);
    if |f| != 3 || (f[0] != "hmac-sha256" && f[0] != "hmac-sha256-v2") || !SafeText(f[1], RECORD) || !LowerHex(f[2]) then None
    else Some(Signature(if f[0] == "hmac-sha256-v2" then 2 else 1, f[1], f[2]))
  }

  predicate Framed(text: string) {
    text != "" && |text| <= MAXIMUM_TEXT && text[|text| - 1] == '\n' && Find(text, '\0') == |text|
  }

  /** The digest line matches the text in front of it. */
  predicate DigestMatches(w: World, text: string, line: string) {
    var f := Fields(line);
    var marker := FirstOccurrence(text, ['\n'] + DIGEST_WORD);
    && marker.Some? && marker.value < |text|
    && |f| == 2 && f[0] == "sha256" && |f[1]| == 64 && w.sha(text[..marker.value + 1]) == f[1]
  }

  function ParseLines(w: World, text: string, lines: seq<string>): Option<Manifest> {
    if (|lines| != 17 && |lines| != 18) || lines[0] != HEADER || !DigestMatches(w, text, lines[BODY_LINES]) then None
    else
      var summary, motors := ParseSummary(w.codec, lines[1]), ParseMotors(w.codec, lines[2..BODY_LINES], 0);
      var signature := if |lines| == 18 then ParseSignature(lines[17]) else None;
      if summary == None || motors == None || (|lines| == 18 && signature == None) then None
      else
        var m := summary.value.(motors := motors.value, digest := Fields(lines[BODY_LINES])[1], signature := signature);
        if Accepted(w, m) then Some(m) else None
  }

  /** Validation looks at neither digest nor signature. */
  predicate Accepted(w: World, m: Manifest) {
    w.accepts(m.(digest := "", signature := None))
  }

  function Parse(w: World, text: string): Option<Manifest> {
    if !Framed(text) then None
    else
      var lines := LinesOf(text);
      if lines == None then None else ParseLines(w, text, lines.value)
  }

  // ---------------------------------------------------------------------------
  // Reading back single lines.

  lemma {:induction false} IntsReadBack(c: Codec, xs: seq<int>, w: Width)
    requires Invertible(c) && forall i :: 0 <= i < |xs| ==> InWidth(xs[i], w)
    ensures ReadInts(c, ShowInts(c, xs), w) == Some(xs)
  {
    if xs != [] {
      assert InWidth(xs[0], w);
      IntsReadBack(c, xs[1..], w);
      assert ShowInts(c, xs)[1..] == ShowInts(c, xs[1..]);
      assert [xs[0]] + xs[1..] == xs;
    }
  }

  lemma {:induction false} RealsReadBack(c: Codec, xs: seq<real>)
    requires Invertible(c) && forall i :: 0 <= i < |xs| ==> c.representable(xs[i])
    ensures ReadReals(c, ShowReals(c, xs)) == Some(xs)
  {
    if xs != [] {
      assert RealReadsBack(c, xs[0]);
      RealsReadBack(c, xs[1..]);
      assert ShowReals(c, xs)[1..] == ShowReals(c, xs[1..]);
      assert [xs[0]] + xs[1..] == xs;
    }
  }

  lemma SafeIsClean(s: string, capacity: nat)
    requires SafeText(s, capacity) && capacity <= TOKEN
    ensures Clean(s)
  {
    forall i | 0 <= i < |s|
      ensures s[i] != '|' && s[i] != '\n' && s[i] != '\0'
    {
      assert SafeChar(s[i]);
    }
  }

  ghost predicate AllClean(fields: seq<string>) {
    forall i :: 0 <= i < |fields| ==> Clean(fields[i])
  }

  lemma MotorFieldsClean(c: Codec, m: Motor, index: nat)
    requires Invertible(c) && PrintableMotor(c, m) && index < MOTORS
    ensures AllClean(MotorFields(c, m, index)) && |MotorFields(c, m, index)| == 30
  {
    hide Clean, SafeText;
    SafeIsClean(m.serial, SERIAL);
    SafeIsClean(m.jointName, NAME);
    SafeIsClean(m.evidenceRecord, RECORD);
    CleanWords();
    var head := ["motor", c.showInt(index / JOINTS), c.showInt(index % JOINTS)];
    var ints, reals := ShowInts(c, m.identity), ShowReals(c, m.limits);
    var tail := [c.showInt(m.direction), m.serial, m.jointName, c.showInt(m.evidenceKind), c.showInt(m.evidenceRevision),
                 m.evidenceRecord];
    IntsClean(c, m.identity, U32);
    RealsClean(c, m.limits);
    assert AllClean(tail) by {
      assert InWidth(m.direction, I32) && InWidth(m.evidenceKind, U32) && InWidth(m.evidenceRevision, U64);
    }
    assert AllClean(head) by {
      assert InWidth(index / JOINTS, U32) && InWidth(index % JOINTS, U32);
    }
    AppendClean(head, ints);
    AppendClean(head + ints, reals);
    AppendClean(head + ints + reals, tail);
  }

  lemma IntsClean(c: Codec, xs: seq<int>, w: Width)
    requires Invertible(c) && forall i :: 0 <= i < |xs| ==> InWidth(xs[i], w)
    ensures AllClean(ShowInts(c, xs))
  {
    hide Clean;
    forall i | 0 <= i < |xs|
      ensures Clean(ShowInts(c, xs)[i])
    {
      assert InWidth(xs[i], w);
    }
  }

  lemma RealsClean(c: Codec, xs: seq<real>)
    requires Invertible(c) && forall i :: 0 <= i < |xs| ==> c.representable(xs[i])
    ensures AllClean(ShowReals(c, xs))
  {
    hide Clean;
    forall i | 0 <= i < |xs|
      ensures Clean(ShowReals(c, xs)[i])
    {
      assert RealReadsBack(c, xs[i]);
    }
  }

  lemma AppendClean(a: seq<string>, b: seq<string>)
    requires AllClean(a) && AllClean(b)
    ensures AllClean(a + b)
  {
    hide Clean;
  }

  lemma CleanWords()
    ensures Clean("motor") && Clean("summary") && Clean("-") && Clean("sha256")
  {
  }

  /** A printed motor line parses to the motor. */
  lemma MotorReadsBack(c: Codec, m: Motor, index: nat)
    requires Invertible(c) && PrintableMotor(c, m) && index < MOTORS
    ensures ParseMotor(c, Join(MotorFields(c, m, index)), index) == Some(m)
  {
    var f := MotorFields(c, m, index);
    MotorFieldsClean(c, m, index);
    JoinedFields(f);
    var place := [index / JOINTS, index % JOINTS];
    assert InWidth(index / JOINTS, U32) && InWidth(index % JOINTS, U32);
    IntsReadBack(c, place, U32);
    IntsReadBack(c, m.identity, U32);
    assert InWidth(m.direction, I32) && InWidth(m.evidenceKind, U32) && InWidth(m.evidenceRevision, U64);
    RealsReadBack(c, m.limits);
    assert f[1..3] == ShowInts(c, place);
    assert f[3..13] == ShowInts(c, m.identity);
    assert f[13..24] == ShowReals(c, m.limits);
    hide Fields, Join, ReadInts, ReadReals, SafeText, Clean, AllClean, MotorFields;
  }

  lemma JoinedFields(fields: seq<string>)
    requires AllClean(fields) && |fields| > 0
    ensures Fields(Join(fields)) == fields
  {
    FieldsOfJoin(fields);
  }

  // ---------------------------------------------------------------------------
  // Reading back the whole text.

  /** Clean fields join to a line. */
  lemma {:induction false} JoinIsLine(fields: seq<string>)
    requires AllClean(fields) && |fields| > 0
    ensures Lacks(Join(fields), '\n') && Lacks(Join(fields), '\0') && |Join(fields)| <= 65 * |fields|
    decreases |fields|
  {
    if |fields| > 1 {
      JoinIsLine(fields[1..]);
    }
  }

  function DigestLine(d: string): string {
    Join(["sha256", d])
  }

  function CanonicalLines(w: World, m: Manifest): seq<string> {
    BodyLines(w.codec, m) + [DigestLine(PrintedDigest(w, m))]
  }

  lemma JoinTwo(a: string, b: string)
    ensures Join([a, b]) == a + ['|'] + b
  {
    assert [a, b][1..] == [b];
  }

  lemma CanonicalIsLines(w: World, m: Manifest)
    ensures Canonical(w, m, true) == Unlines(CanonicalLines(w, m))
  {
    hide BodyLines, PrintedDigest;
    var body, d := BodyLines(w.codec, m), PrintedDigest(w, m);
    UnlinesAppend(body, [DigestLine(d)]);
    assert Unlines([DigestLine(d)]) == DigestLine(d) + ['\n'] + Unlines([]);
    JoinTwo("sha256", d);
    assert Unlines(body) + (DigestLine(d) + ['\n']) == Unlines(body) + DIGEST_WORD + d + ['\n'];
  }

  ghost predicate HexHash(w: World) {
    forall text :: LowerHex(w.sha(text))
  }

  /** The record can be printed, and a digest it already carries is one. */
  ghost predicate Recordable(w: World, m: Manifest) {
    && Invertible(w.codec) && HexHash(w) && Printable(w.codec, m) && (m.digest == "" || LowerHex(m.digest))
  }

  lemma HexIsClean(s: string)
    requires LowerHex(s)
    ensures Clean(s)
  {
  }

  lemma DigestIsHex(w: World, m: Manifest)
    requires Recordable(w, m)
    ensures LowerHex(PrintedDigest(w, m)) && Clean(PrintedDigest(w, m))
  {
    hide BodyLines, LowerHex, Clean;
    if m.digest == "" {
      assert LowerHex(w.sha(Unlines(BodyLines(w.codec, m)) + DIGEST_WORD));
    }
    HexIsClean(PrintedDigest(w, m));
  }

  lemma SummaryFieldsClean(c: Codec, m: Manifest)
    requires Invertible(c) && Printable(c, m)
    ensures AllClean(SummaryFields(c, m))
  {
    hide Clean, LowerHex;
    if m.fingerprint != "" {
      HexIsClean(m.fingerprint);
    }
    CleanWords();
  }

  /** Every line is short and carries no delimiter of its own. */
  ghost predicate Textual(s: string) {
    Lacks(s, '\n') && Lacks(s, '\0') && |s| <= MAXIMUM_LINE
  }

  lemma CanonicalLinesTextual(w: World, m: Manifest)
    requires Recordable(w, m)
    ensures |CanonicalLines(w, m)| == 17
    ensures forall i :: 0 <= i < 17 ==> Textual(CanonicalLines(w, m)[i])
  {
    var lines := CanonicalLines(w, m);
    forall i | 0 <= i < 17
      ensures Textual(lines[i])
    {
      if i == 0 {
        HeaderTextual();
      } else if i == 1 {
        SummaryFieldsClean(w.codec, m);
        JoinIsLine(SummaryFields(w.codec, m));
      } else if i < 16 {
        MotorFieldsClean(w.codec, m.motors[i - 2], i - 2);
        JoinIsLine(MotorFields(w.codec, m.motors[i - 2], i - 2));
      } else {
        DigestIsHex(w, m);
        CleanWords();
        JoinIsLine(["sha256", PrintedDigest(w, m)]);
      }
    }
    hide Textual, Join, SummaryFields, MotorFields, PrintedDigest, Clean, LowerHex;
  }

  lemma HeaderTextual()
    ensures Textual(HEADER)
  {
  }

  lemma {:induction false} UnlinesTextual(lines: seq<string>)
    requires forall i :: 0 <= i < |lines| ==> Textual(lines[i])
    ensures Lacks(Unlines(lines), '\0') && |Unlines(lines)| <= |lines| * (MAXIMUM_LINE + 1)
    ensures lines != [] ==> Unlines(lines) != "" && Unlines(lines)[|Unlines(lines)| - 1] == '\n'
    decreases |lines|
  {
    if lines != [] {
      UnlinesTextual(lines[1..]);
      assert Textual(lines[0]);
    }
  }

  lemma CanonicalIsFramed(lines: seq<string>)
    requires 0 < |lines| <= 18 && forall i :: 0 <= i < |lines| ==> Textual(lines[i])
    ensures Framed(Unlines(lines)) && LinesOf(Unlines(lines)) == Some(lines)
  {
    hide Unlines, LinesOf, Find, Lacks;
    UnlinesTextual(lines);
    FindIn(Unlines(lines), '\0', "");
    forall i | 0 <= i < |lines|
      ensures IsLine(lines[i])
    {
      assert Textual(lines[i]);
    }
    LinesOfUnlines(lines);
  }

  /** A line whose first field is another word does not start like a digest line. */
  lemma OtherFirstField(line: string)
    requires StartsWith(line, DIGEST_WORD)
    ensures Fields(line)[0] == "sha256"
  {
    var rest := line[7..];
    assert line == "sha256" + ['|'] + rest by {
      assert line == line[..7] + line[7..];
    }
    FieldsOfMore("sha256", rest);
  }

  lemma DigestFieldStarts(line: string)
    requires Fields(line)[0] == "sha256" && |Fields(line)| > 1
    ensures StartsWith(line, DIGEST_WORD)
  {
    var d := Find(line, '|');
    assert line[..7] == line[..6] + [line[6]];
  }

  /** In any text whose lines are a header, a summary, motors and a digest line in that order,
      the marker is first found right before the digest line. */
  lemma MarkerIsDigestLine(lines: seq<string>)
    requires |lines| > BODY_LINES && forall i :: 0 <= i < |lines| ==> Lacks(lines[i], '\n')
    requires forall i :: 1 <= i < BODY_LINES ==> Fields(lines[i])[0] != "sha256"
    requires Fields(lines[BODY_LINES])[0] == "sha256" && |Fields(lines[BODY_LINES])| > 1
    ensures var body := Unlines(lines[..BODY_LINES]);
            && |body| > 0 && body <= Unlines(lines)
            && FirstOccurrence(Unlines(lines), ['\n'] + DIGEST_WORD) == Some(|body| - 1)
  {
    hide Fields, Unlines, FirstOccurrence, StartsWith, Lacks;
    var body, rest := lines[..BODY_LINES], lines[BODY_LINES..];
    assert lines == body + rest;
    UnlinesAppend(body, rest);
    DigestFieldStarts(lines[BODY_LINES]);
    UnlinesStep(rest);
    WordLacksBreak();
    assert Unlines(rest) == lines[BODY_LINES] + ['\n'] + Unlines(rest[1..]);
    WordInFirstLine(lines[BODY_LINES], Unlines(rest[1..]), DIGEST_WORD);
    forall i | 1 <= i < |body|
      ensures !StartsWith(body[i], DIGEST_WORD)
    {
      if StartsWith(body[i], DIGEST_WORD) {
        OtherFirstField(body[i]);
        assert false;
      }
    }
    WordFoundAt(body, Unlines(rest), DIGEST_WORD);
  }

  lemma WordLacksBreak()
    ensures Lacks(DIGEST_WORD, '\n')
  {
  }

  lemma SummaryReadsBack(c: Codec, m: Manifest)
    requires Invertible(c) && Printable(c, m)
    ensures ParseSummary(c, Join(SummaryFields(c, m))) == Some(m.(motors := [], digest := "", signature := None))
    ensures Fields(Join(SummaryFields(c, m)))[0] == "summary"
  {
    hide Fields, Join, ReadInts, Clean, AllClean;
    var f := SummaryFields(c, m);
    SummaryFieldsClean(c, m);
    JoinedFields(f);
    var n, r := [m.state, m.backend], [m.manifestRevision, m.modelRevision, m.inventoryRevision];
    IntsReadBack(c, n, U32);
    IntsReadBack(c, r, U64);
    assert f[1..3] == ShowInts(c, n) && f[3..6] == ShowInts(c, r);
  }

  lemma {:induction false} MotorsReadBack(c: Codec, motors: seq<Motor>, lines: seq<string>, index: nat)
    requires Invertible(c) && |lines| == |motors| && index + |motors| <= MOTORS
    requires forall i :: 0 <= i < |motors| ==> PrintableMotor(c, motors[i])
    requires forall i :: 0 <= i < |motors| ==> lines[i] == Join(MotorFields(c, motors[i], index + i))
    ensures ParseMotors(c, lines, index) == Some(motors)
    decreases |motors|
  {
    hide ParseMotor, Join, MotorFields, PrintableMotor;
    if motors != [] {
      assert lines[0] == Join(MotorFields(c, motors[0], index + 0));
      MotorReadsBack(c, motors[0], index);
      forall i | 0 <= i < |motors| - 1
        ensures lines[1..][i] == Join(MotorFields(c, motors[1..][i], index + 1 + i))
      {
        assert lines[i + 1] == Join(MotorFields(c, motors[i + 1], index + (i + 1)));
      }
      MotorsReadBack(c, motors[1..], lines[1..], index + 1);
      assert [motors[0]] + motors[1..] == motors;
    }
  }

  lemma MotorLineFirst(c: Codec, m: Motor, index: nat)
    requires Invertible(c) && PrintableMotor(c, m) && index < MOTORS
    ensures Fields(Join(MotorFields(c, m, index)))[0] == "motor"
  {
    hide Fields, Join;
    MotorFieldsClean(c, m, index);
    JoinedFields(MotorFields(c, m, index));
  }

  /** The first field of each canonical line. */
  lemma CanonicalFirstFields(w: World, m: Manifest)
    requires Recordable(w, m)
    ensures forall i :: 1 <= i < BODY_LINES ==> Fields(CanonicalLines(w, m)[i])[0] != "sha256"
    ensures Fields(CanonicalLines(w, m)[BODY_LINES]) == ["sha256", PrintedDigest(w, m)]
  {
    hide Fields, Join, SummaryFields, MotorFields, PrintedDigest;
    forall i | 1 <= i < BODY_LINES
      ensures Fields(CanonicalLines(w, m)[i])[0] != "sha256"
    {
      if i == 1 {
        SummaryReadsBack(w.codec, m);
      } else {
        MotorLineFirst(w.codec, m.motors[i - 2], i - 2);
      }
    }
    DigestIsHex(w, m);
    CleanWords();
    JoinedFields(["sha256", PrintedDigest(w, m)]);
  }

  /** The digest check on canonical text compares the printed digest with the body's hash. */
  lemma CanonicalDigest(w: World, m: Manifest)
    requires Recordable(w, m)
    ensures |CanonicalLines(w, m)| == 17
    ensures DigestMatches(w, Canonical(w, m, true), CanonicalLines(w, m)[BODY_LINES])
            <==> PrintedDigest(w, m) == w.sha(Canonical(w, m, false))
  {
    var lines := CanonicalLines(w, m);
    CanonicalIsLines(w, m);
    CanonicalLinesTextual(w, m);
    CanonicalFirstFields(w, m);
    DigestIsHex(w, m);
    BodyOfLines(w, m);
    hide CanonicalLines, Fields, Unlines, FirstOccurrence, PrintedDigest, BodyLines;
    forall i | 0 <= i < |lines|
      ensures Lacks(lines[i], '\n')
    {
      assert Textual(lines[i]);
    }
    MarkerIsDigestLine(lines);
    var text, body := Canonical(w, m, true), Canonical(w, m, false);
    assert body == Unlines(lines[..BODY_LINES]) && text == Unlines(lines);
    assert text[..|body|] == body;
    assert Fields(lines[BODY_LINES])[1] == PrintedDigest(w, m) && |PrintedDigest(w, m)| == 64;
    hide Lacks, Clean, Canonical, LowerHex, CanonicalLines;
  }

  lemma BodyOfLines(w: World, m: Manifest)
    requires |m.motors| == MOTORS
    ensures |CanonicalLines(w, m)| == 17
    ensures CanonicalLines(w, m)[..BODY_LINES] == BodyLines(w.codec, m)
    ensures CanonicalLines(w, m)[0] == HEADER
    ensures CanonicalLines(w, m)[1] == Join(SummaryFields(w.codec, m))
    ensures CanonicalLines(w, m)[2..BODY_LINES] == MotorLines(w.codec, m)
  {
    hide Join, SummaryFields, MotorFields, PrintedDigest;
  }

  /** The lines of a canonical text, taken apart. */
  lemma ParseCanonicalLines(w: World, m: Manifest, lines: seq<string>, text: string)
    requires |lines| == 17 && lines[0] == HEADER
    requires ParseSummary(w.codec, lines[1]) == Some(m.(motors := [], digest := "", signature := None)) && m.signature == None
    requires ParseMotors(w.codec, lines[2..BODY_LINES], 0) == Some(m.motors)
    ensures ParseLines(w, text, lines)
            == if DigestMatches(w, text, lines[BODY_LINES]) && Accepted(w, m)
               then Some(m.(digest := Fields(lines[BODY_LINES])[1])) else None
  {
    hide Fields, DigestMatches, ParseSummary, ParseMotors;
  }

  /** Printing and parsing a record: it comes back, unchanged but for the digest it was printed
      with, exactly when that digest is the hash of the text before the digest line and the
      record is valid; otherwise it is refused. */
  lemma ParseCanonical(w: World, m: Manifest)
    requires Recordable(w, m)
    ensures Parse(w, Canonical(w, m, true))
            == if PrintedDigest(w, m) == w.sha(Canonical(w, m, false)) && Accepted(w, m)
               then Some(m.(digest := PrintedDigest(w, m))) else None
  {
    hide CanonicalLines, Fields, Unlines, LinesOf, DigestMatches, PrintedDigest, Canonical, ParseSummary, ParseMotors,
         Framed, Join, SummaryFields, MotorLines, BodyLines, Textual, ParseLines, Accepted, PrintableMotor, LowerHex;
    var lines, text := CanonicalLines(w, m), Canonical(w, m, true);
    CanonicalIsLines(w, m);
    CanonicalLinesTextual(w, m);
    CanonicalIsFramed(lines);
    CanonicalFirstFields(w, m);
    CanonicalDigest(w, m);
    BodyOfLines(w, m);
    SummaryReadsBack(w.codec, m);
    MotorLinesReadBack(w.codec, m);
    ParseCanonicalLines(w, m, lines, text);
  }

  lemma MotorLinesReadBack(c: Codec, m: Manifest)
    requires Invertible(c) && Printable(c, m)
    ensures ParseMotors(c, MotorLines(c, m), 0) == Some(m.motors)
  {
    hide Join, MotorFields, PrintableMotor, ParseMotors;
    MotorsReadBack(c, m.motors, MotorLines(c, m), 0);
  }

  /** A record that carries its own digest survives the round trip. */
  lemma SealedRecordSurvives(w: World, m: Manifest)
    requires Recordable(w, m) && Accepted(w, m) && m.digest == w.sha(Canonical(w, m, false))
    ensures Parse(w, Canonical(w, m, true)) == Some(m)
  {
    hide Canonical, Parse;
    ParseCanonical(w, m);
    assert LowerHex(w.sha(Canonical(w, m, false)));
    assert m.digest != "";
  }

  /** A record printed without one does not: the digest it prints covers seven characters too
      many, so parsing needs a collision. */
  lemma UnsealedRecordNeedsCollision(w: World, m: Manifest)
    requires Recordable(w, m) && m.digest == ""
    ensures Parse(w, Canonical(w, m, true)).Some?
            <==> Accepted(w, m) && w.sha(Canonical(w, m, false) + DIGEST_WORD) == w.sha(Canonical(w, m, false))
  {
    hide Parse;
    ParseCanonical(w, m);
  }

  /** In every text the parser accepts, the hash covers exactly the sixteen lines before the
      digest line. */
  lemma AcceptedDigestCoversBody(w: World, text: string)
    requires Parse(w, text).Some?
    ensures var lines := LinesOf(text).value;
            && |lines| > BODY_LINES
            && Parse(w, text).value.digest == w.sha(Unlines(lines[..BODY_LINES]))
            && lines[BODY_LINES] == DIGEST_WORD + Parse(w, text).value.digest
  {
    hide Fields, Unlines, FirstOccurrence, LinesOf, ParseSummary, ParseMotors, ParseSignature, Lacks, Framed;
    var lines := LinesOf(text).value;
    UnlinesOfLines(text);
    ParsedFirstFields(w, text, lines);
    ParsedDigest(w, text, lines);
    LinesLackBreaks(lines);
    MarkerIsDigestLine(lines);
    var body := Unlines(lines[..BODY_LINES]);
    assert text[..|body|] == body;
    DigestFieldStarts(lines[BODY_LINES]);
    DigestLineText(lines[BODY_LINES]);
  }

  lemma LinesLackBreaks(lines: seq<string>)
    requires forall i :: 0 <= i < |lines| ==> IsLine(lines[i])
    ensures forall i :: 0 <= i < |lines| ==> Lacks(lines[i], '\n')
  {
    hide Lacks;
  }

  lemma ParsedDigest(w: World, text: string, lines: seq<string>)
    requires ParseLines(w, text, lines).Some?
    ensures |lines| > BODY_LINES && DigestMatches(w, text, lines[BODY_LINES])
    ensures ParseLines(w, text, lines).value.digest == Fields(lines[BODY_LINES])[1]
  {
    hide Fields, FirstOccurrence, ParseSummary, ParseMotors, ParseSignature;
  }

  lemma DigestLineText(line: string)
    requires StartsWith(line, DIGEST_WORD) && |Fields(line)| == 2
    ensures line == DIGEST_WORD + Fields(line)[1]
  {
    var rest := line[7..];
    assert line == "sha256" + ['|'] + rest by {
      assert line == line[..7] + line[7..];
    }
    FieldsOfMore("sha256", rest);
    assert Fields(rest) == [Fields(line)[1]];
    SingleField(rest);
  }

  lemma SingleField(line: string)
    requires |Fields(line)| == 1
    ensures Fields(line) == [line]
  {
  }

  lemma ParsedFirstFields(w: World, text: string, lines: seq<string>)
    requires ParseLines(w, text, lines).Some?
    ensures |lines| > BODY_LINES
    ensures forall i :: 1 <= i < BODY_LINES ==> Fields(lines[i])[0] != "sha256"
    ensures |Fields(lines[BODY_LINES])| == 2 && Fields(lines[BODY_LINES])[0] == "sha256"
  {
    hide Fields, FirstOccurrence, ParseSignature, ParseMotors, ReadInts;
    forall i | 2 <= i < BODY_LINES
      ensures Fields(lines[i])[0] == "motor"
    {
      ParsedMotorFirst(w.codec, lines[2..BODY_LINES], 0, i - 2);
    }
  }

  lemma {:induction false} ParsedMotorFirst(c: Codec, lines: seq<string>, index: nat, i: nat)
    requires ParseMotors(c, lines, index).Some? && i < |lines|
    ensures Fields(lines[i])[0] == "motor"
    decreases |lines|
  {
    hide Fields, ReadInts, ReadReals, SafeText;
    if i > 0 {
      ParsedMotorFirst(c, lines[1..], index + 1, i - 1);
    }
  }

  // ---------------------------------------------------------------------------
  // What is accepted fits its types.

  predicate SizedMotor(m: Motor) {
    && |m.identity| == IDENTITY && (forall i :: 0 <= i < IDENTITY ==> InWidth(m.identity[i], U32)) && |m.limits| == LIMITS
    && InWidth(m.direction, I32) && InWidth(m.evidenceKind, U32) && InWidth(m.evidenceRevision, U64)
    && SafeText(m.serial, SERIAL) && SafeText(m.jointName, NAME) && SafeText(m.evidenceRecord, RECORD)
  }

  predicate Sized(m: Manifest) {
    && InWidth(m.state, U32) && InWidth(m.backend, U32)
    && InWidth(m.manifestRevision, U64) && InWidth(m.modelRevision, U64) && InWidth(m.inventoryRevision, U64)
    && |m.motors| == MOTORS && (forall i :: 0 <= i < MOTORS ==> SizedMotor(m.motors[i]))
    && m.busNames == BusNames(m.backend)
  }

  lemma {:induction false} ReadIntsFit(c: Codec, tokens: seq<string>, w: Width)
    requires RefusesOverflow(c) && ReadInts(c, tokens, w).Some?
    ensures |ReadInts(c, tokens, w).value| == |tokens|
    ensures forall i :: 0 <= i < |tokens| ==> InWidth(ReadInts(c, tokens, w).value[i], w)
  {
    if tokens != [] {
      ReadIntsFit(c, tokens[1..], w);
    }
  }

  lemma {:induction false} ReadRealsCount(c: Codec, tokens: seq<string>)
    requires ReadReals(c, tokens).Some?
    ensures |ReadReals(c, tokens).value| == |tokens|
  {
    if tokens != [] {
      ReadRealsCount(c, tokens[1..]);
    }
  }

  lemma ParsedMotorIsSized(c: Codec, line: string, index: nat)
    requires RefusesOverflow(c) && ParseMotor(c, line, index).Some?
    ensures SizedMotor(ParseMotor(c, line, index).value)
  {
    hide Fields, ReadInts, ReadReals, SafeText;
    var f := Fields(line);
    ReadIntsFit(c, f[3..13], U32);
    ReadRealsCount(c, f[13..24]);
  }

  lemma {:induction false} ParsedMotorsAreSized(c: Codec, lines: seq<string>, index: nat)
    requires RefusesOverflow(c) && ParseMotors(c, lines, index).Some?
    ensures |ParseMotors(c, lines, index).value| == |lines|
    ensures forall i :: 0 <= i < |lines| ==> SizedMotor(ParseMotors(c, lines, index).value[i])
    decreases |lines|
  {
    hide ParseMotor, SizedMotor;
    if lines != [] {
      ParsedMotorIsSized(c, lines[0], index);
      ParsedMotorsAreSized(c, lines[1..], index + 1);
    }
  }

  lemma ParsedSummaryIsSized(c: Codec, line: string)
    requires RefusesOverflow(c) && ParseSummary(c, line).Some?
    ensures var m := ParseSummary(c, line).value;
            && InWidth(m.state, U32) && InWidth(m.backend, U32)
            && InWidth(m.manifestRevision, U64) && InWidth(m.modelRevision, U64) && InWidth(m.inventoryRevision, U64)
            && m.busNames == BusNames(m.backend)
  {
    hide Fields, ReadInts;
    var f := Fields(line);
    ReadIntsFit(c, f[1..3], U32);
    ReadIntsFit(c, f[3..6], U64);
  }

  /** In every accepted text each number fits the type of its field, each name is safe and fits
      its buffer, and the buses are those of the backend. */
  lemma AcceptedRecordIsSized(w: World, text: string)
    requires RefusesOverflow(w.codec) && Parse(w, text).Some?
    ensures Sized(Parse(w, text).value)
  {
    hide LinesOf, ParseSummary, ParseMotors, ParseSignature, DigestMatches, Fields, SizedMotor, InWidth;
    var lines := LinesOf(text).value;
    ParsedSummaryIsSized(w.codec, lines[1]);
    ParsedMotorsAreSized(w.codec, lines[2..BODY_LINES], 0);
  }
}
