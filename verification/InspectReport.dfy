/** One file's entry in the inspector's output: fixedText, integrityPass and printJson of
    tools/v5l_inspect.cpp. */
module InspectReport {
  import opened Bytes
  import opened RecordingFile
  import opened RecordingVerifier
  import opened JsonText
  import opened Json
  import opened FaultLists
  import Decimal

  predicate IntegrityPass(report: Report) {
    report.complete && report.faultBits == VERIFY_OK && report.producerDrops == 0
  }

  lemma {:induction false} FixedTextOf(bytes: seq<Byte>, n: nat)
    requires n <= |bytes| && (forall i :: 0 <= i < n ==> bytes[i] != 0) && (n < |bytes| ==> bytes[n] == 0)
    ensures |FixedText(bytes)| == n && forall i :: 0 <= i < n ==> FixedText(bytes)[i] == bytes[i] as char
    decreases n
  {
    if n > 0 {
      FixedTextOf(bytes[1..], n - 1);
    }
  }

  method FixedTextField(text: seq<Byte>) returns (value: string)
    ensures value == FixedText(text)
  {
    var length := 0;
    while length < |text| && text[length] != 0
      invariant length <= |text| && forall i :: 0 <= i < length ==> text[i] != 0
    {
      length := length + 1;
    }
    value := seq(length, i requires 0 <= i < length => text[i] as char);
    FixedTextOf(text, length);
  }

  function Unsigned(bits: bv32): nat {
    bits as nat
  }

  function Status(report: Report): string {
    if IntegrityPass(report) then "PASS" else "REPEAT"
  }

  // ---- The entry as a JSON value ----

  function Verdict(path: string, r: Report): seq<Member> {
    [Member("path", Text(path)), Member("status", Text(Status(r))), Member("complete", Boolean(r.complete)),
     Member("fault_bits", Number(Unsigned(r.faultBits))), Member("faults", FaultsJson(r.faultBits))]
  }

  function Identity(h: FileHeader): seq<Member> {
    [Member("robot_id", Text(FixedText(h.robotId))), Member("software_version", Text(FixedText(h.softwareVersion))),
     Member("source_commit", Text(FixedText(h.sourceCommit))), Member("dirty_build", Boolean(h.dirtyBuild))]
  }

  function Format(h: FileHeader): seq<Member> {
    [Member("format_major", Number(h.formatMajor)), Member("format_minor", Number(h.formatMinor)),
     Member("log_schema_major", Number(h.logSchemaMajor)), Member("log_schema_minor", Number(h.logSchemaMinor)),
     Member("frame_size_bytes", Number(h.frameSize))]
  }

  function Sequences(h: FileHeader): seq<Member> {
    [Member("session_sequence", Number(h.sessionSequence)), Member("storage_sequence", Number(h.storageSequence)),
     Member("boot_id", Number(h.bootId))]
  }

  function Hashes(h: FileHeader): seq<Member> {
    [Member("run_id_hash", Number(h.runIdHash)), Member("robot_id_hash", Number(h.robotIdHash)),
     Member("config_hash", Number(h.configHash)), Member("software_identity_hash", Number(h.softwareIdentityHash))]
  }

  function Configuration(h: FileHeader): seq<Member> {
    [Member("hardware_revision", Number(h.hardwareRevision)), Member("config_schema", Number(h.configSchema)),
     Member("calibration_revision", Number(h.calibrationRevision)),
     Member("hardware_verification", Number(h.hardwareVerification))]
  }

  function Counted(r: Report): seq<Member> {
    [Member("recoverable_frames", Number(r.recoverableFrames)), Member("valid_blocks", Number(r.validBlocks)),
     Member("producer_drops", Number(r.producerDrops)), Member("first_frame_sequence", Number(r.firstFrameSequence)),
     Member("last_frame_sequence", Number(r.lastFrameSequence))]
  }

  function Extent(r: Report, size: nat): seq<Member> {
    [Member("first_time_us", Number(r.firstTimeUs)), Member("last_time_us", Number(r.lastTimeUs)),
     Member("valid_bytes", Number(r.validBytes)), Member("file_bytes", Number(size))]
  }

  function ReportJson(path: string, r: Report, size: nat): Json {
    Object(Verdict(path, r) + Identity(r.header) + Format(r.header) + Sequences(r.header) + Hashes(r.header)
           + Configuration(r.header) + Counted(r) + Extent(r, size))
  }

  function IoErrorJson(path: string): Json {
    Object([Member("path", Text(path)), Member("status", Text("IO_ERROR"))])
  }

  lemma PartsWithin(path: string, r: Report, size: nat)
    ensures var m, h := ReportJson(path, r, size).members, r.header;
            && |m| == 34
            && (forall x :: x in Verdict(path, r) || x in Identity(h) || x in Format(h) || x in Sequences(h) ==> x in m)
            && (forall x :: x in Hashes(h) || x in Configuration(h) ==> x in m)
            && (forall x :: x in Counted(r) || x in Extent(r, size) ==> x in m)
  {
    PartLengths(path, r, size);
    hide Verdict, Identity, Format, Sequences, Hashes, Configuration, Counted, Extent;
  }

  /** Under which name each value of the report stands. */
  lemma EntryCounts(path: string, r: Report, size: nat)
    ensures var m := ReportJson(path, r, size).members;
            && |m| == 34
            && Member("path", Text(path)) in m && Member("status", Text(Status(r))) in m
            && Member("complete", Boolean(r.complete)) in m && Member("fault_bits", Number(Unsigned(r.faultBits))) in m
            && Member("faults", FaultsJson(r.faultBits)) in m
            && Member("recoverable_frames", Number(r.recoverableFrames)) in m
            && Member("valid_blocks", Number(r.validBlocks)) in m
            && Member("producer_drops", Number(r.producerDrops)) in m
            && Member("first_frame_sequence", Number(r.firstFrameSequence)) in m
            && Member("last_frame_sequence", Number(r.lastFrameSequence)) in m
            && Member("first_time_us", Number(r.firstTimeUs)) in m && Member("last_time_us", Number(r.lastTimeUs)) in m
            && Member("valid_bytes", Number(r.validBytes)) in m && Member("file_bytes", Number(size)) in m
  {
    hide ReportJson, FaultsJson, Unsigned, Status;
    PartsWithin(path, r, size);
    var v, c, e := Verdict(path, r), Counted(r), Extent(r, size);
    assert v[0] in v && v[1] in v && v[2] in v && v[3] in v && v[4] in v;
    assert c[0] in c && c[1] in c && c[2] in c && c[3] in c && c[4] in c;
    assert e[0] in e && e[1] in e && e[2] in e && e[3] in e;
  }

  /** And each value of its header. */
  lemma EntryHeader(path: string, r: Report, size: nat)
    ensures var m, h := ReportJson(path, r, size).members, r.header;
            && Member("robot_id", Text(FixedText(h.robotId))) in m
            && Member("software_version", Text(FixedText(h.softwareVersion))) in m
            && Member("source_commit", Text(FixedText(h.sourceCommit))) in m
            && Member("dirty_build", Boolean(h.dirtyBuild)) in m
            && Member("format_major", Number(h.formatMajor)) in m && Member("format_minor", Number(h.formatMinor)) in m
            && Member("log_schema_major", Number(h.logSchemaMajor)) in m
            && Member("log_schema_minor", Number(h.logSchemaMinor)) in m
            && Member("frame_size_bytes", Number(h.frameSize)) in m
            && Member("session_sequence", Number(h.sessionSequence)) in m
            && Member("storage_sequence", Number(h.storageSequence)) in m && Member("boot_id", Number(h.bootId)) in m
  {
    hide ReportJson, FixedText;
    PartsWithin(path, r, size);
    var i, f, s := Identity(r.header), Format(r.header), Sequences(r.header);
    assert i[0] in i && i[1] in i && i[2] in i && i[3] in i;
    assert f[0] in f && f[1] in f && f[2] in f && f[3] in f && f[4] in f;
    assert s[0] in s && s[1] in s && s[2] in s;
  }

  /** And of the robot it is of. */
  lemma EntryRobot(path: string, r: Report, size: nat)
    ensures var m, h := ReportJson(path, r, size).members, r.header;
            && Member("run_id_hash", Number(h.runIdHash)) in m && Member("robot_id_hash", Number(h.robotIdHash)) in m
            && Member("config_hash", Number(h.configHash)) in m
            && Member("software_identity_hash", Number(h.softwareIdentityHash)) in m
            && Member("hardware_revision", Number(h.hardwareRevision)) in m
            && Member("config_schema", Number(h.configSchema)) in m
            && Member("calibration_revision", Number(h.calibrationRevision)) in m
            && Member("hardware_verification", Number(h.hardwareVerification)) in m
  {
    hide ReportJson;
    PartsWithin(path, r, size);
    var k, c := Hashes(r.header), Configuration(r.header);
    assert k[0] in k && k[1] in k && k[2] in k && k[3] in k;
    assert c[0] in c && c[1] in c && c[2] in c && c[3] in c;
  }

  // ---- Printing it ----

  predicate IsKeyChar(c: char) {
    'a' <= c <= 'z' || c == '_'
  }

  /** Member names are printed without escaping. */
  predicate IsKey(name: string) {
    forall k :: 0 <= k < |name| ==> IsKeyChar(name[k])
  }

  lemma KeyIsPlain(name: string)
    requires IsKey(name)
    ensures Quoted(name) == "\"" + name + "\""
  {
    PlainText(name);
  }

  method Put(out: string, name: string, text: string, ghost done: seq<Member>, ghost value: Json) returns (r: string)
    requires out == "{" + PrintMembers(done) && done != [] && IsKey(name) && text == Print(value)
    ensures r == "{" + PrintMembers(done + [Member(name, value)])
  {
    hide Print, PrintMembers, IsKey, Quoted;
    KeyIsPlain(name);
    MembersSnoc(done, Member(name, value));
    r := out + ",\"" + name + "\":" + text;
  }

  function BooleanText(b: bool): string {
    if b then "true" else "false"
  }

  lemma TextOf(value: string)
    ensures Print(Text(value)) == "\"" + Escape(value) + "\""
  {
  }

  lemma NumberOf(n: nat)
    ensures Print(Number(n)) == Decimal.Print(n)
  {
  }

  lemma BooleanOf(b: bool)
    ensures Print(Boolean(b)) == BooleanText(b)
  {
  }

  method PutText(out: string, name: string, value: string, ghost done: seq<Member>) returns (r: string)
    requires out == "{" + PrintMembers(done) && done != [] && IsKey(name)
    ensures r == "{" + PrintMembers(done + [Member(name, Text(value))])
  {
    hide Print, PrintMembers, IsKey, Escape;
    TextOf(value);
    var escaped := JsonEscape(value);
    r := Put(out, name, "\"" + escaped + "\"", done, Text(value));
  }

  method PutNumber(out: string, name: string, value: nat, ghost done: seq<Member>) returns (r: string)
    requires out == "{" + PrintMembers(done) && done != [] && IsKey(name)
    ensures r == "{" + PrintMembers(done + [Member(name, Number(value))])
  {
    hide Print, PrintMembers, IsKey;
    NumberOf(value);
    r := Put(out, name, Decimal.Print(value), done, Number(value));
  }

  method PutBoolean(out: string, name: string, value: bool, ghost done: seq<Member>) returns (r: string)
    requires out == "{" + PrintMembers(done) && done != [] && IsKey(name)
    ensures r == "{" + PrintMembers(done + [Member(name, Boolean(value))])
  {
    hide Print, PrintMembers, IsKey;
    BooleanOf(value);
    r := Put(out, name, BooleanText(value), done, Boolean(value));
  }

  method PutIdentity(start: string, h: FileHeader, ghost done: seq<Member>) returns (out: string)
    requires start == "{" + PrintMembers(done) && done != []
    ensures out == "{" + PrintMembers(done + Identity(h))
  {
    hide PrintMembers, FixedText;
    var robotId := FixedTextField(h.robotId);
    out := PutText(start, "robot_id", robotId, done);
    ghost var d1 := done + [Member("robot_id", Text(robotId))];
    var version := FixedTextField(h.softwareVersion);
    out := PutText(out, "software_version", version, d1);
    ghost var d2 := d1 + [Member("software_version", Text(version))];
    var commit := FixedTextField(h.sourceCommit);
    out := PutText(out, "source_commit", commit, d2);
    ghost var d3 := d2 + [Member("source_commit", Text(commit))];
    out := PutBoolean(out, "dirty_build", h.dirtyBuild, d3);
    assert d3 + [Member("dirty_build", Boolean(h.dirtyBuild))] == done + Identity(h);
  }

  method PutFormat(start: string, h: FileHeader, ghost done: seq<Member>) returns (out: string)
    requires start == "{" + PrintMembers(done) && done != []
    ensures out == "{" + PrintMembers(done + Format(h))
  {
    hide PrintMembers;
    out := PutNumber(start, "format_major", h.formatMajor, done);
    ghost var d1 := done + [Member("format_major", Number(h.formatMajor))];
    out := PutNumber(out, "format_minor", h.formatMinor, d1);
    ghost var d2 := d1 + [Member("format_minor", Number(h.formatMinor))];
    out := PutNumber(out, "log_schema_major", h.logSchemaMajor, d2);
    ghost var d3 := d2 + [Member("log_schema_major", Number(h.logSchemaMajor))];
    out := PutNumber(out, "log_schema_minor", h.logSchemaMinor, d3);
    ghost var d4 := d3 + [Member("log_schema_minor", Number(h.logSchemaMinor))];
    out := PutNumber(out, "frame_size_bytes", h.frameSize, d4);
    assert d4 + [Member("frame_size_bytes", Number(h.frameSize))] == done + Format(h);
  }

  method PutSequences(start: string, h: FileHeader, ghost done: seq<Member>) returns (out: string)
    requires start == "{" + PrintMembers(done) && done != []
    ensures out == "{" + PrintMembers(done + Sequences(h))
  {
    hide PrintMembers;
    out := PutNumber(start, "session_sequence", h.sessionSequence, done);
    ghost var d1 := done + [Member("session_sequence", Number(h.sessionSequence))];
    out := PutNumber(out, "storage_sequence", h.storageSequence, d1);
    ghost var d2 := d1 + [Member("storage_sequence", Number(h.storageSequence))];
    out := PutNumber(out, "boot_id", h.bootId, d2);
    assert d2 + [Member("boot_id", Number(h.bootId))] == done + Sequences(h);
  }

  method PutHashes(start: string, h: FileHeader, ghost done: seq<Member>) returns (out: string)
    requires start == "{" + PrintMembers(done) && done != []
    ensures out == "{" + PrintMembers(done + Hashes(h))
  {
    hide PrintMembers;
    out := PutNumber(start, "run_id_hash", h.runIdHash, done);
    ghost var d1 := done + [Member("run_id_hash", Number(h.runIdHash))];
    out := PutNumber(out, "robot_id_hash", h.robotIdHash, d1);
    ghost var d2 := d1 + [Member("robot_id_hash", Number(h.robotIdHash))];
    out := PutNumber(out, "config_hash", h.configHash, d2);
    ghost var d3 := d2 + [Member("config_hash", Number(h.configHash))];
    out := PutNumber(out, "software_identity_hash", h.softwareIdentityHash, d3);
    assert d3 + [Member("software_identity_hash", Number(h.softwareIdentityHash))] == done + Hashes(h);
  }

  lemma ConfigurationKeys()
    ensures IsKey("hardware_revision") && IsKey("config_schema") && IsKey("calibration_revision")
    ensures IsKey("hardware_verification")
  {
  }

  method PutConfiguration(start: string, h: FileHeader, ghost done: seq<Member>) returns (out: string)
    requires start == "{" + PrintMembers(done) && done != []
    ensures out == "{" + PrintMembers(done + Configuration(h))
  {
    hide PrintMembers, IsKey;
    ConfigurationKeys();
    out := PutNumber(start, "hardware_revision", h.hardwareRevision, done);
    ghost var d1 := done + [Member("hardware_revision", Number(h.hardwareRevision))];
    out := PutNumber(out, "config_schema", h.configSchema, d1);
    ghost var d2 := d1 + [Member("config_schema", Number(h.configSchema))];
    out := PutNumber(out, "calibration_revision", h.calibrationRevision, d2);
    ghost var d3 := d2 + [Member("calibration_revision", Number(h.calibrationRevision))];
    out := PutNumber(out, "hardware_verification", h.hardwareVerification, d3);
    assert d3 + [Member("hardware_verification", Number(h.hardwareVerification))] == done + Configuration(h);
  }

  method PutCounted(start: string, r: Report, ghost done: seq<Member>) returns (out: string)
    requires start == "{" + PrintMembers(done) && done != []
    ensures out == "{" + PrintMembers(done + Counted(r))
  {
    hide PrintMembers;
    out := PutNumber(start, "recoverable_frames", r.recoverableFrames, done);
    ghost var d1 := done + [Member("recoverable_frames", Number(r.recoverableFrames))];
    out := PutNumber(out, "valid_blocks", r.validBlocks, d1);
    ghost var d2 := d1 + [Member("valid_blocks", Number(r.validBlocks))];
    out := PutNumber(out, "producer_drops", r.producerDrops, d2);
    ghost var d3 := d2 + [Member("producer_drops", Number(r.producerDrops))];
    out := PutNumber(out, "first_frame_sequence", r.firstFrameSequence, d3);
    ghost var d4 := d3 + [Member("first_frame_sequence", Number(r.firstFrameSequence))];
    out := PutNumber(out, "last_frame_sequence", r.lastFrameSequence, d4);
    assert d4 + [Member("last_frame_sequence", Number(r.lastFrameSequence))] == done + Counted(r);
  }

  method PutExtent(start: string, r: Report, size: nat, ghost done: seq<Member>) returns (out: string)
    requires start == "{" + PrintMembers(done) && done != []
    ensures out == "{" + PrintMembers(done + Extent(r, size))
  {
    hide PrintMembers;
    out := PutNumber(start, "first_time_us", r.firstTimeUs, done);
    ghost var d1 := done + [Member("first_time_us", Number(r.firstTimeUs))];
    out := PutNumber(out, "last_time_us", r.lastTimeUs, d1);
    ghost var d2 := d1 + [Member("last_time_us", Number(r.lastTimeUs))];
    out := PutNumber(out, "valid_bytes", r.validBytes, d2);
    ghost var d3 := d2 + [Member("valid_bytes", Number(r.validBytes))];
    out := PutNumber(out, "file_bytes", size, d3);
    assert d3 + [Member("file_bytes", Number(size))] == done + Extent(r, size);
  }

  lemma FirstMember(path: string)
    ensures "{" + PrintMembers([Member("path", Text(path))]) == "{\"path\":\"" + Escape(path) + "\""
  {
    hide Escape, Print;
    var member := Member("path", Text(path));
    KeyIsPlain("path");
    TextOf(path);
    assert PrintMember(member) == "\"path\":" + ("\"" + Escape(path) + "\"");
    assert PrintMembers([member]) == PrintMember(member) + "";
  }

  method PutVerdict(path: string, r: Report) returns (out: string)
    ensures out == "{" + PrintMembers(Verdict(path, r))
  {
    hide PrintMembers, Escape, FaultsJson, Print, Unsigned;
    FirstMember(path);
    var escaped := JsonEscape(path);
    out := "{\"path\":\"" + escaped + "\"";
    ghost var d1 := [Member("path", Text(path))];
    out := PutText(out, "status", Status(r), d1);
    ghost var d2 := d1 + [Member("status", Text(Status(r)))];
    out := PutBoolean(out, "complete", r.complete, d2);
    ghost var d3 := d2 + [Member("complete", Boolean(r.complete))];
    out := PutNumber(out, "fault_bits", Unsigned(r.faultBits), d3);
    ghost var d4 := d3 + [Member("fault_bits", Number(Unsigned(r.faultBits)))];
    var faults := PrintFaultsJson(r.faultBits);
    out := Put(out, "faults", faults, d4, FaultsJson(r.faultBits));
    assert d4 + [Member("faults", FaultsJson(r.faultBits))] == Verdict(path, r);
  }

  lemma ObjectOf(members: seq<Member>)
    ensures Print(Object(members)) == "{" + PrintMembers(members) + "}"
  {
  }

  method PrintJson(path: string, r: Report, size: nat) returns (out: string)
    ensures out == Print(ReportJson(path, r, size))
  {
    hide Print, PrintMembers, Verdict, Identity, Format, Sequences, Hashes, Configuration, Counted, Extent;
    var h := r.header;
    VerdictStarts(path, r);
    out := PutVerdict(path, r);
    ghost var done := Verdict(path, r);
    out := PutIdentity(out, h, done);
    done := done + Identity(h);
    out := PutFormat(out, h, done);
    done := done + Format(h);
    out := PutSequences(out, h, done);
    done := done + Sequences(h);
    out := PutHashes(out, h, done);
    done := done + Hashes(h);
    out := PutConfiguration(out, h, done);
    done := done + Configuration(h);
    out := PutCounted(out, r, done);
    done := done + Counted(r);
    out := PutExtent(out, r, size, done);
    out := out + "}";
    ObjectOf(done + Extent(r, size));
  }

  lemma VerdictStarts(path: string, r: Report)
    ensures Verdict(path, r) != []
  {
  }

  method PrintIoError(path: string) returns (out: string)
    ensures out == Print(IoErrorJson(path))
  {
    hide Escape, PrintMembers, Print, PrintMember;
    FirstMember(path);
    var escaped := JsonEscape(path);
    ghost var first, second := Member("path", Text(path)), Member("status", Text("IO_ERROR"));
    IoErrorText();
    MembersSnoc([first], second);
    ObjectOf([first] + [second]);
    out := "{\"path\":\"" + escaped + "\",\"status\":\"IO_ERROR\"}";
    assert "\",\"status\":\"IO_ERROR\"}" == "\"" + "," + "\"status\":\"IO_ERROR\"" + "}";
    Regrouped("{\"path\":\"" + escaped, "\"", ",", "\"status\":\"IO_ERROR\"", "}");
    assert [first] + [second] == [first, second];
  }

  lemma Regrouped(a: string, b: string, c: string, d: string, e: string)
    ensures a + (b + c + d + e) == a + b + c + d + e
  {
  }

  lemma IoErrorText()
    ensures PrintMember(Member("status", Text("IO_ERROR"))) == "\"status\":\"IO_ERROR\""
  {
    hide Escape, Print, Quoted;
    var member := Member("status", Text("IO_ERROR"));
    KeyIsPlain("status");
    PlainText("IO_ERROR");
    TextOf("IO_ERROR");
    assert PrintMember(member) == "\"status\"" + ":" + "\"IO_ERROR\"";
  }

  // ---- The human report ----

  /** A number as std::hex prints it into `width` columns filled with zeros, as far as it fits. */
  function Hex(n: nat, width: nat): string {
    if width == 0 then "" else Hex(n / 16, width - 1) + [HexDigit(n % 16)]
  }

  function HexNumber(s: string): int {
    if s == "" then 0 else HexNumber(s[..|s| - 1]) * 16 + HexValue(s[|s| - 1])
  }

  function Power16(k: nat): nat {
    if k == 0 then 1 else 16 * Power16(k - 1)
  }

  lemma {:induction false} HexNumberOf(n: nat, width: nat)
    requires n < Power16(width)
    ensures |Hex(n, width)| == width && HexNumber(Hex(n, width)) == n
    decreases width
  {
    hide HexDigit, HexValue;
    if width > 0 {
      HexNumberOf(n / 16, width - 1);
      HexRoundTrip(n % 16);
      assert Hex(n, width)[..width - 1] == Hex(n / 16, width - 1);
    }
  }

  /** The eight digits of a hash name it. */
  lemma HashPrinted(hash: uint32)
    ensures |Hex(hash, 8)| == 8 && HexNumber(Hex(hash, 8)) == hash
  {
    hide Hex, HexNumber;
    assert Power16(4) == 0x1_0000;
    assert Power16(8) == 0x1_0000_0000;
    HexNumberOf(hash, 8);
  }

  /** The microseconds a recording lasts, and zero if it ends before it begins. */
  function DurationUs(r: Report): nat {
    if r.lastTimeUs >= r.firstTimeUs then r.lastTimeUs - r.firstTimeUs else 0
  }

  function HumanText(path: string, r: Report, size: nat, seconds: nat -> string): string {
    var h := r.header;
    "FILE: " + path + "\nSTATUS: " + Status(r) + "\nFAULTS: " + FaultsHuman(r.faultBits)
    + "\nROBOT: " + FixedText(h.robotId) + "\nSOFTWARE: " + FixedText(h.softwareVersion)
    + "\nCOMMIT: " + FixedText(h.sourceCommit) + "\nDIRTY_BUILD: " + BooleanText(h.dirtyBuild)
    + "\nFORMAT: " + Decimal.Print(h.formatMajor) + "." + Decimal.Print(h.formatMinor)
    + "  LOG_SCHEMA: " + Decimal.Print(h.logSchemaMajor) + "." + Decimal.Print(h.logSchemaMinor)
    + "  FRAME_BYTES: " + Decimal.Print(h.frameSize)
    + "\nSESSION: " + Decimal.Print(h.sessionSequence) + "  STORAGE_SEQUENCE: " + Decimal.Print(h.storageSequence)
    + "\nBOOT_ID: " + Decimal.Print(h.bootId) + "  RUN_HASH: 0x" + Hex(h.runIdHash, 8)
    + "\nCONFIG_HASH: 0x" + Hex(h.configHash, 8)
    + "\nFRAMES: " + Decimal.Print(r.recoverableFrames) + "  BLOCKS: " + Decimal.Print(r.validBlocks)
    + "  PRODUCER_DROPS: " + Decimal.Print(r.producerDrops)
    + "\nSEQUENCE: " + Decimal.Print(r.firstFrameSequence) + ".." + Decimal.Print(r.lastFrameSequence)
    + "  DURATION_S: " + seconds(DurationUs(r))
    + "\nVALID_BYTES: " + Decimal.Print(r.validBytes) + "/" + Decimal.Print(size) + "\n\n"
  }

  method PrintHuman(path: string, r: Report, size: nat, seconds: nat -> string) returns (out: string)
    ensures out == HumanText(path, r, size, seconds)
  {
    hide FaultsHuman, FixedText, Hex, Decimal.Print;
    var h := r.header;
    var faults := PrintFaultsHuman(r.faultBits);
    out := "FILE: " + path + "\nSTATUS: " + Status(r) + "\nFAULTS: " + faults;
    var robot := FixedTextField(h.robotId);
    out := out + "\nROBOT: " + robot;
    var software := FixedTextField(h.softwareVersion);
    out := out + "\nSOFTWARE: " + software;
    var commit := FixedTextField(h.sourceCommit);
    out := out + "\nCOMMIT: " + commit + "\nDIRTY_BUILD: " + BooleanText(h.dirtyBuild);
    out := out + "\nFORMAT: " + Decimal.Print(h.formatMajor) + "." + Decimal.Print(h.formatMinor)
      + "  LOG_SCHEMA: " + Decimal.Print(h.logSchemaMajor) + "." + Decimal.Print(h.logSchemaMinor)
      + "  FRAME_BYTES: " + Decimal.Print(h.frameSize);
    out := out + "\nSESSION: " + Decimal.Print(h.sessionSequence)
      + "  STORAGE_SEQUENCE: " + Decimal.Print(h.storageSequence);
    out := out + "\nBOOT_ID: " + Decimal.Print(h.bootId) + "  RUN_HASH: 0x" + Hex(h.runIdHash, 8);
    out := out + "\nCONFIG_HASH: 0x" + Hex(h.configHash, 8);
    out := out + "\nFRAMES: " + Decimal.Print(r.recoverableFrames) + "  BLOCKS: " + Decimal.Print(r.validBlocks)
      + "  PRODUCER_DROPS: " + Decimal.Print(r.producerDrops);
    out := out + "\nSEQUENCE: " + Decimal.Print(r.firstFrameSequence) + ".." + Decimal.Print(r.lastFrameSequence);
    out := out + "  DURATION_S: " + seconds(DurationUs(r));
    out := out + "\nVALID_BYTES: " + Decimal.Print(r.validBytes) + "/" + Decimal.Print(size) + "\n\n";
  }

  // ---- Reading it back ----

  lemma PartLengths(p: string, r: Report, n: nat)
    ensures var h := r.header;
            && |Verdict(p, r)| == 5 && |Identity(h)| == 4 && |Format(h)| == 5 && |Sequences(h)| == 3 && |Hashes(h)| == 4
            && |Configuration(h)| == 4 && |Counted(r)| == 5 && |Extent(r, n)| == 4
  {
    hide FixedText, FaultsJson, Unsigned, Status;
  }

  lemma SameSplit<T>(a: seq<T>, b: seq<T>, a': seq<T>, b': seq<T>)
    requires a + b == a' + b' && |b| == |b'|
    ensures a == a' && b == b'
  {
    assert |a + b| == |a' + b'|;
    assert a == (a + b)[..|a|] && a' == (a' + b')[..|a|];
    assert b == (a + b)[|a|..] && b' == (a' + b')[|a|..];
  }

  lemma SameParts(p: string, r: Report, n: nat, p': string, r': Report, n': nat)
    requires ReportJson(p, r, n) == ReportJson(p', r', n')
    ensures Verdict(p, r) == Verdict(p', r') && Identity(r.header) == Identity(r'.header)
    ensures Format(r.header) == Format(r'.header) && Sequences(r.header) == Sequences(r'.header)
    ensures Hashes(r.header) == Hashes(r'.header) && Configuration(r.header) == Configuration(r'.header)
    ensures Counted(r) == Counted(r') && Extent(r, n) == Extent(r', n')
  {
    hide Verdict, Identity, Format, Sequences, Hashes, Configuration, Counted, Extent;
    PartLengths(p, r, n);
    PartLengths(p', r', n');
    var h, h' := r.header, r'.header;
    var a1, b1 := Verdict(p, r) + Identity(h), Verdict(p', r') + Identity(h');
    var a2, b2 := a1 + Format(h), b1 + Format(h');
    var a3, b3 := a2 + Sequences(h), b2 + Sequences(h');
    var a4, b4 := a3 + Hashes(h), b3 + Hashes(h');
    var a5, b5 := a4 + Configuration(h), b4 + Configuration(h');
    SameSplit(a5 + Counted(r), Extent(r, n), b5 + Counted(r'), Extent(r', n'));
    SameSplit(a5, Counted(r), b5, Counted(r'));
    SameSplit(a4, Configuration(h), b4, Configuration(h'));
    SameSplit(a3, Hashes(h), b3, Hashes(h'));
    SameSplit(a2, Sequences(h), b2, Sequences(h'));
    SameSplit(a1, Format(h), b1, Format(h'));
    SameSplit(Verdict(p, r), Identity(h), Verdict(p', r'), Identity(h'));
  }

  lemma SameVerdict(p: string, r: Report, p': string, r': Report)
    requires Verdict(p, r) == Verdict(p', r')
    ensures p == p' && Status(r) == Status(r') && r.complete == r'.complete
    ensures FaultNames(r.faultBits) == FaultNames(r'.faultBits)
  {
    hide FaultNames, Status, Unsigned;
    var a, b := Verdict(p, r), Verdict(p', r');
    assert a[0] == b[0] && a[1] == b[1] && a[2] == b[2] && a[4] == b[4];
    var names, names' := FaultNames(r.faultBits), FaultNames(r'.faultBits);
    assert Texts(names) == Texts(names');
    forall i | 0 <= i < |names| ensures names[i] == names'[i] {
      assert Texts(names)[i] == Texts(names')[i];
    }
  }

  lemma SameIdentity(h: FileHeader, h': FileHeader)
    requires Identity(h) == Identity(h')
    ensures FixedText(h.robotId) == FixedText(h'.robotId)
    ensures FixedText(h.softwareVersion) == FixedText(h'.softwareVersion)
    ensures FixedText(h.sourceCommit) == FixedText(h'.sourceCommit) && h.dirtyBuild == h'.dirtyBuild
  {
    hide FixedText;
    var a, b := Identity(h), Identity(h');
    assert a[0] == b[0] && a[1] == b[1] && a[2] == b[2] && a[3] == b[3];
  }

  lemma SameNumbers(h: FileHeader, h': FileHeader)
    requires Format(h) == Format(h') && Sequences(h) == Sequences(h') && Hashes(h) == Hashes(h')
    requires Configuration(h) == Configuration(h')
    ensures h.formatMajor == h'.formatMajor && h.formatMinor == h'.formatMinor && h.frameSize == h'.frameSize
    ensures h.logSchemaMajor == h'.logSchemaMajor && h.logSchemaMinor == h'.logSchemaMinor
    ensures h.sessionSequence == h'.sessionSequence && h.storageSequence == h'.storageSequence && h.bootId == h'.bootId
    ensures h.runIdHash == h'.runIdHash && h.robotIdHash == h'.robotIdHash && h.configHash == h'.configHash
    ensures h.softwareIdentityHash == h'.softwareIdentityHash && h.hardwareRevision == h'.hardwareRevision
    ensures h.configSchema == h'.configSchema && h.calibrationRevision == h'.calibrationRevision
    ensures h.hardwareVerification == h'.hardwareVerification
  {
    var f, f', s, s' := Format(h), Format(h'), Sequences(h), Sequences(h');
    var k, k', c, c' := Hashes(h), Hashes(h'), Configuration(h), Configuration(h');
    assert f[0] == f'[0] && f[1] == f'[1] && f[2] == f'[2] && f[3] == f'[3] && f[4] == f'[4];
    assert s[0] == s'[0] && s[1] == s'[1] && s[2] == s'[2];
    assert k[0] == k'[0] && k[1] == k'[1] && k[2] == k'[2] && k[3] == k'[3];
    assert c[0] == c'[0] && c[1] == c'[1] && c[2] == c'[2] && c[3] == c'[3];
  }

  lemma SameCounts(r: Report, n: nat, r': Report, n': nat)
    requires Counted(r) == Counted(r') && Extent(r, n) == Extent(r', n') && r.complete == r'.complete
    ensures n == n' && r.(faultBits := r'.faultBits, header := r'.header) == r'
  {
    var a, b, c, d := Counted(r), Counted(r'), Extent(r, n), Extent(r', n');
    assert a[0] == b[0] && a[1] == b[1] && a[2] == b[2] && a[3] == b[3] && a[4] == b[4];
    assert c[0] == d[0] && c[1] == d[1] && c[2] == d[2] && c[3] == d[3];
  }

  /** The printed part of a header: its texts up to their zeros, and every number. */
  ghost predicate SamePrinted(h: FileHeader, h': FileHeader) {
    && FixedText(h.robotId) == FixedText(h'.robotId) && FixedText(h.softwareVersion) == FixedText(h'.softwareVersion)
    && FixedText(h.sourceCommit) == FixedText(h'.sourceCommit)
    && h'.(robotId := h.robotId, softwareVersion := h.softwareVersion, sourceCommit := h.sourceCommit,
           magic := h.magic, endianMarker := h.endianMarker, headerSize := h.headerSize,
                   startTimeMs := h.startTimeMs) == h
  }

  lemma Printed(h: FileHeader, h': FileHeader)
    requires Identity(h) == Identity(h')
    requires Format(h) == Format(h') && Sequences(h) == Sequences(h') && Hashes(h) == Hashes(h')
    requires Configuration(h) == Configuration(h')
    ensures SamePrinted(h, h')
  {
    hide FixedText, Identity, Format, Sequences, Hashes, Configuration;
    SameIdentity(h, h');
    SameNumbers(h, h');
  }

  /** Two entries printed alike are of the same path and the same report: every count, every known fault
      and everything of the header but what is not printed. */
  lemma ReportDetermined(p: string, r: Report, n: nat, p': string, r': Report, n': nat)
    requires Print(ReportJson(p, r, n)) == Print(ReportJson(p', r', n'))
    ensures p == p' && n == n' && SamePrinted(r.header, r'.header) && Status(r) == Status(r')
    ensures r.faultBits & KNOWN_FAULTS == r'.faultBits & KNOWN_FAULTS
    ensures r.(faultBits := r'.faultBits, header := r'.header) == r'
  {
    hide Print, FixedText, Status, FaultNames, BitsOf, ReportJson, Verdict, Identity, Format, Sequences, Hashes,
         Configuration, Counted, Extent;
    PrintInjective(ReportJson(p, r, n), ReportJson(p', r', n'));
    SameParts(p, r, n, p', r', n');
    SameVerdict(p, r, p', r');
    SameIdentity(r.header, r'.header);
    SameNumbers(r.header, r'.header);
    Printed(r.header, r'.header);
    SameCounts(r, n, r', n');
    FaultNamesRoundTrip(r.faultBits);
    FaultNamesRoundTrip(r'.faultBits);
  }
}
