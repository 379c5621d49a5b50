/** The V5L2 file format of include/robot/telemetry/recording_file.hpp: its structures, and the
    bytes they occupy on the robot. Each structure is a body, the checksum of that body, and
    padding up to the structure's alignment; padding bytes are taken to be zero when written. */
module RecordingFile {
  import opened Bytes
  import Crc
  import CrcBursts
  import Fnv

  const FILE_MAGIC: uint32 := 0x324C_3556
  const BLOCK_MAGIC: uint32 := 0x314B_4C42
  const FOOTER_MAGIC: uint32 := 0x3144_4E45
  const ENDIAN_MARKER: uint32 := 0x0102_0304
  const LOG_MAGIC: uint32 := 0x374D_3030
  const LOG_SCHEMA_MAJOR: uint16 := 3
  const LOG_SCHEMA_MINOR: uint16 := 1

  const FRAME_SIZE: nat := 1536
  const HEADER_BODY: nat := 152
  const HEADER_SIZE: nat := 160
  const BLOCK_BODY: nat := 24
  const BLOCK_SIZE: nat := 28
  const FOOTER_BODY: nat := 40
  const FOOTER_SIZE: nat := 48

  const FORMAT_WIDTHS: seq<nat> := [4, 2, 2, 2, 2, 4, 4, 4]
  const SESSION_WIDTHS: seq<nat> := [8, 4, 4, 4, 4, 4, 4, 4, 4, 4, 4]
  const TEXT_WIDTHS: seq<nat> := [1, 1, 2, 16, 16, 41, 3]
  const BLOCK_WIDTHS: seq<nat> := [4, 4, 4, 4, 4, 4]
  const FOOTER_WIDTHS: seq<nat> := [4, 4, 4, 4, 8, 8, 4, 4]

  function Zeros(n: nat): (z: seq<Byte>)
    ensures |z| == n
  {
    seq(n, _ => 0)
  }

  /** A log frame, by its bytes in memory. */
  type Frame = f: seq<Byte> | |f| == FRAME_SIZE witness seq(FRAME_SIZE, _ => 0)

  type Text16 = t: seq<Byte> | |t| == 16 witness seq(16, _ => 0)
  type Text41 = t: seq<Byte> | |t| == 41 witness seq(41, _ => 0)

  /** The characters of a fixed text field, up to its first zero. */
  function FixedText(bytes: seq<Byte>): (s: string)
    ensures |s| <= |bytes|
  {
    if bytes == [] || bytes[0] == 0 then [] else [bytes[0] as char] + FixedText(bytes[1..])
  }

  function FrameMagic(f: Frame): uint32 { U32(f[0..4]) }
  function FrameMajor(f: Frame): uint16 { U16(f[4..6]) }
  function FrameMinor(f: Frame): uint16 { U16(f[6..8]) }
  function FrameSizeField(f: Frame): uint32 { U32(f[8..12]) }
  function FrameTime(f: Frame): uint64 { U64(f[16..24]) }
  function FrameSequence(f: Frame): uint32 { U32(f[24..28]) }
  function FrameRun(f: Frame): uint32 { U32(f[32..36]) }

  /** What makeEmptyLogFrame puts in every frame. */
  predicate GoodFrame(f: Frame) {
    && FrameMagic(f) == LOG_MAGIC
    && FrameSizeField(f) == FRAME_SIZE
    && FrameMajor(f) == LOG_SCHEMA_MAJOR
    && FrameMinor(f) == LOG_SCHEMA_MINOR
  }

  datatype Metadata = Metadata(
    bootId: uint64, robotIdHash: uint32, configHash: uint32, softwareIdentityHash: uint32,
    hardwareRevision: uint32, configSchema: uint32, calibrationRevision: uint32,
    hardwareVerification: Byte, dirtyBuild: bool,
    robotId: Text16, softwareVersion: Text16, sourceCommit: Text41)

  datatype FileHeader = FileHeader(
    magic: uint32, formatMajor: uint16, formatMinor: uint16, logSchemaMajor: uint16, logSchemaMinor: uint16,
    endianMarker: uint32, headerSize: uint32, frameSize: uint32,
    bootId: uint64, sessionSequence: uint32, storageSequence: uint32, startTimeMs: uint32, runIdHash: uint32,
    robotIdHash: uint32, configHash: uint32, softwareIdentityHash: uint32,
    hardwareRevision: uint32, configSchema: uint32, calibrationRevision: uint32,
    hardwareVerification: Byte, dirtyBuild: bool,
    robotId: Text16, softwareVersion: Text16, sourceCommit: Text41)

  datatype BlockHeader = BlockHeader(
    blockSequence: uint32, firstFrameSequence: uint32, frameCount: uint32, payloadBytes: uint32, payloadCrc: uint32)

  datatype FileFooter = FileFooter(
    totalFrames: uint32, firstFrameSequence: uint32, lastFrameSequence: uint32,
    firstTimeUs: uint64, lastTimeUs: uint64, producerDrops: uint32, blockCount: uint32)

  // ---- Run identifiers ----

  function RunId(bootId: uint64, sessionSequence: uint32): uint32 {
    Fnv.Hash(Fnv.Hash(Fnv.BASIS, LittleEndian(8, bootId)), LittleEndian(4, sessionSequence))
  }

  /** The run's number is the hash of the twelve bytes that boot and session have in memory. */
  lemma RunIdOfBytes(bootId: uint64, sessionSequence: uint32)
    ensures RunId(bootId, sessionSequence)
         == Fnv.Hash(Fnv.BASIS, LittleEndian(8, bootId) + LittleEndian(4, sessionSequence))
  {
    hide Fnv.Hash, LittleEndian;
    Fnv.HashConcat(Fnv.BASIS, LittleEndian(8, bootId), LittleEndian(4, sessionSequence));
  }

  /** Sessions of one boot that differ in their lowest byte only never share a run number. */
  lemma RunsApart(bootId: uint64, session: uint32, other: uint32)
    requires session / 256 == other / 256 && session != other
    ensures RunId(bootId, session) != RunId(bootId, other)
  {
    hide Fnv.Hash;
    var a, b := LittleEndian(4, session), LittleEndian(4, other);
    assert a[0] == session % 256 && b[0] == other % 256 && a[1..] == b[1..];
    assert b == a[0 := b[0]];
    Fnv.OneByteChangesHash(Fnv.Hash(Fnv.BASIS, LittleEndian(8, bootId)), a, 0, b[0]);
  }

  // ---- Structures and their bytes ----

  function Seal(body: seq<Byte>, padding: nat): (bytes: seq<Byte>)
    ensures |bytes| == |body| + 4 + padding
  {
    body + LittleEndian(4, Crc.Checksum(body)) + Zeros(padding)
  }

  /** The checksum stored after the body is the body's. */
  predicate Intact(bytes: seq<Byte>, body: nat)
    requires body + 4 <= |bytes|
  {
    Crc.Checksum(bytes[..body]) == U32(bytes[body..body + 4])
  }

  function MakeHeader(m: Metadata, sessionSequence: uint32, storageSequence: uint32, startTimeMs: uint32): FileHeader {
    FileHeader(FILE_MAGIC, 2, 0, LOG_SCHEMA_MAJOR, LOG_SCHEMA_MINOR, ENDIAN_MARKER, HEADER_SIZE, FRAME_SIZE,
               m.bootId, sessionSequence, storageSequence, startTimeMs, RunId(m.bootId, sessionSequence),
               m.robotIdHash, m.configHash, m.softwareIdentityHash,
               m.hardwareRevision, m.configSchema, m.calibrationRevision, m.hardwareVerification, m.dirtyBuild,
               m.robotId, m.softwareVersion, m.sourceCommit)
  }

  /** The header a verifier holds before it has read one. */
  const EMPTY_HEADER: FileHeader :=
    FileHeader(FILE_MAGIC, 2, 0, LOG_SCHEMA_MAJOR, LOG_SCHEMA_MINOR, ENDIAN_MARKER, HEADER_SIZE, FRAME_SIZE,
               0, 0, 0, 0, 0, 0, 0, 0, 0, 0, 0, 0, true, Zeros(16), Zeros(16), Zeros(41))

  function FormatFields(h: FileHeader): (fields: seq<seq<Byte>>)
    ensures HaveWidths(fields, FORMAT_WIDTHS)
  {
    [LittleEndian(4, h.magic), LittleEndian(2, h.formatMajor), LittleEndian(2, h.formatMinor),
     LittleEndian(2, h.logSchemaMajor), LittleEndian(2, h.logSchemaMinor), LittleEndian(4, h.endianMarker),
     LittleEndian(4, h.headerSize), LittleEndian(4, h.frameSize)]
  }

  function SessionFields(h: FileHeader): (fields: seq<seq<Byte>>)
    ensures HaveWidths(fields, SESSION_WIDTHS)
  {
    [LittleEndian(8, h.bootId), LittleEndian(4, h.sessionSequence), LittleEndian(4, h.storageSequence),
     LittleEndian(4, h.startTimeMs), LittleEndian(4, h.runIdHash), LittleEndian(4, h.robotIdHash),
     LittleEndian(4, h.configHash), LittleEndian(4, h.softwareIdentityHash), LittleEndian(4, h.hardwareRevision),
     LittleEndian(4, h.configSchema), LittleEndian(4, h.calibrationRevision)]
  }

  function TextFields(h: FileHeader): (fields: seq<seq<Byte>>)
    ensures HaveWidths(fields, TEXT_WIDTHS)
  {
    [[h.hardwareVerification], [if h.dirtyBuild then 1 else 0], Zeros(2),
     h.robotId, h.softwareVersion, h.sourceCommit, Zeros(3)]
  }

  lemma StructureSizes()
    ensures Sum(FORMAT_WIDTHS) == 24 && Sum(SESSION_WIDTHS) == 48 && Sum(TEXT_WIDTHS) == 80
    ensures Sum(BLOCK_WIDTHS) == BLOCK_BODY && Sum(FOOTER_WIDTHS) == FOOTER_BODY
  {
    SessionSize();
  }

  lemma SessionSize()
    ensures Sum(SESSION_WIDTHS) == 48
  {
    assert SESSION_WIDTHS[5..] == BLOCK_WIDTHS;
    SumFrom(SESSION_WIDTHS, 0, 5);
    assert SESSION_WIDTHS[0..] == SESSION_WIDTHS;
  }

  lemma {:induction false} SumFrom(widths: seq<nat>, i: nat, j: nat)
    requires i <= j <= |widths|
    ensures Sum(widths[i..]) == Sum(widths[i..j]) + Sum(widths[j..])
    decreases j - i
  {
    if i < j {
      SumFrom(widths, i + 1, j);
      assert widths[i..][1..] == widths[i + 1..] && widths[i..j][1..] == widths[i + 1..j];
    }
  }

  function HeaderBody(h: FileHeader): (body: seq<Byte>)
    ensures |body| == HEADER_BODY
  {
    StructureSizes();
    FieldsOfFlatten(FormatFields(h), FORMAT_WIDTHS);
    FieldsOfFlatten(SessionFields(h), SESSION_WIDTHS);
    FieldsOfFlatten(TextFields(h), TEXT_WIDTHS);
    Flatten(FormatFields(h)) + Flatten(SessionFields(h)) + Flatten(TextFields(h))
  }

  function HeaderBytes(h: FileHeader): (bytes: seq<Byte>)
    ensures |bytes| == HEADER_SIZE
  {
    Seal(HeaderBody(h), 4)
  }

  function HeaderOf(bytes: seq<Byte>): FileHeader
    requires |bytes| == HEADER_SIZE
  {
    StructureSizes();
    var f := Fields(FORMAT_WIDTHS, bytes[..24]);
    var s := Fields(SESSION_WIDTHS, bytes[24..72]);
    var t := Fields(TEXT_WIDTHS, bytes[72..152]);
    HeaderOfFields(f, s, t)
  }

  function HeaderOfFields(f: seq<seq<Byte>>, s: seq<seq<Byte>>, t: seq<seq<Byte>>): FileHeader
    requires HaveWidths(f, FORMAT_WIDTHS) && HaveWidths(s, SESSION_WIDTHS) && HaveWidths(t, TEXT_WIDTHS)
  {
    FileHeader(U32(f[0]), U16(f[1]), U16(f[2]), U16(f[3]), U16(f[4]), U32(f[5]), U32(f[6]), U32(f[7]),
               U64(s[0]), U32(s[1]), U32(s[2]), U32(s[3]), U32(s[4]), U32(s[5]), U32(s[6]), U32(s[7]),
               U32(s[8]), U32(s[9]), U32(s[10]), t[0][0], t[1][0] != 0, t[3], t[4], t[5])
  }

  lemma SealIsIntact(body: seq<Byte>, padding: nat)
    ensures Seal(body, padding)[..|body|] == body
    ensures Intact(Seal(body, padding), |body|)
  {
    var bytes := Seal(body, padding);
    assert bytes[|body|..|body| + 4] == LittleEndian(4, Crc.Checksum(body));
    U32RoundTrip(Crc.Checksum(body));
  }

  lemma ThreeParts(f: seq<Byte>, s: seq<Byte>, t: seq<Byte>, bytes: seq<Byte>)
    requires |f| == 24 && |s| == 48 && |t| == 80 && |bytes| >= 152 && bytes[..152] == f + s + t
    ensures bytes[..24] == f && bytes[24..72] == s && bytes[72..152] == t
  {
    assert bytes[..24] == bytes[..152][..24];
    assert bytes[24..72] == bytes[..152][24..72];
    assert bytes[72..152] == bytes[..152][72..];
  }

  lemma HeaderOfOwnFields(h: FileHeader)
    ensures HeaderOfFields(FormatFields(h), SessionFields(h), TextFields(h)) == h
  {
    NumbersRoundTrip();
  }

  lemma HeaderRoundTrip(h: FileHeader)
    ensures HeaderOf(HeaderBytes(h)) == h
    ensures Intact(HeaderBytes(h), HEADER_BODY)
  {
    hide Crc.Checksum;
    StructureSizes();
    SealIsIntact(HeaderBody(h), 4);
    FieldsOfFlatten(FormatFields(h), FORMAT_WIDTHS);
    FieldsOfFlatten(SessionFields(h), SESSION_WIDTHS);
    FieldsOfFlatten(TextFields(h), TEXT_WIDTHS);
    ThreeParts(Flatten(FormatFields(h)), Flatten(SessionFields(h)), Flatten(TextFields(h)), HeaderBytes(h));
    HeaderOfOwnFields(h);
  }

  function BlockFields(b: BlockHeader): (fields: seq<seq<Byte>>)
    ensures HaveWidths(fields, BLOCK_WIDTHS)
  {
    [LittleEndian(4, BLOCK_MAGIC), LittleEndian(4, b.blockSequence), LittleEndian(4, b.firstFrameSequence),
     LittleEndian(4, b.frameCount), LittleEndian(4, b.payloadBytes), LittleEndian(4, b.payloadCrc)]
  }

  function BlockBody(b: BlockHeader): (body: seq<Byte>)
    ensures |body| == BLOCK_BODY
  {
    StructureSizes();
    FieldsOfFlatten(BlockFields(b), BLOCK_WIDTHS);
    Flatten(BlockFields(b))
  }

  function BlockHeaderBytes(b: BlockHeader): (bytes: seq<Byte>)
    ensures |bytes| == BLOCK_SIZE
  {
    Seal(BlockBody(b), 0)
  }

  function BlockHeaderOf(bytes: seq<Byte>): BlockHeader
    requires |bytes| == BLOCK_SIZE
  {
    StructureSizes();
    BlockHeaderOfFields(Fields(BLOCK_WIDTHS, bytes[..BLOCK_BODY]))
  }

  function BlockHeaderOfFields(f: seq<seq<Byte>>): BlockHeader
    requires HaveWidths(f, BLOCK_WIDTHS)
  {
    BlockHeader(U32(f[1]), U32(f[2]), U32(f[3]), U32(f[4]), U32(f[5]))
  }

  lemma BlockHeaderRoundTrip(b: BlockHeader)
    ensures BlockHeaderOf(BlockHeaderBytes(b)) == b
    ensures U32(BlockHeaderBytes(b)[..4]) == BLOCK_MAGIC
    ensures Intact(BlockHeaderBytes(b), BLOCK_BODY)
  {
    hide Crc.Checksum;
    StructureSizes();
    SealIsIntact(BlockBody(b), 0);
    FieldsOfFlatten(BlockFields(b), BLOCK_WIDTHS);
    BlockHeaderOfOwnFields(b);
    assert BlockHeaderBytes(b)[..4] == BlockBody(b)[..4] == BlockFields(b)[0];
    U32RoundTrip(BLOCK_MAGIC);
  }

  lemma BlockHeaderOfOwnFields(b: BlockHeader)
    ensures BlockHeaderOfFields(BlockFields(b)) == b
  {
    NumbersRoundTrip();
  }

  function FooterFields(f: FileFooter): (fields: seq<seq<Byte>>)
    ensures HaveWidths(fields, FOOTER_WIDTHS)
  {
    [LittleEndian(4, FOOTER_MAGIC), LittleEndian(4, f.totalFrames), LittleEndian(4, f.firstFrameSequence),
     LittleEndian(4, f.lastFrameSequence), LittleEndian(8, f.firstTimeUs), LittleEndian(8, f.lastTimeUs),
     LittleEndian(4, f.producerDrops), LittleEndian(4, f.blockCount)]
  }

  function FooterBody(f: FileFooter): (body: seq<Byte>)
    ensures |body| == FOOTER_BODY
  {
    StructureSizes();
    FieldsOfFlatten(FooterFields(f), FOOTER_WIDTHS);
    Flatten(FooterFields(f))
  }

  function FooterBytes(f: FileFooter): (bytes: seq<Byte>)
    ensures |bytes| == FOOTER_SIZE
  {
    Seal(FooterBody(f), 4)
  }

  function FooterOf(bytes: seq<Byte>): FileFooter
    requires |bytes| == FOOTER_SIZE
  {
    StructureSizes();
    FooterOfFields(Fields(FOOTER_WIDTHS, bytes[..FOOTER_BODY]))
  }

  function FooterOfFields(f: seq<seq<Byte>>): FileFooter
    requires HaveWidths(f, FOOTER_WIDTHS)
  {
    FileFooter(U32(f[1]), U32(f[2]), U32(f[3]), U64(f[4]), U64(f[5]), U32(f[6]), U32(f[7]))
  }

  lemma FooterRoundTrip(f: FileFooter)
    ensures FooterOf(FooterBytes(f)) == f
    ensures U32(FooterBytes(f)[..4]) == FOOTER_MAGIC
    ensures Intact(FooterBytes(f), FOOTER_BODY)
  {
    hide Crc.Checksum;
    StructureSizes();
    SealIsIntact(FooterBody(f), 4);
    FieldsOfFlatten(FooterFields(f), FOOTER_WIDTHS);
    FooterOfOwnFields(f);
    assert FooterBytes(f)[..4] == FooterBody(f)[..4] == FooterFields(f)[0];
    U32RoundTrip(FOOTER_MAGIC);
  }

  lemma FooterOfOwnFields(f: FileFooter)
    ensures FooterOfFields(FooterFields(f)) == f
  {
    NumbersRoundTrip();
  }

  /** A structure is intact exactly if its body and checksum together leave the residue. */
  lemma IntactResidue(bytes: seq<Byte>, body: nat)
    requires body + 4 <= |bytes|
    ensures Intact(bytes, body) <==> Crc.Update(Crc.INITIAL, bytes[..body + 4]) == CrcBursts.RESIDUE
  {
    hide Crc.Update, Crc.Complement, U32;
    var data, stored := bytes[..body], bytes[body..body + 4];
    assert bytes[..body + 4] == data + stored;
    Crc.UpdateConcat(Crc.INITIAL, data, stored);
    CrcBursts.ResidueOfChecksum(Crc.Update(Crc.INITIAL, data), stored);
  }

  /** Any change confined to four consecutive bytes of a structure, in its body, in its stored checksum or
      across both, is noticed, unless it is in the padding alone. */
  lemma BurstBreaksSeal(bytes: seq<Byte>, changed: seq<Byte>, body: nat, i: nat)
    requires body + 4 <= |bytes| && CrcBursts.SameBut(bytes, changed, i)
    requires Intact(bytes, body)
    ensures Intact(changed, body) <==> changed[..body + 4] == bytes[..body + 4]
  {
    hide Intact, Crc.Update, CrcBursts.Churn, CrcBursts.SameBut;
    CrcBursts.SameButSlice(bytes, changed, i, 0, body + 4);
    IntactResidue(bytes, body);
    IntactResidue(changed, body);
    var sealed, other := bytes[..body + 4], changed[..body + 4];
    assert sealed == bytes[0..body + 4] && other == changed[0..body + 4];
    if other != sealed {
      CrcBursts.BurstChangesUpdate(Crc.INITIAL, sealed, other, i);
    }
  }

  /** A changed byte in the body or in the stored checksum is noticed; one in the padding is not. */
  lemma OneByteBreaksSeal(bytes: seq<Byte>, body: nat, i: nat, b: Byte)
    requires body + 4 <= |bytes| && i < |bytes| && b != bytes[i]
    requires Intact(bytes, body)
    ensures Intact(bytes[i := b], body) <==> i >= body + 4
    ensures i >= body + 4 ==> bytes[i := b][..body + 4] == bytes[..body + 4]
  {
    hide Intact;
    var changed := bytes[i := b];
    BurstBreaksSeal(bytes, changed, body, i);
    if i < body + 4 {
      assert changed[..body + 4][i] != bytes[..body + 4][i];
    } else {
      assert changed[..body + 4] == bytes[..body + 4];
    }
  }
}
