/** Where in a recording's structures each field lies: the offsets of the structures of
    include/robot/telemetry/recording_file.hpp, for any bytes. */
module RecordingLayout {
  import opened Bytes
  import opened RecordingFile

  function Offset(widths: seq<nat>, i: nat): nat
    requires i <= |widths|
  {
    if i == 0 then 0 else Offset(widths, i - 1) + widths[i - 1]
  }

  lemma {:induction false} OffsetOfTail(widths: seq<nat>, i: nat)
    requires i < |widths|
    ensures Offset(widths, i + 1) == widths[0] + Offset(widths[1..], i)
  {
    if i > 0 {
      OffsetOfTail(widths, i - 1);
    }
  }

  lemma {:induction false} FieldAt(widths: seq<nat>, bytes: seq<Byte>, i: nat)
    requires |bytes| == Sum(widths) && i < |widths|
    ensures var from := Offset(widths, i);
            from + widths[i] <= |bytes| && Fields(widths, bytes)[i] == bytes[from..from + widths[i]]
    decreases i
  {
    if i > 0 {
      OffsetOfTail(widths, i - 1);
      FieldAt(widths[1..], bytes[widths[0]..], i - 1);
    }
  }

  lemma FormatOffsets()
    ensures forall i :: 0 <= i < 8 ==> Offset(FORMAT_WIDTHS, i) == [0, 4, 6, 8, 10, 12, 16, 20][i]
  {
    var w := FORMAT_WIDTHS;
    assert Offset(w, 2) == 6;
    assert Offset(w, 4) == 10;
    assert Offset(w, 6) == 16;
  }

  lemma SessionOffsets()
    ensures forall i :: 0 <= i < 11 ==> Offset(SESSION_WIDTHS, i) == [0, 8, 12, 16, 20, 24, 28, 32, 36, 40, 44][i]
  {
    var w := SESSION_WIDTHS;
    assert Offset(w, 2) == 12;
    assert Offset(w, 4) == 20;
    assert Offset(w, 6) == 28;
    assert Offset(w, 8) == 36;
  }

  lemma TextOffsets()
    ensures forall i :: 0 <= i < 7 ==> Offset(TEXT_WIDTHS, i) == [0, 1, 2, 4, 20, 36, 77][i]
  {
    var w := TEXT_WIDTHS;
    assert Offset(w, 2) == 2;
    assert Offset(w, 4) == 20;
  }

  lemma SmallOffsets()
    ensures forall i :: 0 <= i < 6 ==> Offset(BLOCK_WIDTHS, i) == [0, 4, 8, 12, 16, 20][i]
    ensures forall i :: 0 <= i < 8 ==> Offset(FOOTER_WIDTHS, i) == [0, 4, 8, 12, 16, 24, 32, 36][i]
  {
    assert Offset(BLOCK_WIDTHS, 2) == 8;
    assert Offset(BLOCK_WIDTHS, 4) == 16;
    assert Offset(FOOTER_WIDTHS, 2) == 8;
    assert Offset(FOOTER_WIDTHS, 4) == 16;
    assert Offset(FOOTER_WIDTHS, 6) == 32;
  }

  /** A field of a part of a structure, by its place in the whole. */
  lemma PartField(widths: seq<nat>, bytes: seq<Byte>, from: nat, to: nat, i: nat)
    requires from <= to <= |bytes| && to - from == Sum(widths) && i < |widths|
    ensures var at := from + Offset(widths, i);
            at + widths[i] <= to && Fields(widths, bytes[from..to])[i] == bytes[at..at + widths[i]]
  {
    hide Offset, Sum, Fields;
    FieldAt(widths, bytes[from..to], i);
    SliceOfSlice(bytes, from, to, Offset(widths, i), Offset(widths, i) + widths[i]);
  }

  lemma FormatLayout(bytes: seq<Byte>)
    requires |bytes| == HEADER_SIZE
    ensures Sum(FORMAT_WIDTHS) == 24
    ensures Fields(FORMAT_WIDTHS, bytes[0..24])
         == [bytes[0..4], bytes[4..6], bytes[6..8], bytes[8..10], bytes[10..12], bytes[12..16], bytes[16..20],
             bytes[20..24]]
  {
    hide Sum, Fields, Offset;
    StructureSizes();
    FormatOffsets();
    forall i | 0 <= i < 8
      ensures var at := Offset(FORMAT_WIDTHS, i);
              at + FORMAT_WIDTHS[i] <= 24
              && Fields(FORMAT_WIDTHS, bytes[0..24])[i] == bytes[at..at + FORMAT_WIDTHS[i]]
    {
      PartField(FORMAT_WIDTHS, bytes, 0, 24, i);
    }
  }

  lemma SessionLayout(bytes: seq<Byte>)
    requires |bytes| == HEADER_SIZE
    ensures Sum(SESSION_WIDTHS) == 48
    ensures Fields(SESSION_WIDTHS, bytes[24..72])
         == [bytes[24..32], bytes[32..36], bytes[36..40], bytes[40..44], bytes[44..48], bytes[48..52],
             bytes[52..56], bytes[56..60], bytes[60..64], bytes[64..68], bytes[68..72]]
  {
    hide Sum, Fields, Offset;
    StructureSizes();
    SessionOffsets();
    forall i | 0 <= i < 11
      ensures var at := 24 + Offset(SESSION_WIDTHS, i);
              at + SESSION_WIDTHS[i] <= 72
              && Fields(SESSION_WIDTHS, bytes[24..72])[i] == bytes[at..at + SESSION_WIDTHS[i]]
    {
      PartField(SESSION_WIDTHS, bytes, 24, 72, i);
    }
  }

  lemma TextLayout(bytes: seq<Byte>)
    requires |bytes| == HEADER_SIZE
    ensures Sum(TEXT_WIDTHS) == 80
    ensures Fields(TEXT_WIDTHS, bytes[72..152])
         == [bytes[72..73], bytes[73..74], bytes[74..76], bytes[76..92], bytes[92..108], bytes[108..149],
             bytes[149..152]]
  {
    hide Sum, Fields, Offset;
    StructureSizes();
    TextOffsets();
    forall i | 0 <= i < 7
      ensures var at := 72 + Offset(TEXT_WIDTHS, i);
              at + TEXT_WIDTHS[i] <= 152
              && Fields(TEXT_WIDTHS, bytes[72..152])[i] == bytes[at..at + TEXT_WIDTHS[i]]
    {
      PartField(TEXT_WIDTHS, bytes, 72, 152, i);
    }
  }

  lemma BlockParts(bytes: seq<Byte>)
    requires |bytes| == BLOCK_SIZE
    ensures Sum(BLOCK_WIDTHS) == 24
    ensures Fields(BLOCK_WIDTHS, bytes[0..24])
         == [bytes[0..4], bytes[4..8], bytes[8..12], bytes[12..16], bytes[16..20], bytes[20..24]]
  {
    hide Sum, Fields, Offset;
    StructureSizes();
    SmallOffsets();
    forall i | 0 <= i < 6
      ensures var at := Offset(BLOCK_WIDTHS, i);
              at + BLOCK_WIDTHS[i] <= 24
              && Fields(BLOCK_WIDTHS, bytes[0..24])[i] == bytes[at..at + BLOCK_WIDTHS[i]]
    {
      PartField(BLOCK_WIDTHS, bytes, 0, 24, i);
    }
  }

  lemma FooterParts(bytes: seq<Byte>)
    requires |bytes| == FOOTER_SIZE
    ensures Sum(FOOTER_WIDTHS) == 40
    ensures Fields(FOOTER_WIDTHS, bytes[0..40])
         == [bytes[0..4], bytes[4..8], bytes[8..12], bytes[12..16], bytes[16..24], bytes[24..32], bytes[32..36],
             bytes[36..40]]
  {
    hide Sum, Fields, Offset;
    StructureSizes();
    SmallOffsets();
    forall i | 0 <= i < 8
      ensures var at := Offset(FOOTER_WIDTHS, i);
              at + FOOTER_WIDTHS[i] <= 40
              && Fields(FOOTER_WIDTHS, bytes[0..40])[i] == bytes[at..at + FOOTER_WIDTHS[i]]
    {
      PartField(FOOTER_WIDTHS, bytes, 0, 40, i);
    }
  }

  /** Where a header's numbers and texts lie in its bytes. */
  lemma HeaderLayout(bytes: seq<Byte>)
    requires |bytes| == HEADER_SIZE
    ensures var h := HeaderOf(bytes);
            && h.magic == U32(bytes[0..4]) && h.formatMajor == U16(bytes[4..6]) && h.formatMinor == U16(bytes[6..8])
            && h.logSchemaMajor == U16(bytes[8..10]) && h.logSchemaMinor == U16(bytes[10..12])
            && h.endianMarker == U32(bytes[12..16]) && h.headerSize == U32(bytes[16..20])
            && h.frameSize == U32(bytes[20..24]) && h.bootId == U64(bytes[24..32])
            && h.sessionSequence == U32(bytes[32..36]) && h.storageSequence == U32(bytes[36..40])
            && h.startTimeMs == U32(bytes[40..44]) && h.runIdHash == U32(bytes[44..48])
            && h.robotIdHash == U32(bytes[48..52]) && h.configHash == U32(bytes[52..56])
            && h.softwareIdentityHash == U32(bytes[56..60]) && h.hardwareRevision == U32(bytes[60..64])
            && h.configSchema == U32(bytes[64..68]) && h.calibrationRevision == U32(bytes[68..72])
            && h.hardwareVerification == bytes[72] && h.dirtyBuild == (bytes[73] != 0)
            && h.robotId == bytes[76..92] && h.softwareVersion == bytes[92..108] && h.sourceCommit == bytes[108..149]
  {
    hide Fields, Sum, U16, U32, U64;
    FormatLayout(bytes);
    SessionLayout(bytes);
    TextLayout(bytes);
    assert bytes[..24] == bytes[0..24];
  }

  lemma BlockLayout(bytes: seq<Byte>)
    requires |bytes| == BLOCK_SIZE
    ensures var b := BlockHeaderOf(bytes);
            && b.blockSequence == U32(bytes[4..8]) && b.firstFrameSequence == U32(bytes[8..12])
            && b.frameCount == U32(bytes[12..16]) && b.payloadBytes == U32(bytes[16..20])
            && b.payloadCrc == U32(bytes[20..24])
  {
    hide Fields, Sum, U32;
    BlockParts(bytes);
    assert bytes[..BLOCK_BODY] == bytes[0..24];
  }

  lemma FooterLayout(bytes: seq<Byte>)
    requires |bytes| == FOOTER_SIZE
    ensures var f := FooterOf(bytes);
            && f.totalFrames == U32(bytes[4..8]) && f.firstFrameSequence == U32(bytes[8..12])
            && f.lastFrameSequence == U32(bytes[12..16]) && f.firstTimeUs == U64(bytes[16..24])
            && f.lastTimeUs == U64(bytes[24..32]) && f.producerDrops == U32(bytes[32..36])
            && f.blockCount == U32(bytes[36..40])
  {
    hide Fields, Sum, U32, U64;
    FooterParts(bytes);
    assert bytes[..FOOTER_BODY] == bytes[0..40];
  }
}
