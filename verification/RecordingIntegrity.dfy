/** What verification detects: refused reads and changed bytes, in any file whatever. */
module RecordingIntegrity {
  import opened Bytes
  import opened RecordingFile
  import opened RecordingVerifier
  import Crc
  import CrcBursts

  // ---- Refused reads ----

  lemma {:induction false} ScanDespiteRefusals(reader: Reader, p: Progress, at: nat, count: nat, crc: bv32)
    requires ScanPayload(reader, p, at, count, crc).Scanned?
    ensures ScanPayload(InMemory(reader.data), p, at, count, crc) == ScanPayload(reader, p, at, count, crc)
    decreases count
  {
    hide ObserveFrame, GoodFrame, Crc.Update;
    if count != 0 {
      var frame := reader.Read(at, FRAME_SIZE).value;
      ScanDespiteRefusals(reader, ObserveFrame(p, frame), at + FRAME_SIZE, count - 1, Crc.Update(crc, frame));
    }
  }

  lemma {:induction false} WalkDespiteRefusals(reader: Reader, p: Progress)
    requires VerifyBlocks(reader, p).complete && !p.report.complete
    ensures VerifyBlocks(InMemory(reader.data), p) == VerifyBlocks(reader, p)
    decreases |reader.data| - p.offset
  {
    hide AcceptableBlock, BlockHeaderOf, CheckFooter, Intact, FooterOf, U32, ScanPayload, Crc.Complement;
    var word := reader.Read(p.offset, 4);
    if word.Some? && U32(word.value) == BLOCK_MAGIC {
      var bytes := reader.Read(p.offset, BLOCK_SIZE).value;
      var block := BlockHeaderOf(bytes);
      var payload := p.offset + BLOCK_SIZE;
      ScanKeepsPlace(reader, p, payload, block.frameCount, Crc.INITIAL);
      var scan := ScanPayload(reader, p, payload, block.frameCount, Crc.INITIAL);
      ScanDespiteRefusals(reader, p, payload, block.frameCount, Crc.INITIAL);
      WalkDespiteRefusals(reader, PassBlock(scan.progress, block));
    }
  }

  /** A read that fails never makes a recording pass: whatever a faulty file is reported complete,
      its bytes alone are reported the same. */
  lemma RefusalsNeverComplete(reader: Reader)
    requires Verify(reader).complete
    ensures Verify(InMemory(reader.data)) == Verify(reader)
  {
    hide VerifyBlocks, HeaderOf, Intact, SupportedFormat;
    var bytes := reader.Read(0, HEADER_SIZE).value;
    WalkDespiteRefusals(reader, StartOfBlocks(HeaderOf(bytes)));
  }

  // ---- Changed bytes ----

  lemma {:induction false} ScanChecksum(data: seq<Byte>, p: Progress, at: nat, count: nat, crc: bv32)
    requires ScanPayload(InMemory(data), p, at, count, crc).Scanned?
    ensures at + FRAME_SIZE * count <= |data| || count == 0
    ensures count != 0 ==>
              ScanPayload(InMemory(data), p, at, count, crc).crc == Crc.Update(crc, data[at..at + FRAME_SIZE * count])
    decreases count
  {
    hide ObserveFrame, GoodFrame, Crc.Update;
    if count != 0 {
      var frame := data[at..at + FRAME_SIZE];
      assert InMemory(data).Read(at, FRAME_SIZE) == Some(frame);
      ScanChecksum(data, ObserveFrame(p, frame), at + FRAME_SIZE, count - 1, Crc.Update(crc, frame));
      if count == 1 {
        assert FRAME_SIZE * count == FRAME_SIZE;
      } else {
        var rest := data[at + FRAME_SIZE..at + FRAME_SIZE + FRAME_SIZE * (count - 1)];
        assert data[at..at + FRAME_SIZE * count] == frame + rest;
        Crc.UpdateConcat(crc, frame, rest);
      }
    }
  }

  /** The scan looks at its own stretch of the data only. */
  lemma {:induction false} ScanElsewhere(data: seq<Byte>, other: seq<Byte>, p: Progress, at: nat, count: nat, crc: bv32)
    requires |other| == |data| && at + FRAME_SIZE * count <= |data|
    requires other[at..at + FRAME_SIZE * count] == data[at..at + FRAME_SIZE * count]
    ensures ScanPayload(InMemory(other), p, at, count, crc) == ScanPayload(InMemory(data), p, at, count, crc)
    decreases count
  {
    hide ObserveFrame, GoodFrame, Crc.Update;
    if count != 0 {
      var here := data[at..at + FRAME_SIZE * count];
      var next := at + FRAME_SIZE;
      var frame := data[at..next];
      assert other[at..next] == other[at..at + FRAME_SIZE * count][..FRAME_SIZE] == here[..FRAME_SIZE] == frame;
      assert other[next..next + FRAME_SIZE * (count - 1)]
           == here[FRAME_SIZE..] == data[next..next + FRAME_SIZE * (count - 1)];
      ScanElsewhere(data, other, ObserveFrame(p, frame), next, count - 1, Crc.Update(crc, frame));
    }
  }

  lemma InMemoryReads(data: seq<Byte>, offset: nat, size: nat)
    requires offset + size <= |data|
    ensures InMemory(data).Read(offset, size) == Some(data[offset..offset + size])
  {
  }

  /** A footer's contents are those of its body. */
  lemma FooterOfBody(bytes: seq<Byte>, other: seq<Byte>)
    requires |bytes| == |other| == FOOTER_SIZE && bytes[..FOOTER_BODY + 4] == other[..FOOTER_BODY + 4]
    ensures FooterOf(bytes) == FooterOf(other)
  {
    hide FooterOfFields, Fields;
    assert bytes[..FOOTER_BODY] == bytes[..FOOTER_BODY + 4][..FOOTER_BODY];
    assert other[..FOOTER_BODY] == other[..FOOTER_BODY + 4][..FOOTER_BODY];
  }

  /** A changed footer is noticed, even one that now starts as a block does: nothing follows it. */
  lemma ChangedFooter(data: seq<Byte>, other: seq<Byte>, p: Progress, i: nat)
    requires CrcBursts.SameBut(data, other, i) && |data| == p.offset + FOOTER_SIZE && !p.report.complete
    requires Intact(data[p.offset..], FOOTER_BODY)
    requires other[p.offset..|data| - 4] != data[p.offset..|data| - 4]
    ensures !VerifyBlocks(InMemory(other), p).complete
  {
    hide BlockHeaderOf, CheckFooter, Intact, FooterOf, U32, ScanPayload;
    var bytes, changed := data[p.offset..|data|], other[p.offset..|data|];
    assert bytes == data[p.offset..];
    assert bytes[..FOOTER_BODY + 4] == data[p.offset..|data| - 4];
    assert changed[..FOOTER_BODY + 4] == other[p.offset..|data| - 4];
    CrcBursts.SameButSlice(data, other, i, p.offset, |data|);
    BurstBreaksSeal(bytes, changed, FOOTER_BODY, if i < p.offset then 0 else i - p.offset);
    InMemoryReads(other, p.offset, 4);
    InMemoryReads(other, p.offset, BLOCK_SIZE);
    InMemoryReads(other, p.offset, FOOTER_SIZE);
  }

  lemma ChangedFooterPadding(data: seq<Byte>, other: seq<Byte>, p: Progress)
    requires |other| == |data| == p.offset + FOOTER_SIZE
    requires U32(data[p.offset..p.offset + 4]) == FOOTER_MAGIC
    requires other[p.offset..|data| - 4] == data[p.offset..|data| - 4]
    ensures VerifyBlocks(InMemory(other), p) == VerifyBlocks(InMemory(data), p)
  {
    hide AcceptableBlock, BlockHeaderOf, CheckFooter, Crc.Checksum, FooterOf, U32, ScanPayload;
    var bytes, changed := data[p.offset..p.offset + FOOTER_SIZE], other[p.offset..p.offset + FOOTER_SIZE];
    var sealed := data[p.offset..|data| - 4];
    assert bytes[..FOOTER_BODY + 4] == sealed == changed[..FOOTER_BODY + 4];
    assert data[p.offset..p.offset + 4] == sealed[..4] == other[p.offset..p.offset + 4];
    assert bytes[..FOOTER_BODY] == sealed[..FOOTER_BODY] == changed[..FOOTER_BODY];
    assert bytes[FOOTER_BODY..FOOTER_BODY + 4] == sealed[FOOTER_BODY..] == changed[FOOTER_BODY..FOOTER_BODY + 4];
    InMemoryReads(data, p.offset, 4);
    InMemoryReads(data, p.offset, FOOTER_SIZE);
    InMemoryReads(other, p.offset, 4);
    InMemoryReads(other, p.offset, FOOTER_SIZE);
    FooterOfBody(bytes, changed);
  }

  /** What a block that passes must satisfy. */
  ghost predicate PassingBlock(data: seq<Byte>, p: Progress, block: BlockHeader, scan: PayloadScan) {
    && p.offset + BLOCK_SIZE <= |data|
    && U32(data[p.offset..p.offset + 4]) == BLOCK_MAGIC
    && AcceptableBlock(data[p.offset..p.offset + BLOCK_SIZE], p.expectedBlock)
    && block == BlockHeaderOf(data[p.offset..p.offset + BLOCK_SIZE])
    && p.offset + BLOCK_SIZE + block.payloadBytes <= |data|
    && scan == ScanPayload(InMemory(data), p, p.offset + BLOCK_SIZE, block.frameCount, Crc.INITIAL)
    && scan.Scanned?
    && Crc.Complement(scan.crc) == block.payloadCrc
  }

  lemma BlockOfCompleteFile(data: seq<Byte>, p: Progress) returns (block: BlockHeader, scan: PayloadScan)
    requires VerifyBlocks(InMemory(data), p).complete && !p.report.complete
    requires p.offset + 4 <= |data| && U32(data[p.offset..p.offset + 4]) == BLOCK_MAGIC
    ensures PassingBlock(data, p, block, scan)
    ensures VerifyBlocks(InMemory(data), p) == VerifyBlocks(InMemory(data), PassBlock(scan.progress, block))
    ensures PassBlock(scan.progress, block).offset == p.offset + BLOCK_SIZE + block.payloadBytes
    ensures !PassBlock(scan.progress, block).report.complete
  {
    hide CheckFooter, FooterOf, U32, ScanPayload, AcceptableBlock, BlockHeaderOf, Crc.Complement;
    InMemoryReads(data, p.offset, 4);
    assert |data| - p.offset >= BLOCK_SIZE;
    InMemoryReads(data, p.offset, BLOCK_SIZE);
    block := BlockHeaderOf(data[p.offset..p.offset + BLOCK_SIZE]);
    scan := ScanPayload(InMemory(data), p, p.offset + BLOCK_SIZE, block.frameCount, Crc.INITIAL);
    ScanKeepsPlace(InMemory(data), p, p.offset + BLOCK_SIZE, block.frameCount, Crc.INITIAL);
  }

  lemma FooterOfCompleteFile(data: seq<Byte>, p: Progress)
    requires VerifyBlocks(InMemory(data), p).complete && !p.report.complete
    ensures p.offset + 4 <= |data|
    ensures var word := U32(data[p.offset..p.offset + 4]);
            word == BLOCK_MAGIC
            || (word == FOOTER_MAGIC && |data| == p.offset + FOOTER_SIZE && Intact(data[p.offset..], FOOTER_BODY))
  {
    hide FooterOf, U32, ScanPayload, AcceptableBlock, BlockHeaderOf, Intact;
    assert p.offset + 4 <= |data|;
    InMemoryReads(data, p.offset, 4);
    if U32(data[p.offset..p.offset + 4]) != BLOCK_MAGIC {
      assert p.offset + FOOTER_SIZE <= |data|;
      InMemoryReads(data, p.offset, FOOTER_SIZE);
      assert |data| == p.offset + FOOTER_SIZE;
      assert data[p.offset..p.offset + FOOTER_SIZE] == data[p.offset..];
    }
  }

  /** A changed block header is noticed, even one that now starts as a footer does: its payload follows. */
  lemma ChangedBlockHeader(data: seq<Byte>, other: seq<Byte>, p: Progress, block: BlockHeader, scan: PayloadScan,
                           i: nat)
    requires PassingBlock(data, p, block, scan) && CrcBursts.SameBut(data, other, i) && !p.report.complete
    requires other[p.offset..p.offset + BLOCK_SIZE] != data[p.offset..p.offset + BLOCK_SIZE]
    ensures !VerifyBlocks(InMemory(other), p).complete
  {
    hide BlockHeaderOf, WithFooterFaults, Completes, FooterAgrees, Intact, FooterOf, U32, ScanPayload;
    PassingBlockSize(data, p, block, scan);
    var bytes, changed := data[p.offset..p.offset + BLOCK_SIZE], other[p.offset..p.offset + BLOCK_SIZE];
    assert bytes[..BLOCK_BODY + 4] == bytes && changed[..BLOCK_BODY + 4] == changed;
    CrcBursts.SameButSlice(data, other, i, p.offset, p.offset + BLOCK_SIZE);
    BurstBreaksSeal(bytes, changed, BLOCK_BODY, if i < p.offset then 0 else i - p.offset);
    InMemoryReads(other, p.offset, 4);
    InMemoryReads(other, p.offset, BLOCK_SIZE);
    InMemoryReads(other, p.offset, FOOTER_SIZE);
  }

  lemma ChangedPayloadChecksum(data: seq<Byte>, other: seq<Byte>, p: Progress, block: BlockHeader, scan: PayloadScan,
                               i: nat)
    requires PassingBlock(data, p, block, scan) && CrcBursts.SameBut(data, other, i)
    requires var payload, end := p.offset + BLOCK_SIZE, p.offset + BLOCK_SIZE + block.payloadBytes;
             other[payload..end] != data[payload..end]
    ensures var again := ScanPayload(InMemory(other), p, p.offset + BLOCK_SIZE, block.frameCount, Crc.INITIAL);
            again.Scanned? ==> Crc.Complement(again.crc) != block.payloadCrc
  {
    hide VerifyBlocks, U32, ScanPayload, AcceptableBlock, BlockHeaderOf, Crc.Complement, Crc.Update;
    var payload := p.offset + BLOCK_SIZE;
    var end := payload + block.payloadBytes;
    PassingBlockSize(data, p, block, scan);
    CrcBursts.SameButSlice(data, other, i, payload, end);
    if ScanPayload(InMemory(other), p, payload, block.frameCount, Crc.INITIAL).Scanned? {
      ScanChecksum(data, p, payload, block.frameCount, Crc.INITIAL);
      ScanChecksum(other, p, payload, block.frameCount, Crc.INITIAL);
      var bytes, changed := data[payload..end], other[payload..end];
      CrcBursts.BurstChangesChecksum(bytes, changed, if i < payload then 0 else i - payload);
      ChecksumIsComplement(bytes);
      ChecksumIsComplement(changed);
    }
  }

  lemma ChangedPayload(data: seq<Byte>, other: seq<Byte>, p: Progress, block: BlockHeader, scan: PayloadScan, i: nat)
    requires PassingBlock(data, p, block, scan) && CrcBursts.SameBut(data, other, i) && !p.report.complete
    requires other[p.offset..p.offset + BLOCK_SIZE] == data[p.offset..p.offset + BLOCK_SIZE]
    requires var payload, end := p.offset + BLOCK_SIZE, p.offset + BLOCK_SIZE + block.payloadBytes;
             other[payload..end] != data[payload..end]
    ensures !VerifyBlocks(InMemory(other), p).complete
  {
    hide FooterOf, U32, ScanPayload, AcceptableBlock, BlockHeaderOf, Crc.Complement, CheckFooter, Crc.Update;
    PassingBlockSize(data, p, block, scan);
    SameMagic(data, other, p.offset);
    InMemoryReads(other, p.offset, 4);
    InMemoryReads(other, p.offset, BLOCK_SIZE);
    ScanKeepsPlace(InMemory(other), p, p.offset + BLOCK_SIZE, block.frameCount, Crc.INITIAL);
    ChangedPayloadChecksum(data, other, p, block, scan, i);
  }

  lemma SameMagic(data: seq<Byte>, other: seq<Byte>, offset: nat)
    requires |other| == |data| >= offset + BLOCK_SIZE
    requires other[offset..offset + BLOCK_SIZE] == data[offset..offset + BLOCK_SIZE]
    ensures other[offset..offset + 4] == data[offset..offset + 4]
  {
    assert other[offset..offset + 4] == other[offset..offset + BLOCK_SIZE][..4];
    assert data[offset..offset + 4] == data[offset..offset + BLOCK_SIZE][..4];
  }

  lemma ChecksumIsComplement(bytes: seq<Byte>)
    ensures Crc.Checksum(bytes) == Crc.Complement(Crc.Update(Crc.INITIAL, bytes))
  {
    hide Crc.Complement, Crc.Update;
  }

  lemma PassingBlockSize(data: seq<Byte>, p: Progress, block: BlockHeader, scan: PayloadScan)
    requires PassingBlock(data, p, block, scan)
    ensures block.payloadBytes == FRAME_SIZE * block.frameCount && block.frameCount > 0
    ensures Intact(data[p.offset..p.offset + BLOCK_SIZE], BLOCK_BODY)
  {
    hide U32, ScanPayload, BlockHeaderOf, Intact, Crc.Complement;
  }

  lemma UnchangedBlock(data: seq<Byte>, other: seq<Byte>, p: Progress, block: BlockHeader, scan: PayloadScan)
    requires PassingBlock(data, p, block, scan) && |other| == |data|
    requires other[p.offset..p.offset + BLOCK_SIZE] == data[p.offset..p.offset + BLOCK_SIZE]
    requires var payload, end := p.offset + BLOCK_SIZE, p.offset + BLOCK_SIZE + block.payloadBytes;
             other[payload..end] == data[payload..end]
    ensures VerifyBlocks(InMemory(other), p) == VerifyBlocks(InMemory(other), PassBlock(scan.progress, block))
  {
    hide FooterOf, U32, ScanPayload, AcceptableBlock, BlockHeaderOf, Crc.Complement, CheckFooter;
    PassingBlockSize(data, p, block, scan);
    SameMagic(data, other, p.offset);
    InMemoryReads(other, p.offset, 4);
    InMemoryReads(other, p.offset, BLOCK_SIZE);
    ScanElsewhere(data, other, p, p.offset + BLOCK_SIZE, block.frameCount, Crc.INITIAL);
  }

  /** The data are the same from an offset on, up to the footer's padding. */
  ghost predicate SameFrom(data: seq<Byte>, other: seq<Byte>, from: nat) {
    |other| == |data| && forall k :: from <= k < |data| - 4 ==> other[k] == data[k]
  }

  /** The walk over changed data completes exactly if what it walks over is unchanged. */
  lemma {:induction false} ChangedWalk(data: seq<Byte>, other: seq<Byte>, p: Progress, i: nat)
    requires VerifyBlocks(InMemory(data), p).complete && !p.report.complete
    requires CrcBursts.SameBut(data, other, i)
    ensures VerifyBlocks(InMemory(other), p).complete <==> SameFrom(data, other, p.offset)
    ensures SameFrom(data, other, p.offset) ==> VerifyBlocks(InMemory(other), p) == VerifyBlocks(InMemory(data), p)
    decreases |data| - p.offset
  {
    hide VerifyBlocks, AcceptableBlock, BlockHeaderOf, FooterOf, U32, ScanPayload, Intact, PassBlock;
    FooterOfCompleteFile(data, p);
    if U32(data[p.offset..p.offset + 4]) == BLOCK_MAGIC {
      var block, scan := BlockOfCompleteFile(data, p);
      PassingBlockSize(data, p, block, scan);
      var next := PassBlock(scan.progress, block);
      CompleteFileHasFooter(data, next);
      var payload := p.offset + BLOCK_SIZE;
      if other[p.offset..payload] != data[p.offset..payload] {
        ChangedBlockHeader(data, other, p, block, scan, i);
        NotSameFrom(data, other, p.offset, payload);
      } else if other[payload..next.offset] != data[payload..next.offset] {
        ChangedPayload(data, other, p, block, scan, i);
        NotSameFrom(data, other, payload, next.offset);
      } else {
        UnchangedBlock(data, other, p, block, scan);
        ChangedWalk(data, other, next, i);
        SameUpTo(data, other, p.offset, payload);
        SameUpTo(data, other, payload, next.offset);
      }
    } else if other[p.offset..|data| - 4] != data[p.offset..|data| - 4] {
      ChangedFooter(data, other, p, i);
      NotSameFrom(data, other, p.offset, |data| - 4);
    } else {
      ChangedFooterPadding(data, other, p);
      SameUpTo(data, other, p.offset, |data| - 4);
    }
  }

  lemma NotSameFrom(data: seq<Byte>, other: seq<Byte>, from: nat, to: nat)
    requires |other| == |data| && from <= to <= |data| - 4 && other[from..to] != data[from..to]
    ensures forall k: nat :: k <= from ==> !SameFrom(data, other, k)
  {
  }

  lemma SameUpTo(data: seq<Byte>, other: seq<Byte>, from: nat, to: nat)
    requires |other| == |data| && from <= to <= |data| && other[from..to] == data[from..to]
    ensures SameFrom(data, other, from) <==> SameFrom(data, other, to)
  {
    forall k | from <= k < to ensures other[k] == data[k] {
      assert other[k] == other[from..to][k - from] && data[k] == data[from..to][k - from];
    }
  }

  /** The bytes no checksum covers: the padding that ends the header and the footer. */
  predicate IsPadding(size: nat, i: nat) {
    HEADER_BODY + 4 <= i < HEADER_SIZE || size - 4 <= i
  }

  lemma HeaderOfBody(bytes: seq<Byte>, other: seq<Byte>)
    requires |bytes| == |other| == HEADER_SIZE && bytes[..HEADER_BODY + 4] == other[..HEADER_BODY + 4]
    ensures HeaderOf(bytes) == HeaderOf(other)
  {
    hide HeaderOfFields, Fields;
    assert bytes[..24] == bytes[..HEADER_BODY + 4][..24] == other[..24];
    assert bytes[24..72] == bytes[..HEADER_BODY + 4][24..72] == other[24..72];
    assert bytes[72..152] == bytes[..HEADER_BODY + 4][72..152] == other[72..152];
  }

  lemma {:induction false} CompleteFileHasFooter(data: seq<Byte>, p: Progress)
    requires VerifyBlocks(InMemory(data), p).complete && !p.report.complete
    ensures |data| >= p.offset + FOOTER_SIZE
    decreases |data| - p.offset
  {
    hide VerifyBlocks, AcceptableBlock, BlockHeaderOf, FooterOf, U32, ScanPayload, Intact, PassBlock;
    FooterOfCompleteFile(data, p);
    if U32(data[p.offset..p.offset + 4]) == BLOCK_MAGIC {
      var block, scan := BlockOfCompleteFile(data, p);
      CompleteFileHasFooter(data, PassBlock(scan.progress, block));
    }
  }

  /** Whatever is changed, if anything, is padding. */
  ghost predicate OnlyPaddingChanged(data: seq<Byte>, other: seq<Byte>) {
    |other| == |data| && forall k :: 0 <= k < |data| && other[k] != data[k] ==> IsPadding(|data|, k)
  }

  lemma PaddingChanged(data: seq<Byte>, other: seq<Byte>)
    requires |other| == |data| >= HEADER_SIZE + FOOTER_SIZE
    ensures OnlyPaddingChanged(data, other)
       <==> other[..HEADER_BODY + 4] == data[..HEADER_BODY + 4] && SameFrom(data, other, HEADER_SIZE)
  {
    if other[..HEADER_BODY + 4] == data[..HEADER_BODY + 4] {
      forall k | 0 <= k < HEADER_BODY + 4 ensures other[k] == data[k] {
        assert other[k] == other[..HEADER_BODY + 4][k] && data[k] == data[..HEADER_BODY + 4][k];
      }
    }
  }

  /** In any file that verifies as complete, any change confined to four consecutive bytes, within one
      structure or across two, is detected exactly when it is not in the padding alone; and changed
      padding changes nothing in the report. */
  lemma OneBurstDetected(data: seq<Byte>, other: seq<Byte>, i: nat)
    requires Verify(InMemory(data)).complete && CrcBursts.SameBut(data, other, i)
    ensures Verify(InMemory(other)).complete <==> OnlyPaddingChanged(data, other)
    ensures OnlyPaddingChanged(data, other) ==> Verify(InMemory(other)) == Verify(InMemory(data))
  {
    hide VerifyBlocks, HeaderOf, Intact, SupportedFormat, OnlyPaddingChanged, SameFrom;
    InMemoryReads(data, 0, HEADER_SIZE);
    InMemoryReads(other, 0, HEADER_SIZE);
    var bytes, changed := data[0..HEADER_SIZE], other[0..HEADER_SIZE];
    var p := StartOfBlocks(HeaderOf(bytes));
    CompleteFileHasFooter(data, p);
    PaddingChanged(data, other);
    assert bytes[..HEADER_BODY + 4] == data[..HEADER_BODY + 4];
    assert changed[..HEADER_BODY + 4] == other[..HEADER_BODY + 4];
    CrcBursts.SameButSlice(data, other, i, 0, HEADER_SIZE);
    BurstBreaksSeal(bytes, changed, HEADER_BODY, i);
    if other[..HEADER_BODY + 4] == data[..HEADER_BODY + 4] {
      HeaderOfBody(bytes, changed);
      ChangedWalk(data, other, p, i);
    }
  }

  /** In particular a single changed byte is detected exactly when it is not padding. */
  lemma OneChangedByteDetected(data: seq<Byte>, i: nat, b: Byte)
    requires Verify(InMemory(data)).complete
    requires i < |data| && b != data[i]
    ensures Verify(InMemory(data[i := b])).complete <==> IsPadding(|data|, i)
    ensures IsPadding(|data|, i) ==> Verify(InMemory(data[i := b])) == Verify(InMemory(data))
  {
    hide Verify;
    OneBurstDetected(data, data[i := b], i);
  }
}
