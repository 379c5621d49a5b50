/** copyVerifiedRecordingFrame of include/robot/telemetry/recording_codec.hpp: a frame of a
    recording, by its index. */
module RecordingAccess {
  import opened Bytes
  import opened RecordingFile
  import opened RecordingEncoder
  import opened RecordingVerifier
  import opened RecordingRecovery
  import Crc

  /** The faults after which no frame is handed out. */
  const UNREADABLE_MASK: bv32 := 0x1E

  function Sub32(a: int, b: int): uint32 {
    (a - b) % 0x1_0000_0000
  }

  function CopyFrom(data: seq<Byte>, validBytes: nat, offset: nat, base: uint32, index: uint32): Option<Frame>
    requires validBytes <= |data|
    decreases validBytes - offset
  {
    if offset + BLOCK_SIZE > validBytes then None
    else
      var bytes := data[offset..offset + BLOCK_SIZE];
      var block := BlockHeaderOf(bytes);
      if U32(bytes[..4]) != BLOCK_MAGIC then None
      else if index < Add32(base, block.frameCount) then
        InMemory(data).Read(offset + BLOCK_SIZE + Sub32(index, base) * FRAME_SIZE, FRAME_SIZE)
      else CopyFrom(data, validBytes, offset + BLOCK_SIZE + block.payloadBytes, Add32(base, block.frameCount), index)
  }

  lemma {:induction false} ScanKeepsExtent(reader: Reader, p: Progress, at: nat, count: nat, crc: bv32)
    ensures var s := ScanPayload(reader, p, at, count, crc);
            (if s.Stopped? then s.report else s.progress.report).validBytes == p.report.validBytes
    decreases count
  {
    hide GoodFrame, FrameRun, FrameSequence, FrameTime, Crc.Update;
    if count != 0 {
      var frame := reader.Read(at, FRAME_SIZE);
      if frame.Some? && GoodFrame(frame.value) {
        ScanKeepsExtent(reader, ObserveFrame(p, frame.value), at + FRAME_SIZE, count - 1, Crc.Update(crc, frame.value));
      }
    }
  }

  lemma {:induction false} WalkWithin(reader: Reader, p: Progress)
    requires p.report.validBytes <= |reader.data|
    ensures VerifyBlocks(reader, p).validBytes <= |reader.data|
    decreases |reader.data| - p.offset
  {
    hide ScanPayload, U32, Intact, BlockHeaderOf, FooterOf, FooterAgrees, Crc.Complement;
    var size := |reader.data|;
    if p.offset + BLOCK_SIZE <= size && reader.Read(p.offset, 4).Some? && reader.Read(p.offset, BLOCK_SIZE).Some? {
      var bytes := reader.Read(p.offset, BLOCK_SIZE).value;
      var block := BlockHeaderOf(bytes);
      var payload := p.offset + BLOCK_SIZE;
      ScanKeepsExtent(reader, p, payload, block.frameCount, Crc.INITIAL);
      ScanKeepsPlace(reader, p, payload, block.frameCount, Crc.INITIAL);
      var scan := ScanPayload(reader, p, payload, block.frameCount, Crc.INITIAL);
      if scan.Scanned? && payload + block.payloadBytes <= size {
        WalkWithin(reader, PassBlock(scan.progress, block));
      }
    }
  }

  /** The verifier never counts bytes that are not there. */
  lemma ValidBytesWithin(reader: Reader)
    ensures Verify(reader).validBytes <= |reader.data|
  {
    hide VerifyBlocks, HeaderOf, Intact, SupportedFormat;
    if |reader.data| >= HEADER_SIZE && reader.Read(0, HEADER_SIZE).Some? {
      WalkWithin(reader, StartOfBlocks(HeaderOf(reader.Read(0, HEADER_SIZE).value)));
    }
  }

  function CopyFrame(data: seq<Byte>, index: uint32): Option<Frame> {
    ValidBytesWithin(InMemory(data));
    var report := Verify(InMemory(data));
    if index >= report.recoverableFrames || report.faultBits & UNREADABLE_MASK != 0 then None
    else CopyFrom(data, report.validBytes, HEADER_SIZE, 0, index)
  }

  method CopyVerifiedRecordingFrame(data: seq<Byte>, index: uint32) returns (frame: Option<Frame>)
    ensures frame == CopyFrame(data, index)
  {
    hide BlockHeaderOf, U32, Verify;
    var report := VerifyRecording(InMemory(data));
    ValidBytesWithin(InMemory(data));
    if index >= report.recoverableFrames || report.faultBits & UNREADABLE_MASK != 0 {
      return None;
    }
    var offset: nat, base: uint32 := HEADER_SIZE, 0;
    while offset + BLOCK_SIZE <= report.validBytes
      invariant CopyFrom(data, report.validBytes, offset, base, index)
             == CopyFrom(data, report.validBytes, HEADER_SIZE, 0, index)
      decreases report.validBytes - offset
    {
      var bytes := data[offset..offset + BLOCK_SIZE];
      var block := BlockHeaderOf(bytes);
      if U32(bytes[..4]) != BLOCK_MAGIC {
        break;
      }
      if index < Add32(base, block.frameCount) {
        return InMemory(data).Read(offset + BLOCK_SIZE + Sub32(index, base) * FRAME_SIZE, FRAME_SIZE);
      }
      base := Add32(base, block.frameCount);
      offset := offset + BLOCK_SIZE + block.payloadBytes;
    }
    return None;
  }

  lemma {:induction false} FrameInPayload(frames: seq<Frame>, k: nat)
    requires k < |frames|
    ensures FRAME_SIZE * k + FRAME_SIZE <= |Flatten(frames)|
    ensures Flatten(frames)[FRAME_SIZE * k..FRAME_SIZE * k + FRAME_SIZE] == frames[k]
    decreases k
  {
    PayloadLength(frames);
    var rest := frames[1..];
    PayloadLength(rest);
    if k != 0 {
      FrameInPayload(rest, k - 1);
      var j := FRAME_SIZE * (k - 1);
      assert Flatten(frames)[FRAME_SIZE + j..FRAME_SIZE + j + FRAME_SIZE] == Flatten(rest)[j..j + FRAME_SIZE];
    }
  }

  lemma FrameOfBlock(data: seq<Byte>, offset: nat, blockSequence: uint32, frames: seq<Frame>, k: nat)
    requires Appendable(frames) && offset + BlockLength(frames) <= |data| && k < |frames|
    requires data[offset..offset + BlockLength(frames)] == BlockBytes(blockSequence, frames)
    ensures InMemory(data).Read(offset + BLOCK_SIZE + k * FRAME_SIZE, FRAME_SIZE) == Some(frames[k])
  {
    hide BlockHeaderBytes, MakeBlock, Flatten;
    var payload, end := offset + BLOCK_SIZE, offset + BlockLength(frames);
    PayloadLength(frames);
    FrameInPayload(frames, k);
    assert data[offset..end][BLOCK_SIZE..] == data[payload..end] == Flatten(frames);
    SliceOfSlice(data, payload, end, FRAME_SIZE * k, FRAME_SIZE * k + FRAME_SIZE);
  }

  lemma CopyWithinBlock(data: seq<Byte>, validBytes: nat, offset: nat, base: uint32, index: uint32,
                        blockSequence: uint32, frames: seq<Frame>)
    requires Appendable(frames) && offset + BlockLength(frames) <= validBytes <= |data|
    requires data[offset..offset + BlockLength(frames)] == BlockBytes(blockSequence, frames)
    requires base <= index && base + |frames| < 0x1_0000_0000
    ensures CopyFrom(data, validBytes, offset, base, index)
         == if index < base + |frames| then Some(frames[index - base])
            else CopyFrom(data, validBytes, offset + BlockLength(frames), base + |frames|, index)
  {
    hide BlockHeaderOf, BlockHeaderBytes, U32, MakeBlock, Flatten, Crc.Complement, Crc.Update, Intact;
    var block := MakeBlock(blockSequence, frames);
    var head := data[offset..offset + BLOCK_SIZE];
    BlockHeaderRoundTrip(block);
    MakeBlockFields(blockSequence, frames);
    assert head == data[offset..offset + BlockLength(frames)][..BLOCK_SIZE] == BlockHeaderBytes(block);
    Add32Small(base + |frames|);
    if index < base + |frames| {
      FrameOfBlock(data, offset, blockSequence, frames, index - base);
    }
  }

  lemma {:induction false} CopyWalk(data: seq<Byte>, validBytes: nat, offset: nat, base: uint32, index: uint32,
                                    blockSequence: uint32, batches: seq<seq<Frame>>)
    requires AllAppendable(batches) && offset + BlocksLength(batches) <= validBytes <= |data|
    requires data[offset..offset + BlocksLength(batches)] == BlocksBytes(blockSequence, batches)
    requires base <= index < base + |Flatten(batches)| < 0x1_0000_0000
    ensures CopyFrom(data, validBytes, offset, base, index) == Some(Flatten(batches)[index - base])
    decreases |batches|
  {
    hide BlockBytes, CopyFrom, Appendable, BlockLength;
    var first, rest := batches[0], batches[1..];
    var next := offset + BlockLength(first);
    var bytes := data[offset..offset + BlocksLength(batches)];
    BlocksBytesLength(Add32(blockSequence, 1), rest);
    assert data[offset..next] == bytes[..BlockLength(first)] == BlockBytes(blockSequence, first);
    assert data[next..next + BlocksLength(rest)]
         == bytes[BlockLength(first)..] == BlocksBytes(Add32(blockSequence, 1), rest);
    CopyWithinBlock(data, validBytes, offset, base, index, blockSequence, first);
    if index >= base + |first| {
      CopyWalk(data, validBytes, next, base + |first|, index, Add32(blockSequence, 1), rest);
    }
  }

  lemma ReadableFaults(run: uint32, frames: seq<Frame>, mismatch: bool, noFrames: bool)
    ensures FinalFaults(run, frames, mismatch, noFrames) & UNREADABLE_MASK == 0
    ensures (FrameFaults(run, frames) | TRUNCATED) & UNREADABLE_MASK == 0
  {
    hide HasForeignFrame, HasGap, HasRegression, Mark;
    ReadableMarks(HasForeignFrame(run, frames), HasGap(frames), HasRegression(frames), mismatch, noFrames);
  }

  lemma ReadableMarks(a: bool, b: bool, c: bool, mismatch: bool, noFrames: bool)
    ensures (Mark(a, RUN_MISMATCH) | Mark(b, SEQUENCE_GAP) | Mark(c, TIME_REGRESSION)
             | Mark(mismatch, FOOTER_MISMATCH) | Mark(noFrames, NO_FRAMES)) & UNREADABLE_MASK == 0
    ensures (Mark(a, RUN_MISMATCH) | Mark(b, SEQUENCE_GAP) | Mark(c, TIME_REGRESSION) | TRUNCATED) & UNREADABLE_MASK
         == 0
  {
  }

  /** The report on any prefix of a recording, as far as reading frames back depends on it. */
  lemma ReportOnPrefix(data: seq<Byte>, header: FileHeader, batches: seq<seq<Frame>>,
                       producerDrops: uint32) returns (k: nat)
    requires Standard(header) && AllAppendable(batches) && AllGoodBatches(batches)
    requires IsPrefix(data, RecordingBytes(header, batches, producerDrops)) && |data| >= HEADER_SIZE
    ensures k == WholeBlocks(batches, |data| - HEADER_SIZE)
    ensures var r := Verify(InMemory(data));
            && r.recoverableFrames == Add32(0, |Flatten(batches[..k])|) && r.validBlocks == Add32(0, k)
            && r.header == header
            && r.faultBits & UNREADABLE_MASK == 0
            && HEADER_SIZE + BlocksLength(batches[..k]) <= r.validBytes <= |data|
    ensures data[HEADER_SIZE..HEADER_SIZE + BlocksLength(batches[..k])] == BlocksBytes(1, batches[..k])
  {
    hide Verify, FinalFaults, FrameFaults, Recovered, RecordingBytes, HeaderBytes, FooterBytes, BlocksBytes, Appendable,
         AllGood, FirstRemembered, BlocksLength, WholeBlocks;
    RecordingLength(header, batches, producerDrops);
    var n := |data| - HEADER_SIZE;
    k := WholeBlocks(batches, n);
    WholeBlocksFit(1, batches, n);
    SplitAtHeader(data, header, batches, producerDrops);
    PrefixOfBlocks(data, header, batches, producerDrops, k);
    if data == RecordingBytes(header, batches, producerDrops) {
      AllBlocksWhole(batches, n);
      assert batches[..k] == batches;
      FinishedRecordingVerified(InMemory(data), header, batches, producerDrops);
      RecoveredCounts(header, batches);
      ReadableFaults(header.runIdHash, Flatten(batches), !FirstRemembered(batches), batches == []);
    } else {
      CutRecordingRecovered(InMemory(data), header, batches, producerDrops);
      RecoveredCounts(header, batches[..k]);
      RecoveredValidBytes(header, batches[..k]);
      ReadableFaults(header.runIdHash, Flatten(batches[..k]), false, false);
    }
  }

  lemma RecoveredValidBytes(header: FileHeader, batches: seq<seq<Frame>>)
    ensures Recovered(header, batches).validBytes == HEADER_SIZE + BlocksLength(batches)
  {
    hide FrameFaults, FrameSequence, FrameTime;
  }

  lemma {:induction false} WholeBlocksFit(blockSequence: uint32, batches: seq<seq<Frame>>, n: nat)
    requires AllAppendable(batches)
    ensures var k := WholeBlocks(batches, n);
            && BlocksLength(batches[..k]) <= n
            && IsPrefix(BlocksBytes(blockSequence, batches[..k]), BlocksBytes(blockSequence, batches))
    decreases |batches|
  {
    hide BlockBytes, Appendable, BlockLength;
    var k := WholeBlocks(batches, n);
    if k == 0 {
      assert batches[..0] == [];
    } else {
      var rest := batches[1..];
      WholeBlocksFit(Add32(blockSequence, 1), rest, n - BlockLength(batches[0]));
      assert batches[..k][0] == batches[0] && batches[..k][1..] == rest[..k - 1];
    }
  }

  lemma PrefixOfBlocks(data: seq<Byte>, header: FileHeader, batches: seq<seq<Frame>>, producerDrops: uint32, k: nat)
    requires k <= |batches| && AllAppendable(batches) && |data| >= HEADER_SIZE + BlocksLength(batches[..k])
    requires IsPrefix(data[HEADER_SIZE..], BlocksBytes(1,
            batches) + FooterBytes(MakeFooter(AfterAppends(STARTED, batches), producerDrops)))
    requires IsPrefix(BlocksBytes(1, batches[..k]), BlocksBytes(1, batches))
    ensures data[HEADER_SIZE..HEADER_SIZE + BlocksLength(batches[..k])] == BlocksBytes(1, batches[..k])
  {
    hide BlocksBytes, FooterBytes, Appendable, AfterAppends, MakeFooter, BlocksLength;
    var length := BlocksLength(batches[..k]);
    BlocksBytesLength(1, batches[..k]);
    BlocksBytesLength(1, batches);
    var part := data[HEADER_SIZE..];
    assert data[HEADER_SIZE..HEADER_SIZE + length] == part[..length];
    forall j | 0 <= j < length ensures part[j] == BlocksBytes(1, batches[..k])[j] {
    }
  }

  lemma {:induction false} FlattenTake(batches: seq<seq<Frame>>, k: nat)
    requires k <= |batches|
    ensures IsPrefixOfFrames(Flatten(batches[..k]), Flatten(batches))
    decreases k
  {
    if k == 0 {
      assert batches[..0] == [];
    } else {
      FlattenTake(batches[1..], k - 1);
      assert batches[..k][0] == batches[0] && batches[..k][1..] == batches[1..][..k - 1];
    }
  }

  ghost predicate IsPrefixOfFrames(a: seq<Frame>, b: seq<Frame>) {
    |a| <= |b| && a == b[..|a|]
  }

  /** From a recording that is whole or cut anywhere, every frame the verifier counted comes back as
      it was appended, and no other index is answered. */
  lemma FramesComeBack(data: seq<Byte>, header: FileHeader, batches: seq<seq<Frame>>, producerDrops: uint32,
                       index: uint32)
    requires Standard(header) && AllAppendable(batches) && AllGoodBatches(batches)
    requires IsPrefix(data, RecordingBytes(header, batches, producerDrops))
    requires |Flatten(batches)| < 0x1_0000_0000
    ensures var r := Verify(InMemory(data));
            && r.recoverableFrames <= |Flatten(batches)|
            && CopyFrame(data, index)
               == if index < r.recoverableFrames then Some(Flatten(batches)[index]) else None
  {
    hide Verify, CopyFrom, BlocksBytes, HeaderBytes, Appendable, AllGood, BlocksLength, RecordingBytes;
    if |data| < HEADER_SIZE {
      ShortFile(data);
    } else {
      var k := ReportOnPrefix(data, header, batches, producerDrops);
      FlattenTake(batches, k);
      TakeAppendable(batches, k);
      Add32Small(|Flatten(batches[..k])|);
      if index < Verify(InMemory(data)).recoverableFrames {
        CopyWalk(data, Verify(InMemory(data)).validBytes, HEADER_SIZE, 0, index, 1, batches[..k]);
      }
    }
  }

  lemma ShortFile(data: seq<Byte>)
    requires |data| < HEADER_SIZE
    ensures Verify(InMemory(data)) == EMPTY_REPORT.(faultBits := TRUNCATED)
  {
  }
}
