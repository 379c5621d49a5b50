/** What the verifier takes for a complete recording: exactly the files that are a header, numbered blocks of
    well-formed frames and a footer that tells their counts and ends. */
module RecordingStructure {
  import opened Bytes
  import opened RecordingFile
  import opened RecordingEncoder
  import opened RecordingVerifier
  import opened RecordingRecovery
  import opened RecordingIntegrity
  import Crc

  // ---- Frames as they lie in a file ----

  /** The frames that lie in the data from `at` on. */
  function FramesAt(data: seq<Byte>, at: nat, count: nat): (frames: seq<Frame>)
    requires at + FRAME_SIZE * count <= |data|
    ensures |frames| == count
    decreases count
  {
    if count == 0 then [] else [data[at..at + FRAME_SIZE]] + FramesAt(data, at + FRAME_SIZE, count - 1)
  }

  lemma {:induction false} FramesFlatten(data: seq<Byte>, at: nat, count: nat)
    requires at + FRAME_SIZE * count <= |data|
    ensures Flatten(FramesAt(data, at, count)) == data[at..at + FRAME_SIZE * count]
    decreases count
  {
    if count != 0 {
      var next := at + FRAME_SIZE;
      FramesFlatten(data, next, count - 1);
      var frames := FramesAt(data, at, count);
      assert frames[1..] == FramesAt(data, next, count - 1);
      assert data[at..at + FRAME_SIZE * count] == data[at..next] + data[next..next + FRAME_SIZE * (count - 1)];
    }
  }

  /** How many of the frames are good before the first that is not. */
  function GoodUpTo(frames: seq<Frame>): (k: nat)
    ensures k <= |frames| && forall i :: 0 <= i < k ==> GoodFrame(frames[i])
    ensures k < |frames| ==> !GoodFrame(frames[k])
  {
    if frames == [] || !GoodFrame(frames[0]) then 0
    else
      var k := GoodUpTo(frames[1..]);
      assert forall i :: 0 < i <= k ==> frames[i] == frames[1..][i - 1];
      1 + k
  }

  lemma GoodFirst(frames: seq<Frame>)
    requires frames != [] && GoodFrame(frames[0])
    ensures GoodUpTo(frames) == 1 + GoodUpTo(frames[1..])
  {
    hide GoodFrame;
  }

  /** The outcome of scanning these frames. */
  ghost function Scan(p: Progress, frames: seq<Frame>, crc: bv32): PayloadScan {
    var k := GoodUpTo(frames);
    if k < |frames| then Stopped(ObserveFrames(p, frames[..k]).report.Faulted(BAD_PAYLOAD))
    else Scanned(ObserveFrames(p, frames), Crc.Update(crc, Flatten(frames)))
  }

  lemma ScanFirst(p: Progress, frames: seq<Frame>, crc: bv32)
    requires frames != []
    ensures Scan(p, frames, crc)
         == if GoodFrame(frames[0]) then Scan(ObserveFrame(p, frames[0]), frames[1..], Crc.Update(crc, frames[0]))
            else Stopped(p.report.Faulted(BAD_PAYLOAD))
  {
    hide ObserveFrame, GoodFrame, Crc.Update, GoodUpTo;
    var k := GoodUpTo(frames);
    if GoodFrame(frames[0]) {
      GoodFirst(frames);
      Crc.UpdateConcat(crc, frames[0], Flatten(frames[1..]));
      assert frames[..k][0] == frames[0] && frames[..k][1..] == frames[1..][..k - 1];
    } else {
      assert k == 0 && frames[..0] == [];
    }
  }

  /** The scan of a payload observes its frames up to the first that is not good, and stops there. */
  lemma {:induction false} ScanOfPayload(data: seq<Byte>, p: Progress, at: nat, count: nat, crc: bv32)
    requires at + FRAME_SIZE * count <= |data|
    ensures ScanPayload(InMemory(data), p, at, count, crc) == Scan(p, FramesAt(data, at, count), crc)
    decreases count
  {
    hide ObserveFrame, GoodFrame, Crc.Update, Scan;
    if count == 0 {
      NothingScanned(p, crc);
    } else {
      var frame, next := data[at..at + FRAME_SIZE], at + FRAME_SIZE;
      var frames := FramesAt(data, at, count);
      InMemoryReads(data, at, FRAME_SIZE);
      assert frames[0] == frame && frames[1..] == FramesAt(data, next, count - 1);
      ScanFirst(p, frames, crc);
      ScanOfPayload(data, ObserveFrame(p, frame), next, count - 1, Crc.Update(crc, frame));
    }
  }

  lemma NothingScanned(p: Progress, crc: bv32)
    ensures Scan(p, [], crc) == Scanned(p, crc)
  {
    UpdateByNothing(crc);
  }

  // ---- Blocks and the footer as they lie in a file ----

  /** A sealed block header with this number, followed by these frames, all well formed. Which frame the header
      calls the first is not checked. */
  ghost predicate BlockAt(data: seq<Byte>, offset: nat, blockSequence: uint32, frames: seq<Frame>) {
    var payload, end := offset + BLOCK_SIZE, offset + BLOCK_SIZE + FRAME_SIZE * |frames|;
    && Appendable(frames) && AllGood(frames) && end <= |data|
    && U32(data[offset..offset + 4]) == BLOCK_MAGIC && Intact(data[offset..payload], BLOCK_BODY)
    && data[payload..end] == Flatten(frames)
    && var block := BlockHeaderOf(data[offset..payload]);
       && block.blockSequence == blockSequence && block.frameCount == |frames|
       && block.payloadBytes == FRAME_SIZE * |frames| && block.payloadCrc == Crc.Checksum(Flatten(frames))
  }

  ghost predicate BlocksAt(data: seq<Byte>, offset: nat, blockSequence: uint32, batches: seq<seq<Frame>>)
    decreases |batches|
  {
    batches != [] ==>
      && BlockAt(data, offset, blockSequence, batches[0])
      && BlocksAt(data, offset + BlockLength(batches[0]), Add32(blockSequence, 1), batches[1..])
  }

  lemma SamePass(p: Progress, block: BlockHeader, other: BlockHeader)
    requires block.frameCount == other.frameCount && block.payloadBytes == other.payloadBytes
    ensures PassBlock(p, block) == PassBlock(p, other)
  {
  }

  /** Such a block is passed over. */
  lemma PassedBlock(data: seq<Byte>, p: Progress, frames: seq<Frame>)
    requires BlockAt(data, p.offset, p.expectedBlock, frames)
    ensures VerifyBlocks(InMemory(data), p) == VerifyBlocks(InMemory(data), AfterBatch(p, frames))
  {
    hide BlockHeaderOf, FooterOf, CheckFooter, Intact, U32, ScanPayload, ObserveFrames, PassBlock, MakeBlock, AllGood,
         Crc.Update, Crc.Checksum, Crc.Complement, Flatten;
    var payload := p.offset + BLOCK_SIZE;
    var block := BlockHeaderOf(data[p.offset..payload]);
    InMemoryReads(data, p.offset, 4);
    InMemoryReads(data, p.offset, BLOCK_SIZE);
    ScanOfFrames(InMemory(data), p, payload, frames, Crc.INITIAL);
    ChecksumIsComplement(Flatten(frames));
    MakeBlockFields(p.expectedBlock, frames);
    SamePass(ObserveFrames(p, frames), block, MakeBlock(p.expectedBlock, frames));
    ObserveFramesKeeps(p, frames);
    PassBlockOffset(ObserveFrames(p, frames), block);
  }

  lemma BlockAppendable(data: seq<Byte>, offset: nat, blockSequence: uint32, frames: seq<Frame>)
    requires BlockAt(data, offset, blockSequence, frames)
    ensures Appendable(frames)
  {
    hide Intact, BlockHeaderOf, U32, Flatten, Crc.Checksum, AllGood;
  }

  /** The walk passes over all such blocks. */
  lemma {:induction false} PassedBlocks(data: seq<Byte>, p: Progress, batches: seq<seq<Frame>>)
    requires BlocksAt(data, p.offset, p.expectedBlock, batches)
    ensures AllAppendable(batches)
    ensures VerifyBlocks(InMemory(data), p) == VerifyBlocks(InMemory(data), AfterBatches(p, batches))
    decreases |batches|
  {
    hide VerifyBlocks, BlockAt, AfterBatch, Appendable;
    if batches != [] {
      PassedBlock(data, p, batches[0]);
      BlockAppendable(data, p.offset, p.expectedBlock, batches[0]);
      AfterBatchPlace(p, batches[0]);
      PassedBlocks(data, AfterBatch(p, batches[0]), batches[1..]);
      assert forall b :: b in batches ==> b == batches[0] || b in batches[1..];
    }
  }

  /** A block the verifier passed over is one. */
  lemma BlockThatPasses(data: seq<Byte>, p: Progress, block: BlockHeader, scan: PayloadScan)
    returns (frames: seq<Frame>)
    requires PassingBlock(data, p, block, scan)
    ensures BlockAt(data, p.offset, p.expectedBlock, frames)
    ensures PassBlock(scan.progress, block) == AfterBatch(p, frames)
  {
    hide U32, ScanPayload, BlockHeaderOf, Intact, Crc.Complement, Crc.Update, ObserveFrames, PassBlock, MakeBlock,
         Flatten;
    PassingBlockSize(data, p, block, scan);
    var payload := p.offset + BLOCK_SIZE;
    frames := FramesAt(data, payload, block.frameCount);
    FramesFlatten(data, payload, block.frameCount);
    ScanOfPayload(data, p, payload, block.frameCount, Crc.INITIAL);
    ChecksumIsComplement(Flatten(frames));
    MakeBlockFields(p.expectedBlock, frames);
    SamePass(ObserveFrames(p, frames), block, MakeBlock(p.expectedBlock, frames));
  }

  // ---- What a footer must tell ----

  /** The footer tells the numbers of frames and blocks, modulo 2^32, and the first and the last frame. */
  ghost predicate Tells(f: FileFooter, batches: seq<seq<Frame>>) {
    var frames := Flatten(batches);
    && f.totalFrames == |frames| % 0x1_0000_0000 && f.blockCount == |batches| % 0x1_0000_0000
    && (frames != [] ==>
          var first, last := frames[0], frames[|frames| - 1];
          && f.firstFrameSequence == FrameSequence(first) && f.firstTimeUs == FrameTime(first)
          && f.lastFrameSequence == FrameSequence(last) && f.lastTimeUs == FrameTime(last))
  }

  lemma FooterAgreesTells(header: FileHeader, batches: seq<seq<Frame>>, f: FileFooter)
    requires AllAppendable(batches)
    ensures FooterAgrees(AfterBatches(StartOfBlocks(header), batches), f) <==> Tells(f, batches)
    ensures Flatten(batches) == [] <==> batches == []
  {
    hide FrameSequence, FrameTime, AfterBatches, FrameFaults;
    WalkRecovers(header, batches);
    if batches != [] {
      assert batches[0] in batches;
    }
  }

  /** What the verifier reports once it has passed over these blocks and stands before a footer at the end. */
  lemma ReportAtFooter(header: FileHeader, batches: seq<seq<Frame>>, f: FileFooter, size: nat)
    requires AllAppendable(batches) && HEADER_SIZE + BlocksLength(batches) + FOOTER_SIZE == size
    ensures CheckFooter(AfterBatches(StartOfBlocks(header), batches), f, size)
         == Recovered(header, batches).(
              faultBits := FinalFaults(header.runIdHash, Flatten(batches), !Tells(f, batches), batches == []),
              producerDrops := f.producerDrops, validBytes := size, complete := batches != [] && Tells(f, batches))
  {
    hide *;
    var q := AfterBatches(StartOfBlocks(header), batches);
    WalkRecovers(header, batches);
    FooterAgreesTells(header, batches, f);
    CheckFooterAtEnd(q, Flatten(batches), f, size);
    Completeness(header.runIdHash, Flatten(batches), !Tells(f, batches), batches == []);
    RecoveredCounts(header, batches);
  }

  /** Whatever footer ends a recording's blocks, the verifier accepts it exactly if it tells their counts and
      ends; else it is reported as mismatched. */
  lemma FooterDecides(reader: Reader, header: FileHeader, batches: seq<seq<Frame>>, f: FileFooter)
    requires Reliable(reader) && Standard(header) && AllAppendable(batches) && AllGoodBatches(batches)
    requires reader.data == HeaderBytes(header) + BlocksBytes(1, batches) + FooterBytes(f)
    ensures Verify(reader)
         == Recovered(header, batches).(
              faultBits := FinalFaults(header.runIdHash, Flatten(batches), !Tells(f, batches), batches == []),
              producerDrops := f.producerDrops, validBytes := |reader.data|,
              complete := batches != [] && Tells(f, batches))
  {
    hide *;
    var part := BlocksBytes(1, batches) + FooterBytes(f);
    var head := HeaderBytes(header);
    StartPlace(header);
    AddedUp(head, BlocksBytes(1, batches), FooterBytes(f));
    HeaderAccepted(reader, header, part);
    BlocksBytesLength(1, batches);
    PrefixOfItself(part);
    AllBlocksWhole(batches, |part|);
    VerifyPrefix(reader, StartOfBlocks(header), head, batches, f, part);
    assert batches[..|batches|] == batches;
    ReportAtFooter(header, batches, f, |reader.data|);
  }

  lemma AddedUp(a: seq<Byte>, b: seq<Byte>, c: seq<Byte>)
    ensures a + b + c == a + (b + c) && |a + b + c| == |a| + |b + c| == |a| + |b| + |c|
  {
  }

  // ---- Complete files ----

  /** A sealed header of the format the program reads. */
  ghost predicate HeaderAt(data: seq<Byte>) {
    && |data| >= HEADER_SIZE && Intact(data[0..HEADER_SIZE], HEADER_BODY)
    && var h := HeaderOf(data[0..HEADER_SIZE]);
       && h.magic == 0x324C_3556 && h.formatMajor == 2 && h.endianMarker == 0x0102_0304 && h.headerSize == 160
       && h.frameSize == 1536 && h.logSchemaMajor == 3 && h.logSchemaMinor == 1
  }

  /** A sealed footer at the very end. */
  ghost predicate FooterAt(data: seq<Byte>, offset: nat) {
    && |data| == offset + FOOTER_SIZE && U32(data[offset..offset + 4]) == FOOTER_MAGIC
    && Intact(data[offset..], FOOTER_BODY)
  }

  /** The file is a header, one or more blocks numbered from one with these batches, and a footer that tells
      their counts and ends. */
  ghost predicate Whole(data: seq<Byte>, batches: seq<seq<Frame>>) {
    var end := HEADER_SIZE + BlocksLength(batches);
    && HeaderAt(data) && batches != [] && BlocksAt(data, HEADER_SIZE, 1, batches)
    && FooterAt(data, end) && Tells(FooterOf(data[end..]), batches)
  }

  lemma AcceptedHeader(data: seq<Byte>)
    ensures HeaderAt(data) ==>
              Verify(InMemory(data)) == VerifyBlocks(InMemory(data), StartOfBlocks(HeaderOf(data[0..HEADER_SIZE])))
    ensures !HeaderAt(data) ==> !Verify(InMemory(data)).complete
  {
    hide Intact, HeaderOf, VerifyBlocks;
    if |data| >= HEADER_SIZE {
      InMemoryReads(data, 0, HEADER_SIZE);
    }
  }

  lemma FooterReached(data: seq<Byte>, p: Progress)
    requires FooterAt(data, p.offset)
    ensures VerifyBlocks(InMemory(data), p) == CheckFooter(p, FooterOf(data[p.offset..]), |data|)
  {
    hide BlockHeaderOf, Intact, U32, ScanPayload, FooterOf, CheckFooter, AcceptableBlock;
    InMemoryReads(data, p.offset, 4);
    InMemoryReads(data, p.offset, FOOTER_SIZE);
    assert data[p.offset..p.offset + FOOTER_SIZE] == data[p.offset..];
  }

  /** A walk that ends complete has passed over blocks, up to a footer at the very end. */
  lemma {:induction false} BlocksOfComplete(data: seq<Byte>, p: Progress) returns (batches: seq<seq<Frame>>)
    requires VerifyBlocks(InMemory(data), p).complete && !p.report.complete
    ensures AllAppendable(batches) && BlocksAt(data, p.offset, p.expectedBlock, batches)
    ensures FooterAt(data, p.offset + BlocksLength(batches))
    decreases |data| - p.offset
  {
    hide VerifyBlocks, BlockAt, U32, ScanPayload, AcceptableBlock, BlockHeaderOf, Intact, PassBlock, AfterBatch,
         Appendable;
    FooterOfCompleteFile(data, p);
    if U32(data[p.offset..p.offset + 4]) == BLOCK_MAGIC {
      var block, scan := BlockOfCompleteFile(data, p);
      var frames := BlockThatPasses(data, p, block, scan);
      BlockAppendable(data, p.offset, p.expectedBlock, frames);
      AfterBatchPlace(p, frames);
      var rest := BlocksOfComplete(data, AfterBatch(p, frames));
      batches := [frames] + rest;
      assert batches[1..] == rest && batches[0] == frames;
    } else {
      batches := [];
    }
  }

  /** What the verifier reports of such a file. */
  lemma WholeReported(data: seq<Byte>, batches: seq<seq<Frame>>)
    requires HeaderAt(data) && BlocksAt(data, HEADER_SIZE, 1, batches)
    requires FooterAt(data, HEADER_SIZE + BlocksLength(batches))
    ensures AllAppendable(batches)
    ensures var header := HeaderOf(data[0..HEADER_SIZE]);
            var f := FooterOf(data[HEADER_SIZE + BlocksLength(batches)..]);
            Verify(InMemory(data))
            == Recovered(header, batches).(
                 faultBits := FinalFaults(header.runIdHash, Flatten(batches), !Tells(f, batches), batches == []),
                 producerDrops := f.producerDrops, validBytes := |data|,
                 complete := batches != [] && Tells(f, batches))
  {
    hide *;
    AtLeastHeader(data);
    var header := HeaderOf(data[0..HEADER_SIZE]);
    var p := StartOfBlocks(header);
    StartPlace(header);
    AcceptedHeader(data);
    PassedBlocks(data, p, batches);
    WalkRecovers(header, batches);
    FooterReached(data, AfterBatches(p, batches));
    FooterSize(data, HEADER_SIZE + BlocksLength(batches));
    ReportAtFooter(header, batches, FooterOf(data[HEADER_SIZE + BlocksLength(batches)..]), |data|);
  }

  lemma AtLeastHeader(data: seq<Byte>)
    requires HeaderAt(data)
    ensures |data| >= HEADER_SIZE
  {
  }

  lemma FooterSize(data: seq<Byte>, offset: nat)
    requires FooterAt(data, offset)
    ensures |data| == offset + FOOTER_SIZE
  {
  }

  lemma WholeParts(data: seq<Byte>, batches: seq<seq<Frame>>)
    ensures var end := HEADER_SIZE + BlocksLength(batches);
            Whole(data, batches)
            <==> && HeaderAt(data) && batches != [] && BlocksAt(data, HEADER_SIZE, 1, batches)
                 && FooterAt(data, end) && Tells(FooterOf(data[end..]), batches)
  {
    hide HeaderAt, BlocksAt, FooterOf, Tells, BlocksLength, U32, Intact;
  }

  lemma CompleteIsWhole(data: seq<Byte>) returns (batches: seq<seq<Frame>>)
    requires Verify(InMemory(data)).complete
    ensures Whole(data, batches)
  {
    hide *;
    AcceptedHeader(data);
    AtLeastHeader(data);
    var p := StartOfBlocks(HeaderOf(data[0..HEADER_SIZE]));
    StartPlace(HeaderOf(data[0..HEADER_SIZE]));
    NotYetComplete(HeaderOf(data[0..HEADER_SIZE]));
    batches := BlocksOfComplete(data, p);
    WholeReported(data, batches);
    FooterSize(data, HEADER_SIZE + BlocksLength(batches));
    WholeParts(data, batches);
  }

  lemma NotYetComplete(header: FileHeader)
    ensures !StartOfBlocks(header).report.complete
  {
  }

  /** The report on such a file: its counts and ends are those its footer tells, no fault is reported but those
      of its frames, and it is complete. */
  lemma WholeIsComplete(data: seq<Byte>, batches: seq<seq<Frame>>)
    requires Whole(data, batches)
    ensures AllAppendable(batches) && |data| == HEADER_SIZE + BlocksLength(batches) + FOOTER_SIZE
    ensures var header := HeaderOf(data[0..HEADER_SIZE]);
            Verify(InMemory(data))
            == Recovered(header, batches).(
                 faultBits := FinalFaults(header.runIdHash, Flatten(batches), false, false),
                 producerDrops := FooterOf(data[|data| - FOOTER_SIZE..]).producerDrops, validBytes := |data|,
                 complete := true)
  {
    hide *;
    WholeParts(data, batches);
    WholeReported(data, batches);
    FooterSize(data, HEADER_SIZE + BlocksLength(batches));
    AtLeastHeader(data);
  }

  /** The verifier calls a file complete exactly if it is a sealed header of its format, one or more sealed blocks
      numbered from one, each with as many well-formed frames as it says and their checksum, and a sealed footer
      at the very end that tells the numbers of frames and blocks and the first and the last frame. */
  lemma CompleteExactly(data: seq<Byte>)
    ensures Verify(InMemory(data)).complete <==> exists batches :: Whole(data, batches)
  {
    hide *;
    if Verify(InMemory(data)).complete {
      var batches := CompleteIsWhole(data);
    }
    if batches :| Whole(data, batches) {
      WholeIsComplete(data, batches);
    }
  }

  /** In any complete file, the footer tells what the report does. */
  lemma FooterOfComplete(data: seq<Byte>)
    requires Verify(InMemory(data)).complete
    ensures |data| >= FOOTER_SIZE
    ensures var r, f := Verify(InMemory(data)), FooterOf(data[|data| - FOOTER_SIZE..]);
            && f.totalFrames == r.recoverableFrames && f.blockCount == r.validBlocks
            && f.firstFrameSequence == r.firstFrameSequence && f.lastFrameSequence == r.lastFrameSequence
            && f.firstTimeUs == r.firstTimeUs && f.lastTimeUs == r.lastTimeUs && f.producerDrops == r.producerDrops
  {
    hide *;
    var batches := CompleteIsWhole(data);
    WholeIsComplete(data, batches);
    WholeParts(data, batches);
    var f := FooterOf(data[|data| - FOOTER_SIZE..]);
    RecoveredTells(HeaderOf(data[0..HEADER_SIZE]), batches, f);
  }

  lemma RecoveredTells(header: FileHeader, batches: seq<seq<Frame>>, f: FileFooter)
    requires AllAppendable(batches) && batches != [] && Tells(f, batches)
    ensures var r := Recovered(header, batches);
            && f.totalFrames == r.recoverableFrames && f.blockCount == r.validBlocks
            && f.firstFrameSequence == r.firstFrameSequence && f.lastFrameSequence == r.lastFrameSequence
            && f.firstTimeUs == r.firstTimeUs && f.lastTimeUs == r.lastTimeUs
  {
    hide FrameSequence, FrameTime, FrameFaults;
    assert batches[0] in batches;
  }

  // ---- Blocks that are missing ----

  ghost predicate Increasing(kept: seq<nat>, n: nat) {
    && (forall i :: 0 <= i < |kept| ==> kept[i] < n)
    && (forall i, j :: 0 <= i < j < |kept| ==> kept[i] < kept[j])
  }

  /** The blocks of a recording at these places, one after the other, as they were numbered. */
  ghost function KeptBytes(batches: seq<seq<Frame>>, kept: seq<nat>): seq<Byte>
    requires AllAppendable(batches) && forall i :: 0 <= i < |kept| ==> kept[i] < |batches|
    decreases |kept|
  {
    if kept == [] then []
    else BlockBytes(Add32(1, kept[0]), batches[kept[0]]) + KeptBytes(batches, kept[1..])
  }

  lemma OtherCountIncomplete(p: Progress, f: FileFooter, size: nat)
    requires f.blockCount != p.report.validBlocks
    ensures !CheckFooter(p, f, size).complete
  {
    hide WithFooterFaults, Completes;
    MismatchIncomplete(p.report.faultBits, !p.haveFrame);
  }

  lemma MismatchIncomplete(bits: bv32, noFrames: bool)
    ensures !Completes(WithFooterFaults(bits, true, noFrames))
  {
  }

  /** A block that is not the next one ends the walk. */
  lemma OtherBlock(reader: Reader, p: Progress, before: seq<Byte>, number: uint32, frames: seq<Frame>, after: seq<Byte>)
    requires Reliable(reader) && Appendable(frames) && number != p.expectedBlock
    requires |before| == p.offset && reader.data == before + BlockBytes(number, frames) + after
    ensures VerifyBlocks(reader, p) == p.report.Faulted(BAD_BLOCK_HEADER)
  {
    hide BlockHeaderBytes, BlockHeaderOf, Intact, U32, ScanPayload, FooterOf, CheckFooter, Flatten, MakeBlock;
    var block := MakeBlock(number, frames);
    var bytes, head := BlockBytes(number, frames), BlockHeaderBytes(block);
    PayloadLength(frames);
    BlockHeaderRoundTrip(block);
    MakeBlockFields(number, frames);
    Middle(before, bytes, after, 0, 4);
    Middle(before, bytes, after, 0, BLOCK_SIZE);
    assert bytes[0..4] == head[..4] && bytes[0..BLOCK_SIZE] == head;
  }

  lemma TailIncreasing(kept: seq<nat>, n: nat)
    requires Increasing(kept, n) && kept != []
    ensures Increasing(kept[1..], n) && (|kept| > 1 ==> kept[1..][0] > kept[0])
  {
  }

  lemma BatchPassed(p: Progress, frames: seq<Frame>)
    requires Appendable(frames)
    ensures var q := AfterBatch(p, frames);
            && q.offset == p.offset + BlockLength(frames) && q.expectedBlock == Add32(p.expectedBlock, 1)
            && q.report.validBlocks == Add32(p.report.validBlocks, 1) && q.report.complete == p.report.complete
  {
    hide ObserveFrames, Crc.Checksum;
    ObserveFramesKeeps(p, frames);
    MakeBlockFields(p.expectedBlock, frames);
  }

  /** The walk over what is left, from a state that has passed over the first j blocks. */
  lemma {:induction false} RemovedWalk(reader: Reader, p: Progress, before: seq<Byte>, batches: seq<seq<Frame>>,
                                       kept: seq<nat>, j: nat, f: FileFooter)
    requires Reliable(reader) && AllAppendable(batches) && AllGoodBatches(batches) && |batches| < 0x1_0000_0000
    requires Increasing(kept, |batches|) && j + |kept| < |batches| && (kept != [] ==> kept[0] >= j)
    requires p.expectedBlock == j + 1 && p.report.validBlocks == j && !p.report.complete && f.blockCount == |batches|
    requires |before| == p.offset && reader.data == before + (KeptBytes(batches, kept) + FooterBytes(f))
    ensures !VerifyBlocks(reader, p).complete
    decreases |kept|
  {
    hide VerifyBlocks, BlockBytes, FooterBytes, CheckFooter, AfterBatch, BlockLength, Appendable, AllGood, Increasing;
    if kept == [] {
      assert KeptBytes(batches, kept) + FooterBytes(f) == FooterBytes(f);
      WholeFooter(reader, p, before, f);
      OtherCountIncomplete(p, f, |reader.data|);
    } else {
      IncreasingWithin(kept, |batches|);
      TailIncreasing(kept, |batches|);
      var i := kept[0];
      var bytes, rest := BlockBytes(Add32(1, i), batches[i]), KeptBytes(batches, kept[1..]) + FooterBytes(f);
      assert KeptBytes(batches, kept) + FooterBytes(f) == bytes + rest;
      assert before + (bytes + rest) == before + bytes + rest;
      assert batches[i] in batches;
      if i == j {
        WholeBlock(reader, p, before, batches[i], rest);
        BatchPassed(p, batches[i]);
        RemovedWalk(reader, AfterBatch(p, batches[i]), before + bytes, batches, kept[1..], j + 1, f);
      } else {
        OtherBlock(reader, p, before, Add32(1, i), batches[i], rest);
      }
    }
  }

  /** A finished recording of fewer than 2^32 blocks from which any whole blocks have been cut out, at the end or
      anywhere else, is not complete. */
  lemma BlocksRemovedNoticed(header: FileHeader, batches: seq<seq<Frame>>, drops: uint32, kept: seq<nat>)
    requires Standard(header) && AllAppendable(batches) && AllGoodBatches(batches) && |batches| < 0x1_0000_0000
    requires Increasing(kept, |batches|) && |kept| < |batches|
    ensures var footer := FooterBytes(MakeFooter(AfterAppends(STARTED, batches), drops));
            !Verify(InMemory(HeaderBytes(header) + KeptBytes(batches, kept) + footer)).complete
  {
    hide *;
    IncreasingWithin(kept, |batches|);
    var f := MakeFooter(AfterAppends(STARTED, batches), drops);
    var head, blocks := HeaderBytes(header), KeptBytes(batches, kept);
    var data := head + blocks + FooterBytes(f);
    AddedUp(head, blocks, FooterBytes(f));
    ReliableMemory(data);
    StartCounts(header);
    NotYetComplete(header);
    BlockCountOf(batches, drops);
    HeaderAccepted(InMemory(data), header, blocks + FooterBytes(f));
    RemovedWalk(InMemory(data), StartOfBlocks(header), head, batches, kept, 0, f);
  }

  lemma IncreasingWithin(kept: seq<nat>, n: nat)
    requires Increasing(kept, n)
    ensures forall i :: 0 <= i < |kept| ==> kept[i] < n
  {
  }

  lemma ReliableMemory(data: seq<Byte>)
    ensures Reliable(InMemory(data)) && InMemory(data).data == data
  {
  }

  lemma StartCounts(header: FileHeader)
    ensures var p := StartOfBlocks(header);
            p.offset == HEADER_SIZE && p.expectedBlock == 1 && p.report.validBlocks == 0
  {
  }

  lemma BlockCountOf(batches: seq<seq<Frame>>, drops: uint32)
    requires AllAppendable(batches)
    ensures MakeFooter(AfterAppends(STARTED, batches), drops).blockCount == |batches| % 0x1_0000_0000
  {
    hide AfterAppends;
    CountsAfter(STARTED, batches);
  }

  function Repeated(frame: Frame, n: nat): (batches: seq<seq<Frame>>)
    ensures |batches| == n && forall i :: 0 <= i < n ==> batches[i] == [frame]
  {
    if n == 0 then [] else [[frame]] + Repeated(frame, n - 1)
  }

  lemma {:induction false} RepeatedFrames(frame: Frame, n: nat)
    ensures AllAppendable(Repeated(frame, n))
    ensures var frames := Flatten(Repeated(frame, n)); |frames| == n && forall i :: 0 <= i < n ==> frames[i] == frame
    decreases n
  {
    if n > 0 {
      RepeatedFrames(frame, n - 1);
      assert Repeated(frame, n)[1..] == Repeated(frame, n - 1);
    }
  }

  /** However often the frame count wraps around, the first frame remembered is this frame. */
  lemma {:induction false} FirstOfRepeated(e: Encoder, frame: Frame, n: nat)
    requires e.totalFrames != 0 ==> e.firstFrameSequence == FrameSequence(frame) && e.firstTimeUs == FrameTime(frame)
    requires AllAppendable(Repeated(frame, n)) && (n == 0 ==> e.totalFrames != 0)
    ensures var r := AfterAppends(e, Repeated(frame, n));
            r.firstFrameSequence == FrameSequence(frame) && r.firstTimeUs == FrameTime(frame)
    decreases n
  {
    hide FrameSequence, FrameTime;
    if n > 0 {
      var next := Appended(e, [frame]);
      assert Repeated(frame, n)[1..] == Repeated(frame, n - 1);
      RepeatedFrames(frame, n - 1);
      if n > 1 || next.totalFrames != 0 {
        FirstOfRepeated(next, frame, n - 1);
      }
    }
  }

  /** The bound is reached: of 2^32 + 1 blocks of one and the same frame, all but the first can be cut out unnoticed,
      since every count in the footer is of 32 bits. */
  lemma RemovedUnnoticed(header: FileHeader, frame: Frame, drops: uint32)
    requires Standard(header) && GoodFrame(frame)
    ensures var batches := Repeated(frame, 0x1_0000_0001);
            && AllAppendable(batches)
            && var footer := FooterBytes(MakeFooter(AfterAppends(STARTED, batches), drops));
               Verify(InMemory(HeaderBytes(header) + KeptBytes(batches, [0]) + footer)).complete
  {
    hide Verify, HeaderBytes, FooterBytes, BlockBytes, AfterAppends, Repeated, GoodFrame, FrameSequence, FrameTime,
         Recovered, FinalFaults, FrameFaults, Appendable;
    var n := 0x1_0000_0001;
    var batches, one := Repeated(frame, n), [[frame]];
    RepeatedFrames(frame, n);
    FirstOfRepeated(STARTED, frame, n);
    CountsAfter(STARTED, batches);
    LastAfter(STARTED, batches);
    OneFrame(frame);
    OneBatch([frame]);
    var f := MakeFooter(AfterAppends(STARTED, batches), drops);
    assert Tells(f, one);
    assert [0][1..] == [] && one[1..] == [];
    assert KeptBytes(batches, [0]) == BlocksBytes(1, one);
    var data := HeaderBytes(header) + BlocksBytes(1, one) + FooterBytes(f);
    ReliableMemory(data);
    FooterDecides(InMemory(data), header, one, f);
  }

  lemma OneFrame(frame: Frame)
    requires GoodFrame(frame)
    ensures AllAppendable([[frame]]) && AllGoodBatches([[frame]])
  {
    hide GoodFrame;
  }
}
