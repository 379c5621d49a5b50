/** What the verifier says of a recording the encoder produced, whole or cut short. */
module RecordingRecovery {
  import opened Bytes
  import opened RecordingFile
  import opened RecordingEncoder
  import opened RecordingVerifier
  import Crc

  ghost predicate Reliable(reader: Reader) {
    forall offset, size :: !reader.refuses(offset, size)
  }

  ghost predicate AllGood(frames: seq<Frame>) {
    forall f :: f in frames ==> GoodFrame(f)
  }

  ghost predicate IsPrefix(a: seq<Byte>, b: seq<Byte>) {
    |a| <= |b| && a == b[..|a|]
  }

  // ---- The walk, seen as a fold over frames and batches ----

  ghost function ObserveFrames(p: Progress, frames: seq<Frame>): Progress
    decreases |frames|
  {
    if frames == [] then p else ObserveFrames(ObserveFrame(p, frames[0]), frames[1..])
  }

  ghost function AfterBatch(p: Progress, frames: seq<Frame>): Progress
    requires Appendable(frames)
  {
    PassBlock(ObserveFrames(p, frames), MakeBlock(p.expectedBlock, frames))
  }

  ghost function AfterBatches(p: Progress, batches: seq<seq<Frame>>): Progress
    requires AllAppendable(batches)
    decreases |batches|
  {
    if batches == [] then p else AfterBatches(AfterBatch(p, batches[0]), batches[1..])
  }

  /** How many of the batches' blocks lie wholly within the first `n` bytes. */
  ghost function WholeBlocks(batches: seq<seq<Frame>>, n: nat): (k: nat)
    ensures k <= |batches|
    decreases |batches|
  {
    if batches == [] || n < BlockLength(batches[0]) then 0
    else 1 + WholeBlocks(batches[1..], n - BlockLength(batches[0]))
  }

  ghost function BlocksLength(batches: seq<seq<Frame>>): nat
    decreases |batches|
  {
    if batches == [] then 0 else BlockLength(batches[0]) + BlocksLength(batches[1..])
  }

  lemma {:induction false} BlocksBytesLength(blockSequence: uint32, batches: seq<seq<Frame>>)
    requires AllAppendable(batches)
    ensures |BlocksBytes(blockSequence, batches)| == BlocksLength(batches)
    decreases |batches|
  {
    if batches != [] {
      BlocksBytesLength(Add32(blockSequence, 1), batches[1..]);
    }
  }

  // ---- One block ----

  lemma {:induction false} ObserveFramesKeeps(p: Progress, frames: seq<Frame>)
    ensures var q := ObserveFrames(p, frames);
            q.offset == p.offset && q.expectedBlock == p.expectedBlock && q.report.header == p.report.header
            && q.report.complete == p.report.complete && q.report.validBytes == p.report.validBytes
            && q.report.recoverableFrames == p.report.recoverableFrames && q.report.validBlocks == p.report.validBlocks
            && q.report.producerDrops == p.report.producerDrops
    decreases |frames|
  {
    hide ObserveFrame;
    if frames != [] {
      ObserveFrameKeeps(p, frames[0]);
      ObserveFramesKeeps(ObserveFrame(p, frames[0]), frames[1..]);
    }
  }

  lemma {:induction false} ScanOfFrames(reader: Reader, p: Progress, at: nat, frames: seq<Frame>, crc: bv32)
    requires Reliable(reader) && AllGood(frames)
    requires at + FRAME_SIZE * |frames| <= |reader.data|
    requires reader.data[at..at + FRAME_SIZE * |frames|] == Flatten(frames)
    ensures ScanPayload(reader, p, at, |frames|, crc)
         == Scanned(ObserveFrames(p, frames), Crc.Update(crc, Flatten(frames)))
    decreases |frames|
  {
    hide ObserveFrame, GoodFrame, Crc.Update;
    if frames == [] {
      assert Crc.Update(crc, []) == crc by { UpdateByNothing(crc); }
    } else {
      var rest := frames[1..];
      var whole := reader.data[at..at + FRAME_SIZE * |frames|];
      PayloadLength(frames);
      PayloadLength(rest);
      SliceOfSlice(reader.data, at, at + FRAME_SIZE * |frames|, 0, FRAME_SIZE);
      SliceOfSlice(reader.data, at, at + FRAME_SIZE * |frames|, FRAME_SIZE, FRAME_SIZE * |frames|);
      assert whole[0..FRAME_SIZE] == frames[0] && whole[FRAME_SIZE..FRAME_SIZE * |frames|] == Flatten(rest);
      Crc.UpdateConcat(crc, frames[0], Flatten(rest));
      assert frames[0] in frames;
      ScanOfFrames(reader, ObserveFrame(p, frames[0]), at + FRAME_SIZE, rest, Crc.Update(crc, frames[0]));
    }
  }

  lemma UpdateByNothing(crc: bv32)
    ensures Crc.Update(crc, []) == crc
  {
  }

  lemma Middle(before: seq<Byte>, x: seq<Byte>, after: seq<Byte>, i: nat, j: nat)
    requires i <= j <= |x|
    ensures (before + x + after)[|before| + i..|before| + j] == x[i..j]
  {
  }

  /** A block that is all there is passed over. */
  lemma WholeBlock(reader: Reader, p: Progress, before: seq<Byte>, frames: seq<Frame>, after: seq<Byte>)
    requires Reliable(reader) && Appendable(frames) && AllGood(frames)
    requires |before| == p.offset
    requires reader.data == before + BlockBytes(p.expectedBlock, frames) + after
    ensures VerifyBlocks(reader, p) == VerifyBlocks(reader, AfterBatch(p, frames))
  {
    hide BlockHeaderBytes, BlockHeaderOf, Intact, U32, Crc.Checksum, Crc.Update, ObserveFrames, PassBlock, MakeBlock,
         ScanPayload, FooterOf, CheckFooter, Flatten;
    var block := MakeBlock(p.expectedBlock, frames);
    var bytes := BlockBytes(p.expectedBlock, frames);
    var head := BlockHeaderBytes(block);
    var payload := p.offset + BLOCK_SIZE;
    PayloadLength(frames);
    BlockHeaderRoundTrip(block);
    Middle(before, bytes, after, 0, 4);
    Middle(before, bytes, after, 0, BLOCK_SIZE);
    Middle(before, bytes, after, BLOCK_SIZE, |bytes|);
    assert bytes[0..4] == head[..4] && bytes[0..BLOCK_SIZE] == head && bytes[BLOCK_SIZE..|bytes|] == Flatten(frames);
    MakeBlockFields(p.expectedBlock, frames);
    assert AcceptableBlock(head, p.expectedBlock);
    ScanOfFrames(reader, p, payload, frames, Crc.INITIAL);
    ObserveFramesKeeps(p, frames);
    PassBlockOffset(ObserveFrames(p, frames), block);
  }

  lemma PassBlockOffset(p: Progress, block: BlockHeader)
    ensures PassBlock(p, block).offset == p.offset + BLOCK_SIZE + block.payloadBytes
  {
  }

  lemma MakeBlockFields(blockSequence: uint32, frames: seq<Frame>)
    requires Appendable(frames)
    ensures var b := MakeBlock(blockSequence, frames);
            && b.blockSequence == blockSequence && b.frameCount == |frames|
            && b.payloadBytes == |frames| * FRAME_SIZE
            && b.payloadCrc == Crc.Complement(Crc.Update(Crc.INITIAL, Flatten(frames)))
  {
    hide FrameSequence, Crc.Update, Crc.Complement;
  }

  /** A block that is cut short ends the walk. */
  lemma PartOfBlock(reader: Reader, p: Progress, before: seq<Byte>, frames: seq<Frame>, part: seq<Byte>)
    requires Reliable(reader) && Appendable(frames)
    requires |before| == p.offset && reader.data == before + part
    requires |part| < BlockLength(frames) && IsPrefix(part, BlockBytes(p.expectedBlock, frames))
    ensures VerifyBlocks(reader, p) == p.report.Faulted(TRUNCATED)
  {
    hide BlockHeaderBytes, BlockHeaderOf, Intact, U32, Crc.Checksum, Crc.Update, ObserveFrames, PassBlock, MakeBlock,
         ScanPayload, FooterOf, CheckFooter, Flatten;
    var block := MakeBlock(p.expectedBlock, frames);
    var bytes := BlockBytes(p.expectedBlock, frames);
    var head := BlockHeaderBytes(block);
    BlockHeaderRoundTrip(block);
    MakeBlockFields(p.expectedBlock, frames);
    if |part| >= 4 {
      Middle(before, part, [], 0, 4);
      assert part[0..4] == head[..4];
    }
    if |part| >= BLOCK_SIZE {
      Middle(before, part, [], 0, BLOCK_SIZE);
      assert part[0..BLOCK_SIZE] == head;
      assert AcceptableBlock(head, p.expectedBlock);
    }
    assert before + part + [] == before + part;
  }

  lemma WholeFooter(reader: Reader, p: Progress, before: seq<Byte>, footer: FileFooter)
    requires Reliable(reader)
    requires |before| == p.offset && reader.data == before + FooterBytes(footer)
    ensures VerifyBlocks(reader, p) == CheckFooter(p, footer, |reader.data|)
  {
    hide BlockHeaderOf, Intact, U32, ScanPayload, FooterOf, FooterBytes, CheckFooter, AcceptableBlock;
    var bytes := FooterBytes(footer);
    FooterRoundTrip(footer);
    Middle(before, bytes, [], 0, 4);
    Middle(before, bytes, [], 0, FOOTER_SIZE);
    assert before + bytes + [] == before + bytes;
    assert bytes[0..FOOTER_SIZE] == bytes && bytes[0..4] == bytes[..4];
  }

  lemma PartOfFooter(reader: Reader, p: Progress, before: seq<Byte>, footer: FileFooter, part: seq<Byte>)
    requires Reliable(reader)
    requires |before| == p.offset && reader.data == before + part
    requires |part| < FOOTER_SIZE && IsPrefix(part, FooterBytes(footer))
    ensures VerifyBlocks(reader, p) == p.report.Faulted(TRUNCATED)
  {
    hide BlockHeaderOf, Intact, U32, ScanPayload, FooterOf, FooterBytes, CheckFooter, AcceptableBlock;
    FooterRoundTrip(footer);
    if |part| >= 4 {
      Middle(before, part, [], 0, 4);
      assert before + part + [] == before + part;
      assert part[0..4] == FooterBytes(footer)[..4];
    }
  }

  ghost predicate AllGoodBatches(batches: seq<seq<Frame>>) {
    forall b :: b in batches ==> AllGood(b)
  }

  lemma PrefixPast(part: seq<Byte>, first: seq<Byte>, rest: seq<Byte>)
    requires IsPrefix(part, first + rest) && |part| >= |first|
    ensures part == first + part[|first|..] && IsPrefix(part[|first|..], rest)
  {
    assert part[..|first|] == (first + rest)[..|first|];
  }

  /** The walk over any prefix of the blocks and the footer. */
  lemma {:induction false} VerifyPrefix(reader: Reader, p: Progress, before: seq<Byte>, batches: seq<seq<Frame>>,
                                        footer: FileFooter, part: seq<Byte>)
    requires Reliable(reader) && AllAppendable(batches) && AllGoodBatches(batches)
    requires |before| == p.offset && reader.data == before + part
    requires IsPrefix(part, BlocksBytes(p.expectedBlock, batches) + FooterBytes(footer))
    ensures var q := AfterBatches(p, batches[..WholeBlocks(batches, |part|)]);
            VerifyBlocks(reader, p)
            == if |part| == BlocksLength(batches) + FOOTER_SIZE then CheckFooter(q, footer, |reader.data|)
               else q.report.Faulted(TRUNCATED)
    decreases |batches|
  {
    hide VerifyBlocks, BlockBytes, FooterBytes, CheckFooter, AfterBatch, BlockLength, Appendable, AllGood;
    var all := BlocksBytes(p.expectedBlock, batches);
    BlocksBytesLength(p.expectedBlock, batches);
    if batches == [] {
      assert all + FooterBytes(footer) == FooterBytes(footer);
      assert batches[..0] == [];
      if |part| == FOOTER_SIZE {
        WholeFooter(reader, p, before, footer);
      } else {
        PartOfFooter(reader, p, before, footer, part);
      }
    } else {
      var first, rest := batches[0], batches[1..];
      var next := Add32(p.expectedBlock, 1);
      var bytes := BlockBytes(p.expectedBlock, first);
      var tail := BlocksBytes(next, rest) + FooterBytes(footer);
      assert all + FooterBytes(footer) == bytes + tail;
      if |part| < |bytes| {
        assert part == bytes[..|part|];
        assert batches[..0] == [];
        PartOfBlock(reader, p, before, first, part);
      } else {
        var left := part[|bytes|..];
        PrefixPast(part, bytes, tail);
        assert before + bytes + left == before + (bytes + left);
        WholeBlock(reader, p, before, first, left);
        AfterBatchPlace(p, first);
        assert |before + bytes| == AfterBatch(p, first).offset;
        VerifyPrefix(reader, AfterBatch(p, first), before + bytes, rest, footer, left);
        var k := WholeBlocks(rest, |left|);
        assert batches[..k + 1][0] == first && batches[..k + 1][1..] == rest[..k];
      }
    }
  }

  lemma AfterBatchPlace(p: Progress, frames: seq<Frame>)
    requires Appendable(frames)
    ensures AfterBatch(p, frames).offset == p.offset + BlockLength(frames)
    ensures AfterBatch(p, frames).expectedBlock == Add32(p.expectedBlock, 1)
  {
    hide ObserveFrames, Crc.Checksum;
    ObserveFramesKeeps(p, frames);
    MakeBlockFields(p.expectedBlock, frames);
  }

  // ---- What the walk has seen, said of the frames alone ----

  ghost predicate HasForeignFrame(run: uint32, frames: seq<Frame>) {
    exists i :: 0 <= i < |frames| && FrameRun(frames[i]) != run
  }

  predicate Gap(frames: seq<Frame>, i: int)
    requires 0 < i < |frames|
  {
    FrameSequence(frames[i]) != Add32(FrameSequence(frames[i - 1]), 1)
  }

  predicate Regression(frames: seq<Frame>, i: int)
    requires 0 < i < |frames|
  {
    FrameTime(frames[i]) < FrameTime(frames[i - 1])
  }

  ghost predicate HasGap(frames: seq<Frame>) {
    exists i :: 0 < i < |frames| && Gap(frames, i)
  }

  ghost predicate HasRegression(frames: seq<Frame>) {
    exists i :: 0 < i < |frames| && Regression(frames, i)
  }

  ghost function FrameFaults(run: uint32, frames: seq<Frame>): bv32 {
    Mark(HasForeignFrame(run, frames), RUN_MISMATCH)
    | Mark(HasGap(frames), SEQUENCE_GAP)
    | Mark(HasRegression(frames), TIME_REGRESSION)
  }

  /** The frame fields of the walk's state are those of the frames seen so far. */
  ghost predicate Tracks(p: Progress, frames: seq<Frame>) {
    && p.haveFrame == (frames != [])
    && p.report.faultBits == FrameFaults(p.report.header.runIdHash, frames)
    && (frames != [] ==>
          var first, last := frames[0], frames[|frames| - 1];
          && p.previousSequence == FrameSequence(last) == p.report.lastFrameSequence
          && p.previousTime == FrameTime(last) == p.report.lastTimeUs
          && p.firstSequence == FrameSequence(first) == p.report.firstFrameSequence
          && p.firstTime == FrameTime(first) == p.report.firstTimeUs)
    && (frames == [] ==>
          && p.report.firstFrameSequence == 0 && p.report.lastFrameSequence == 0
          && p.report.firstTimeUs == 0 && p.report.lastTimeUs == 0)
  }

  lemma ForeignSnoc(run: uint32, frames: seq<Frame>, f: Frame)
    ensures HasForeignFrame(run, frames + [f]) <==> HasForeignFrame(run, frames) || FrameRun(f) != run
  {
    hide FrameRun;
    var more := frames + [f];
    assert more[|frames|] == f;
    if HasForeignFrame(run, frames) {
      var i :| 0 <= i < |frames| && FrameRun(frames[i]) != run;
      assert more[i] == frames[i];
    }
  }

  lemma GapSnoc(frames: seq<Frame>, f: Frame)
    ensures HasGap(frames + [f])
       <==> HasGap(frames) || (frames != [] && FrameSequence(f) != Add32(FrameSequence(frames[|frames| - 1]), 1))
  {
    hide FrameSequence;
    var more := frames + [f];
    forall i | 0 < i < |frames| ensures Gap(more, i) == Gap(frames, i) {
      assert more[i] == frames[i] && more[i - 1] == frames[i - 1];
    }
    if frames != [] {
      assert Gap(more, |frames|) <==> FrameSequence(f) != Add32(FrameSequence(frames[|frames| - 1]), 1);
    }
  }

  lemma RegressionSnoc(frames: seq<Frame>, f: Frame)
    ensures HasRegression(frames + [f])
       <==> HasRegression(frames) || (frames != [] && FrameTime(f) < FrameTime(frames[|frames| - 1]))
  {
    hide FrameTime;
    var more := frames + [f];
    forall i | 0 < i < |frames| ensures Regression(more, i) == Regression(frames, i) {
      assert more[i] == frames[i] && more[i - 1] == frames[i - 1];
    }
    if frames != [] {
      assert Regression(more, |frames|) <==> FrameTime(f) < FrameTime(frames[|frames| - 1]);
    }
  }

  lemma MarksAccumulate(a: bool, b: bool, c: bool, a': bool, b': bool, c': bool)
    ensures (Mark(a, RUN_MISMATCH) | Mark(b, SEQUENCE_GAP) | Mark(c, TIME_REGRESSION))
            | Mark(a', RUN_MISMATCH) | Mark(b', SEQUENCE_GAP) | Mark(c', TIME_REGRESSION)
         == Mark(a || a', RUN_MISMATCH) | Mark(b || b', SEQUENCE_GAP) | Mark(c || c', TIME_REGRESSION)
  {
  }

  lemma ObserveFrameTracks(p: Progress, frames: seq<Frame>, f: Frame)
    requires Tracks(p, frames)
    ensures Tracks(ObserveFrame(p, f), frames + [f])
  {
    hide FrameRun, FrameSequence, FrameTime, HasForeignFrame, HasGap, HasRegression;
    var run := p.report.header.runIdHash;
    ForeignSnoc(run, frames, f);
    GapSnoc(frames, f);
    RegressionSnoc(frames, f);
    var mismatch := FrameRun(f) != run;
    var gap := p.haveFrame && FrameSequence(f) != Add32(p.previousSequence, 1);
    var regression := p.haveFrame && FrameTime(f) < p.previousTime;
    MarksAccumulate(HasForeignFrame(run, frames), HasGap(frames), HasRegression(frames), mismatch, gap, regression);
    var more := frames + [f];
    assert more[|more| - 1] == f && (frames != [] ==> more[0] == frames[0]);
    assert ObserveFrame(p, f).report.faultBits
        == p.report.faultBits | Mark(mismatch, RUN_MISMATCH) | Mark(gap, SEQUENCE_GAP) | Mark(regression,
                                                                                              TIME_REGRESSION);
  }

  lemma {:induction false} ObserveFramesTracks(p: Progress, seen: seq<Frame>, frames: seq<Frame>)
    requires Tracks(p, seen)
    ensures Tracks(ObserveFrames(p, frames), seen + frames)
    decreases |frames|
  {
    hide Tracks, ObserveFrame;
    if frames == [] {
      assert seen + frames == seen;
    } else {
      ObserveFrameTracks(p, seen, frames[0]);
      ObserveFramesTracks(ObserveFrame(p, frames[0]), seen + [frames[0]], frames[1..]);
      assert seen + [frames[0]] + frames[1..] == seen + frames;
    }
  }

  /** The walk's counters after some batches. */
  ghost predicate Counts(p: Progress, q: Progress, batches: seq<seq<Frame>>) {
    && q.offset == p.offset + BlocksLength(batches)
    && q.expectedBlock == Add32(p.expectedBlock, |batches|)
    && q.report.recoverableFrames == Add32(p.report.recoverableFrames, |Flatten(batches)|)
    && q.report.validBlocks == Add32(p.report.validBlocks, |batches|)
    && q.report.validBytes == q.offset
    && q.report.header == p.report.header
    && q.report.complete == p.report.complete
    && q.report.producerDrops == p.report.producerDrops
  }

  lemma OneBatch(frames: seq<Frame>)
    ensures Flatten([frames]) == frames
    ensures BlocksLength([frames]) == BlockLength(frames)
  {
    var one: seq<seq<Frame>> := [frames];
    assert one[1..] == [];
    assert Flatten(one) == frames + [];
  }

  lemma AfterBatchCounts(p: Progress, frames: seq<Frame>)
    requires Appendable(frames) && p.report.validBytes == p.offset
    ensures Counts(p, AfterBatch(p, frames), [frames])
    ensures forall seen: seq<Frame> :: Tracks(p, seen) ==> Tracks(AfterBatch(p, frames), seen + frames)
  {
    hide ObserveFrames, Crc.Checksum, FrameFaults, FrameSequence, FrameTime;
    ObserveFramesKeeps(p, frames);
    MakeBlockFields(p.expectedBlock, frames);
    OneBatch(frames);
    forall seen: seq<Frame> | Tracks(p, seen) ensures Tracks(AfterBatch(p, frames), seen + frames) {
      ObserveFramesTracks(p, seen, frames);
    }
  }

  lemma {:induction false} AfterBatchesCounts(p: Progress, seen: seq<Frame>, batches: seq<seq<Frame>>)
    requires AllAppendable(batches) && p.report.validBytes == p.offset && Tracks(p, seen)
    ensures Counts(p, AfterBatches(p, batches), batches)
    ensures Tracks(AfterBatches(p, batches), seen + Flatten(batches))
    decreases |batches|
  {
    hide AfterBatch, Tracks;
    if batches == [] {
      assert seen + Flatten(batches) == seen;
      Add32Twice(p.expectedBlock, 0, 0);
    } else {
      var q := AfterBatch(p, batches[0]);
      AfterBatchCounts(p, batches[0]);
      OneBatch(batches[0]);
      AfterBatchesCounts(q, seen + batches[0], batches[1..]);
      assert seen + batches[0] + Flatten(batches[1..]) == seen + Flatten(batches);
      Add32Twice(p.expectedBlock, 1, |batches| - 1);
      Add32Twice(p.report.validBlocks, 1, |batches| - 1);
      Add32Twice(p.report.recoverableFrames, |batches[0]|, |Flatten(batches[1..])|);
    }
  }

  // ---- Main results ----

  /** A header as makeRecordingFileHeader writes it. */
  ghost predicate Standard(h: FileHeader) {
    h.magic == FILE_MAGIC && SupportedFormat(h)
  }

  /** The report of a walk that passed over exactly these batches. */
  ghost function Recovered(header: FileHeader, batches: seq<seq<Frame>>): Report {
    var frames := Flatten(batches);
    var none := frames == [];
    Report(FrameFaults(header.runIdHash, frames), Add32(0, |frames|), Add32(0, |batches|), 0,
           if none then 0 else FrameSequence(frames[0]), if none then 0 else FrameSequence(frames[|frames| - 1]),
           if none then 0 else FrameTime(frames[0]), if none then 0 else FrameTime(frames[|frames| - 1]),
           HEADER_SIZE + BlocksLength(batches), false, header)
  }

  lemma WalkRecovers(header: FileHeader, batches: seq<seq<Frame>>)
    requires AllAppendable(batches)
    ensures var q := AfterBatches(StartOfBlocks(header), batches);
            q.report == Recovered(header, batches) && Tracks(q, Flatten(batches))
            && q.offset == HEADER_SIZE + BlocksLength(batches)
  {
    hide FrameSequence, FrameTime, HasForeignFrame, HasGap, HasRegression;
    var p := StartOfBlocks(header);
    NothingSeen(header);
    AfterBatchesCounts(p, [], batches);
    assert [] + Flatten(batches) == Flatten(batches);
  }

  lemma NothingSeen(header: FileHeader)
    ensures Tracks(StartOfBlocks(header), [])
  {
  }

  lemma HeaderAccepted(reader: Reader, header: FileHeader, rest: seq<Byte>)
    requires Reliable(reader) && Standard(header)
    requires reader.data == HeaderBytes(header) + rest
    ensures Verify(reader) == VerifyBlocks(reader, StartOfBlocks(header))
  {
    hide HeaderOf, HeaderBytes, Intact, VerifyBlocks;
    HeaderRoundTrip(header);
    assert reader.data[0..HEADER_SIZE] == HeaderBytes(header);
  }

  /** A recording cut anywhere is recovered up to its last whole block. */
  lemma CutRecordingRecovered(reader: Reader, header: FileHeader, batches: seq<seq<Frame>>, producerDrops: uint32)
    requires Reliable(reader) && Standard(header) && AllAppendable(batches) && AllGoodBatches(batches)
    requires IsPrefix(reader.data, RecordingBytes(header, batches, producerDrops))
    requires reader.data != RecordingBytes(header, batches, producerDrops)
    ensures Verify(reader)
         == if |reader.data| < HEADER_SIZE then EMPTY_REPORT.(faultBits := TRUNCATED)
            else Recovered(header, batches[..WholeBlocks(batches, |reader.data| - HEADER_SIZE)]).Faulted(TRUNCATED)
  {
    hide HeaderBytes, FooterBytes, VerifyBlocks, Recovered, BlocksBytes, CheckFooter;
    var all := RecordingBytes(header, batches, producerDrops);
    if |reader.data| >= HEADER_SIZE {
      CutAfterHeader(reader, header, batches, producerDrops);
    }
  }

  lemma CutAfterHeader(reader: Reader, header: FileHeader, batches: seq<seq<Frame>>, producerDrops: uint32)
    requires Reliable(reader) && Standard(header) && AllAppendable(batches) && AllGoodBatches(batches)
    requires IsPrefix(reader.data, RecordingBytes(header, batches, producerDrops))
    requires |reader.data| >= HEADER_SIZE
    ensures var size := |reader.data| - HEADER_SIZE;
            var q := AfterBatches(StartOfBlocks(header), batches[..WholeBlocks(batches, size)]);
            Verify(reader)
            == if size == BlocksLength(batches) + FOOTER_SIZE
               then CheckFooter(q, MakeFooter(AfterAppends(STARTED, batches), producerDrops), |reader.data|)
               else Recovered(header, batches[..WholeBlocks(batches, size)]).Faulted(TRUNCATED)
    ensures |reader.data| == |RecordingBytes(header, batches, producerDrops)|
       <==> |reader.data| - HEADER_SIZE == BlocksLength(batches) + FOOTER_SIZE
  {
    hide *;
    var p := StartOfBlocks(header);
    var head := HeaderBytes(header);
    var footer := MakeFooter(AfterAppends(STARTED, batches), producerDrops);
    var part := reader.data[HEADER_SIZE..];
    RecordingLength(header, batches, producerDrops);
    SplitAtHeader(reader.data, header, batches, producerDrops);
    StartPlace(header);
    TakeAppendable(batches, WholeBlocks(batches, |part|));
    HeaderAccepted(reader, header, part);
    VerifyPrefix(reader, p, head, batches, footer, part);
    WalkRecovers(header, batches[..WholeBlocks(batches, |part|)]);
  }

  lemma TakeAppendable(batches: seq<seq<Frame>>, k: nat)
    requires k <= |batches| && AllAppendable(batches)
    ensures AllAppendable(batches[..k])
  {
  }

  lemma SplitAtHeader(data: seq<Byte>, header: FileHeader, batches: seq<seq<Frame>>, producerDrops: uint32)
    requires AllAppendable(batches) && |data| >= HEADER_SIZE
    requires IsPrefix(data, RecordingBytes(header, batches, producerDrops))
    ensures data == HeaderBytes(header) + data[HEADER_SIZE..]
    ensures IsPrefix(data[HEADER_SIZE..],
                     BlocksBytes(1, batches) + FooterBytes(MakeFooter(AfterAppends(STARTED, batches), producerDrops)))
  {
    hide HeaderBytes, FooterBytes, BlocksBytes, AfterAppends, Appendable, MakeFooter;
    var head := HeaderBytes(header);
    var tail := BlocksBytes(1, batches) + FooterBytes(MakeFooter(AfterAppends(STARTED, batches), producerDrops));
    assert RecordingBytes(header, batches, producerDrops) == head + tail;
    assert data[..HEADER_SIZE] == head;
    assert data[HEADER_SIZE..] == tail[..|data| - HEADER_SIZE];
  }

  lemma StartPlace(header: FileHeader)
    ensures StartOfBlocks(header).offset == HEADER_SIZE && StartOfBlocks(header).expectedBlock == 1
  {
  }

  lemma {:induction false} AllBlocksWhole(batches: seq<seq<Frame>>, n: nat)
    requires n >= BlocksLength(batches)
    ensures WholeBlocks(batches, n) == |batches|
    decreases |batches|
  {
    if batches != [] {
      AllBlocksWhole(batches[1..], n - BlockLength(batches[0]));
    }
  }

  /** The encoder's footer still names the first frame; it stops doing so if the 32-bit frame count
      wraps around to zero. */
  ghost predicate FirstRemembered(batches: seq<seq<Frame>>)
    requires AllAppendable(batches)
  {
    var e := AfterAppends(STARTED, batches);
    var frames := Flatten(batches);
    frames != [] ==> e.firstFrameSequence == FrameSequence(frames[0]) && e.firstTimeUs == FrameTime(frames[0])
  }

  lemma OwnFooterAgrees(header: FileHeader, batches: seq<seq<Frame>>, producerDrops: uint32)
    requires AllAppendable(batches)
    ensures FooterAgrees(AfterBatches(StartOfBlocks(header), batches),
                         MakeFooter(AfterAppends(STARTED, batches), producerDrops))
       <==> FirstRemembered(batches)
    ensures Flatten(batches) == [] <==> batches == []
  {
    hide FrameSequence, FrameTime, AfterAppends, AfterBatches, FrameFaults;
    WalkRecovers(header, batches);
    CountsAfter(STARTED, batches);
    if batches != [] {
      LastAfter(STARTED, batches);
    }
  }

  lemma CompletenessOfMarks(a: bool, b: bool, c: bool, mismatch: bool, noFrames: bool)
    ensures (Mark(a, RUN_MISMATCH) | Mark(b, SEQUENCE_GAP) | Mark(c, TIME_REGRESSION)
             | Mark(mismatch, FOOTER_MISMATCH) | Mark(noFrames, NO_FRAMES)) & INCOMPLETE_MASK == 0
       <==> !mismatch && !noFrames
  {
  }

  /** The faults of the frames, with those the footer adds. */
  ghost function FinalFaults(run: uint32, frames: seq<Frame>, mismatch: bool, noFrames: bool): bv32 {
    WithFooterFaults(FrameFaults(run, frames), mismatch, noFrames)
  }

  lemma Completeness(run: uint32, frames: seq<Frame>, mismatch: bool, noFrames: bool)
    ensures Completes(FinalFaults(run, frames, mismatch, noFrames)) <==> !mismatch && !noFrames
  {
    hide HasForeignFrame, HasGap, HasRegression, Mark;
    CompletenessOfMarks(HasForeignFrame(run, frames), HasGap(frames), HasRegression(frames), mismatch, noFrames);
  }

  lemma CheckFooterAtEnd(p: Progress, frames: seq<Frame>, footer: FileFooter, size: nat)
    requires p.offset + FOOTER_SIZE == size && Tracks(p, frames)
    ensures var bits := FinalFaults(p.report.header.runIdHash, frames, !FooterAgrees(p, footer), frames == []);
            CheckFooter(p, footer, size)
            == p.report.(faultBits := bits, producerDrops := footer.producerDrops, validBytes := size,
                         complete := Completes(bits))
  {
    hide FooterAgrees, FrameFaults, WithFooterFaults, Completes;
  }

  /** A finished recording is verified: every frame and block is counted, the ends, the drops and the
      header come back, and it is complete exactly when it has frames and the footer names the first. */
  lemma FinishedRecordingVerified(reader: Reader, header: FileHeader, batches: seq<seq<Frame>>, producerDrops: uint32)
    requires Reliable(reader) && Standard(header) && AllAppendable(batches) && AllGoodBatches(batches)
    requires reader.data == RecordingBytes(header, batches, producerDrops)
    ensures var complete := batches != [] && FirstRemembered(batches);
            Verify(reader)
            == Recovered(header, batches).(
                 faultBits := FinalFaults(header.runIdHash, Flatten(batches), !FirstRemembered(batches), batches == []),
                 producerDrops := producerDrops, validBytes := |reader.data|, complete := complete)
  {
    hide *;
    var q := AfterBatches(StartOfBlocks(header), batches);
    var footer := MakeFooter(AfterAppends(STARTED, batches), producerDrops);
    PrefixOfItself(reader.data);
    RecordingLength(header, batches, producerDrops);
    CutAfterHeader(reader, header, batches, producerDrops);
    AllBlocksWhole(batches, |reader.data| - HEADER_SIZE);
    assert batches[..|batches|] == batches;
    WalkRecovers(header, batches);
    OwnFooterAgrees(header, batches, producerDrops);
    FooterDrops(AfterAppends(STARTED, batches), producerDrops);
    CheckFooterAtEnd(q, Flatten(batches), footer, |reader.data|);
    Completeness(header.runIdHash, Flatten(batches), !FirstRemembered(batches), batches == []);
    RecoveredCounts(header, batches);
  }

  lemma PrefixOfItself(data: seq<Byte>)
    ensures IsPrefix(data, data)
  {
  }

  lemma RecordingLength(header: FileHeader, batches: seq<seq<Frame>>, producerDrops: uint32)
    requires AllAppendable(batches)
    ensures |RecordingBytes(header, batches, producerDrops)| == HEADER_SIZE + BlocksLength(batches) + FOOTER_SIZE
  {
    hide HeaderBytes, FooterBytes, BlocksBytes, Appendable;
    BlocksBytesLength(1, batches);
  }

  lemma FooterDrops(e: Encoder, producerDrops: uint32)
    ensures MakeFooter(e, producerDrops).producerDrops == producerDrops
  {
  }

  lemma RecoveredCounts(header: FileHeader, batches: seq<seq<Frame>>)
    ensures var r := Recovered(header, batches);
            && r.recoverableFrames == Add32(0, |Flatten(batches)|) && r.validBlocks == Add32(0, |batches|)
            && r.header == header && !r.complete && r.producerDrops == 0
            && r.faultBits == FrameFaults(header.runIdHash, Flatten(batches))
  {
    hide FrameFaults, FrameSequence, FrameTime;
  }

  /** Below 2^32 frames, a finished recording is complete exactly when it has a frame, and the only
      other faults reported are those the frames themselves show. */
  lemma FinishedRecordingComplete(reader: Reader, header: FileHeader, batches: seq<seq<Frame>>, producerDrops: uint32)
    requires Reliable(reader) && Standard(header) && AllAppendable(batches) && AllGoodBatches(batches)
    requires reader.data == RecordingBytes(header, batches, producerDrops)
    requires |Flatten(batches)| < 0x1_0000_0000
    ensures var r := Verify(reader); var frames := Flatten(batches);
            && r.complete == (batches != [])
            && r.faultBits == FinalFaults(header.runIdHash, frames, false, batches == [])
            && r.recoverableFrames == |frames| && r.validBlocks == Add32(0, |batches|)
            && r.producerDrops == producerDrops && r.header == header && r.validBytes == |reader.data|
  {
    hide *;
    FinishedRecordingVerified(reader, header, batches, producerDrops);
    FirstRememberedBelowWrap(batches);
    RecoveredCounts(header, batches);
    Add32Small(|Flatten(batches)|);
  }

  lemma FirstRememberedBelowWrap(batches: seq<seq<Frame>>)
    requires AllAppendable(batches) && |Flatten(batches)| < 0x1_0000_0000
    ensures FirstRemembered(batches)
  {
    hide FrameSequence, FrameTime, AfterAppends;
    if batches != [] {
      FirstAfter(batches);
    }
  }
}
