/** The bytes that RecordingFileEncoder (include/robot/telemetry/recording_codec.hpp) emits, as
    functions of its state and arguments. The class itself is in RecordingSink.dfy, next to the
    writer it calls. */
module RecordingEncoder {
  import opened Bytes
  import opened RecordingFile
  import Crc

  /** The largest batch whose payload size fits in 32 bits. */
  const MAX_BATCH: nat := 0xFFFF_FFFF / FRAME_SIZE

  /** The encoder's fields; `writing` says that it holds a writer. */
  datatype Encoder = Encoder(
    writing: bool, blockSequence: uint32, totalFrames: uint32,
    firstFrameSequence: uint32, lastFrameSequence: uint32, firstTimeUs: uint64, lastTimeUs: uint64)

  const IDLE: Encoder := Encoder(false, 0, 0, 0, 0, 0, 0)
  const STARTED: Encoder := IDLE.(writing := true)

  predicate Appendable(frames: seq<Frame>) {
    0 < |frames| <= MAX_BATCH
  }

  function MakeBlock(blockSequence: uint32, frames: seq<Frame>): BlockHeader
    requires Appendable(frames)
  {
    BlockHeader(blockSequence, FrameSequence(frames[0]), |frames|, |frames| * FRAME_SIZE,
                Crc.Checksum(Flatten(frames)))
  }

  /** The state in which both writes of an append are made. */
  function Numbered(e: Encoder): Encoder {
    e.(blockSequence := Add32(e.blockSequence, 1))
  }

  /** The state after both writes succeeded. */
  function Counted(e: Encoder, frames: seq<Frame>): Encoder
    requires Appendable(frames)
  {
    var last := frames[|frames| - 1];
    var started := if e.totalFrames == 0
      then e.(firstFrameSequence := FrameSequence(frames[0]), firstTimeUs := FrameTime(frames[0]))
      else e;
    started.(totalFrames := Add32(e.totalFrames, |frames|),
             lastFrameSequence := FrameSequence(last), lastTimeUs := FrameTime(last))
  }

  function Appended(e: Encoder, frames: seq<Frame>): Encoder
    requires Appendable(frames)
  {
    Counted(Numbered(e), frames)
  }

  function MakeFooter(e: Encoder, producerDrops: uint32): FileFooter {
    FileFooter(e.totalFrames, e.firstFrameSequence, e.lastFrameSequence, e.firstTimeUs, e.lastTimeUs,
               producerDrops, e.blockSequence)
  }

  // ---- Whole recordings ----

  ghost predicate AllAppendable(batches: seq<seq<Frame>>) {
    forall b :: b in batches ==> Appendable(b)
  }

  ghost function AfterAppends(e: Encoder, batches: seq<seq<Frame>>): Encoder
    requires AllAppendable(batches)
    decreases |batches|
  {
    if batches == [] then e else AfterAppends(Appended(e, batches[0]), batches[1..])
  }

  function BlockBytes(blockSequence: uint32, frames: seq<Frame>): (bytes: seq<Byte>)
    requires Appendable(frames)
    ensures |bytes| == BlockLength(frames)
  {
    PayloadLength(frames);
    BlockHeaderBytes(MakeBlock(blockSequence, frames)) + Flatten(frames)
  }

  function BlockLength(frames: seq<Frame>): nat {
    BLOCK_SIZE + FRAME_SIZE * |frames|
  }

  lemma {:induction false} PayloadLength(frames: seq<Frame>)
    ensures |Flatten(frames)| == FRAME_SIZE * |frames|
  {
    if frames != [] {
      PayloadLength(frames[1..]);
    }
  }

  /** Consecutive blocks, numbered upwards from `blockSequence`. */
  ghost function BlocksBytes(blockSequence: uint32, batches: seq<seq<Frame>>): seq<Byte>
    requires AllAppendable(batches)
    decreases |batches|
  {
    if batches == [] then []
    else BlockBytes(blockSequence, batches[0]) + BlocksBytes(Add32(blockSequence, 1), batches[1..])
  }

  /** A recording that was begun, given these batches, and finished. */
  ghost function RecordingBytes(header: FileHeader, batches: seq<seq<Frame>>, producerDrops: uint32): seq<Byte>
    requires AllAppendable(batches)
  {
    HeaderBytes(header) + BlocksBytes(1, batches) + FooterBytes(MakeFooter(AfterAppends(STARTED, batches),
                                                                           producerDrops))
  }

  lemma {:induction false} AfterAppendsSnoc(e: Encoder, batches: seq<seq<Frame>>, last: seq<Frame>)
    requires AllAppendable(batches) && Appendable(last)
    ensures AfterAppends(e, batches + [last]) == Appended(AfterAppends(e, batches), last)
    decreases |batches|
  {
    if batches == [] {
      assert batches + [last] == [last];
      assert AfterAppends(Appended(e, last), [last][1..]) == Appended(e, last);
    } else {
      AfterAppendsSnoc(Appended(e, batches[0]), batches[1..], last);
      assert (batches + [last])[1..] == batches[1..] + [last];
    }
  }

  lemma {:induction false} BlocksBytesSnoc(blockSequence: uint32, batches: seq<seq<Frame>>, last: seq<Frame>)
    requires AllAppendable(batches) && Appendable(last)
    ensures BlocksBytes(blockSequence, batches + [last])
         == BlocksBytes(blockSequence, batches) + BlockBytes(Add32(blockSequence, |batches|), last)
    decreases |batches|
  {
    hide BlockBytes, Appendable;
    if batches == [] {
      assert batches + [last] == [last];
      assert [last][1..] == [];
      assert BlocksBytes(blockSequence, [last]) == BlockBytes(blockSequence, last) + [];
    } else {
      var next := Add32(blockSequence, 1);
      BlocksBytesSnoc(next, batches[1..], last);
      assert (batches + [last])[1..] == batches[1..] + [last];
      Add32Twice(blockSequence, 1, |batches| - 1);
    }
  }

  /** The encoder numbers its blocks from one and counts its frames. */
  lemma {:induction false} CountsAfter(e: Encoder, batches: seq<seq<Frame>>)
    requires AllAppendable(batches)
    ensures AfterAppends(e, batches).blockSequence == Add32(e.blockSequence, |batches|)
    ensures AfterAppends(e, batches).totalFrames == Add32(e.totalFrames, |Flatten(batches)|)
    ensures AfterAppends(e, batches).writing == e.writing
    decreases |batches|
  {
    if batches != [] {
      var next := Appended(e, batches[0]);
      CountsAfter(next, batches[1..]);
      assert next.blockSequence == Add32(e.blockSequence, 1);
      assert next.totalFrames == Add32(e.totalFrames, |batches[0]|);
      Add32Twice(e.blockSequence, 1, |batches| - 1);
      Add32Twice(e.totalFrames, |batches[0]|, |Flatten(batches[1..])|);
    }
  }

  /** What the encoder remembers of the last frame. */
  lemma {:induction false} LastAfter(e: Encoder, batches: seq<seq<Frame>>)
    requires AllAppendable(batches) && batches != []
    ensures |Flatten(batches)| > 0
    ensures var fs := Flatten(batches); var r := AfterAppends(e, batches);
            r.lastFrameSequence == FrameSequence(fs[|fs| - 1]) && r.lastTimeUs == FrameTime(fs[|fs| - 1])
    decreases |batches|
  {
    var rest := batches[1..];
    var next := Appended(e, batches[0]);
    assert Flatten(batches) == batches[0] + Flatten(rest);
    if rest == [] {
      assert Flatten(rest) == [];
      assert AfterAppends(e, batches) == AfterAppends(next, []) == next;
    } else {
      LastAfter(next, rest);
    }
  }

  /** The first frame stays recorded until the 32-bit frame count wraps around. */
  lemma {:induction false} FirstKept(e: Encoder, batches: seq<seq<Frame>>)
    requires AllAppendable(batches)
    requires e.totalFrames > 0 && e.totalFrames + |Flatten(batches)| < 0x1_0000_0000
    ensures AfterAppends(e, batches).firstFrameSequence == e.firstFrameSequence
    ensures AfterAppends(e, batches).firstTimeUs == e.firstTimeUs
    decreases |batches|
  {
    if batches != [] {
      var next := Appended(e, batches[0]);
      assert |Flatten(batches)| == |batches[0]| + |Flatten(batches[1..])|;
      assert next.totalFrames == e.totalFrames + |batches[0]|;
      FirstKept(next, batches[1..]);
    }
  }

  lemma FirstAppend(frames: seq<Frame>)
    requires Appendable(frames)
    ensures var r := Appended(STARTED, frames);
            && r.totalFrames == |frames|
            && r.firstFrameSequence == FrameSequence(frames[0]) && r.firstTimeUs == FrameTime(frames[0])
  {
    hide FrameSequence, FrameTime;
  }

  lemma FirstAfter(batches: seq<seq<Frame>>)
    requires AllAppendable(batches) && batches != []
    requires |Flatten(batches)| < 0x1_0000_0000
    ensures |Flatten(batches)| > 0
    ensures var r := AfterAppends(STARTED, batches);
            && r.firstFrameSequence == FrameSequence(Flatten(batches)[0])
            && r.firstTimeUs == FrameTime(Flatten(batches)[0])
  {
    hide FrameSequence, FrameTime, Appended;
    FirstAppend(batches[0]);
    FirstKept(Appended(STARTED, batches[0]), batches[1..]);
    assert Flatten(batches)[0] == batches[0][0];
  }

  /** Each block names its number, its first frame, how many there are and their bytes, and their checksum. */
  lemma BlockContents(blockSequence: uint32, frames: seq<Frame>)
    requires Appendable(frames)
    ensures var bytes := BlockBytes(blockSequence, frames); var b := BlockHeaderOf(bytes[..BLOCK_SIZE]);
            && Intact(bytes[..BLOCK_SIZE], BLOCK_BODY) && bytes[BLOCK_SIZE..] == Flatten(frames)
            && b.blockSequence == blockSequence && b.firstFrameSequence == FrameSequence(frames[0])
            && b.frameCount == |frames| && b.payloadBytes == |Flatten(frames)|
            && b.payloadCrc == Crc.Checksum(Flatten(frames))
  {
    hide BlockHeaderBytes, BlockHeaderOf, Intact, Flatten, Crc.Checksum, FrameSequence;
    PayloadLength(frames);
    BlockHeaderRoundTrip(MakeBlock(blockSequence, frames));
    var bytes := BlockBytes(blockSequence, frames);
    assert bytes[..BLOCK_SIZE] == BlockHeaderBytes(MakeBlock(blockSequence, frames));
  }

  /** The encoder's footer, spelled out, for recordings of fewer than 2^32 frames. */
  lemma FooterContents(batches: seq<seq<Frame>>, producerDrops: uint32)
    requires AllAppendable(batches) && batches != []
    requires |Flatten(batches)| < 0x1_0000_0000
    ensures |Flatten(batches)| > 0
    ensures var fs := Flatten(batches); var last := fs[|fs| - 1];
            MakeFooter(AfterAppends(STARTED, batches), producerDrops)
            == FileFooter(|fs|, FrameSequence(fs[0]), FrameSequence(last), FrameTime(fs[0]), FrameTime(last),
                          producerDrops, Add32(0, |batches|))
  {
    hide FrameSequence, FrameTime, Appended, AfterAppends;
    CountsAfter(STARTED, batches);
    LastAfter(STARTED, batches);
    FirstAfter(batches);
  }
}
