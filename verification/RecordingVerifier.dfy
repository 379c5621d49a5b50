/** verifyRecording of include/robot/telemetry/recording_codec.hpp. */
module RecordingVerifier {
  import opened Bytes
  import opened RecordingFile
  import Crc

  const VERIFY_OK: bv32 := 0
  const TRUNCATED: bv32 := 1
  const BAD_HEADER: bv32 := 2
  const UNSUPPORTED_FORMAT: bv32 := 4
  const BAD_BLOCK_HEADER: bv32 := 8
  const BAD_PAYLOAD: bv32 := 16
  const SEQUENCE_GAP: bv32 := 32
  const TIME_REGRESSION: bv32 := 64
  const RUN_MISMATCH: bv32 := 128
  const BAD_FOOTER: bv32 := 256
  const FOOTER_MISMATCH: bv32 := 512
  const TRAILING_DATA: bv32 := 1024
  const NO_FRAMES: bv32 := 2048

  /** The faults that deny completeness. */
  const INCOMPLETE_MASK: bv32 := 0xB1F // all but gap, regression, mismatch and trailing data

  datatype Option<+T> = None | Some(value: T)

  /** A source of bytes; a read within the data may still be refused, as a file's may. */
  datatype Reader = Reader(data: seq<Byte>, refuses: (nat, nat) -> bool) {
    function Read(offset: nat, size: nat): (r: Option<seq<Byte>>)
      ensures r.Some? ==> offset + size <= |data| && r.value == data[offset..offset + size]
    {
      if offset > |data| || size > |data| - offset || refuses(offset, size) then None
      else Some(data[offset..offset + size])
    }
  }

  function InMemory(data: seq<Byte>): Reader {
    Reader(data, (offset, size) => false)
  }

  datatype Report = Report(
    faultBits: bv32, recoverableFrames: uint32, validBlocks: uint32, producerDrops: uint32,
    firstFrameSequence: uint32, lastFrameSequence: uint32, firstTimeUs: uint64, lastTimeUs: uint64,
    validBytes: nat, complete: bool, header: FileHeader)
  {
    function Faulted(fault: bv32): Report {
      this.(faultBits := faultBits | fault)
    }
  }

  const EMPTY_REPORT: Report := Report(0, 0, 0, 0, 0, 0, 0, 0, 0, false, EMPTY_HEADER)

  /** The verifier's local variables while it walks the blocks. */
  datatype Progress = Progress(
    offset: nat, expectedBlock: uint32, haveFrame: bool,
    previousSequence: uint32, firstSequence: uint32, previousTime: uint64, firstTime: uint64, report: Report)

  function ObserveFrame(p: Progress, f: Frame): Progress {
    var mismatch := if FrameRun(f) != p.report.header.runIdHash then RUN_MISMATCH else 0;
    var gap := if p.haveFrame && FrameSequence(f) != Add32(p.previousSequence, 1) then SEQUENCE_GAP else 0;
    var regression := if p.haveFrame && FrameTime(f) < p.previousTime then TIME_REGRESSION else 0;
    var r := p.report.(faultBits := p.report.faultBits | mismatch | gap | regression,
                       lastFrameSequence := FrameSequence(f), lastTimeUs := FrameTime(f));
    var seen := p.(haveFrame := true, previousSequence := FrameSequence(f), previousTime := FrameTime(f), report := r);
    if p.haveFrame then seen
    else seen.(firstSequence := FrameSequence(f), firstTime := FrameTime(f),
               report := r.(firstFrameSequence := FrameSequence(f), firstTimeUs := FrameTime(f)))
  }

  datatype PayloadScan = Stopped(report: Report) | Scanned(progress: Progress, crc: bv32)

  function ScanPayload(reader: Reader, p: Progress, at: nat, count: nat, crc: bv32): PayloadScan
    decreases count
  {
    if count == 0 then Scanned(p, crc)
    else match reader.Read(at, FRAME_SIZE)
      case None => Stopped(p.report.Faulted(TRUNCATED))
      case Some(frame) =>
        if !GoodFrame(frame) then Stopped(p.report.Faulted(BAD_PAYLOAD))
        else ScanPayload(reader, ObserveFrame(p, frame), at + FRAME_SIZE, count - 1, Crc.Update(crc, frame))
  }

  predicate AcceptableBlock(bytes: seq<Byte>, expected: uint32)
    requires |bytes| == BLOCK_SIZE
  {
    var block := BlockHeaderOf(bytes);
    && Intact(bytes, BLOCK_BODY)
    && block.blockSequence == expected
    && block.frameCount != 0
    && block.payloadBytes == block.frameCount * FRAME_SIZE
  }

  function PassBlock(p: Progress, block: BlockHeader): Progress {
    var next := p.offset + BLOCK_SIZE + block.payloadBytes;
    p.(offset := next, expectedBlock := Add32(p.expectedBlock, 1),
       report := p.report.(recoverableFrames := Add32(p.report.recoverableFrames, block.frameCount),
                           validBlocks := Add32(p.report.validBlocks, 1), validBytes := next))
  }

  predicate FooterAgrees(p: Progress, footer: FileFooter) {
    && footer.totalFrames == p.report.recoverableFrames
    && footer.blockCount == p.report.validBlocks
    && (p.haveFrame ==>
          && footer.firstFrameSequence == p.firstSequence
          && footer.firstTimeUs == p.firstTime
          && footer.lastFrameSequence == p.previousSequence
          && footer.lastTimeUs == p.previousTime)
  }

  function Mark(raised: bool, fault: bv32): bv32 {
    if raised then fault else 0
  }

  function WithFooterFaults(bits: bv32, mismatch: bool, noFrames: bool): bv32 {
    bits | Mark(mismatch, FOOTER_MISMATCH) | Mark(noFrames, NO_FRAMES)
  }

  predicate Completes(bits: bv32) {
    bits & INCOMPLETE_MASK == 0
  }

  function CheckFooter(p: Progress, footer: FileFooter, size: nat): Report {
    var bits := WithFooterFaults(p.report.faultBits, !FooterAgrees(p, footer), !p.haveFrame);
    var end := p.offset + FOOTER_SIZE;
    var r := p.report.(faultBits := bits, producerDrops := footer.producerDrops, validBytes := end,
                       complete := Completes(bits));
    if end != size then r.(faultBits := bits | TRAILING_DATA, complete := false) else r
  }

  /** The walk from the end of the header. */
  function VerifyBlocks(reader: Reader, p: Progress): Report
    decreases |reader.data| - p.offset
  {
    var size := |reader.data|;
    var truncated := p.report.Faulted(TRUNCATED);
    if p.offset >= size then (if p.offset == size then truncated else p.report)
    else if size - p.offset < 4 then truncated
    else match reader.Read(p.offset, 4)
      case None => truncated
      case Some(word) =>
        if U32(word) == BLOCK_MAGIC then
          if size - p.offset < BLOCK_SIZE then truncated
          else match reader.Read(p.offset, BLOCK_SIZE)
            case None => truncated
            case Some(bytes) =>
              if !AcceptableBlock(bytes, p.expectedBlock) then p.report.Faulted(BAD_BLOCK_HEADER)
              else
                var block := BlockHeaderOf(bytes);
                var payload := p.offset + BLOCK_SIZE;
                if size - payload < block.payloadBytes then truncated
                else match ScanPayload(reader, p, payload, block.frameCount, Crc.INITIAL)
                  case Stopped(report) => report
                  case Scanned(q, crc) =>
                    if Crc.Complement(crc) != block.payloadCrc then q.report.Faulted(BAD_PAYLOAD)
                    else
                      ScanKeepsPlace(reader, p, payload, block.frameCount, Crc.INITIAL);
                      VerifyBlocks(reader, PassBlock(q, block))
        else if U32(word) == FOOTER_MAGIC then
          if size - p.offset < FOOTER_SIZE then truncated
          else match reader.Read(p.offset, FOOTER_SIZE)
            case None => truncated
            case Some(bytes) =>
              if !Intact(bytes, FOOTER_BODY) then p.report.Faulted(BAD_FOOTER)
              else CheckFooter(p, FooterOf(bytes), size)
        else p.report.Faulted(BAD_BLOCK_HEADER)
  }

  lemma ObserveFrameKeeps(p: Progress, f: Frame)
    ensures var q := ObserveFrame(p, f);
            q.offset == p.offset && q.expectedBlock == p.expectedBlock && q.report.header == p.report.header
            && q.report.complete == p.report.complete && q.report.validBytes == p.report.validBytes
            && q.report.recoverableFrames == p.report.recoverableFrames && q.report.validBlocks == p.report.validBlocks
            && q.report.producerDrops == p.report.producerDrops
  {
    hide FrameRun, FrameSequence, FrameTime;
  }

  lemma {:induction false} ScanKeepsPlace(reader: Reader, p: Progress, at: nat, count: nat, crc: bv32)
    ensures var s := ScanPayload(reader, p, at, count, crc);
            s.Scanned? ==> && s.progress.offset == p.offset && s.progress.expectedBlock == p.expectedBlock
                           && s.progress.report.header == p.report.header
                           && s.progress.report.complete == p.report.complete
    ensures var s := ScanPayload(reader, p, at, count, crc);
            s.Stopped? ==> s.report.complete == p.report.complete
    decreases count
  {
    hide GoodFrame, ObserveFrame, Crc.Update;
    if count != 0 {
      var frame := reader.Read(at, FRAME_SIZE);
      if frame.Some? && GoodFrame(frame.value) {
        ObserveFrameKeeps(p, frame.value);
        ScanKeepsPlace(reader, ObserveFrame(p, frame.value), at + FRAME_SIZE, count - 1, Crc.Update(crc, frame.value));
      }
    }
  }

  predicate SupportedFormat(h: FileHeader) {
    && h.formatMajor == 2
    && h.endianMarker == ENDIAN_MARKER
    && h.headerSize == HEADER_SIZE
    && h.frameSize == FRAME_SIZE
    && h.logSchemaMajor == LOG_SCHEMA_MAJOR
    && h.logSchemaMinor == LOG_SCHEMA_MINOR
  }

  function StartOfBlocks(header: FileHeader): Progress {
    Progress(HEADER_SIZE, 1, false, 0, 0, 0, 0, EMPTY_REPORT.(header := header, validBytes := HEADER_SIZE))
  }

  function Verify(reader: Reader): Report {
    if |reader.data| < HEADER_SIZE || reader.Read(0, HEADER_SIZE).None? then EMPTY_REPORT.(faultBits := TRUNCATED)
    else
      var bytes := reader.Read(0, HEADER_SIZE).value;
      var read := EMPTY_REPORT.(header := HeaderOf(bytes));
      if !Intact(bytes, HEADER_BODY) || read.header.magic != FILE_MAGIC then read.Faulted(BAD_HEADER)
      else if !SupportedFormat(read.header) then read.Faulted(UNSUPPORTED_FORMAT)
      else VerifyBlocks(reader, StartOfBlocks(read.header))
  }

  /** The inner loop: the frames of one block. */
  method ReadPayload(reader: Reader, entry: Progress, at: nat, count: nat) returns (scan: PayloadScan)
    ensures scan == ScanPayload(reader, entry, at, count, Crc.INITIAL)
  {
    hide GoodFrame, ObserveFrame, Crc.Update;
    var p, crc := entry, Crc.INITIAL;
    for index := 0 to count
      invariant ScanPayload(reader, p, at + index * FRAME_SIZE, count - index, crc)
             == ScanPayload(reader, entry, at, count, Crc.INITIAL)
    {
      var frame := reader.Read(at + index * FRAME_SIZE, FRAME_SIZE);
      if frame.None? {
        return Stopped(p.report.Faulted(TRUNCATED));
      }
      crc := Crc.ComputeUpdate(crc, frame.value);
      if !GoodFrame(frame.value) {
        return Stopped(p.report.Faulted(BAD_PAYLOAD));
      }
      p := ObserveFrame(p, frame.value);
    }
    return Scanned(p, crc);
  }

  method VerifyRecording(reader: Reader) returns (report: Report)
    ensures report == Verify(reader)
  {
    hide BlockHeaderOf, FooterOf, HeaderOf, Intact, U32, CheckFooter, SupportedFormat, AcceptableBlock, ScanPayload,
         Crc.Complement;
    report := EMPTY_REPORT;
    var size := |reader.data|;
    if size < HEADER_SIZE || reader.Read(0, HEADER_SIZE).None? {
      report := report.(faultBits := TRUNCATED);
      return;
    }
    var headerBytes := reader.Read(0, HEADER_SIZE).value;
    report := report.(header := HeaderOf(headerBytes));
    if !Intact(headerBytes, HEADER_BODY) || report.header.magic != FILE_MAGIC {
      report := report.Faulted(BAD_HEADER);
      return;
    }
    if !SupportedFormat(report.header) {
      report := report.Faulted(UNSUPPORTED_FORMAT);
      return;
    }

    var p := StartOfBlocks(report.header);
    ghost var start := p;
    while p.offset < size
      invariant VerifyBlocks(reader, p) == VerifyBlocks(reader, start)
      decreases size - p.offset
    {
      var word := reader.Read(p.offset, 4);
      if size - p.offset < 4 || word.None? {
        return p.report.Faulted(TRUNCATED);
      }
      if U32(word.value) == BLOCK_MAGIC {
        var bytes := reader.Read(p.offset, BLOCK_SIZE);
        if size - p.offset < BLOCK_SIZE || bytes.None? {
          return p.report.Faulted(TRUNCATED);
        }
        if !AcceptableBlock(bytes.value, p.expectedBlock) {
          return p.report.Faulted(BAD_BLOCK_HEADER);
        }
        var block := BlockHeaderOf(bytes.value);
        var payload := p.offset + BLOCK_SIZE;
        if size - payload < block.payloadBytes {
          return p.report.Faulted(TRUNCATED);
        }
        var scan := ReadPayload(reader, p, payload, block.frameCount);
        ScanKeepsPlace(reader, p, payload, block.frameCount, Crc.INITIAL);
        if scan.Stopped? {
          return scan.report;
        }
        if Crc.Complement(scan.crc) != block.payloadCrc {
          return scan.progress.report.Faulted(BAD_PAYLOAD);
        }
        p := PassBlock(scan.progress, block);
      } else if U32(word.value) == FOOTER_MAGIC {
        var bytes := reader.Read(p.offset, FOOTER_SIZE);
        if size - p.offset < FOOTER_SIZE || bytes.None? {
          return p.report.Faulted(TRUNCATED);
        }
        if !Intact(bytes.value, FOOTER_BODY) {
          return p.report.Faulted(BAD_FOOTER);
        }
        return CheckFooter(p, FooterOf(bytes.value), size);
      } else {
        return p.report.Faulted(BAD_BLOCK_HEADER);
      }
    }
    report := p.report;
    if p.offset == size {
      report := report.Faulted(TRUNCATED);
    }
  }
}
