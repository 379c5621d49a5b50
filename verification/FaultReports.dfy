/** Which names the inspector prints of a recording: each one exactly for the damage it stands for. */
module FaultReports {
  import opened Bytes
  import opened RecordingFile
  import opened RecordingEncoder
  import opened RecordingVerifier
  import opened RecordingRecovery
  import opened RecordingIntegrity
  import opened RecordingAccess
  import opened RecordingStructure
  import opened RecordingLayout
  import opened FaultLists
  import Crc

  /** What is printed of the frames that were seen. */
  ghost predicate FramesNamed(names: seq<string>, run: uint32, frames: seq<Frame>) {
    && ("RUN_MISMATCH" in names <==> HasForeignFrame(run, frames))
    && ("SEQUENCE_GAP" in names <==> HasGap(frames))
    && ("TIME_REGRESSION" in names <==> HasRegression(frames))
  }

  /** Of the names of damage to the file, only this one is printed, if it is one. */
  ghost predicate DamageNamed(names: seq<string>, name: string) {
    && ("TRUNCATED" in names <==> name == "TRUNCATED") && ("BAD_HEADER" in names <==> name == "BAD_HEADER")
    && ("UNSUPPORTED_FORMAT" in names <==> name == "UNSUPPORTED_FORMAT")
    && ("BAD_BLOCK_HEADER" in names <==> name == "BAD_BLOCK_HEADER")
    && ("BAD_PAYLOAD" in names <==> name == "BAD_PAYLOAD") && ("BAD_FOOTER" in names <==> name == "BAD_FOOTER")
    && ("TRAILING_DATA" in names <==> name == "TRAILING_DATA")
  }

  ghost predicate FooterNamed(names: seq<string>, mismatch: bool, noFrames: bool) {
    && ("FOOTER_MISMATCH" in names <==> mismatch) && ("NO_FRAMES" in names <==> noFrames)
  }

  lemma MarkedBits(a: bool, b: bool, c: bool, x: bv32)
    requires x & 0xE0 == 0
    ensures var bits := Either(Mark(a, RUN_MISMATCH) | Mark(b, SEQUENCE_GAP) | Mark(c, TIME_REGRESSION), x);
            && (Both(bits, 0x80) != 0 <==> a) && (Both(bits, 0x20) != 0 <==> b) && (Both(bits, 0x40) != 0 <==> c)
            && Both(bits, 0xF1F) == Both(x, 0xF1F)
  {
  }

  lemma FrameBits(run: uint32, frames: seq<Frame>, x: bv32)
    requires x & 0xE0 == 0
    ensures var bits := Either(FrameFaults(run, frames), x);
            && (Both(bits, 0x80) != 0 <==> HasForeignFrame(run, frames))
            && (Both(bits, 0x20) != 0 <==> HasGap(frames)) && (Both(bits, 0x40) != 0 <==> HasRegression(frames))
            && Both(bits, 0xF1F) == Both(x, 0xF1F)
  {
    hide HasForeignFrame, HasGap, HasRegression, Mark, Both, Either;
    MarkedBits(HasForeignFrame(run, frames), HasGap(frames), HasRegression(frames), x);
  }

  lemma OtherBits(bits: bv32, x: bv32)
    requires Both(bits, 0xF1F) == Both(x, 0xF1F)
    ensures Both(bits, 0x01) == Both(x, 0x01) && Both(bits, 0x02) == Both(x, 0x02)
    ensures Both(bits, 0x04) == Both(x, 0x04) && Both(bits, 0x08) == Both(x, 0x08)
    ensures Both(bits, 0x10) == Both(x, 0x10) && Both(bits, 0x100) == Both(x, 0x100)
    ensures Both(bits, 0x200) == Both(x, 0x200) && Both(bits, 0x400) == Both(x, 0x400)
    ensures Both(bits, 0x800) == Both(x, 0x800)
  {
  }

  /** The bit of the damage with this name. */
  function DamageBit(name: string): bv32 {
    if name == "TRUNCATED" then TRUNCATED
    else if name == "BAD_HEADER" then BAD_HEADER
    else if name == "UNSUPPORTED_FORMAT" then UNSUPPORTED_FORMAT
    else if name == "BAD_BLOCK_HEADER" then BAD_BLOCK_HEADER
    else if name == "BAD_PAYLOAD" then BAD_PAYLOAD
    else if name == "BAD_FOOTER" then BAD_FOOTER
    else if name == "TRAILING_DATA" then TRAILING_DATA
    else 0
  }

  /** The bits of this damage and of a footer of this kind, on top of the frames' own. */
  function Damaged(bits: bv32, name: string, mismatch: bool, noFrames: bool): bv32 {
    Either(bits, WithFooterFaults(DamageBit(name), mismatch, noFrames))
  }

  lemma DamageBits(name: string, mismatch: bool, noFrames: bool)
    ensures var x := WithFooterFaults(DamageBit(name), mismatch, noFrames);
            && x & 0xE0 == 0
            && (Both(x, 0x01) != 0 <==> name == "TRUNCATED") && (Both(x, 0x02) != 0 <==> name == "BAD_HEADER")
            && (Both(x, 0x04) != 0 <==> name == "UNSUPPORTED_FORMAT")
            && (Both(x, 0x08) != 0 <==> name == "BAD_BLOCK_HEADER")
            && (Both(x, 0x10) != 0 <==> name == "BAD_PAYLOAD") && (Both(x, 0x100) != 0 <==> name == "BAD_FOOTER")
            && (Both(x, 0x200) != 0 <==> mismatch) && (Both(x, 0x400) != 0 <==> name == "TRAILING_DATA")
            && (Both(x, 0x800) != 0 <==> noFrames)
  {
  }

  /** What is printed of these frames, this damage, and a footer of these. */
  lemma NamesOfFaults(run: uint32, frames: seq<Frame>, name: string, mismatch: bool, noFrames: bool)
    ensures var names := FaultNames(Damaged(FrameFaults(run, frames), name, mismatch, noFrames));
            FramesNamed(names, run, frames) && DamageNamed(names, name) && FooterNamed(names, mismatch, noFrames)
  {
    hide Both, Either, FrameFaults, FaultNames, DamageBit, WithFooterFaults, HasForeignFrame, HasGap, HasRegression;
    var x := WithFooterFaults(DamageBit(name), mismatch, noFrames);
    var bits := Either(FrameFaults(run, frames), x);
    DamageBits(name, mismatch, noFrames);
    FrameBits(run, frames, x);
    OtherBits(bits, x);
    NamesOfBits(bits);
  }

  lemma NoDamage(bits: bv32, mismatch: bool, noFrames: bool)
    ensures Damaged(bits, "", mismatch, noFrames) == WithFooterFaults(bits, mismatch, noFrames)
  {
    hide Either, WithFooterFaults;
    assert DamageBit("") == 0;
    FooterAlone(bits, mismatch, noFrames);
  }

  lemma FooterAlone(bits: bv32, mismatch: bool, noFrames: bool)
    ensures Either(bits, WithFooterFaults(0, mismatch, noFrames)) == WithFooterFaults(bits, mismatch, noFrames)
  {
    if mismatch {
      MismatchAlone(bits, noFrames);
    } else if noFrames {
      assert WithFooterFaults(0, false, true) == NO_FRAMES;
    } else {
      assert WithFooterFaults(0, false, false) == 0;
    }
  }

  lemma MismatchAlone(bits: bv32, noFrames: bool)
    ensures Either(bits, WithFooterFaults(0, true, noFrames)) == WithFooterFaults(bits, true, noFrames)
  {
    if noFrames {
      assert WithFooterFaults(0, true, true) == 0xA00;
    } else {
      assert WithFooterFaults(0, true, false) == FOOTER_MISMATCH;
    }
  }

  lemma DamageAlone(bits: bv32, damage: bv32)
    ensures Either(bits, WithFooterFaults(damage, false, false)) == bits | damage
  {
  }

  /** Damage changes neither what was recovered nor the header. */
  predicate SameCounts(r: Report, s: Report) {
    r.recoverableFrames == s.recoverableFrames && r.validBlocks == s.validBlocks && r.header == s.header
  }

  /** The fault with this name, raised in a report. */
  lemma FaultRaised(r: Report, name: string, fault: bv32)
    requires fault == DamageBit(name)
    ensures r.Faulted(fault).faultBits == Damaged(r.faultBits, name, false, false)
    ensures r.Faulted(fault).complete == r.complete && SameCounts(r.Faulted(fault), r)
  {
    hide DamageBit, Either, WithFooterFaults;
    DamageAlone(r.faultBits, fault);
  }

  lemma NoFramesNoFaults(run: uint32)
    ensures FrameFaults(run, []) == 0
  {
  }

  // ---- Whole recordings ----

  /** The names printed of a recording's blocks with any footer after them. */
  lemma FooterNames(reader: Reader, header: FileHeader, batches: seq<seq<Frame>>, f: FileFooter)
    requires Reliable(reader) && Standard(header) && AllAppendable(batches) && AllGoodBatches(batches)
    requires reader.data == HeaderBytes(header) + BlocksBytes(1, batches) + FooterBytes(f)
    ensures var names := FaultNames(Verify(reader).faultBits);
            && FramesNamed(names, header.runIdHash, Flatten(batches)) && DamageNamed(names, "")
            && FooterNamed(names, !Tells(f, batches), batches == [])
  {
    hide *;
    var run, frames := header.runIdHash, Flatten(batches);
    var mismatch, noFrames := !Tells(f, batches), batches == [];
    FooterDecides(reader, header, batches, f);
    FinalParts(run, frames, mismatch, noFrames);
    NamesOfFaults(run, frames, "", mismatch, noFrames);
    NoDamage(FrameFaults(run, frames), mismatch, noFrames);
  }

  lemma FinalParts(run: uint32, frames: seq<Frame>, mismatch: bool, noFrames: bool)
    ensures FinalFaults(run, frames, mismatch, noFrames)
         == WithFooterFaults(FrameFaults(run, frames), mismatch, noFrames)
  {
    hide FrameFaults, WithFooterFaults;
  }

  /** Of a finished recording of fewer than 2^32 frames, each name is printed exactly for what it says: a gap in
      the sequence, a step back in time, a frame of another run, no frames at all, and nothing else. */
  lemma FinishedNames(reader: Reader, header: FileHeader, batches: seq<seq<Frame>>, drops: uint32)
    requires Reliable(reader) && Standard(header) && AllAppendable(batches) && AllGoodBatches(batches)
    requires |Flatten(batches)| < 0x1_0000_0000 && reader.data == RecordingBytes(header, batches, drops)
    ensures var names := FaultNames(Verify(reader).faultBits);
            && FramesNamed(names, header.runIdHash, Flatten(batches)) && DamageNamed(names, "")
            && FooterNamed(names, false, batches == [])
  {
    hide *;
    var f := MakeFooter(AfterAppends(STARTED, batches), drops);
    RecordingParts(header, batches, drops);
    FooterNames(reader, header, batches, f);
    OwnFooterTells(batches, drops);
  }

  lemma RecordingParts(header: FileHeader, batches: seq<seq<Frame>>, drops: uint32)
    requires AllAppendable(batches)
    ensures RecordingBytes(header, batches, drops)
         == HeaderBytes(header) + BlocksBytes(1, batches)
            + FooterBytes(MakeFooter(AfterAppends(STARTED, batches), drops))
  {
    hide HeaderBytes, BlocksBytes, FooterBytes, MakeFooter, AfterAppends, Appendable;
  }

  lemma OwnFooterTells(batches: seq<seq<Frame>>, drops: uint32)
    requires AllAppendable(batches) && |Flatten(batches)| < 0x1_0000_0000
    ensures Tells(MakeFooter(AfterAppends(STARTED, batches), drops), batches)
  {
    hide FrameSequence, FrameTime, AfterAppends;
    CountsAfter(STARTED, batches);
    if batches != [] {
      FooterContents(batches, drops);
    }
  }

  /** Of a recording that was cut, truncation is named, and otherwise what the recovered frames show. */
  lemma CutNames(reader: Reader, header: FileHeader, batches: seq<seq<Frame>>, drops: uint32)
    requires Reliable(reader) && Standard(header) && AllAppendable(batches) && AllGoodBatches(batches)
    requires IsPrefix(reader.data, RecordingBytes(header, batches, drops))
    requires reader.data != RecordingBytes(header, batches, drops)
    ensures var size := |reader.data|;
            var frames := if size < HEADER_SIZE then []
                          else Flatten(batches[..WholeBlocks(batches, size - HEADER_SIZE)]);
            var names := FaultNames(Verify(reader).faultBits);
            && FramesNamed(names, header.runIdHash, frames) && DamageNamed(names, "TRUNCATED")
            && FooterNamed(names, false, false)
  {
    hide *;
    var size := |reader.data|;
    CutRecordingRecovered(reader, header, batches, drops);
    var k := if size < HEADER_SIZE then 0 else WholeBlocks(batches, size - HEADER_SIZE);
    var frames: seq<Frame> := if size < HEADER_SIZE then [] else Flatten(batches[..k]);
    var before := if size < HEADER_SIZE then EMPTY_REPORT else Recovered(header, batches[..k]);
    RecoveredCounts(header, batches[..k]);
    NoFramesNoFaults(header.runIdHash);
    NothingReported();
    Truncation();
    FaultRaised(before, "TRUNCATED", TRUNCATED);
    NamesOfFaults(header.runIdHash, frames, "TRUNCATED", false, false);
  }

  lemma Truncation()
    ensures DamageBit("TRUNCATED") == TRUNCATED
  {
  }

  lemma NothingReported()
    ensures EMPTY_REPORT.faultBits == 0 && EMPTY_REPORT.(faultBits := TRUNCATED) == EMPTY_REPORT.Faulted(TRUNCATED)
  {
  }

  // ---- Damaged headers ----

  /** What is wrong with a header, by its bytes. */
  ghost function HeaderDamage(bytes: seq<Byte>): string
    requires |bytes| == HEADER_SIZE
  {
    if !Intact(bytes, HEADER_BODY) || U32(bytes[0..4]) != 0x324C_3556 then "BAD_HEADER"
    else if U16(bytes[4..6]) != 2 || U32(bytes[12..16]) != 0x0102_0304 || U32(bytes[16..20]) != 160
            || U32(bytes[20..24]) != 1536 || U16(bytes[8..10]) != 3 || U16(bytes[10..12]) != 1 then "UNSUPPORTED_FORMAT"
    else ""
  }

  lemma HeaderJudged(reader: Reader)
    requires |reader.data| >= HEADER_SIZE && reader.Read(0, HEADER_SIZE).Some?
    requires HeaderDamage(reader.data[0..HEADER_SIZE]) != ""
    ensures var name := HeaderDamage(reader.data[0..HEADER_SIZE]); var r := Verify(reader);
            && r.faultBits == (if name == "BAD_HEADER" then 0 | BAD_HEADER else 0 | UNSUPPORTED_FORMAT)
            && (name == "BAD_HEADER" || name == "UNSUPPORTED_FORMAT") && !r.complete
  {
    hide Intact, HeaderOf, U16, U32, VerifyBlocks;
    HeaderLayout(reader.data[0..HEADER_SIZE]);
  }

  lemma HeaderDamageBits()
    ensures Damaged(0, "BAD_HEADER", false, false) == 0 | BAD_HEADER
    ensures Damaged(0, "UNSUPPORTED_FORMAT", false, false) == 0 | UNSUPPORTED_FORMAT
  {
    assert DamageBit("BAD_HEADER") == BAD_HEADER && DamageBit("UNSUPPORTED_FORMAT") == UNSUPPORTED_FORMAT;
  }

  /** A file whose header is not sealed or not ours is named so and nothing else, and so is one of another format. */
  lemma HeaderNames(reader: Reader)
    requires |reader.data| >= HEADER_SIZE && reader.Read(0, HEADER_SIZE).Some?
    requires HeaderDamage(reader.data[0..HEADER_SIZE]) != ""
    ensures var names := FaultNames(Verify(reader).faultBits);
            && FramesNamed(names, 0, []) && DamageNamed(names, HeaderDamage(reader.data[0..HEADER_SIZE]))
            && FooterNamed(names, false, false) && !Verify(reader).complete
  {
    hide *;
    HeaderJudged(reader);
    HeaderDamageBits();
    NoFramesNoFaults(0);
    NamesOfFaults(0, [], HeaderDamage(reader.data[0..HEADER_SIZE]), false, false);
  }

  // ---- Damage after some whole blocks ----

  /** A payload that is not as many good frames with the checksum stored. */
  ghost predicate BadPayload(rest: seq<Byte>, count: nat, stored: uint32)
    requires BLOCK_SIZE + FRAME_SIZE * count <= |rest|
  {
    var frames := FramesAt(rest, BLOCK_SIZE, count);
    !AllGood(frames) || Crc.Checksum(Flatten(frames)) != stored
  }

  /** What is wrong with what follows some whole blocks, by its bytes: where a block with this number, or a footer
      and then the end, should come. */
  ghost function DamageOf(rest: seq<Byte>, number: uint32): string {
    if |rest| < 4 then "TRUNCATED"
    else if rest[0..4] == [0x42, 0x4C, 0x4B, 0x31] then
      if |rest| < BLOCK_SIZE then "TRUNCATED"
      else
        var count, size, stored := U32(rest[12..16]), U32(rest[16..20]), U32(rest[20..24]);
        if !Intact(rest[0..BLOCK_SIZE], BLOCK_BODY) || U32(rest[4..8]) != number || count == 0
           || size != FRAME_SIZE * count then "BAD_BLOCK_HEADER"
        else if |rest| - BLOCK_SIZE < size then "TRUNCATED"
        else if BadPayload(rest, count, stored) then "BAD_PAYLOAD" else ""
    else if rest[0..4] == [0x45, 0x4E, 0x44, 0x31] then
      if |rest| < FOOTER_SIZE then "TRUNCATED"
      else if !Intact(rest[0..FOOTER_SIZE], FOOTER_BODY) then "BAD_FOOTER"
      else if |rest| > FOOTER_SIZE then "TRAILING_DATA" else ""
    else "BAD_BLOCK_HEADER"
  }

  /** The frames of a bad payload that the verifier still sees. */
  ghost function SeenOf(rest: seq<Byte>): seq<Frame> {
    if |rest| < BLOCK_SIZE || |rest| < BLOCK_SIZE + FRAME_SIZE * U32(rest[12..16]) then []
    else
      var frames := FramesAt(rest, BLOCK_SIZE, U32(rest[12..16]));
      frames[..GoodUpTo(frames)]
  }

  lemma MagicBytes()
    ensures U32([0x42, 0x4C, 0x4B, 0x31]) == BLOCK_MAGIC
    ensures U32([0x45, 0x4E, 0x44, 0x31]) == FOOTER_MAGIC
  {
    var b3: seq<Byte> := [0x31];
    assert FromLittleEndian(b3) == 0x31;
    assert FromLittleEndian([0x4B, 0x31]) == 0x314B;
    assert FromLittleEndian([0x4C, 0x4B, 0x31]) == 0x314B4C;
    assert FromLittleEndian([0x44, 0x31]) == 0x3144;
    assert FromLittleEndian([0x4E, 0x44, 0x31]) == 0x31444E;
  }

  lemma MagicWord(word: seq<Byte>)
    requires |word| == 4
    ensures U32(word) == BLOCK_MAGIC <==> word == [0x42, 0x4C, 0x4B, 0x31]
    ensures U32(word) == FOOTER_MAGIC <==> word == [0x45, 0x4E, 0x44, 0x31]
  {
    hide U32;
    MagicBytes();
    if U32(word) == BLOCK_MAGIC {
      U32Injective(word, [0x42, 0x4C, 0x4B, 0x31]);
    }
    if U32(word) == FOOTER_MAGIC {
      U32Injective(word, [0x45, 0x4E, 0x44, 0x31]);
    }
  }

  lemma RestReads(data: seq<Byte>, offset: nat, rest: seq<Byte>, n: nat)
    requires offset <= |data| && data[offset..] == rest && n <= |rest|
    ensures data[offset..offset + n] == rest[0..n] && InMemory(data).Read(offset, n) == Some(rest[0..n])
  {
    InMemoryReads(data, offset, n);
  }

  /** The walk stops at the damage, and reports it on top of what it has found so far. */
  lemma DamagedWalk(data: seq<Byte>, p: Progress, rest: seq<Byte>)
    requires p.offset <= |data| && data[p.offset..] == rest
    requires var name := DamageOf(rest, p.expectedBlock);
             name == "TRUNCATED" || name == "BAD_BLOCK_HEADER" || name == "BAD_FOOTER"
    ensures var name := DamageOf(rest, p.expectedBlock);
            VerifyBlocks(InMemory(data), p)
            == p.report.Faulted(if name == "TRUNCATED" then TRUNCATED
                                else if name == "BAD_BLOCK_HEADER" then BAD_BLOCK_HEADER else BAD_FOOTER)
  {
    hide U32, Intact, BlockHeaderOf, FooterOf, ScanPayload, CheckFooter, BadPayload, Crc.Complement;
    if |rest| >= 4 {
      RestReads(data, p.offset, rest, 4);
      MagicWord(rest[0..4]);
    }
    if |rest| >= BLOCK_SIZE {
      RestReads(data, p.offset, rest, BLOCK_SIZE);
      BlockFields(rest);
    }
    if |rest| >= FOOTER_SIZE {
      RestReads(data, p.offset, rest, FOOTER_SIZE);
    }
  }

  lemma BlockFields(rest: seq<Byte>)
    requires |rest| >= BLOCK_SIZE
    ensures var b := BlockHeaderOf(rest[0..BLOCK_SIZE]);
            && b.blockSequence == U32(rest[4..8]) && b.frameCount == U32(rest[12..16])
            && b.payloadBytes == U32(rest[16..20]) && b.payloadCrc == U32(rest[20..24])
  {
    hide U32, BlockHeaderOf;
    var head := rest[0..BLOCK_SIZE];
    BlockLayout(head);
    assert head[4..8] == rest[4..8] && head[12..16] == rest[12..16];
    assert head[16..20] == rest[16..20] && head[20..24] == rest[20..24];
  }

  lemma {:induction false} SameFramesAt(data: seq<Byte>, offset: nat, at: nat, count: nat)
    requires offset <= |data| && offset + at + FRAME_SIZE * count <= |data|
    ensures FramesAt(data[offset..], at, count) == FramesAt(data, offset + at, count)
    decreases count
  {
    if count != 0 {
      assert data[offset..][at..at + FRAME_SIZE] == data[offset + at..offset + at + FRAME_SIZE];
      SameFramesAt(data, offset, at + FRAME_SIZE, count - 1);
    }
  }

  lemma AllGoodUpTo(frames: seq<Frame>)
    ensures AllGood(frames) <==> GoodUpTo(frames) == |frames|
  {
    hide GoodFrame;
    var k := GoodUpTo(frames);
    if k < |frames| {
      assert frames[k] in frames;
    }
  }

  lemma PayloadScanned(data: seq<Byte>, p: Progress, at: nat, count: nat, stored: uint32)
    requires at + FRAME_SIZE * count <= |data|
    requires var frames := FramesAt(data, at, count); !AllGood(frames) || Crc.Checksum(Flatten(frames)) != stored
    ensures var frames := FramesAt(data, at, count); var seen := ObserveFrames(p, frames[..GoodUpTo(frames)]);
            match ScanPayload(InMemory(data), p, at, count, Crc.INITIAL)
            case Stopped(report) => report == seen.report.Faulted(BAD_PAYLOAD)
            case Scanned(q, crc) => q == seen && Crc.Complement(crc) != stored
  {
    hide ObserveFrames, GoodUpTo, GoodFrame, Crc.Update, Crc.Complement, Flatten, AllGood;
    var frames := FramesAt(data, at, count);
    ScanOfPayload(data, p, at, count, Crc.INITIAL);
    AllGoodUpTo(frames);
    ChecksumIsComplement(Flatten(frames));
    assert frames[..|frames|] == frames;
  }

  lemma DamagedPayload(data: seq<Byte>, p: Progress, rest: seq<Byte>)
    requires p.offset <= |data| && data[p.offset..] == rest && DamageOf(rest, p.expectedBlock) == "BAD_PAYLOAD"
    ensures VerifyBlocks(InMemory(data), p) == ObserveFrames(p, SeenOf(rest)).report.Faulted(BAD_PAYLOAD)
  {
    hide U32, Intact, BlockHeaderOf, FooterOf, ScanPayload, CheckFooter, Crc.Complement, Crc.Checksum, ObserveFrames,
         GoodUpTo, AllGood, FramesAt, Flatten;
    RestReads(data, p.offset, rest, 4);
    MagicWord(rest[0..4]);
    RestReads(data, p.offset, rest, BLOCK_SIZE);
    BlockFields(rest);
    var count, stored := U32(rest[12..16]), U32(rest[20..24]);
    SameFramesAt(data, p.offset, BLOCK_SIZE, count);
    PayloadScanned(data, p, p.offset + BLOCK_SIZE, count, stored);
  }

  lemma TrailingWalk(data: seq<Byte>, p: Progress, rest: seq<Byte>)
    requires p.offset <= |data| && data[p.offset..] == rest && DamageOf(rest, p.expectedBlock) == "TRAILING_DATA"
    ensures |rest| > FOOTER_SIZE
    ensures VerifyBlocks(InMemory(data), p) == CheckFooter(p, FooterOf(rest[0..FOOTER_SIZE]), |data|)
  {
    hide U32, Intact, BlockHeaderOf, FooterOf, ScanPayload, CheckFooter, BadPayload, Crc.Complement;
    RestReads(data, p.offset, rest, 4);
    MagicWord(rest[0..4]);
    RestReads(data, p.offset, rest, FOOTER_SIZE);
  }

  lemma TrailingReported(p: Progress, f: FileFooter, size: nat)
    requires p.offset + FOOTER_SIZE != size
    ensures var r := CheckFooter(p, f, size);
            && !r.complete && SameCounts(r, p.report)
            && r.faultBits == Damaged(p.report.faultBits, "TRAILING_DATA", !FooterAgrees(p, f), !p.haveFrame)
  {
    hide FooterAgrees, Completes, WithFooterFaults, Either;
    TrailingBits(p.report.faultBits, !FooterAgrees(p, f), !p.haveFrame);
    assert DamageBit("TRAILING_DATA") == TRAILING_DATA;
  }

  lemma TrailingBits(bits: bv32, mismatch: bool, noFrames: bool)
    ensures WithFooterFaults(bits, mismatch, noFrames) | TRAILING_DATA
         == Either(bits, WithFooterFaults(TRAILING_DATA, mismatch, noFrames))
  {
    if mismatch {
      if noFrames {
        assert WithFooterFaults(TRAILING_DATA, true, true) == 0xE00;
      } else {
        assert WithFooterFaults(TRAILING_DATA, true, false) == 0x600;
      }
    } else if noFrames {
      assert WithFooterFaults(TRAILING_DATA, false, true) == 0xC00;
    } else {
      assert WithFooterFaults(TRAILING_DATA, false, false) == 0x400;
    }
  }

  /** The walk past whole blocks, whatever follows. */
  lemma {:induction false} PastBlocks(reader: Reader, p: Progress, before: seq<Byte>, batches: seq<seq<Frame>>,
                                      rest: seq<Byte>)
    requires Reliable(reader) && AllAppendable(batches) && AllGoodBatches(batches)
    requires |before| == p.offset && reader.data == before + (BlocksBytes(p.expectedBlock, batches) + rest)
    ensures VerifyBlocks(reader, p) == VerifyBlocks(reader, AfterBatches(p, batches))
    decreases |batches|
  {
    hide VerifyBlocks, BlockBytes, AfterBatch, BlockLength, Appendable, AllGood;
    if batches != [] {
      var first, next := batches[0], Add32(p.expectedBlock, 1);
      var bytes, tail := BlockBytes(p.expectedBlock, first), BlocksBytes(next, batches[1..]) + rest;
      assert BlocksBytes(p.expectedBlock, batches) + rest == bytes + tail;
      assert before + (bytes + tail) == before + bytes + tail;
      WholeBlock(reader, p, before, first, tail);
      AfterBatchPlace(p, first);
      PastBlocks(reader, AfterBatch(p, first), before + bytes, batches[1..], rest);
    }
  }

  lemma StateAfter(header: FileHeader, batches: seq<seq<Frame>>)
    requires AllAppendable(batches)
    ensures var q := AfterBatches(StartOfBlocks(header), batches);
            && q.offset == HEADER_SIZE + BlocksLength(batches) && q.expectedBlock == Add32(1, |batches|)
            && Tracks(q, Flatten(batches)) && q.report.header == header && !q.report.complete
            && q.report == Recovered(header, batches)
            && q.haveFrame == (batches != []) && q.report.faultBits == FrameFaults(header.runIdHash, Flatten(batches))
  {
    hide FrameSequence, FrameTime, FrameFaults, AfterBatches, Recovered;
    WalkRecovers(header, batches);
    RecoveredCounts(header, batches);
    NothingSeen(header);
    AfterBatchesCounts(StartOfBlocks(header), [], batches);
    if batches != [] {
      assert batches[0] in batches;
    }
  }

  lemma FaultsSeen(p: Progress, seen: seq<Frame>, frames: seq<Frame>)
    requires Tracks(p, seen)
    ensures ObserveFrames(p, frames).report.faultBits == FrameFaults(p.report.header.runIdHash, seen + frames)
    ensures ObserveFrames(p, frames).report.complete == p.report.complete
    ensures SameCounts(ObserveFrames(p, frames).report, p.report)
  {
    hide ObserveFrames, FrameFaults, FrameSequence, FrameTime;
    ObserveFramesTracks(p, seen, frames);
    ObserveFramesKeeps(p, frames);
  }

  /** The frames seen before the damage. */
  ghost function SeenBefore(batches: seq<seq<Frame>>, rest: seq<Byte>, name: string): seq<Frame> {
    Flatten(batches) + if name == "BAD_PAYLOAD" then SeenOf(rest) else []
  }

  /** A footer with something behind it does not tell the counts and ends of these batches. */
  ghost predicate FooterOff(batches: seq<seq<Frame>>, rest: seq<Byte>, name: string) {
    name == "TRAILING_DATA" && |rest| >= FOOTER_SIZE && !Tells(FooterOf(rest[0..FOOTER_SIZE]), batches)
  }

  /** The report on a file that holds some whole blocks of a recording and then damage. */
  lemma DamageReported(data: seq<Byte>, header: FileHeader, batches: seq<seq<Frame>>, rest: seq<Byte>, name: string)
    requires Standard(header) && AllAppendable(batches) && AllGoodBatches(batches)
    requires data == HeaderBytes(header) + BlocksBytes(1, batches) + rest
    requires name != "" && name == DamageOf(rest, Add32(1, |batches|))
    ensures var r := Verify(InMemory(data));
            var faults := FrameFaults(header.runIdHash, SeenBefore(batches, rest, name));
            && !r.complete && SameCounts(r, Recovered(header, batches))
            && r.faultBits == Damaged(faults, name, FooterOff(batches, rest, name),
                                      name == "TRAILING_DATA" && batches == [])
  {
    hide *;
    var q := AfterBatches(StartOfBlocks(header), batches);
    var head, blocks := HeaderBytes(header), BlocksBytes(1, batches);
    ReliableMemory(data);
    AddedUp(head, blocks, rest);
    StartPlace(header);
    HeaderAccepted(InMemory(data), header, blocks + rest);
    PastBlocks(InMemory(data), StartOfBlocks(header), head, batches, rest);
    BlocksBytesLength(1, batches);
    StateAfter(header, batches);
    assert data[q.offset..] == rest by { DropTwo(head, blocks, rest); }
    NamesOfDamage(rest, Add32(1, |batches|));
    DamageBitsOfNames();
    WhatIsSeen(batches, rest, name);
    if name == "BAD_PAYLOAD" {
      DamagedPayload(data, q, rest);
      FaultsSeen(q, Flatten(batches), SeenOf(rest));
      var seen := ObserveFrames(q, SeenOf(rest)).report;
      FaultRaised(seen, name, BAD_PAYLOAD);
      SameCountsTwice(seen.Faulted(BAD_PAYLOAD), seen, q.report);
    } else if name == "TRAILING_DATA" {
      TrailingWalk(data, q, rest);
      TrailingReported(q, FooterOf(rest[0..FOOTER_SIZE]), |data|);
      FooterAgreesTells(header, batches, FooterOf(rest[0..FOOTER_SIZE]));
    } else {
      DamagedWalk(data, q, rest);
      FaultRaised(q.report, name, DamageBit(name));
    }
  }

  lemma WhatIsSeen(batches: seq<seq<Frame>>, rest: seq<Byte>, name: string)
    ensures SeenBefore(batches, rest, name)
         == if name == "BAD_PAYLOAD" then Flatten(batches) + SeenOf(rest) else Flatten(batches)
    ensures |rest| >= FOOTER_SIZE ==>
              (FooterOff(batches, rest, name)
               <==> name == "TRAILING_DATA" && !Tells(FooterOf(rest[0..FOOTER_SIZE]), batches))
    ensures name != "TRAILING_DATA" ==> !FooterOff(batches, rest, name)
  {
    hide SeenOf, FooterOf, Tells;
    assert Flatten(batches) + [] == Flatten(batches);
  }

  lemma CountsSame(r: Report, s: Report)
    requires SameCounts(r, s)
    ensures r.recoverableFrames == s.recoverableFrames && r.validBlocks == s.validBlocks && r.header == s.header
  {
  }

  lemma SameCountsTwice(r: Report, s: Report, t: Report)
    requires SameCounts(r, s) && SameCounts(s, t)
    ensures SameCounts(r, t)
  {
  }

  lemma DropTwo(a: seq<Byte>, b: seq<Byte>, c: seq<Byte>)
    ensures (a + b + c)[|a| + |b|..] == c
  {
  }

  lemma NamesOfDamage(rest: seq<Byte>, number: uint32)
    ensures var name := DamageOf(rest, number);
            name == "" || name == "TRUNCATED" || name == "BAD_BLOCK_HEADER" || name == "BAD_PAYLOAD"
            || name == "BAD_FOOTER" || name == "TRAILING_DATA"
    ensures DamageOf(rest, number) == "TRAILING_DATA" ==> |rest| > FOOTER_SIZE
  {
    hide U32, Intact, BadPayload;
  }

  lemma DamageBitsOfNames()
    ensures DamageBit("TRUNCATED") == TRUNCATED && DamageBit("BAD_BLOCK_HEADER") == BAD_BLOCK_HEADER
    ensures DamageBit("BAD_PAYLOAD") == BAD_PAYLOAD && DamageBit("BAD_FOOTER") == BAD_FOOTER
    ensures DamageBit("TRAILING_DATA") == TRAILING_DATA
  {
  }

  /** A file that holds some whole blocks of a recording and then anything that is neither the next block nor a
      footer at its end is not complete, and exactly the name of the damage is printed: for bytes that end
      early, for a block header that is not sealed, not the next or not consistent, for frames that are not
      well formed or do not have the checksum stored, for a footer that is not sealed, and for bytes after it. Of
      the frames, what is printed is what those seen before the damage show; of the footer, only one with bytes
      after it is judged. */
  lemma DamageNames(data: seq<Byte>, header: FileHeader, batches: seq<seq<Frame>>, rest: seq<Byte>, name: string)
    requires Standard(header) && AllAppendable(batches) && AllGoodBatches(batches)
    requires data == HeaderBytes(header) + BlocksBytes(1, batches) + rest
    requires name != "" && name == DamageOf(rest, Add32(1, |batches|))
    ensures var names := FaultNames(Verify(InMemory(data)).faultBits);
            && !Verify(InMemory(data)).complete
            && Verify(InMemory(data)).recoverableFrames == Add32(0, |Flatten(batches)|)
            && Verify(InMemory(data)).validBlocks == Add32(0, |batches|) && Verify(InMemory(data)).header == header
            && FramesNamed(names, header.runIdHash, SeenBefore(batches, rest, name)) && DamageNamed(names, name)
            && FooterNamed(names, FooterOff(batches, rest, name), name == "TRAILING_DATA" && batches == [])
  {
    hide *;
    DamageReported(data, header, batches, rest, name);
    RecoveredCounts(header, batches);
    CountsSame(Verify(InMemory(data)), Recovered(header, batches));
    NamesOfFaults(header.runIdHash, SeenBefore(batches, rest, name), name, FooterOff(batches, rest, name),
                  name == "TRAILING_DATA" && batches == []);
  }

  // ---- Frames of damaged files ----

  lemma NotHandedOut(data: seq<Byte>, index: uint32)
    requires var names := FaultNames(Verify(InMemory(data)).faultBits);
             || "BAD_HEADER" in names || "UNSUPPORTED_FORMAT" in names
             || "BAD_BLOCK_HEADER" in names || "BAD_PAYLOAD" in names
    ensures CopyFrame(data, index) == None
  {
    hide Verify, FaultNames, Both, CopyFrom;
    var bits := Verify(InMemory(data)).faultBits;
    NamesOfBits(bits);
    UnreadableBits(bits);
  }

  lemma UnreadableBits(bits: bv32)
    ensures Both(bits, 0x02) != 0 || Both(bits, 0x04) != 0 || Both(bits, 0x08) != 0 || Both(bits, 0x10) != 0
        ==> bits & UNREADABLE_MASK != 0
  {
  }

  /** No frame is handed out of a file with a bad block or payload, not even of the whole blocks before it. */
  lemma DamagedUnreadable(data: seq<Byte>, header: FileHeader, batches: seq<seq<Frame>>, rest: seq<Byte>, index: uint32)
    requires Standard(header) && AllAppendable(batches) && AllGoodBatches(batches)
    requires data == HeaderBytes(header) + BlocksBytes(1, batches) + rest
    requires var name := DamageOf(rest, Add32(1, |batches|)); name == "BAD_BLOCK_HEADER" || name == "BAD_PAYLOAD"
    ensures CopyFrame(data, index) == None
  {
    hide Verify, FaultNames, CopyFrame, DamageOf, SeenBefore, FramesNamed, FooterNamed, FooterOff, HeaderBytes,
         BlocksBytes, Standard, AllAppendable, AllGoodBatches;
    DamageNames(data, header, batches, rest, DamageOf(rest, Add32(1, |batches|)));
    NotHandedOut(data, index);
  }

  /** Nor of one whose header is bad or of another format. */
  lemma HeaderUnreadable(data: seq<Byte>, index: uint32)
    requires |data| >= HEADER_SIZE && HeaderDamage(data[0..HEADER_SIZE]) != ""
    ensures CopyFrame(data, index) == None
  {
    hide Verify, FaultNames, CopyFrame, FramesNamed, FooterNamed, Intact, U16, U32;
    InMemoryReads(data, 0, HEADER_SIZE);
    HeaderNames(InMemory(data));
    NotHandedOut(data, index);
  }
}
