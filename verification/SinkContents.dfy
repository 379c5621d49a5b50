/** What the sink's files hold: the recording so far, and how much of it would survive a loss of power. */
module SinkContents {
  import opened Bytes
  import opened RecordingFile
  import opened RecordingEncoder
  import opened RecordingRecovery
  import opened Card
  import opened SessionNames
  import opened SinkProtocol
  import opened SinkSafety

  ghost function Contents(file: File): seq<Byte> {
    file.durable + file.pending
  }

  /** A recording after its header and these batches. */
  ghost function Emitted(header: FileHeader, batches: seq<seq<Frame>>): seq<Byte>
    requires AllAppendable(batches)
  {
    HeaderBytes(header) + BlocksBytes(1, batches)
  }

  /** The session is open and every byte it emitted was taken. */
  ghost predicate Streaming(w: World) {
    w.sink.file.Stream? && w.log.intact
  }

  ghost function OpenFile(w: World): File
    requires w.sink.file.Stream? && StreamOpen(w.storage, w.sink.file)
  {
    w.storage.disk.files[w.storage.streams[w.sink.file.id]]
  }

  /** All but the last `unflushed` blocks are durable. */
  ghost predicate DurableBut(file: File, header: FileHeader, batches: seq<seq<Frame>>, unflushed: nat)
    requires AllAppendable(batches)
  {
    && unflushed <= |batches|
    && AllAppendable(batches[..|batches| - unflushed])
    && IsPrefix(Emitted(header, batches[..|batches| - unflushed]), file.durable)
  }

  /** The open file holds what was emitted; the sink's counter is the number of blocks since the last
      successful flush, modulo 2^32, and all blocks before them are durable. */
  ghost predicate FileSound(file: File, sink: Sink, log: Log)
    requires AllAppendable(log.batches)
  {
    && sink.encoder == AfterAppends(STARTED, log.batches)
    && Contents(file) == Emitted(log.header, log.batches)
    && sink.blocksSinceFlush == Add32(0, log.unflushed)
    && DurableBut(file, log.header, log.batches, log.unflushed)
  }

  /** A commit that the log calls intact put exactly the whole recording on the card. */
  ghost predicate ArchivesWhole(w: World) {
    forall p :: p in w.archives && w.archives[p].log.intact ==>
      && AllAppendable(w.archives[p].log.batches)
      && p in w.storage.disk.files
      && w.storage.disk.files[p]
         == File(RecordingBytes(w.archives[p].log.header, w.archives[p].log.batches, w.archives[p].producerDrops), [])
  }

  /** What is true of a world between any two calls of the sink. */
  ghost predicate Sound(w: World) {
    && Safe(w)
    && StreamOpen(w.storage, w.sink.file)
    && ArchivesWhole(w)
    && (Streaming(w) ==> AllAppendable(w.log.batches) && FileSound(OpenFile(w), w.sink, w.log))
    && (w.sink.file.Stream? && w.sink.error == NoError ==> w.log.intact)
  }

  // ---- Calls of the C library on the open file ----

  lemma FwriteContents(env: Environment, s: Storage, handle: nat, data: seq<Byte>)
    requires handle in s.streams && s.streams[handle] in s.disk.files
    ensures var (after, taken) := Fwrite(env, s, handle, data); var path := s.streams[handle];
            && taken <= |data| && after.streams == s.streams && path in after.disk.files
            && after.disk.files[path].durable == s.disk.files[path].durable
            && Contents(after.disk.files[path]) == Contents(s.disk.files[path]) + data[..taken]
  {
    var file := s.disk.files[s.streams[handle]];
    var taken := Fwrite(env, s, handle, data).1;
    assert file.durable + (file.pending + data[..taken]) == file.durable + file.pending + data[..taken];
  }

  lemma TransferContents(file: File, amount: nat)
    ensures Contents(Transfer(file, amount)) == Contents(file)
    ensures IsPrefix(file.durable, Transfer(file, amount).durable)
    ensures amount >= |file.pending| ==> Transfer(file, amount) == File(Contents(file), [])
  {
    var n := if amount > |file.pending| then |file.pending| else amount;
    assert file.pending[..n] + file.pending[n..] == file.pending;
  }

  lemma FflushContents(env: Environment, s: Storage, handle: nat)
    requires handle in s.streams && s.streams[handle] in s.disk.files
    ensures var (after, ok) := Fflush(env, s, handle); var path := s.streams[handle];
            && after.streams == s.streams && path in after.disk.files
            && Contents(after.disk.files[path]) == Contents(s.disk.files[path])
            && IsPrefix(s.disk.files[path].durable, after.disk.files[path].durable)
            && (ok ==> after.disk.files[path] == File(Contents(s.disk.files[path]), []))
  {
    hide Transfer, Contents;
    var file := s.disk.files[s.streams[handle]];
    TransferContents(file, if Now(env, s).succeeds then |file.pending| else Now(env, s).amount);
  }

  lemma FcloseContents(env: Environment, s: Storage, handle: nat)
    requires handle in s.streams && s.streams[handle] in s.disk.files
    ensures var (after, ok) := Fclose(env, s, handle); var path := s.streams[handle];
            && path in after.disk.files
            && IsPrefix(s.disk.files[path].durable, after.disk.files[path].durable)
            && after.disk.files[path].pending == []
            && IsPrefix(Contents(after.disk.files[path]), Contents(s.disk.files[path]))
            && (ok ==> after.disk.files[path] == File(Contents(s.disk.files[path]), []))
  {
    hide Transfer;
    var file := s.disk.files[s.streams[handle]];
    var amount := if Now(env, s).succeeds then |file.pending| else Now(env, s).amount;
    TransferContents(file, amount);
  }

  lemma PutContents(env: Environment, s: Storage, file: Handle, data: seq<Byte>)
    requires StreamOpen(s, file) && file.Stream?
    ensures var put := PutBytes(env, s, file, data); var path := s.streams[file.id];
            && put.storage.streams == s.streams && path in put.storage.disk.files
            && put.storage.disk.files[path].durable == s.disk.files[path].durable
            && (put.ok ==> Contents(put.storage.disk.files[path]) == Contents(s.disk.files[path]) + data)
            && exists n :: 0 <= n <= |data|
                 && Contents(put.storage.disk.files[path]) == Contents(s.disk.files[path]) + data[..n]
  {
    hide Fwrite, Contents;
    FwriteContents(env, s, file.id, data);
    var taken := Fwrite(env, s, file.id, data).1;
    assert taken == |data| ==> data[..taken] == data;
  }

  lemma EmitBlockContents(env: Environment, s: Storage, file: Handle, e: Encoder, frames: seq<Frame>)
    requires StreamOpen(s, file) && file.Stream?
    ensures var r := EmitBlock(env, s, file, e, frames); var path := s.streams[file.id];
            && r.storage.streams == s.streams && path in r.storage.disk.files
            && r.storage.disk.files[path].durable == s.disk.files[path].durable
            && (r.ok ==> && e.writing && Appendable(frames) && r.encoder == Appended(e, frames)
                         && Contents(r.storage.disk.files[path])
                            == Contents(s.disk.files[path]) + BlockBytes(Add32(e.blockSequence, 1), frames))
  {
    hide Contents, PutBytes, BlockHeaderBytes, MakeBlock, Flatten, Counted, Appendable;
    if e.writing && Appendable(frames) {
      var head := BlockHeaderBytes(MakeBlock(Numbered(e).blockSequence, frames));
      PutContents(env, s, file, head);
      var first := PutBytes(env, s, file, head);
      PutContents(env, first.storage, file, Flatten(frames));
      var path := s.streams[file.id];
      var c := Contents(s.disk.files[path]);
      assert c + head + Flatten(frames) == c + (head + Flatten(frames));
    }
  }

  lemma EmitFooterContents(env: Environment, s: Storage, file: Handle, e: Encoder, drops: uint32)
    requires StreamOpen(s, file) && file.Stream?
    ensures var r := EmitFooter(env, s, file, e, drops); var path := s.streams[file.id];
            && r.storage.streams == s.streams && path in r.storage.disk.files
            && r.storage.disk.files[path].durable == s.disk.files[path].durable
            && (r.ok ==> e.writing && Contents(r.storage.disk.files[path])
                                     == Contents(s.disk.files[path]) + FooterBytes(MakeFooter(e, drops)))
  {
    hide Contents, PutBytes, FooterBytes, MakeFooter;
    if e.writing {
      PutContents(env, s, file, FooterBytes(MakeFooter(e, drops)));
    }
  }

  // ---- Calls of the sink ----

  lemma ArchivesStay(w: World, r: World)
    requires Safe(w) && Safe(r) && w.storage.history <= r.storage.history
    ensures Kept(w.storage.disk, r.storage.disk)
    ensures ArchivesWhole(w) && r.archives == w.archives ==> ArchivesWhole(r)
  {
    hide RecordingBytes, AllAppendable;
    var k := |w.storage.history| - 1;
    assert r.storage.history[k] == w.storage.disk;
    assert Kept(r.storage.history[k], r.storage.history[|r.storage.history| - 1]);
  }

  lemma NothingEmitted(header: FileHeader)
    ensures AllAppendable([]) && Emitted(header, []) == HeaderBytes(header)
    ensures AfterAppends(STARTED, []) == STARTED
  {
    hide HeaderBytes;
    assert HeaderBytes(header) + [] == HeaderBytes(header);
  }

  lemma AppendableSnoc(batches: seq<seq<Frame>>, last: seq<Frame>)
    requires AllAppendable(batches) && Appendable(last)
    ensures AllAppendable(batches + [last])
  {
    hide Appendable;
    forall b | b in batches + [last] ensures Appendable(b) {
      assert b in batches || b == last;
    }
  }

  lemma EmittedSnoc(header: FileHeader, batches: seq<seq<Frame>>, last: seq<Frame>)
    requires AllAppendable(batches) && Appendable(last)
    ensures AllAppendable(batches + [last])
    ensures Emitted(header, batches + [last]) == Emitted(header, batches) + BlockBytes(Add32(1, |batches|), last)
  {
    hide HeaderBytes, BlocksBytes, BlockBytes, AllAppendable, Appendable;
    AppendableSnoc(batches, last);
    BlocksBytesSnoc(1, batches, last);
    Associates(HeaderBytes(header), BlocksBytes(1, batches), BlockBytes(Add32(1, |batches|), last));
  }

  lemma Associates(a: seq<Byte>, b: seq<Byte>, c: seq<Byte>)
    ensures a + (b + c) == a + b + c
  {
  }

  lemma NextBlock(n: nat)
    ensures Add32(Add32(0, n), 1) == Add32(1, n)
  {
    Add32Twice(0, n, 1);
  }

  lemma EncoderSnoc(batches: seq<seq<Frame>>, last: seq<Frame>)
    requires AllAppendable(batches) && Appendable(last)
    ensures AllAppendable(batches + [last])
    ensures AfterAppends(STARTED, batches + [last]) == Appended(AfterAppends(STARTED, batches), last)
    ensures Add32(AfterAppends(STARTED, batches).blockSequence, 1) == Add32(1, |batches|)
  {
    hide AfterAppends, Appended, AllAppendable, Appendable, Flatten, Add32;
    AppendableSnoc(batches, last);
    AfterAppendsSnoc(STARTED, batches, last);
    CountsAfter(STARTED, batches);
    NextBlock(|batches|);
  }

  lemma NewSession(file: File, header: FileHeader, sink: Sink)
    requires sink.encoder == STARTED && sink.blocksSinceFlush == 0
    requires file == File(HeaderBytes(header), [])
    ensures AllAppendable([]) && FileSound(file, sink, Log(header, [], 0, true))
  {
    hide HeaderBytes, BlocksBytes, AfterAppends;
    NothingEmitted(header);
    var none: seq<seq<Frame>> := [];
    assert none[..0] == none;
    assert HeaderBytes(header) + [] == HeaderBytes(header);
  }

  lemma OpenSessionSound(env: Environment, m: Metadata, w: World, a: Allocation, session: uint32, start: uint32)
    requires w.sink.file.NoFile? && w.sink.error == NoError && w.sink.blocksSinceFlush == 0 && !w.log.intact
    ensures var r := OpenSession(env, m, w, a, session, start).0;
            && (Streaming(r) ==> AllAppendable(r.log.batches) && FileSound(OpenFile(r), r.sink, r.log))
            && (r.sink.file.Stream? && r.sink.error == NoError ==> r.log.intact)
            && r.archives == w.archives
  {
    hide FileSound, HeaderBytes, MakeHeader, AllAppendable, Fwrite, Fflush, Contents;
    var path := a.directory + TEMPORARY;
    match Fopen(env, w.storage, path)
    case (after, NotOpened) =>
    case (after, Opened(id)) =>
      var header := MakeHeader(m, session, a.storageSequence, start);
      PutContents(env, after, Stream(id), HeaderBytes(header));
      var put := PutBytes(env, after, Stream(id), HeaderBytes(header));
      FflushContents(env, put.storage, id);
      var r := OpenSession(env, m, w, a, session, start).0;
      if put.ok && Fflush(env, put.storage, id).1 {
        EmptyContents(HeaderBytes(header));
        NewSession(OpenFile(r), header, r.sink);
      }
  }

  lemma EmptyContents(data: seq<Byte>)
    ensures Contents(File([], [])) + data == data
  {
  }

  lemma BeginSound(env: Environment, m: Metadata, w: World, card: bool, session: uint32, start: uint32)
    requires Sound(w)
    ensures Sound(Begin(env, m, w, card, session, start).0)
  {
    hide Safe, ArchivesWhole, FileSound, Abort, Allocate, OpenSession, RobotRoot;
    BeginKeeps(env, m, w, card, session, start);
    var r := Begin(env, m, w, card, session, start).0;
    var idle := Abort(env, w);
    var ready := idle.(sink := idle.sink.(error := NoError, encoder := IDLE, blocksSinceFlush := 0), log := NO_SESSION);
    var s1 := Mkdir(env, ready.storage, FLIGHT_ROOT).0;
    var s2 := Mkdir(env, s1, RobotRoot(m)).0;
    var a := Allocate(env, s2, RobotRoot(m), session, start, MAX_ATTEMPTS, ready.sink.directory);
    var placed := ready.(storage := a.storage, sink := ready.sink.(directory := a.directory));
    OpenSessionSound(env, m, placed, a, session, start);
    ArchivesStay(w, r);
  }

  lemma AbortSound(env: Environment, w: World)
    requires Sound(w)
    ensures Sound(Abort(env, w))
  {
    hide Safe, ArchivesWhole, FileSound, Fflush, Fclose;
    AbortKeeps(env, w);
    ArchivesStay(w, Abort(env, w));
  }

  lemma DurableStays(file: File, other: File, header: FileHeader, batches: seq<seq<Frame>>, unflushed: nat)
    requires AllAppendable(batches) && DurableBut(file, header, batches, unflushed)
    requires IsPrefix(file.durable, other.durable)
    ensures DurableBut(other, header, batches, unflushed)
  {
    hide Emitted, AllAppendable;
    var kept := Emitted(header, batches[..|batches| - unflushed]);
    assert kept == other.durable[..|file.durable|][..|kept|] == other.durable[..|kept|];
  }

  lemma BlockAppendedSound(file: File, other: File, sink: Sink, log: Log, frames: seq<Frame>)
    requires AllAppendable(log.batches) && Appendable(frames) && FileSound(file, sink, log)
    requires other.durable == file.durable
    requires Contents(other) == Contents(file) + BlockBytes(Add32(sink.encoder.blockSequence, 1), frames)
    ensures var more := log.(batches := log.batches + [frames], unflushed := log.unflushed + 1);
            && AllAppendable(more.batches)
            && FileSound(other, sink.(encoder := Appended(sink.encoder, frames),
                                      blocksSinceFlush := Add32(sink.blocksSinceFlush, 1)), more)
  {
    hide Emitted, BlockBytes, Appended, AfterAppends, Contents, AllAppendable;
    EmittedSnoc(log.header, log.batches, frames);
    EncoderSnoc(log.batches, frames);
    var more := log.batches + [frames];
    var n := |log.batches|;
    Add32Twice(0, log.unflushed, 1);
    assert more[..|more| - (log.unflushed + 1)] == log.batches[..n - log.unflushed];
  }

  lemma FlushedSound(file: File, other: File, sink: Sink, log: Log, ok: bool)
    requires AllAppendable(log.batches) && FileSound(file, sink, log)
    requires Contents(other) == Contents(file) && IsPrefix(file.durable, other.durable)
    requires ok ==> other == File(Contents(file), [])
    ensures FileSound(other, sink, log)
    ensures ok ==> FileSound(other, sink.(blocksSinceFlush := 0), log.(unflushed := 0))
  {
    hide Emitted, AfterAppends, Contents, AllAppendable, DurableBut;
    DurableStays(file, other, log.header, log.batches, log.unflushed);
    if ok {
      AllDurable(other, log.header, log.batches);
    }
  }

  lemma AllDurable(file: File, header: FileHeader, batches: seq<seq<Frame>>)
    requires AllAppendable(batches) && file.durable == Emitted(header, batches)
    ensures DurableBut(file, header, batches, 0)
  {
    hide Emitted, AllAppendable;
    assert batches[..|batches| - 0] == batches;
  }

  lemma ErrorKeepsFile(file: File, sink: Sink, error: SinkError, log: Log)
    requires AllAppendable(log.batches) && FileSound(file, sink, log)
    ensures FileSound(file, SetError(sink, error), log)
  {
    hide Emitted, AfterAppends, Contents, AllAppendable, DurableBut;
  }

  lemma WriteSound(env: Environment, w: World, frames: Frames)
    requires Sound(w)
    ensures Sound(Write(env, w, frames).0)
  {
    hide Safe, ArchivesWhole, FileSound, EmitBlock, Fflush, AllAppendable, Appended, BlockBytes, Contents;
    WriteKeeps(env, w, frames);
    var (r, ok) := Write(env, w, frames);
    ArchivesStay(w, r);
    if Streaming(w) {
      ErrorKeepsFile(OpenFile(w), w.sink, Internal, w.log);
    }
    if w.sink.file.Stream? && frames.Batch? && frames.frames != [] {
      EmitBlockContents(env, w.storage, w.sink.file, w.sink.encoder, frames.frames);
      var emitted := EmitBlock(env, w.storage, w.sink.file, w.sink.encoder, frames.frames);
      var path := w.storage.streams[w.sink.file.id];
      if emitted.ok && w.log.intact {
        var sink := w.sink.(encoder := emitted.encoder, blocksSinceFlush := Add32(w.sink.blocksSinceFlush, 1));
        var log := w.log.(batches := w.log.batches + [frames.frames], unflushed := w.log.unflushed + 1);
        BlockAppendedSound(OpenFile(w), emitted.storage.disk.files[path], w.sink, w.log, frames.frames);
        FflushContents(env, emitted.storage, w.sink.file.id);
        var (flushed, flushOk) := Fflush(env, emitted.storage, w.sink.file.id);
        FlushedSound(emitted.storage.disk.files[path], flushed.disk.files[path], sink, log, flushOk);
        ErrorKeepsFile(flushed.disk.files[path], sink, FlushFailed, log);
      }
    }
  }

  /** A session that is finished without a failure leaves exactly the whole recording. */
  lemma FinishedWhole(env: Environment, w: World, drops: uint32)
    requires Sound(w) && Finish(env, w, drops).1
    ensures var r := Finish(env, w, drops).0;
            && w.sink.file.Stream? && w.sink.committedPath in r.storage.disk.files
            && r.archives == w.archives[w.sink.committedPath := Archive(w.log, drops)]
            && (w.log.intact ==> && AllAppendable(w.log.batches)
                                 && r.storage.disk.files[w.sink.committedPath]
                                    == File(RecordingBytes(w.log.header, w.log.batches, drops), []))
  {
    hide Safe, ArchivesWhole, EmitFooter, Fflush, Fclose, AllAppendable, AfterAppends, DurableBut, Contents,
         FooterBytes;
    SafeStream(w);
    StreamAtPath(w);
    var path := w.sink.temporaryPath;
    EmitFooterContents(env, w.storage, w.sink.file, w.sink.encoder, drops);
    var emitted := EmitFooter(env, w.storage, w.sink.file, w.sink.encoder, drops);
    FflushContents(env, emitted.storage, w.sink.file.id);
    var flushed := Fflush(env, emitted.storage, w.sink.file.id).0;
    FcloseContents(env, flushed, w.sink.file.id);
    if w.log.intact {
      WholeRecording(w.log.header, w.log.batches, drops);
    }
  }

  lemma StreamAtPath(w: World)
    requires Safe(w) && w.sink.file.Stream?
    ensures StreamOpen(w.storage, w.sink.file) && w.storage.streams[w.sink.file.id] == w.sink.temporaryPath
  {
  }

  lemma WholeRecording(header: FileHeader, batches: seq<seq<Frame>>, drops: uint32)
    requires AllAppendable(batches)
    ensures Emitted(header, batches) + FooterBytes(MakeFooter(AfterAppends(STARTED, batches), drops))
         == RecordingBytes(header, batches, drops)
  {
    hide HeaderBytes, BlocksBytes, AfterAppends, FooterBytes, MakeFooter, AllAppendable;
  }

  lemma FinishSound(env: Environment, w: World, drops: uint32)
    requires Sound(w)
    ensures Sound(Finish(env, w, drops).0)
  {
    hide Safe, FileSound, EmitFooter, Fflush, Fclose, Rename, AllAppendable, AfterAppends, RecordingBytes, Kept;
    FinishKeeps(env, w, drops);
    SafeStream(w);
    var (r, ok) := Finish(env, w, drops);
    ArchivesStay(w, r);
    if Streaming(w) {
      ErrorKeepsFile(OpenFile(w), w.sink, Internal, w.log);
    }
    if ok {
      FinishedWhole(env, w, drops);
      OlderArchives(w, r);
    }
  }

  lemma OlderArchives(w: World, r: World)
    requires Safe(w) && ArchivesWhole(w) && Kept(w.storage.disk, r.storage.disk)
    ensures forall p :: p in w.archives && w.archives[p].log.intact ==>
              && AllAppendable(w.archives[p].log.batches)
              && p in r.storage.disk.files
              && r.storage.disk.files[p]
                 == File(RecordingBytes(w.archives[p].log.header, w.archives[p].log.batches,
                                        w.archives[p].producerDrops), [])
  {
    hide RecordingBytes, AllAppendable;
  }

  lemma CallSound(env: Environment, m: Metadata, w: World, call: Call)
    requires Sound(w)
    ensures Sound(Do(env, m, w, call).0)
  {
    hide Sound, Begin, Write, Finish, Abort;
    SoundStream(w);
    match call
    case BeginCall(card, session, start) => BeginSound(env, m, w, card, session, start);
    case WriteCall(frames) => WriteSound(env, w, frames);
    case FinishCall(drops) => FinishSound(env, w, drops);
    case AbortCall => AbortSound(env, w);
  }

  lemma SoundStream(w: World)
    requires Sound(w)
    ensures StreamOpen(w.storage, w.sink.file)
  {
  }
}
