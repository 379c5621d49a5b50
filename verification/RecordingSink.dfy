/** The classes behind the sink's protocol: RecordingByteWriter, RecordingFileEncoder
    (include/robot/telemetry/recording_codec.hpp) and ProsRecordingSessionSink
    (src/platform/pros_recording_sink.cpp), statement by statement. Each method takes its object to
    the state that SinkProtocol names. */
module RecordingSink {
  import opened Bytes
  import opened RecordingFile
  import opened RecordingEncoder
  import opened Card
  import opened SessionNames
  import opened SinkProtocol

  /** The sink's byte-writer base, with the stream it writes to. */
  class ByteWriter {
    const card: MicroSd
    var file: Handle

    constructor (card: MicroSd)
      ensures this.card == card && file == NoFile
    {
      this.card := card;
      file := NoFile;
    }

    ghost predicate Valid()
      reads this, card
    {
      StreamOpen(card.storage, file)
    }

    method WriteBytes(data: seq<Byte>) returns (ok: bool)
      requires Valid()
      modifies card
      ensures Valid()
      ensures Put(card.storage, ok) == PutBytes(card.environment, old(card.storage), file, data)
    {
      ok := false;
      if file.Stream? {
        var taken := card.Write(file.id, data);
        ok := taken == |data|;
      }
    }
  }

  class RecordingFileEncoder {
    var writer: ByteWriter?
    var header: FileHeader
    var blockSequence: uint32
    var totalFrames: uint32
    var firstFrameSequence: uint32
    var lastFrameSequence: uint32
    var firstTimeUs: uint64
    var lastTimeUs: uint64

    constructor ()
      ensures writer == null && State() == IDLE
    {
      writer, header := null, EMPTY_HEADER;
      blockSequence, totalFrames, firstFrameSequence, lastFrameSequence, firstTimeUs, lastTimeUs := 0, 0, 0, 0, 0, 0;
    }

    function State(): Encoder
      reads this
    {
      Encoder(writer != null, blockSequence, totalFrames, firstFrameSequence, lastFrameSequence, firstTimeUs,
              lastTimeUs)
    }

    method Reset()
      modifies this
      ensures writer == null && State() == IDLE
    {
      writer, header := null, EMPTY_HEADER;
      blockSequence, totalFrames, firstFrameSequence, lastFrameSequence, firstTimeUs, lastTimeUs := 0, 0, 0, 0, 0, 0;
    }

    method Begin(writer: ByteWriter, metadata: Metadata, sessionSequence: uint32, storageSequence: uint32,
                 startTimeMs: uint32)
      returns (ok: bool)
      requires writer.Valid()
      modifies this, writer.card
      ensures writer.Valid() && this.writer == writer
      ensures header == MakeHeader(metadata, sessionSequence, storageSequence, startTimeMs)
      ensures Emission(writer.card.storage, State(), ok)
           == EmitHeader(writer.card.environment, old(writer.card.storage), writer.file, header)
    {
      hide HeaderBytes, MakeHeader, PutBytes;
      Reset();
      this.writer := writer;
      header := MakeHeader(metadata, sessionSequence, storageSequence, startTimeMs);
      ok := writer.WriteBytes(HeaderBytes(header));
    }

    method Append(frames: seq<Frame>) returns (ok: bool)
      requires writer != null ==> writer.Valid()
      modifies this, if writer == null then {} else {writer.card}
      ensures writer == old(writer) && header == old(header)
      ensures writer == null ==> !ok && State() == old(State())
      ensures writer != null ==>
                && writer.Valid()
                && Emission(writer.card.storage, State(), ok)
                   == EmitBlock(writer.card.environment, old(writer.card.storage), writer.file, old(State()), frames)
    {
      hide BlockHeaderBytes, MakeBlock, PutBytes, Flatten, FrameSequence, FrameTime;
      if writer == null || !Appendable(frames) {
        return false;
      }
      blockSequence := Add32(blockSequence, 1);
      var block := MakeBlock(blockSequence, frames);
      ok := writer.WriteBytes(BlockHeaderBytes(block));
      if ok {
        ok := writer.WriteBytes(Flatten(frames));
      }
      if !ok {
        return;
      }
      if totalFrames == 0 {
        firstFrameSequence := FrameSequence(frames[0]);
        firstTimeUs := FrameTime(frames[0]);
      }
      totalFrames := Add32(totalFrames, |frames|);
      lastFrameSequence := FrameSequence(frames[|frames| - 1]);
      lastTimeUs := FrameTime(frames[|frames| - 1]);
    }

    method Finish(producerDrops: uint32) returns (ok: bool)
      requires writer != null ==> writer.Valid()
      modifies this, if writer == null then {} else {writer.card}
      ensures writer == null && header == old(header)
      ensures old(writer) == null ==> !ok && State() == old(State())
      ensures old(writer) != null ==>
                && old(writer).Valid()
                && Emission(old(writer).card.storage, State(), ok)
                   == EmitFooter(old(writer).card.environment, old(writer.card.storage), old(writer).file,
                                 old(State()), producerDrops)
    {
      hide FooterBytes, MakeFooter, PutBytes;
      if writer == null {
        return false;
      }
      ok := writer.WriteBytes(FooterBytes(MakeFooter(State(), producerDrops)));
      writer := null;
    }
  }

  lemma NothingWithoutWriter(env: Environment, s: Storage, file: Handle, e: Encoder, frames: seq<Frame>,
                             producerDrops: uint32)
    requires StreamOpen(s, file) && !e.writing
    ensures EmitBlock(env, s, file, e, frames) == Emission(s, e, false) == EmitFooter(env, s, file, e, producerDrops)
  {
  }

  class ProsRecordingSessionSink {
    const card: MicroSd
    const metadata: Metadata
    const writer: ByteWriter
    const encoder: RecordingFileEncoder
    var directory: string
    var temporaryPath: string
    var committedPath: string
    var error: SinkError
    var blocksSinceFlush: uint32
    ghost var log: Log
    ghost var archives: map<string, Archive>

    constructor (card: MicroSd, metadata: Metadata)
      requires card.storage == Start(card.storage.disk)
      ensures this.card == card && this.metadata == metadata
      ensures Valid() && State() == Boot(card.storage.disk)
    {
      this.card := card;
      this.metadata := metadata;
      writer := new ByteWriter(card);
      encoder := new RecordingFileEncoder();
      directory, temporaryPath, committedPath, error, blocksSinceFlush := "", "", "", NoError, 0;
      log, archives := NO_SESSION, map[];
    }

    ghost predicate Valid()
      reads this, card, writer, encoder
    {
      writer.card == card && writer.Valid() && (encoder.writer == null || encoder.writer == writer)
    }

    ghost function State(): World
      reads this, card, writer, encoder
    {
      var sink := Sink(directory, temporaryPath, committedPath, encoder.State(), error, writer.file, blocksSinceFlush);
      World(card.storage, sink, log, archives)
    }

    method RaiseError(error: SinkError)
      modifies this`error
      ensures this.error == if old(this.error) == NoError then error else old(this.error)
    {
      if this.error == NoError {
        this.error := error;
      }
    }

    method EnsureDirectory(path: string) returns (ok: bool)
      requires Valid()
      modifies this`error, card
      ensures Valid()
      ensures var (after, r) := Mkdir(card.environment, old(card.storage), path);
              && ok == (r != Failed) && State() == old(State()).(storage := after, sink := State().sink)
              && State().sink == if ok then old(State()).sink else SetError(old(State()).sink, DirectoryCreate)
    {
      var r := card.MakeDirectory(path);
      ok := r != Failed;
      if !ok {
        RaiseError(DirectoryCreate);
      }
    }

    method Abort()
      requires Valid()
      modifies card, writer
      ensures Valid() && State() == SinkProtocol.Abort(card.environment, old(State()))
    {
      hide Transfer;
      if writer.file.Stream? {
        var flushed := card.Flush(writer.file.id);
        var closed := card.Close(writer.file.id);
        writer.file := NoFile;
      }
    }

    /** The search for a free name: at most 10000 attempts, the sequence wrapping around. */
    method AllocateDirectory(root: string, sessionSequence: uint32, startTimeMs: uint32) returns (created: bool,
                             storageSequence: uint32)
      requires Valid()
      modifies this`directory, card
      ensures Valid()
      ensures var a := Allocate(card.environment, old(card.storage), root, sessionSequence, startTimeMs, MAX_ATTEMPTS,
                                old(directory));
              && a == Allocation(card.storage, created, storageSequence, directory)
              && State() == old(State()).(storage := a.storage, sink := old(State()).sink.(directory := a.directory))
    {
      hide DirectoryPath;
      created, storageSequence := false, sessionSequence;
      ghost var all := Allocate(card.environment, card.storage, root, sessionSequence, startTimeMs, MAX_ATTEMPTS,
                                directory);
      var attempt := 0;
      while attempt < MAX_ATTEMPTS
        invariant 0 <= attempt <= MAX_ATTEMPTS && !created && Valid()
        invariant all == Allocate(card.environment, card.storage, root, storageSequence, startTimeMs,
                                  MAX_ATTEMPTS - attempt, directory)
      {
        directory := DirectoryPath(root, storageSequence, startTimeMs);
        var r := card.MakeDirectory(directory);
        if r == Created {
          created := true;
          break;
        }
        if r != AlreadyExists {
          break;
        }
        attempt, storageSequence := attempt + 1, Add32(storageSequence, 1);
      }
    }

    method Begin(cardInstalled: bool, sessionSequence: uint32, startTimeMs: uint32) returns (ok: bool)
      requires Valid()
      modifies this, card, writer, encoder
      ensures Valid()
      ensures (State(), ok)
           == SinkProtocol.Begin(card.environment, metadata, old(State()), cardInstalled, sessionSequence, startTimeMs)
    {
      hide Mkdir, Fopen, Fflush, Allocate, EmitHeader, MakeHeader, SinkProtocol.Abort, RobotRoot;
      Abort();
      error := NoError;
      encoder.Reset();
      blocksSinceFlush := 0;
      log := NO_SESSION;

      if !cardInstalled {
        RaiseError(CardMissing);
        return false;
      }
      if metadata.robotId[0] == 0 {
        RaiseError(DirectoryCreate);
        return false;
      }
      ok := EnsureDirectory(FLIGHT_ROOT);
      if !ok {
        return;
      }
      var root := RobotRoot(metadata);
      ok := EnsureDirectory(root);
      if !ok {
        return;
      }
      var created, storageSequence := AllocateDirectory(root, sessionSequence, startTimeMs);
      if !created {
        RaiseError(DirectoryCreate);
        return false;
      }
      ok := StartSession(sessionSequence, storageSequence, startTimeMs);
    }

    /** The rest of begin, from the created directory on. */
    method StartSession(sessionSequence: uint32, storageSequence: uint32, startTimeMs: uint32) returns (ok: bool)
      requires Valid() && writer.file.NoFile?
      modifies this, card, writer, encoder
      ensures Valid()
      ensures (State(), ok)
           == OpenSession(card.environment, metadata, old(State()),
                          Allocation(old(card.storage), true, storageSequence, old(directory)),
                          sessionSequence, startTimeMs)
    {
      hide Fflush, EmitHeader, MakeHeader;
      temporaryPath := directory + TEMPORARY;
      committedPath := directory + COMMITTED;
      var file := card.Open(temporaryPath);
      if file.NotOpened? {
        RaiseError(FileOpen);
        return false;
      }
      writer.file := Stream(file.handle);
      log := Log(MakeHeader(metadata, sessionSequence, storageSequence, startTimeMs), [], 0, false);
      ok := encoder.Begin(writer, metadata, sessionSequence, storageSequence, startTimeMs);
      if !ok {
        RaiseError(HeaderWrite);
        return;
      }
      ok := card.Flush(file.handle);
      if !ok {
        RaiseError(FlushFailed);
        return;
      }
      log := log.(intact := true);
    }

    /** The end of write: every fiftieth block is followed by a flush. */
    method CountBlock() returns (ok: bool)
      requires Valid() && writer.file.Stream?
      modifies this`blocksSinceFlush, this`error, this`log, card
      ensures Valid()
      ensures var w := old(State()); var blocks := Add32(w.sink.blocksSinceFlush, 1);
              var counted := w.(sink := w.sink.(blocksSinceFlush := blocks));
              var flush := Fflush(card.environment, w.storage, w.sink.file.id);
              (State(), ok) == if blocks < PERIODIC_FLUSH_BLOCKS then (counted, true)
                               else if !flush.1 then Fail(counted.(storage := flush.0), FlushFailed)
                               else (counted.(storage := flush.0, sink := counted.sink.(blocksSinceFlush := 0),
                                              log := counted.log.(unflushed := 0)), true)
    {
      hide Fflush;
      ok := true;
      blocksSinceFlush := Add32(blocksSinceFlush, 1);
      if blocksSinceFlush >= PERIODIC_FLUSH_BLOCKS {
        ok := card.Flush(writer.file.id);
        if !ok {
          RaiseError(FlushFailed);
          return;
        }
        blocksSinceFlush := 0;
        log := log.(unflushed := 0);
      }
    }

    method Write(frames: Frames) returns (ok: bool)
      requires Valid()
      modifies this, card, encoder
      ensures Valid()
      ensures (State(), ok) == SinkProtocol.Write(card.environment, old(State()), frames)
    {
      hide Fflush, EmitBlock, EmitFooter, PutBytes, Flatten, FrameSequence, FrameTime;
      if writer.file.NoFile? || frames.NullPointer? || frames.frames == [] {
        RaiseError(Internal);
        return false;
      }
      if encoder.writer == null {
        NothingWithoutWriter(card.environment, card.storage, writer.file, encoder.State(), frames.frames, 0);
      }
      ok := encoder.Append(frames.frames);
      if !ok {
        log := log.(intact := false);
        RaiseError(DataWrite);
        return;
      }
      log := log.(batches := log.batches + [frames.frames], unflushed := log.unflushed + 1);
      ok := CountBlock();
    }

    method Finish(producerDrops: uint32) returns (ok: bool)
      requires Valid()
      modifies this, card, writer, encoder
      ensures Valid()
      ensures (State(), ok) == SinkProtocol.Finish(card.environment, old(State()), producerDrops)
    {
      hide Fflush, Fclose, Rename, EmitFooter;
      if writer.file.NoFile? {
        RaiseError(Internal);
        return false;
      }
      ghost var given := log;
      log := log.(intact := false);
      if encoder.writer == null {
        NothingWithoutWriter(card.environment, card.storage, writer.file, encoder.State(), [], producerDrops);
      }
      ok := encoder.Finish(producerDrops);
      if !ok {
        RaiseError(FooterWrite);
        return;
      }
      ok := card.Flush(writer.file.id);
      if !ok {
        RaiseError(FlushFailed);
        return;
      }
      ok := card.Close(writer.file.id);
      writer.file := NoFile;
      if !ok {
        RaiseError(CloseFailed);
        return;
      }
      ok := card.Move(temporaryPath, committedPath);
      if !ok {
        RaiseError(CommitRename);
        return;
      }
      archives := archives[committedPath := Archive(given, producerDrops)];
    }
  }
}
