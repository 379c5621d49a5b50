/** The behaviour of ProsRecordingSessionSink (src/platform/pros_recording_sink.cpp) as functions
    from a world to the next: the card, the sink's fields, and a log of what the sink was asked for
    that decides nothing. RecordingSink.dfy holds the class that behaves so. */
module SinkProtocol {
  import opened Bytes
  import opened RecordingFile
  import opened RecordingEncoder
  import opened Card
  import opened SessionNames

  const PERIODIC_FLUSH_BLOCKS: uint32 := 50
  const MAX_ATTEMPTS: nat := 10000

  datatype SinkError =
    | NoError | CardMissing | DirectoryCreate | FileOpen | HeaderWrite | DataWrite | FooterWrite
    | FlushFailed | CloseFailed | CommitRename | Internal

  datatype Handle = NoFile | Stream(id: nat)

  datatype Sink = Sink(
    directory: string, temporaryPath: string, committedPath: string,
    encoder: Encoder, error: SinkError, file: Handle, blocksSinceFlush: uint32)

  const FRESH_SINK: Sink := Sink("", "", "", IDLE, NoError, NoFile, 0)

  /** The session begun last: its header, the batches the encoder accepted, how many of them since the
      last successful flush, and whether begin returned true, no batch was refused since, and finish was
      not attempted. */
  datatype Log = Log(header: FileHeader, batches: seq<seq<Frame>>, unflushed: nat, intact: bool)

  const NO_SESSION: Log := Log(EMPTY_HEADER, [], 0, false)

  /** A finish that returned true: the session's log before it, and the drops it was given. */
  datatype Archive = Archive(log: Log, producerDrops: uint32)

  datatype World = World(storage: Storage, sink: Sink, log: Log, archives: map<string, Archive>)

  function Boot(disk: Disk): World {
    World(Start(disk), FRESH_SINK, NO_SESSION, map[])
  }

  /** An open stream of the sink is one of the card's. */
  predicate StreamOpen(s: Storage, file: Handle) {
    file.Stream? ==> file.id in s.streams && s.streams[file.id] in s.disk.files
  }

  // ---- Bytes through the open stream ----

  datatype Put = Put(storage: Storage, ok: bool)

  function PutBytes(env: Environment, s: Storage, file: Handle, data: seq<Byte>): (r: Put)
    requires StreamOpen(s, file)
    ensures StreamOpen(r.storage, file)
    ensures s.history <= r.storage.history
  {
    if file.NoFile? then Put(s, false)
    else
      var (after, taken) := Fwrite(env, s, file.id, data);
      Put(after, taken == |data|)
  }

  datatype Emission = Emission(storage: Storage, encoder: Encoder, ok: bool)

  function EmitHeader(env: Environment, s: Storage, file: Handle, header: FileHeader): (r: Emission)
    requires StreamOpen(s, file)
    ensures StreamOpen(r.storage, file)
    ensures s.history <= r.storage.history
  {
    var put := PutBytes(env, s, file, HeaderBytes(header));
    Emission(put.storage, STARTED, put.ok)
  }

  function EmitBlock(env: Environment, s: Storage, file: Handle, e: Encoder, frames: seq<Frame>): (r: Emission)
    requires StreamOpen(s, file)
    ensures StreamOpen(r.storage, file)
    ensures s.history <= r.storage.history
  {
    if !e.writing || !Appendable(frames) then Emission(s, e, false)
    else
      var numbered := Numbered(e);
      var head := PutBytes(env, s, file, BlockHeaderBytes(MakeBlock(numbered.blockSequence, frames)));
      if !head.ok then Emission(head.storage, numbered, false)
      else
        var payload := PutBytes(env, head.storage, file, Flatten(frames));
        if !payload.ok then Emission(payload.storage, numbered, false)
        else Emission(payload.storage, Counted(numbered, frames), true)
  }

  function EmitFooter(env: Environment, s: Storage, file: Handle, e: Encoder, producerDrops: uint32): (r: Emission)
    requires StreamOpen(s, file)
    ensures StreamOpen(r.storage, file)
    ensures s.history <= r.storage.history
  {
    if !e.writing then Emission(s, e, false)
    else
      var put := PutBytes(env, s, file, FooterBytes(MakeFooter(e, producerDrops)));
      Emission(put.storage, e.(writing := false), put.ok)
  }

  // ---- begin ----

  /** setError keeps the first error. */
  function SetError(sink: Sink, error: SinkError): Sink {
    if sink.error == NoError then sink.(error := error) else sink
  }

  function Fail(w: World, error: SinkError): (World, bool) {
    (w.(sink := SetError(w.sink, error)), false)
  }

  function Abort(env: Environment, w: World): (r: World)
    requires StreamOpen(w.storage, w.sink.file)
    ensures r.sink == w.sink.(file := NoFile) && r.log == w.log && r.archives == w.archives
    ensures w.storage.history <= r.storage.history
  {
    if w.sink.file.NoFile? then w
    else
      var flushed := Fflush(env, w.storage, w.sink.file.id).0;
      var closed := Fclose(env, flushed, w.sink.file.id).0;
      w.(storage := closed, sink := w.sink.(file := NoFile))
  }

  datatype Allocation = Allocation(storage: Storage, created: bool, storageSequence: uint32, directory: string)

  /** The search for a free directory name, with `attempts` tries left. */
  function Allocate(env: Environment, s: Storage, root: string, storageSequence: uint32, startTimeMs: uint32,
                    attempts: nat, directory: string): (a: Allocation)
    ensures s.history <= a.storage.history
    decreases attempts
  {
    if attempts == 0 then Allocation(s, false, storageSequence, directory)
    else
      var path := DirectoryPath(root, storageSequence, startTimeMs);
      match Mkdir(env, s, path)
      case (after, Created) => Allocation(after, true, storageSequence, path)
      case (after, Failed) => Allocation(after, false, storageSequence, path)
      case (after, AlreadyExists) => Allocate(env, after, root, Add32(storageSequence, 1), startTimeMs, attempts - 1,
                                              path)
  }

  function RobotRoot(m: Metadata): string {
    FLIGHT_ROOT + "/" + FixedText(m.robotId)
  }

  /** The part of begin after the directory exists: the paths, the stream, the header and a flush. */
  function OpenSession(env: Environment, m: Metadata, w: World, a: Allocation, sessionSequence: uint32,
                       startTimeMs: uint32)
    : (r: (World, bool))
    requires w.sink.file.NoFile?
    ensures StreamOpen(r.0.storage, r.0.sink.file)
    ensures w.storage.history <= r.0.storage.history
  {
    hide MakeHeader, EmitHeader;
    var named := w.sink.(temporaryPath := a.directory + TEMPORARY, committedPath := a.directory + COMMITTED);
    match Fopen(env, w.storage, named.temporaryPath)
    case (after, NotOpened) => Fail(w.(storage := after, sink := named), FileOpen)
    case (after, Opened(id)) =>
      var header := MakeHeader(m, sessionSequence, a.storageSequence, startTimeMs);
      var emitted := EmitHeader(env, after, Stream(id), header);
      var sink := named.(file := Stream(id), encoder := emitted.encoder);
      var written := w.(storage := emitted.storage, sink := sink, log := Log(header, [], 0, false));
      if !emitted.ok then Fail(written, HeaderWrite)
      else
        var (flushed, ok) := Fflush(env, emitted.storage, id);
        if !ok then Fail(written.(storage := flushed), FlushFailed)
        else (written.(storage := flushed, log := Log(header, [], 0, true)), true)
  }

  function Begin(env: Environment, m: Metadata, w: World, cardInstalled: bool, sessionSequence: uint32,
                 startTimeMs: uint32)
    : (r: (World, bool))
    requires StreamOpen(w.storage, w.sink.file)
    ensures StreamOpen(r.0.storage, r.0.sink.file)
    ensures w.storage.history <= r.0.storage.history
  {
    hide OpenSession, Allocate, RobotRoot;
    var idle := Abort(env, w);
    var ready := idle.(sink := idle.sink.(error := NoError, encoder := IDLE, blocksSinceFlush := 0), log := NO_SESSION);
    if !cardInstalled then Fail(ready, CardMissing)
    else if m.robotId[0] == 0 then Fail(ready, DirectoryCreate)
    else
      var (s1, flight) := Mkdir(env, ready.storage, FLIGHT_ROOT);
      if flight == Failed then Fail(ready.(storage := s1), DirectoryCreate)
      else
        var (s2, root) := Mkdir(env, s1, RobotRoot(m));
        if root == Failed then Fail(ready.(storage := s2), DirectoryCreate)
        else
          var a := Allocate(env, s2, RobotRoot(m), sessionSequence, startTimeMs, MAX_ATTEMPTS, ready.sink.directory);
          var placed := ready.(storage := a.storage, sink := ready.sink.(directory := a.directory));
          if !a.created then Fail(placed, DirectoryCreate)
          else OpenSession(env, m, placed, a, sessionSequence, startTimeMs)
  }

  // ---- write ----

  datatype Frames = NullPointer | Batch(frames: seq<Frame>)

  function Write(env: Environment, w: World, frames: Frames): (r: (World, bool))
    requires StreamOpen(w.storage, w.sink.file)
    ensures StreamOpen(r.0.storage, r.0.sink.file)
    ensures w.storage.history <= r.0.storage.history
  {
    if w.sink.file.NoFile? || frames.NullPointer? || frames.frames == [] then Fail(w, Internal)
    else
      var emitted := EmitBlock(env, w.storage, w.sink.file, w.sink.encoder, frames.frames);
      var sink := w.sink.(encoder := emitted.encoder);
      if !emitted.ok then Fail(w.(storage := emitted.storage, sink := sink, log := w.log.(intact := false)), DataWrite)
      else
        var blocks := Add32(sink.blocksSinceFlush, 1);
        var log := w.log.(batches := w.log.batches + [frames.frames], unflushed := w.log.unflushed + 1);
        var counted := w.(storage := emitted.storage, sink := sink.(blocksSinceFlush := blocks), log := log);
        if blocks < PERIODIC_FLUSH_BLOCKS then (counted, true)
        else
          var (flushed, ok) := Fflush(env, emitted.storage, w.sink.file.id);
          if !ok then Fail(counted.(storage := flushed), FlushFailed)
          else (counted.(storage := flushed, sink := counted.sink.(blocksSinceFlush := 0),
                         log := log.(unflushed := 0)), true)
  }

  // ---- finish ----

  /** The end of finish: close the stream and give the file its final name. */
  function Commit(env: Environment, w: World, archive: Archive): (r: (World, bool))
    requires StreamOpen(w.storage, w.sink.file) && w.sink.file.Stream?
    ensures r.0.sink.file.NoFile?
    ensures w.storage.history <= r.0.storage.history
  {
    var (closed, closeOk) := Fclose(env, w.storage, w.sink.file.id);
    var apart := w.(storage := closed, sink := w.sink.(file := NoFile));
    if !closeOk then Fail(apart, CloseFailed)
    else
      var (renamed, renameOk) := Rename(env, closed, w.sink.temporaryPath, w.sink.committedPath);
      if !renameOk then Fail(apart.(storage := renamed), CommitRename)
      else (apart.(storage := renamed, archives := w.archives[w.sink.committedPath := archive]), true)
  }

  function Finish(env: Environment, w: World, producerDrops: uint32): (r: (World, bool))
    requires StreamOpen(w.storage, w.sink.file)
    ensures StreamOpen(r.0.storage, r.0.sink.file)
    ensures w.storage.history <= r.0.storage.history
  {
    hide EmitFooter, Commit;
    if w.sink.file.NoFile? then Fail(w, Internal)
    else
      var emitted := EmitFooter(env, w.storage, w.sink.file, w.sink.encoder, producerDrops);
      var ended := w.(storage := emitted.storage, sink := w.sink.(encoder := emitted.encoder),
                      log := w.log.(intact := false));
      if !emitted.ok then Fail(ended, FooterWrite)
      else
        var (flushed, flushOk) := Fflush(env, emitted.storage, w.sink.file.id);
        if !flushOk then Fail(ended.(storage := flushed), FlushFailed)
        else Commit(env, ended.(storage := flushed), Archive(w.log, producerDrops))
  }

  // ---- Runs ----

  datatype Call =
    | BeginCall(cardInstalled: bool, sessionSequence: uint32, startTimeMs: uint32)
    | WriteCall(frames: Frames)
    | FinishCall(producerDrops: uint32)
    | AbortCall

  function Do(env: Environment, m: Metadata, w: World, call: Call): (r: (World, bool))
    requires StreamOpen(w.storage, w.sink.file)
    ensures StreamOpen(r.0.storage, r.0.sink.file)
    ensures w.storage.history <= r.0.storage.history
  {
    match call
    case BeginCall(card, session, start) => Begin(env, m, w, card, session, start)
    case WriteCall(frames) => Write(env, w, frames)
    case FinishCall(drops) => Finish(env, w, drops)
    case AbortCall => (Abort(env, w), true)
  }

  function Run(env: Environment, m: Metadata, w: World, calls: seq<Call>): (r: World)
    requires StreamOpen(w.storage, w.sink.file)
    ensures StreamOpen(r.storage, r.sink.file)
    ensures w.storage.history <= r.storage.history
    decreases |calls|
  {
    if calls == [] then w else Run(env, m, Do(env, m, w, calls[0]).0, calls[1..])
  }
}
