/** What a loss of power leaves at any moment: between any two calls of the C library, a file the
    sink began to write stays a prefix of a recording, and what was durable stays. */
module SinkCrashes {
  import opened Bytes
  import opened RecordingFile
  import opened RecordingEncoder
  import opened RecordingRecovery
  import opened Card
  import opened SessionNames
  import opened SinkProtocol
  import opened SinkSafety
  import opened SinkContents

  /** A file starts with `floor`, durably, and holds no more than a beginning of `ceiling`. */
  ghost predicate Between(disk: Disk, path: string, floor: seq<Byte>, ceiling: seq<Byte>) {
    && path in disk.files
    && IsPrefix(floor, disk.files[path].durable)
    && IsPrefix(Contents(disk.files[path]), ceiling)
  }

  /** ... at every moment since the k-th. */
  ghost predicate Always(s: Storage, k: nat, path: string, floor: seq<Byte>, ceiling: seq<Byte>) {
    && k < |s.history| && s.history[|s.history| - 1] == s.disk
    && forall i :: k <= i < |s.history| ==> Between(s.history[i], path, floor, ceiling)
  }

  lemma PrefixTrans(a: seq<Byte>, b: seq<Byte>, c: seq<Byte>)
    requires IsPrefix(a, b) && IsPrefix(b, c)
    ensures IsPrefix(a, c)
  {
    assert a == c[..|b|][..|a|];
  }

  lemma AlwaysNext(s: Storage, disk: Disk, k: nat, path: string, floor: seq<Byte>, ceiling: seq<Byte>)
    requires Always(s, k, path, floor, ceiling) && Between(disk, path, floor, ceiling)
    ensures Always(Next(s, disk), k, path, floor, ceiling)
  {
    hide Between;
  }

  lemma AlwaysNow(s: Storage, k: nat, path: string, floor: seq<Byte>, ceiling: seq<Byte>)
    requires Always(s, k, path, floor, ceiling)
    ensures Between(s.disk, path, floor, ceiling)
  {
  }

  /** The same file, the same bounds. */
  lemma SameFile(a: Disk, b: Disk, path: string, floor: seq<Byte>, ceiling: seq<Byte>)
    requires Between(a, path, floor, ceiling) && path in b.files && b.files[path] == a.files[path]
    ensures Between(b, path, floor, ceiling)
  {
  }

  // ---- Calls of the C library ----

  lemma MkdirAlways(env: Environment, s: Storage, name: string, k: nat, path: string, floor: seq<Byte>,
                    ceiling: seq<Byte>)
    requires Always(s, k, path, floor, ceiling)
    ensures Always(Mkdir(env, s, name).0, k, path, floor, ceiling)
  {
    hide Always, Between;
    AlwaysNow(s, k, path, floor, ceiling);
    var disk := Mkdir(env, s, name).0.disk;
    BetweenPath(s.disk, path, floor, ceiling);
    SameFile(s.disk, disk, path, floor, ceiling);
    AlwaysNext(s, disk, k, path, floor, ceiling);
  }

  lemma BetweenPath(disk: Disk, path: string, floor: seq<Byte>, ceiling: seq<Byte>)
    requires Between(disk, path, floor, ceiling)
    ensures path in disk.files
  {
  }

  lemma FopenAlways(env: Environment, s: Storage, name: string, k: nat, path: string, floor: seq<Byte>,
                    ceiling: seq<Byte>)
    requires Always(s, k, path, floor, ceiling) && name != path
    ensures Always(Fopen(env, s, name).0, k, path, floor, ceiling)
  {
    AlwaysNow(s, k, path, floor, ceiling);
    var disk := Fopen(env, s, name).0.disk;
    SameFile(s.disk, disk, path, floor, ceiling);
    AlwaysNext(s, disk, k, path, floor, ceiling);
  }

  lemma RenameAlways(env: Environment, s: Storage, name: string, to: string, k: nat, path: string, floor: seq<Byte>,
                     ceiling: seq<Byte>)
    requires Always(s, k, path, floor, ceiling)
    requires Rename(env, s, name, to).1 ==> name != path && to != path
    ensures Always(Rename(env, s, name, to).0, k, path, floor, ceiling)
  {
    AlwaysNow(s, k, path, floor, ceiling);
    var disk := Rename(env, s, name, to).0.disk;
    SameFile(s.disk, disk, path, floor, ceiling);
    AlwaysNext(s, disk, k, path, floor, ceiling);
  }

  lemma PutAlways(env: Environment, s: Storage, file: Handle, data: seq<Byte>, k: nat, path: string, floor: seq<Byte>,
                  ceiling: seq<Byte>)
    requires Always(s, k, path, floor, ceiling) && StreamOpen(s, file) && file.Stream?
    requires s.streams[file.id] == path ==> IsPrefix(Contents(s.disk.files[path]) + data, ceiling)
    ensures Always(PutBytes(env, s, file, data).storage, k, path, floor, ceiling)
  {
    hide Contents;
    AlwaysNow(s, k, path, floor, ceiling);
    var disk := PutBytes(env, s, file, data).storage.disk;
    if s.streams[file.id] == path {
      PutContents(env, s, file, data);
      var n :| 0 <= n <= |data| && Contents(disk.files[path]) == Contents(s.disk.files[path]) + data[..n];
      assert IsPrefix(Contents(s.disk.files[path]) + data[..n], Contents(s.disk.files[path]) + data);
      PrefixTrans(Contents(disk.files[path]), Contents(s.disk.files[path]) + data, ceiling);
    } else {
      SameFile(s.disk, disk, path, floor, ceiling);
    }
    AlwaysNext(s, disk, k, path, floor, ceiling);
  }

  lemma FflushAlways(env: Environment, s: Storage, handle: nat, k: nat, path: string, floor: seq<Byte>,
                     ceiling: seq<Byte>)
    requires Always(s, k, path, floor, ceiling) && handle in s.streams && s.streams[handle] in s.disk.files
    ensures Always(Fflush(env, s, handle).0, k, path, floor, ceiling)
  {
    hide Contents, Transfer;
    AlwaysNow(s, k, path, floor, ceiling);
    var disk := Fflush(env, s, handle).0.disk;
    if s.streams[handle] == path {
      FflushContents(env, s, handle);
      PrefixTrans(floor, s.disk.files[path].durable, disk.files[path].durable);
    } else {
      SameFile(s.disk, disk, path, floor, ceiling);
    }
    AlwaysNext(s, disk, k, path, floor, ceiling);
  }

  lemma FcloseAlways(env: Environment, s: Storage, handle: nat, k: nat, path: string, floor: seq<Byte>,
                     ceiling: seq<Byte>)
    requires Always(s, k, path, floor, ceiling) && handle in s.streams && s.streams[handle] in s.disk.files
    ensures Always(Fclose(env, s, handle).0, k, path, floor, ceiling)
  {
    hide Contents, Transfer;
    AlwaysNow(s, k, path, floor, ceiling);
    var disk := Fclose(env, s, handle).0.disk;
    if s.streams[handle] == path {
      FcloseContents(env, s, handle);
      PrefixTrans(floor, s.disk.files[path].durable, disk.files[path].durable);
      PrefixTrans(Contents(disk.files[path]), Contents(s.disk.files[path]), ceiling);
    } else {
      SameFile(s.disk, disk, path, floor, ceiling);
    }
    AlwaysNext(s, disk, k, path, floor, ceiling);
  }

  // ---- Calls of the sink ----

  lemma AbortAlways(env: Environment, w: World, k: nat, path: string, floor: seq<Byte>, ceiling: seq<Byte>)
    requires Safe(w) && StreamOpen(w.storage, w.sink.file) && Always(w.storage, k, path, floor, ceiling)
    ensures Always(Abort(env, w).storage, k, path, floor, ceiling)
  {
    hide Always, Fflush, Fclose, Core;
    if w.sink.file.Stream? {
      FflushAlways(env, w.storage, w.sink.file.id, k, path, floor, ceiling);
      FflushKeeps(env, w.storage, w.sink, w.archives);
      CoreStream(Fflush(env, w.storage, w.sink.file.id).0, w.sink, w.archives);
      FcloseAlways(env, Fflush(env, w.storage, w.sink.file.id).0, w.sink.file.id, k, path, floor, ceiling);
    }
  }

  lemma {:induction false} AllocateAlways(env: Environment, s: Storage, root: string, sequence: uint32, start: uint32,
                                          attempts: nat,
                                          directory: string, k: nat, path: string, floor: seq<Byte>, ceiling: seq<Byte>)
    requires Always(s, k, path, floor, ceiling)
    ensures Always(Allocate(env, s, root, sequence, start, attempts, directory).storage, k, path, floor, ceiling)
    decreases attempts
  {
    hide Always, DirectoryPath, Mkdir;
    if attempts > 0 {
      var name := DirectoryPath(root, sequence, start);
      MkdirAlways(env, s, name, k, path, floor, ceiling);
      var (after, r) := Mkdir(env, s, name);
      if r == AlreadyExists {
        AllocateAlways(env, after, root, Add32(sequence, 1), start, attempts - 1, name, k, path, floor, ceiling);
      }
    }
  }

  /** A directory just created held no recording. */
  lemma {:induction false} AllocateFresh(env: Environment, s: Storage, sink: Sink, archives: map<string, Archive>,
                                         root: string, sequence: uint32, start: uint32, attempts: nat,
                                                 directory: string)
    requires Core(s, sink, archives)
    ensures var a := Allocate(env, s, root, sequence, start, attempts, directory);
            a.created ==> a.directory + TEMPORARY !in s.disk.files
    decreases attempts
  {
    hide Core, DirectoryPath;
    if attempts > 0 {
      var name := DirectoryPath(root, sequence, start);
      MkdirKeeps(env, s, sink, archives, name);
      var (after, r) := Mkdir(env, s, name);
      if r == AlreadyExists {
        AllocateFresh(env, after, sink, archives, root, Add32(sequence, 1), start, attempts - 1, name);
      } else if r == Created {
        NewDirectoryHoldsNothing(s, sink, archives, name);
      }
    }
  }

  lemma NewDirectoryHoldsNothing(s: Storage, sink: Sink, archives: map<string, Archive>, path: string)
    requires Core(s, sink, archives) && path !in s.disk.directories
    ensures path + TEMPORARY !in s.disk.files
  {
  }

  lemma OpenSessionAlways(env: Environment, m: Metadata, w: World, a: Allocation, session: uint32, start: uint32,
                          k: nat, path: string, floor: seq<Byte>, ceiling: seq<Byte>)
    requires w.sink.file.NoFile? && Always(w.storage, k, path, floor, ceiling) && a.directory + TEMPORARY != path
    ensures Always(OpenSession(env, m, w, a, session, start).0.storage, k, path, floor, ceiling)
  {
    hide Always, MakeHeader, HeaderBytes, PutBytes, Fflush;
    var name := a.directory + TEMPORARY;
    FopenAlways(env, w.storage, name, k, path, floor, ceiling);
    match Fopen(env, w.storage, name)
    case (after, NotOpened) =>
    case (after, Opened(id)) =>
      var bytes := HeaderBytes(MakeHeader(m, session, a.storageSequence, start));
      PutAlways(env, after, Stream(id), bytes, k, path, floor, ceiling);
      PutContents(env, after, Stream(id), bytes);
      FflushAlways(env, PutBytes(env, after, Stream(id), bytes).storage, id, k, path, floor, ceiling);
  }

  lemma BeginAlways(env: Environment, m: Metadata, w: World, card: bool, session: uint32, start: uint32,
                    k: nat, path: string, floor: seq<Byte>, ceiling: seq<Byte>)
    requires Safe(w) && StreamOpen(w.storage, w.sink.file) && Always(w.storage, k, path, floor, ceiling)
    ensures Always(Begin(env, m, w, card, session, start).0.storage, k, path, floor, ceiling)
  {
    hide Core, Always, Abort, Mkdir, Allocate, OpenSession, RobotRoot;
    AbortKeeps(env, w);
    AbortAlways(env, w, k, path, floor, ceiling);
    var idle := Abort(env, w);
    var sink := idle.sink.(error := NoError, encoder := IDLE, blocksSinceFlush := 0);
    MkdirAlways(env, idle.storage, FLIGHT_ROOT, k, path, floor, ceiling);
    MkdirKeeps(env, idle.storage, idle.sink, w.archives, FLIGHT_ROOT);
    var s1 := Mkdir(env, idle.storage, FLIGHT_ROOT).0;
    MkdirAlways(env, s1, RobotRoot(m), k, path, floor, ceiling);
    MkdirKeeps(env, s1, idle.sink, w.archives, RobotRoot(m));
    var s2 := Mkdir(env, s1, RobotRoot(m)).0;
    AllocateAlways(env, s2, RobotRoot(m), session, start, MAX_ATTEMPTS, sink.directory, k, path, floor, ceiling);
    AllocateFresh(env, s2, idle.sink, w.archives, RobotRoot(m), session, start, MAX_ATTEMPTS, sink.directory);
    var a := Allocate(env, s2, RobotRoot(m), session, start, MAX_ATTEMPTS, sink.directory);
    if a.created {
      AlwaysPath(s2, k, path, floor, ceiling);
      OpenSessionAlways(env, m, World(a.storage, sink.(directory := a.directory), NO_SESSION, w.archives), a, session,
                        start,
                        k, path, floor, ceiling);
    }
  }

  lemma AlwaysPath(s: Storage, k: nat, path: string, floor: seq<Byte>, ceiling: seq<Byte>)
    requires Always(s, k, path, floor, ceiling)
    ensures path in s.disk.files
  {
  }

  /** The block a write would emit fits below the ceiling of the open file. */
  ghost predicate RoomForBlock(w: World, frames: seq<Frame>, ceiling: seq<Byte>)
    requires w.sink.file.Stream? && StreamOpen(w.storage, w.sink.file)
  {
    w.sink.encoder.writing && Appendable(frames) ==>
      IsPrefix(Contents(OpenFile(w)) + BlockBytes(Add32(w.sink.encoder.blockSequence, 1), frames), ceiling)
  }

  lemma WriteAlways(env: Environment, w: World, frames: Frames, k: nat, path: string, floor: seq<Byte>,
                    ceiling: seq<Byte>)
    requires Safe(w) && StreamOpen(w.storage, w.sink.file) && Always(w.storage, k, path, floor, ceiling)
    requires w.sink.file.Stream? && path == w.sink.temporaryPath && frames.Batch? ==>
               RoomForBlock(w, frames.frames, ceiling)
    ensures Always(Write(env, w, frames).0.storage, k, path, floor, ceiling)
  {
    hide Core, Always, EmitBlock, Fflush, RoomForBlock;
    if w.sink.file.Stream? && frames.Batch? && frames.frames != [] {
      EmitBlockAlways(env, w, frames.frames, k, path, floor, ceiling);
      EmitBlockKeeps(env, w.storage, w.sink, w.archives, w.sink.encoder, frames.frames);
      var emitted := EmitBlock(env, w.storage, w.sink.file, w.sink.encoder, frames.frames);
      FflushAlways(env, emitted.storage, w.sink.file.id, k, path, floor, ceiling);
    }
  }

  lemma EmitBlockAlways(env: Environment, w: World, frames: seq<Frame>, k: nat, path: string, floor: seq<Byte>,
                        ceiling: seq<Byte>)
    requires Safe(w) && w.sink.file.Stream? && StreamOpen(w.storage, w.sink.file)
    requires Always(w.storage, k, path, floor, ceiling)
    requires path == w.sink.temporaryPath ==> RoomForBlock(w, frames, ceiling)
    ensures Always(EmitBlock(env, w.storage, w.sink.file, w.sink.encoder, frames).storage, k, path, floor, ceiling)
  {
    hide Core, Always, PutBytes, Contents, BlockHeaderBytes, MakeBlock, Flatten, Appendable;
    StreamAtPath(w);
    var e, s := w.sink.encoder, w.storage;
    if e.writing && Appendable(frames) {
      var head := BlockHeaderBytes(MakeBlock(Numbered(e).blockSequence, frames));
      var payload := Flatten(frames);
      var c := Contents(OpenFile(w));
      assert c + (head + payload) == c + head + payload;
      if path == w.sink.temporaryPath {
        assert IsPrefix(c + head, c + head + payload);
        PrefixTrans(c + head, c + (head + payload), ceiling);
      }
      PutAlways(env, s, w.sink.file, head, k, path, floor, ceiling);
      PutContents(env, s, w.sink.file, head);
      var put := PutBytes(env, s, w.sink.file, head);
      if put.ok {
        PutAlways(env, put.storage, w.sink.file, payload, k, path, floor, ceiling);
      }
    }
  }

  ghost predicate RoomForFooter(w: World, drops: uint32, ceiling: seq<Byte>)
    requires w.sink.file.Stream? && StreamOpen(w.storage, w.sink.file)
  {
    w.sink.encoder.writing ==> IsPrefix(Contents(OpenFile(w)) + FooterBytes(MakeFooter(w.sink.encoder, drops)), ceiling)
  }

  lemma EmitFooterAlways(env: Environment, w: World, drops: uint32, k: nat, path: string, floor: seq<Byte>,
                         ceiling: seq<Byte>)
    requires Safe(w) && w.sink.file.Stream? && StreamOpen(w.storage, w.sink.file)
    requires Always(w.storage, k, path, floor, ceiling)
    requires path == w.sink.temporaryPath ==> RoomForFooter(w, drops, ceiling)
    ensures Always(EmitFooter(env, w.storage, w.sink.file, w.sink.encoder, drops).storage, k, path, floor, ceiling)
  {
    hide Core, Always, PutBytes, Contents, FooterBytes, MakeFooter;
    StreamAtPath(w);
    if w.sink.encoder.writing {
      PutAlways(env, w.storage, w.sink.file, FooterBytes(MakeFooter(w.sink.encoder, drops)), k, path, floor, ceiling);
    }
  }

  /** Finish, up to the rename of the open file itself. */
  lemma FinishAlways(env: Environment, w: World, drops: uint32, k: nat, path: string, floor: seq<Byte>,
                     ceiling: seq<Byte>)
    requires Safe(w) && StreamOpen(w.storage, w.sink.file) && Always(w.storage, k, path, floor, ceiling)
    requires w.sink.file.Stream? && path == w.sink.temporaryPath ==> RoomForFooter(w, drops, ceiling)
    requires w.sink.file.Stream? && path == w.sink.temporaryPath ==> !Finish(env, w, drops).1
    ensures Always(Finish(env, w, drops).0.storage, k, path, floor, ceiling)
  {
    hide Core, Always, EmitFooter, Fflush, Fclose, RoomForFooter;
    if w.sink.file.Stream? {
      StreamPlaces(w);
      AlwaysPath(w.storage, k, path, floor, ceiling);
      EmitFooterAlways(env, w, drops, k, path, floor, ceiling);
      EmitFooterKeeps(env, w.storage, w.sink, w.archives, w.sink.encoder, drops);
      var emitted := EmitFooter(env, w.storage, w.sink.file, w.sink.encoder, drops);
      FflushAlways(env, emitted.storage, w.sink.file.id, k, path, floor, ceiling);
      FflushKeeps(env, emitted.storage, w.sink, w.archives);
      var flushed := Fflush(env, emitted.storage, w.sink.file.id).0;
      CoreStream(flushed, w.sink, w.archives);
      FcloseAlways(env, flushed, w.sink.file.id, k, path, floor, ceiling);
      var closed := Fclose(env, flushed, w.sink.file.id).0;
      if Fflush(env, emitted.storage, w.sink.file.id).1 && Fclose(env, flushed, w.sink.file.id).1 && emitted.ok {
        RenameAlways(env, closed, w.sink.temporaryPath, w.sink.committedPath, k, path, floor, ceiling);
      }
    }
  }

  // ---- Files the sink no longer writes ----

  ghost predicate NotOpen(w: World, path: string) {
    w.sink.file.Stream? ==> w.sink.temporaryPath != path
  }

  lemma CallLeavesAlone(env: Environment, m: Metadata, w: World, call: Call, k: nat, path: string, floor: seq<Byte>,
                        ceiling: seq<Byte>)
    requires Safe(w) && StreamOpen(w.storage, w.sink.file) && NotOpen(w, path)
    requires Always(w.storage, k, path, floor, ceiling)
    ensures var r := Do(env, m, w, call).0; Always(r.storage, k, path, floor, ceiling) && NotOpen(r, path)
  {
    hide Safe, Always, Write, Finish, RoomForBlock, RoomForFooter;
    match call
    case BeginCall(card, session, start) =>
      BeginAlways(env, m, w, card, session, start, k, path, floor, ceiling);
      AlwaysPath(w.storage, k, path, floor, ceiling);
      BeginOpensFresh(env, m, w, card, session, start, path);
    case WriteCall(frames) =>
      WriteAlways(env, w, frames, k, path, floor, ceiling);
      KeepsPlace(env, w, frames, 0);
    case FinishCall(drops) =>
      FinishAlways(env, w, drops, k, path, floor, ceiling);
      KeepsPlace(env, w, NullPointer, drops);
    case AbortCall => AbortAlways(env, w, k, path, floor, ceiling);
  }

  lemma KeepsPlace(env: Environment, w: World, frames: Frames, drops: uint32)
    requires StreamOpen(w.storage, w.sink.file)
    ensures Write(env, w, frames).0.sink.temporaryPath == w.sink.temporaryPath
    ensures Write(env, w, frames).0.sink.file == w.sink.file
    ensures Finish(env, w, drops).0.sink.temporaryPath == w.sink.temporaryPath
    ensures Finish(env, w, drops).0.sink.file == w.sink.file || Finish(env, w, drops).0.sink.file.NoFile?
  {
    hide EmitBlock, EmitFooter, Fflush, Fclose, Rename;
  }

  lemma BeginOpensFresh(env: Environment, m: Metadata, w: World, card: bool, session: uint32, start: uint32,
                        path: string)
    requires Safe(w) && StreamOpen(w.storage, w.sink.file) && path in w.storage.disk.files
    ensures NotOpen(Begin(env, m, w, card, session, start).0, path)
  {
    hide Core, Abort, Mkdir, Allocate, RobotRoot, EmitHeader, Fflush, MakeHeader;
    AbortKeeps(env, w);
    AbortKeepsFiles(env, w);
    var idle := Abort(env, w);
    var sink := idle.sink.(error := NoError, encoder := IDLE, blocksSinceFlush := 0);
    MkdirKeeps(env, idle.storage, idle.sink, w.archives, FLIGHT_ROOT);
    var s1 := Mkdir(env, idle.storage, FLIGHT_ROOT).0;
    MkdirKeeps(env, s1, idle.sink, w.archives, RobotRoot(m));
    var s2 := Mkdir(env, s1, RobotRoot(m)).0;
    AllocateFresh(env, s2, idle.sink, w.archives, RobotRoot(m), session, start, MAX_ATTEMPTS, sink.directory);
  }

  lemma AbortKeepsFiles(env: Environment, w: World)
    requires StreamOpen(w.storage, w.sink.file)
    ensures Abort(env, w).storage.disk.files.Keys == w.storage.disk.files.Keys
  {
    hide Transfer;
  }

  /** Whatever is called later, a file that is not being written is never touched again: the recordings
      of earlier sessions, committed or not, survive at every moment. */
  lemma {:induction false} ClosedFilesUntouched(env: Environment, m: Metadata, w: World, calls: seq<Call>,
                                                k: nat, path: string, floor: seq<Byte>, ceiling: seq<Byte>)
    requires Safe(w) && StreamOpen(w.storage, w.sink.file) && NotOpen(w, path)
    requires Always(w.storage, k, path, floor, ceiling)
    ensures Always(Run(env, m, w, calls).storage, k, path, floor, ceiling)
    decreases |calls|
  {
    hide Safe, Always, Do, NotOpen;
    if calls != [] {
      CallKeeps(env, m, w, calls[0]);
      CallLeavesAlone(env, m, w, calls[0], k, path, floor, ceiling);
      ClosedFilesUntouched(env, m, Do(env, m, w, calls[0]).0, calls[1..], k, path, floor, ceiling);
    }
  }

  // ---- The session being recorded ----

  /** The recording that a call can at most produce from this session. */
  ghost function Target(w: World, call: Call): seq<seq<Frame>> {
    if call.WriteCall? && call.frames.Batch? && Appendable(call.frames.frames) then w.log.batches + [call.frames.frames]
    else w.log.batches
  }

  lemma EmittedWithinRecording(header: FileHeader, batches: seq<seq<Frame>>, drops: uint32)
    requires AllAppendable(batches)
    ensures IsPrefix(Emitted(header, batches), RecordingBytes(header, batches, drops))
  {
    hide Emitted, RecordingBytes, FooterBytes, AfterAppends, MakeFooter, AllAppendable;
    var all := Emitted(header, batches) + FooterBytes(MakeFooter(AfterAppends(STARTED, batches), drops));
    WholeRecording(header, batches, drops);
    assert all[..|Emitted(header, batches)|] == Emitted(header, batches);
  }

  lemma RoomInTarget(w: World, call: Call, drops: uint32)
    requires Sound(w) && Streaming(w) && (call.FinishCall? ==> drops == call.producerDrops)
    ensures AllAppendable(Target(w, call))
    ensures IsPrefix(Contents(OpenFile(w)), RecordingBytes(w.log.header, Target(w, call), drops))
    ensures call.WriteCall? && call.frames.Batch? ==>
              RoomForBlock(w, call.frames.frames, RecordingBytes(w.log.header, Target(w, call), drops))
    ensures call.FinishCall? ==> RoomForFooter(w, drops, RecordingBytes(w.log.header, Target(w, call), drops))
  {
    hide Safe, ArchivesWhole, Emitted, RecordingBytes, FooterBytes, MakeFooter, AfterAppends, AllAppendable,
         Appendable, BlockBytes, DurableBut;
    var header, batches := w.log.header, w.log.batches;
    EmittedWithinRecording(header, batches, drops);
    WholeRecording(header, batches, drops);
    if call.WriteCall? && call.frames.Batch? && Appendable(call.frames.frames) {
      var frames := call.frames.frames;
      EmittedSnoc(header, batches, frames);
      EncoderSnoc(batches, frames);
      EmittedWithinRecording(header, batches + [frames], drops);
      PrefixOfSum(Emitted(header, batches), BlockBytes(Add32(1, |batches|), frames));
      PrefixTrans(Emitted(header, batches), Emitted(header, batches + [frames]),
                  RecordingBytes(header, batches + [frames], drops));
    }
    PrefixOfItself(RecordingBytes(header, batches, drops));
  }

  lemma PrefixOfSum(a: seq<Byte>, b: seq<Byte>)
    ensures IsPrefix(a, a + b)
  {
  }

  /** While a session is being recorded, every moment of the next call, whichever it is and however it
      fails, shows its file holding at least what was durable before and at most a beginning of one
      recording. The one call left out, a finish that commits, is that of SinkRuns.CommitIsLastStep. */
  lemma EveryMomentOfCall(env: Environment, m: Metadata, w: World, call: Call, drops: uint32)
    requires Sound(w) && Streaming(w) && (call.FinishCall? ==> drops == call.producerDrops)
    requires call.FinishCall? ==> !Finish(env, w, drops).1
    ensures AllAppendable(Target(w, call))
    ensures Always(Do(env, m, w, call).0.storage, |w.storage.history| - 1, w.sink.temporaryPath,
                   OpenFile(w).durable, RecordingBytes(w.log.header, Target(w, call), drops))
  {
    hide Safe, ArchivesWhole, FileSound, RecordingBytes, AllAppendable, Begin, Write, Finish, Abort, RoomForBlock,
         RoomForFooter, Always, Contents, Target;
    var k := |w.storage.history| - 1;
    var path := w.sink.temporaryPath;
    RoomInTarget(w, call, drops);
    var floor, ceiling := OpenFile(w).durable, RecordingBytes(w.log.header, Target(w, call), drops);
    StreamAtPath(w);
    StartAlways(w, floor, ceiling);
    match call
    case BeginCall(card, session, start) => BeginAlways(env, m, w, card, session, start, k, path, floor, ceiling);
    case WriteCall(frames) => WriteAlways(env, w, frames, k, path, floor, ceiling);
    case FinishCall(_) => FinishAlways(env, w, drops, k, path, floor, ceiling);
    case AbortCall => AbortAlways(env, w, k, path, floor, ceiling);
  }

  lemma StartAlways(w: World, floor: seq<Byte>, ceiling: seq<Byte>)
    requires Safe(w) && w.sink.file.Stream? && StreamOpen(w.storage, w.sink.file)
    requires floor == OpenFile(w).durable && IsPrefix(Contents(OpenFile(w)), ceiling)
    ensures |w.storage.history| > 0
    ensures Always(w.storage, |w.storage.history| - 1, w.sink.temporaryPath, floor, ceiling)
  {
  }
}
