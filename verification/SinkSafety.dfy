/** What every call of the sink keeps, whatever fails: the streams it holds, the archives on the card,
    and the disks of every moment in between. */
module SinkSafety {
  import opened Bytes
  import opened RecordingFile
  import opened RecordingEncoder
  import opened Card
  import opened SessionNames
  import opened SinkProtocol

  // ---- What holds of the card and the sink's stream ----

  /** Streams opened and not closed are the sink's stream, if it holds one. */
  ghost predicate StreamsMatch(s: Storage, sink: Sink) {
    && s.streams == (if sink.file.NoFile? then map[] else map[sink.file.id := sink.temporaryPath])
    && s.openCount == s.closeCount + (if sink.file.NoFile? then 0 else 1)
  }

  /** An open stream writes DATA.TMP of a directory that has no DATA.V5L. */
  ghost predicate Placed(disk: Disk, sink: Sink) {
    sink.file.Stream? ==>
      && sink.temporaryPath == sink.directory + TEMPORARY && sink.committedPath == sink.directory + COMMITTED
      && sink.directory in disk.directories
      && sink.temporaryPath in disk.files && sink.committedPath !in disk.files
  }

  /** Recordings lie in directories. */
  ghost predicate DirectoriesExist(disk: Disk) {
    forall d: string :: d + TEMPORARY in disk.files || d + COMMITTED in disk.files ==> d in disk.directories
  }

  /** Only the open stream has a buffer. */
  ghost predicate OthersWritten(disk: Disk, sink: Sink) {
    forall p :: p in disk.files && !(sink.file.Stream? && p == sink.temporaryPath) ==> disk.files[p].pending == []
  }

  /** No directory and no archive of `a` is lost or changed in `b`. */
  ghost predicate Kept(a: Disk, b: Disk) {
    && a.directories <= b.directories
    && forall p :: p in a.files && IsArchive(p) ==> p in b.files && b.files[p] == a.files[p]
  }

  ghost predicate HistoryKept(s: Storage) {
    && s.history != [] && s.history[|s.history| - 1] == s.disk
    && forall i, j :: 0 <= i <= j < |s.history| ==> Kept(s.history[i], s.history[j])
  }

  /** The archives are those the card started with and those the log names. */
  ghost predicate ArchivesNamed(s: Storage, archives: map<string, Archive>) {
    && s.history != []
    && (forall p :: p in archives ==> IsArchive(p) && p in s.disk.files)
    && (forall p :: p in s.disk.files && IsArchive(p) ==> p in s.history[0].files || p in archives)
  }

  ghost predicate Core(s: Storage, sink: Sink, archives: map<string, Archive>) {
    && StreamsMatch(s, sink) && Placed(s.disk, sink) && DirectoriesExist(s.disk) && OthersWritten(s.disk, sink)
    && HistoryKept(s) && ArchivesNamed(s, archives)
  }

  // ---- One call of the C library ----

  lemma StepKept(s: Storage, disk: Disk)
    requires HistoryKept(s) && Kept(s.disk, disk)
    ensures HistoryKept(Next(s, disk))
  {
    var next := Next(s, disk);
    forall i, j | 0 <= i <= j < |next.history| ensures Kept(next.history[i], next.history[j]) {
      if j < |s.history| {
        assert next.history[i] == s.history[i] && next.history[j] == s.history[j];
      } else if i < |s.history| {
        assert next.history[i] == s.history[i] && next.history[j] == disk;
        assert Kept(s.history[i], s.disk);
      }
    }
  }

  /** Rewriting the open file. */
  lemma RewriteKeeps(s: Storage, sink: Sink, archives: map<string, Archive>, file: File)
    requires Core(s, sink, archives) && sink.file.Stream?
    ensures Core(Next(s, WithFile(s, sink.file.id, file)), sink, archives)
  {
    var disk := WithFile(s, sink.file.id, file);
    PathKinds(sink.directory);
    assert disk.files.Keys == s.disk.files.Keys;
    assert Kept(s.disk, disk);
    StepKept(s, disk);
    assert Next(s, disk).history[0] == s.history[0];
  }

  lemma FwriteKeeps(env: Environment, s: Storage, sink: Sink, archives: map<string, Archive>, data: seq<Byte>)
    requires Core(s, sink, archives) && sink.file.Stream?
    ensures Core(Fwrite(env, s, sink.file.id, data).0, sink, archives)
  {
    hide Core, Transfer;
    CoreStream(s, sink, archives);
    var file := s.disk.files[s.streams[sink.file.id]];
    var taken := Fwrite(env, s, sink.file.id, data).1;
    RewriteKeeps(s, sink, archives, file.(pending := file.pending + data[..taken]));
  }

  lemma CoreStream(s: Storage, sink: Sink, archives: map<string, Archive>)
    requires Core(s, sink, archives)
    ensures StreamOpen(s, sink.file)
    ensures sink.file.Stream? ==> s.streams[sink.file.id] == sink.temporaryPath
  {
  }

  lemma FflushKeeps(env: Environment, s: Storage, sink: Sink, archives: map<string, Archive>)
    requires Core(s, sink, archives) && sink.file.Stream?
    ensures Core(Fflush(env, s, sink.file.id).0, sink, archives)
  {
    hide Core, Transfer;
    CoreStream(s, sink, archives);
    var file := s.disk.files[s.streams[sink.file.id]];
    var ok := Now(env, s).succeeds;
    RewriteKeeps(s, sink, archives, Transfer(file, if ok then |file.pending| else Now(env, s).amount));
  }

  lemma FcloseKeeps(env: Environment, s: Storage, sink: Sink, archives: map<string, Archive>)
    requires Core(s, sink, archives) && sink.file.Stream?
    ensures Core(Fclose(env, s, sink.file.id).0, sink.(file := NoFile), archives)
    ensures var disk := Fclose(env, s, sink.file.id).0.disk;
            sink.temporaryPath in disk.files && sink.committedPath !in disk.files && sink.directory in disk.directories
  {
    hide Transfer;
    var file := s.disk.files[s.streams[sink.file.id]];
    var ok := Now(env, s).succeeds;
    var last := Transfer(file, if ok then |file.pending| else Now(env, s).amount);
    RewriteKeeps(s, sink, archives, last.(pending := []));
  }

  lemma MkdirKeeps(env: Environment, s: Storage, sink: Sink, archives: map<string, Archive>, path: string)
    requires Core(s, sink, archives)
    ensures Core(Mkdir(env, s, path).0, sink, archives)
    ensures s.disk.directories <= Mkdir(env, s, path).0.disk.directories
    ensures s.disk.files == Mkdir(env, s, path).0.disk.files
  {
    var disk := Mkdir(env, s, path).0.disk;
    assert Kept(s.disk, disk);
    StepKept(s, disk);
    assert Next(s, disk).history[0] == s.history[0];
  }

  lemma FopenKeeps(env: Environment, s: Storage, sink: Sink, archives: map<string, Archive>)
    requires Core(s, sink, archives) && sink.file.NoFile?
    requires sink.temporaryPath == sink.directory + TEMPORARY && sink.committedPath == sink.directory + COMMITTED
    requires sink.directory in s.disk.directories && sink.committedPath !in s.disk.files
    ensures var (after, r) := Fopen(env, s, sink.temporaryPath);
            Core(after, if r.Opened? then sink.(file := Stream(r.handle)) else sink, archives)
  {
    var (after, r) := Fopen(env, s, sink.temporaryPath);
    PathKinds(sink.directory);
    forall d: string | d + TEMPORARY in after.disk.files || d + COMMITTED in after.disk.files
      ensures d in after.disk.directories
    {
      PathsOfDirectories(d, sink.directory);
      PathsOfDirectories(sink.directory, d);
    }
    assert Kept(s.disk, after.disk);
    StepKept(s, after.disk);
    assert after.history[0] == s.history[0];
  }

  lemma RenameKeeps(env: Environment, s: Storage, sink: Sink, archives: map<string, Archive>, archive: Archive)
    requires Core(s, sink, archives) && sink.file.NoFile?
    requires sink.temporaryPath == sink.directory + TEMPORARY && sink.committedPath == sink.directory + COMMITTED
    requires sink.directory in s.disk.directories && sink.committedPath !in s.disk.files
    requires sink.temporaryPath in s.disk.files
    ensures var (after, ok) := Rename(env, s, sink.temporaryPath, sink.committedPath);
            Core(after, sink, if ok then archives[sink.committedPath := archive] else archives)
  {
    var (after, ok) := Rename(env, s, sink.temporaryPath, sink.committedPath);
    PathKinds(sink.directory);
    forall d: string | d + TEMPORARY in after.disk.files || d + COMMITTED in after.disk.files
      ensures d in after.disk.directories
    {
      PathsOfDirectories(d, sink.directory);
      PathsOfDirectories(sink.directory, d);
    }
    assert Kept(s.disk, after.disk);
    StepKept(s, after.disk);
    assert after.history[0] == s.history[0];
  }

  // ---- One call of the sink ----

  /** What is true of a world between any two calls of the sink. */
  ghost predicate Safe(w: World) {
    Core(w.storage, w.sink, w.archives)
  }

  lemma SafeStream(w: World)
    requires Safe(w)
    ensures StreamOpen(w.storage, w.sink.file)
  {
    CoreStream(w.storage, w.sink, w.archives);
  }

  lemma ErrorsAside(s: Storage, sink: Sink, other: Sink, archives: map<string, Archive>)
    requires Core(s, sink, archives)
    requires other.file == sink.file
    requires sink.file.Stream? ==>
               other.temporaryPath == sink.temporaryPath && other.committedPath == sink.committedPath
               && other.directory == sink.directory
    ensures Core(s, other, archives)
  {
  }

  lemma PutKeeps(env: Environment, s: Storage, sink: Sink, archives: map<string, Archive>, data: seq<Byte>)
    requires Core(s, sink, archives)
    ensures StreamOpen(s, sink.file)
    ensures Core(PutBytes(env, s, sink.file, data).storage, sink, archives)
  {
    hide Core, Fwrite;
    CoreStream(s, sink, archives);
    if sink.file.Stream? {
      FwriteKeeps(env, s, sink, archives, data);
    }
  }

  lemma EmitHeaderKeeps(env: Environment, s: Storage, sink: Sink, archives: map<string, Archive>, header: FileHeader)
    requires Core(s, sink, archives)
    ensures StreamOpen(s, sink.file)
    ensures Core(EmitHeader(env, s, sink.file, header).storage, sink, archives)
  {
    hide Core, PutBytes, HeaderBytes;
    PutKeeps(env, s, sink, archives, HeaderBytes(header));
  }

  lemma EmitBlockKeeps(env: Environment, s: Storage, sink: Sink, archives: map<string, Archive>, e: Encoder,
                       frames: seq<Frame>)
    requires Core(s, sink, archives)
    ensures StreamOpen(s, sink.file)
    ensures Core(EmitBlock(env, s, sink.file, e, frames).storage, sink, archives)
  {
    hide Core, PutBytes, BlockHeaderBytes, MakeBlock, Flatten, Counted;
    CoreStream(s, sink, archives);
    if e.writing && Appendable(frames) {
      var head := BlockHeaderBytes(MakeBlock(Numbered(e).blockSequence, frames));
      PutKeeps(env, s, sink, archives, head);
      PutKeeps(env, PutBytes(env, s, sink.file, head).storage, sink, archives, Flatten(frames));
    }
  }

  lemma EmitFooterKeeps(env: Environment, s: Storage, sink: Sink, archives: map<string, Archive>, e: Encoder,
                        drops: uint32)
    requires Core(s, sink, archives)
    ensures StreamOpen(s, sink.file)
    ensures Core(EmitFooter(env, s, sink.file, e, drops).storage, sink, archives)
  {
    hide Core, PutBytes, FooterBytes, MakeFooter;
    CoreStream(s, sink, archives);
    if e.writing {
      PutKeeps(env, s, sink, archives, FooterBytes(MakeFooter(e, drops)));
    }
  }

  lemma AbortKeeps(env: Environment, w: World)
    requires Safe(w)
    ensures StreamOpen(w.storage, w.sink.file)
    ensures Safe(Abort(env, w))
  {
    hide Core, Fflush, Fclose;
    SafeStream(w);
    if w.sink.file.Stream? {
      FflushKeeps(env, w.storage, w.sink, w.archives);
      FcloseKeeps(env, Fflush(env, w.storage, w.sink.file.id).0, w.sink, w.archives);
    }
  }

  lemma {:induction false} AllocateKeeps(env: Environment, s: Storage, sink: Sink, archives: map<string, Archive>,
                                         root: string, sequence: uint32, start: uint32, attempts: nat,
                                                 directory: string)
    requires Core(s, sink, archives)
    ensures var a := Allocate(env, s, root, sequence, start, attempts, directory);
            && Core(a.storage, sink, archives)
            && (a.created ==> && a.directory in a.storage.disk.directories
                              && a.directory + COMMITTED !in a.storage.disk.files)
    decreases attempts
  {
    hide Core, DirectoryPath;
    if attempts > 0 {
      var path := DirectoryPath(root, sequence, start);
      MkdirKeeps(env, s, sink, archives, path);
      var (after, r) := Mkdir(env, s, path);
      if r == AlreadyExists {
        AllocateKeeps(env, after, sink, archives, root, Add32(sequence, 1), start, attempts - 1, path);
      } else if r == Created {
        NewDirectoryIsEmpty(s, sink, archives, path);
      }
    }
  }

  lemma NewDirectoryIsEmpty(s: Storage, sink: Sink, archives: map<string, Archive>, path: string)
    requires Core(s, sink, archives) && path !in s.disk.directories
    ensures path + COMMITTED !in s.disk.files
  {
  }

  lemma OpenSessionKeeps(env: Environment, m: Metadata, w: World, a: Allocation, session: uint32, start: uint32)
    requires Safe(w) && w.sink.file.NoFile? && w.sink.directory == a.directory
    requires a.directory in w.storage.disk.directories && a.directory + COMMITTED !in w.storage.disk.files
    ensures Safe(OpenSession(env, m, w, a, session, start).0)
  {
    hide Core, Fopen, EmitHeader, Fflush, MakeHeader;
    var named := w.sink.(temporaryPath := a.directory + TEMPORARY, committedPath := a.directory + COMMITTED);
    ErrorsAside(w.storage, w.sink, named, w.archives);
    FopenKeeps(env, w.storage, named, w.archives);
    match Fopen(env, w.storage, named.temporaryPath)
    case (after, NotOpened) =>
      ErrorsAside(after, named, SetError(named, FileOpen), w.archives);
    case (after, Opened(id)) =>
      var opened' := named.(file := Stream(id));
      var header := MakeHeader(m, session, a.storageSequence, start);
      EmitHeaderKeeps(env, after, opened', w.archives, header);
      var emitted := EmitHeader(env, after, Stream(id), header);
      var sink := opened'.(encoder := emitted.encoder);
      ErrorsAside(emitted.storage, opened', sink, w.archives);
      FflushKeeps(env, emitted.storage, sink, w.archives);
      ErrorsAside(emitted.storage, sink, SetError(sink, HeaderWrite), w.archives);
      var flushed := Fflush(env, emitted.storage, id).0;
      ErrorsAside(flushed, sink, SetError(sink, FlushFailed), w.archives);
  }

  lemma BeginKeeps(env: Environment, m: Metadata, w: World, card: bool, session: uint32, start: uint32)
    requires Safe(w)
    ensures StreamOpen(w.storage, w.sink.file)
    ensures Safe(Begin(env, m, w, card, session, start).0)
  {
    hide Core, Abort, Mkdir, Allocate, OpenSession, RobotRoot, FixedText;
    SafeStream(w);
    AbortKeeps(env, w);
    var idle := Abort(env, w);
    var sink := idle.sink.(error := NoError, encoder := IDLE, blocksSinceFlush := 0);
    ErrorsAside(idle.storage, idle.sink, sink, w.archives);
    ErrorsAside(idle.storage, sink, SetError(sink, CardMissing), w.archives);
    ErrorsAside(idle.storage, sink, SetError(sink, DirectoryCreate), w.archives);
    MkdirKeeps(env, idle.storage, sink, w.archives, FLIGHT_ROOT);
    var s1 := Mkdir(env, idle.storage, FLIGHT_ROOT).0;
    ErrorsAside(s1, sink, SetError(sink, DirectoryCreate), w.archives);
    MkdirKeeps(env, s1, sink, w.archives, RobotRoot(m));
    var s2 := Mkdir(env, s1, RobotRoot(m)).0;
    ErrorsAside(s2, sink, SetError(sink, DirectoryCreate), w.archives);
    AllocateKeeps(env, s2, sink, w.archives, RobotRoot(m), session, start, MAX_ATTEMPTS, sink.directory);
    var a := Allocate(env, s2, RobotRoot(m), session, start, MAX_ATTEMPTS, sink.directory);
    var placed := sink.(directory := a.directory);
    ErrorsAside(a.storage, sink, placed, w.archives);
    ErrorsAside(a.storage, placed, SetError(placed, DirectoryCreate), w.archives);
    if a.created {
      OpenSessionKeeps(env, m, World(a.storage, placed, NO_SESSION, w.archives), a, session, start);
    }
  }

  lemma WriteKeeps(env: Environment, w: World, frames: Frames)
    requires Safe(w)
    ensures StreamOpen(w.storage, w.sink.file)
    ensures Safe(Write(env, w, frames).0)
  {
    hide Core, EmitBlock, Fflush;
    SafeStream(w);
    ErrorsAside(w.storage, w.sink, SetError(w.sink, Internal), w.archives);
    if w.sink.file.Stream? && frames.Batch? && frames.frames != [] {
      EmitBlockKeeps(env, w.storage, w.sink, w.archives, w.sink.encoder, frames.frames);
      var emitted := EmitBlock(env, w.storage, w.sink.file, w.sink.encoder, frames.frames);
      var sink := w.sink.(encoder := emitted.encoder);
      ErrorsAside(emitted.storage, w.sink, sink, w.archives);
      ErrorsAside(emitted.storage, sink, SetError(sink, DataWrite), w.archives);
      var counted := sink.(blocksSinceFlush := Add32(sink.blocksSinceFlush, 1));
      ErrorsAside(emitted.storage, sink, counted, w.archives);
      FflushKeeps(env, emitted.storage, counted, w.archives);
      var flushed := Fflush(env, emitted.storage, w.sink.file.id).0;
      ErrorsAside(flushed, counted, SetError(counted, FlushFailed), w.archives);
      ErrorsAside(flushed, counted, counted.(blocksSinceFlush := 0), w.archives);
    }
  }

  lemma FinishKeeps(env: Environment, w: World, drops: uint32)
    requires Safe(w)
    ensures StreamOpen(w.storage, w.sink.file)
    ensures Safe(Finish(env, w, drops).0)
  {
    hide Core, EmitFooter, Fflush, Fclose, Rename;
    SafeStream(w);
    ErrorsAside(w.storage, w.sink, SetError(w.sink, Internal), w.archives);
    if w.sink.file.Stream? {
      StreamPlaces(w);
      EmitFooterKeeps(env, w.storage, w.sink, w.archives, w.sink.encoder, drops);
      var emitted := EmitFooter(env, w.storage, w.sink.file, w.sink.encoder, drops);
      var sink := w.sink.(encoder := emitted.encoder);
      ErrorsAside(emitted.storage, w.sink, sink, w.archives);
      ErrorsAside(emitted.storage, sink, SetError(sink, FooterWrite), w.archives);
      FflushKeeps(env, emitted.storage, sink, w.archives);
      var flushed := Fflush(env, emitted.storage, w.sink.file.id).0;
      ErrorsAside(flushed, sink, SetError(sink, FlushFailed), w.archives);
      CoreStream(flushed, sink, w.archives);
      FcloseKeeps(env, flushed, sink, w.archives);
      var closed := Fclose(env, flushed, w.sink.file.id).0;
      var apart := sink.(file := NoFile);
      ErrorsAside(closed, apart, SetError(apart, CloseFailed), w.archives);
      RenameKeeps(env, closed, apart, w.archives, Archive(w.log, drops));
      var (renamed, ok) := Rename(env, closed, sink.temporaryPath, sink.committedPath);
      if !ok {
        ErrorsAside(renamed, apart, SetError(apart, CommitRename), w.archives);
      }
    }
  }

  lemma StreamPlaces(w: World)
    requires Safe(w) && w.sink.file.Stream?
    ensures w.sink.temporaryPath == w.sink.directory + TEMPORARY && w.sink.committedPath == w.sink.directory + COMMITTED
    ensures w.sink.committedPath !in w.storage.disk.files
  {
  }

  lemma CallKeeps(env: Environment, m: Metadata, w: World, call: Call)
    requires Safe(w)
    ensures StreamOpen(w.storage, w.sink.file)
    ensures Safe(Do(env, m, w, call).0)
  {
    hide Safe, Begin, Write, Finish, Abort;
    SafeStream(w);
    match call
    case BeginCall(card, session, start) => BeginKeeps(env, m, w, card, session, start);
    case WriteCall(frames) => WriteKeeps(env, w, frames);
    case FinishCall(drops) => FinishKeeps(env, w, drops);
    case AbortCall => AbortKeeps(env, w);
  }
}
