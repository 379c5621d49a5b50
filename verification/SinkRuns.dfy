/** The sink's promises, over every sequence of calls and every pattern of failures. */
module SinkRuns {
  import opened Bytes
  import opened RecordingFile
  import opened RecordingEncoder
  import opened Card
  import opened SessionNames
  import opened SinkProtocol
  import opened SinkSafety
  import opened SinkContents

  /** A card as it is found: recordings lie in directories, and nothing is buffered. */
  ghost predicate FoundDisk(disk: Disk) {
    && DirectoriesExist(disk)
    && forall p :: p in disk.files ==> disk.files[p].pending == []
  }

  lemma BootSound(disk: Disk)
    requires FoundDisk(disk)
    ensures Sound(Boot(disk))
  {
    assert Kept(disk, disk);
  }

  lemma {:induction false} RunSound(env: Environment, m: Metadata, w: World, calls: seq<Call>)
    requires Sound(w)
    ensures StreamOpen(w.storage, w.sink.file)
    ensures Sound(Run(env, m, w, calls))
    decreases |calls|
  {
    hide Sound, Do;
    SoundStream(w);
    if calls != [] {
      CallSound(env, m, w, calls[0]);
      RunSound(env, m, Do(env, m, w, calls[0]).0, calls[1..]);
    }
  }

  /** Nothing that happens later loses or changes an archive: at every moment of every run, each
      archive of every earlier moment is still there with the same bytes. */
  lemma ArchivesImmutable(env: Environment, m: Metadata, disk: Disk, calls: seq<Call>, i: nat, j: nat)
    requires FoundDisk(disk)
    ensures var history := Run(env, m, Boot(disk), calls).storage.history;
            i <= j < |history| ==> Kept(history[i], history[j])
  {
    hide Kept, Placed, StreamsMatch, ArchivesNamed, ArchivesWhole, FileSound;
    BootSound(disk);
    RunSound(env, m, Boot(disk), calls);
  }

  /** Every DATA.V5L on the card at any moment of a run was found there, or was committed by a finish
      that returned true. A commit of an intact session holds exactly the header, every batch in
      order and the footer, all of it durable. */
  lemma ArchivesAreWholeRecordings(env: Environment, m: Metadata, disk: Disk, calls: seq<Call>, i: nat, path: string)
    requires FoundDisk(disk) && IsArchive(path)
    requires i < |Run(env, m, Boot(disk), calls).storage.history|
    requires path in Run(env, m, Boot(disk), calls).storage.history[i].files && path !in disk.files
    ensures var r := Run(env, m, Boot(disk), calls); var file := r.storage.history[i].files[path];
            && path in r.archives
            && var a := r.archives[path];
               a.log.intact ==> && AllAppendable(a.log.batches)
                                && file == File(RecordingBytes(a.log.header, a.log.batches, a.producerDrops), [])
  {
    hide RecordingBytes, AllAppendable, Placed, StreamsMatch, FileSound;
    BootSound(disk);
    RunSound(env, m, Boot(disk), calls);
    var r := Run(env, m, Boot(disk), calls);
    var last := |r.storage.history| - 1;
    assert Kept(r.storage.history[i], r.storage.history[last]);
    assert r.storage.history[0] == Boot(disk).storage.history[0] == disk;
  }

  lemma FailedFinishEnd(env: Environment, w: World, drops: uint32)
    requires Safe(w) && w.sink.file.Stream? && StreamOpen(w.storage, w.sink.file) && !Finish(env, w, drops).1
    ensures var r := Finish(env, w, drops).0;
            r.sink.committedPath == w.sink.committedPath && r.sink.committedPath !in r.storage.disk.files
  {
    hide Core, EmitFooter, Fflush, Fclose, SetError;
    EmitFooterKeeps(env, w.storage, w.sink, w.archives, w.sink.encoder, drops);
    var emitted := EmitFooter(env, w.storage, w.sink.file, w.sink.encoder, drops);
    StillAbsent(emitted.storage, w.sink, w.archives);
    FflushKeeps(env, emitted.storage, w.sink, w.archives);
    var flushed := Fflush(env, emitted.storage, w.sink.file.id).0;
    StillAbsent(flushed, w.sink, w.archives);
    FcloseKeeps(env, flushed, w.sink, w.archives);
    SetErrorKeeps(w.sink.(encoder := emitted.encoder));
  }

  lemma SetErrorKeeps(sink: Sink)
    ensures forall error :: SetError(sink, error).committedPath == sink.committedPath
    ensures forall error :: SetError(sink.(file := NoFile), error).committedPath == sink.committedPath
  {
  }

  /** Whenever finish fails, no moment of it shows an archive of the session. */
  lemma FailedFinishLeavesNone(env: Environment, w: World, drops: uint32)
    requires Sound(w) && w.sink.file.Stream? && !Finish(env, w, drops).1
    ensures var r := Finish(env, w, drops).0;
            && r.sink.committedPath == w.sink.committedPath
            && forall i :: 0 <= i < |r.storage.history| ==> r.sink.committedPath !in r.storage.history[i].files
  {
    hide Core, Finish;
    SafeStream(w);
    FinishKeeps(env, w, drops);
    FailedFinishEnd(env, w, drops);
    StreamPlaces(w);
    PathKinds(w.sink.directory);
    NeverThere(Finish(env, w, drops).0, w.sink.committedPath);
  }

  lemma CommitSteps(env: Environment, w: World, drops: uint32)
    requires StreamOpen(w.storage, w.sink.file) && w.sink.file.Stream? && Finish(env, w, drops).1
    ensures var emitted := EmitFooter(env, w.storage, w.sink.file, w.sink.encoder, drops);
            var (flushed, flushOk) := Fflush(env, emitted.storage, w.sink.file.id);
            && emitted.ok && flushOk
            && var (closed, closeOk) := Fclose(env, flushed, w.sink.file.id);
               var (renamed, renameOk) := Rename(env, closed, w.sink.temporaryPath, w.sink.committedPath);
               closeOk && renameOk && Finish(env, w, drops).0.storage == renamed == Next(closed, renamed.disk)
  {
    hide EmitFooter, Fflush, Fclose;
  }

  /** A finish that returns true commits with its last step: one moment before, the footer has been
      written after everything else, and flush and close have made all of it durable; only at the last
      moment of the call is there an archive, and it is that file. */
  lemma CommitIsLastStep(env: Environment, w: World, drops: uint32)
    requires Sound(w) && w.sink.file.Stream? && Finish(env, w, drops).1
    ensures var h := Finish(env, w, drops).0.storage.history; var n := |h| - 1;
            && n > 0 && (forall i :: 0 <= i < n ==> w.sink.committedPath !in h[i].files)
            && w.sink.temporaryPath in h[n - 1].files && w.sink.committedPath in h[n].files
            && h[n].files[w.sink.committedPath] == h[n - 1].files[w.sink.temporaryPath]
            && h[n - 1].files[w.sink.temporaryPath]
               == File(Contents(OpenFile(w)) + FooterBytes(MakeFooter(w.sink.encoder, drops)), [])
            && (w.log.intact ==>
                  && AllAppendable(w.log.batches)
                  && h[n - 1].files[w.sink.temporaryPath].durable == RecordingBytes(w.log.header, w.log.batches, drops))
  {
    hide Core, Finish, EmitFooter, Fflush, Fclose, RecordingBytes, AllAppendable, FileSound, ArchivesWhole, Contents,
         FooterBytes, MakeFooter;
    SafeStream(w);
    StreamPlaces(w);
    StreamAtPath(w);
    EmitFooterContents(env, w.storage, w.sink.file, w.sink.encoder, drops);
    EmitFooterKeeps(env, w.storage, w.sink, w.archives, w.sink.encoder, drops);
    var emitted := EmitFooter(env, w.storage, w.sink.file, w.sink.encoder, drops);
    FflushKeeps(env, emitted.storage, w.sink, w.archives);
    var flushed := Fflush(env, emitted.storage, w.sink.file.id).0;
    FflushContents(env, emitted.storage, w.sink.file.id);
    CoreStream(flushed, w.sink, w.archives);
    FcloseKeeps(env, flushed, w.sink, w.archives);
    FcloseContents(env, flushed, w.sink.file.id);
    var closed := Fclose(env, flushed, w.sink.file.id).0;
    var apart := World(closed, w.sink.(file := NoFile), w.log, w.archives);
    PathKinds(w.sink.directory);
    NeverThere(apart, w.sink.committedPath);
    HistoryToNow(apart);
    CommitSteps(env, w, drops);
    FinishedWhole(env, w, drops);
  }

  lemma HistoryToNow(w: World)
    requires Safe(w)
    ensures w.storage.history != [] && w.storage.history[|w.storage.history| - 1] == w.storage.disk
  {
  }

  lemma StillAbsent(s: Storage, sink: Sink, archives: map<string, Archive>)
    requires Core(s, sink, archives) && sink.file.Stream?
    ensures StreamOpen(s, sink.file) && sink.committedPath !in s.disk.files
  {
  }

  /** An archive that is absent was never there. */
  lemma NeverThere(w: World, path: string)
    requires Safe(w) && IsArchive(path) && path !in w.storage.disk.files
    ensures forall i :: 0 <= i < |w.storage.history| ==> path !in w.storage.history[i].files
  {
    var h := w.storage.history;
    forall i | 0 <= i < |h| ensures path !in h[i].files {
      assert Kept(h[i], h[|h| - 1]);
    }
  }

  /** The call of a run that committed an archive found at some moment: it is a finish that returned
      true, and the moment is not before its last one. */
  lemma {:induction false} CommittingCall(env: Environment, m: Metadata, w: World, calls: seq<Call>, i: nat,
                                          path: string)
    returns (k: nat)
    requires Sound(w) && IsArchive(path)
    requires i < |Run(env, m, w, calls).storage.history|
    requires path in Run(env, m, w, calls).storage.history[i].files && path !in w.storage.disk.files
    ensures k < |calls| && calls[k].FinishCall?
    ensures var before, after := Run(env, m, w, calls[..k]), Run(env, m, w, calls[..k + 1]);
            && before.sink.file.Stream? && before.sink.committedPath == path && Returned(env, m, w, calls, k)
            && |before.storage.history| < |after.storage.history| <= i + 1
    decreases |calls|
  {
    hide Sound, Do, IsArchive;
    SoundStream(w);
    if calls == [] {
      HistoryEarlier(w, i, path);
      assert false;
    } else {
      var next := Do(env, m, w, calls[0]).0;
      var rest := calls[1..];
      CallSound(env, m, w, calls[0]);
      if path in next.storage.disk.files {
        k := 0;
        NewArchive(env, m, w, calls[0], path);
        FirstSeen(env, m, w, calls[0], rest, i, path);
        assert calls[..0] == [] && calls[..1] == [calls[0]] && [calls[0]][1..] == [];
        assert Run(env, m, w, calls[..1]) == next;
      } else {
        var j := CommittingCall(env, m, next, rest, i, path);
        k := j + 1;
        assert calls[..k][0] == calls[0] && calls[..k][1..] == rest[..j];
        assert calls[..k + 1][0] == calls[0] && calls[..k + 1][1..] == rest[..j + 1];
      }
    }
  }

  lemma HistoryEarlier(w: World, i: nat, path: string)
    requires Sound(w) && IsArchive(path) && i < |w.storage.history| && path !in w.storage.disk.files
    ensures path !in w.storage.history[i].files
  {
    NeverThere(w, path);
  }

  lemma BeginArchives(env: Environment, m: Metadata, w: World, card: bool, session: uint32, start: uint32)
    requires StreamOpen(w.storage, w.sink.file)
    ensures Begin(env, m, w, card, session, start).0.archives == w.archives
  {
    hide Abort, Allocate, EmitHeader, Fflush, MakeHeader, Mkdir, Fopen, FixedText;
  }

  lemma FinishOutcome(env: Environment, w: World, drops: uint32)
    requires Safe(w) && w.sink.file.Stream?
    ensures StreamOpen(w.storage, w.sink.file)
    ensures var (r, ok) := Finish(env, w, drops);
            && r.sink.committedPath == w.sink.committedPath && w.sink.committedPath !in w.archives
            && r.archives == if ok then w.archives[w.sink.committedPath := Archive(w.log, drops)] else w.archives
  {
    hide EmitFooter, Fflush, Fclose, Rename;
  }

  lemma ArchivesOfCall(env: Environment, m: Metadata, w: World, call: Call)
    requires Safe(w) && StreamOpen(w.storage, w.sink.file)
    ensures var (r, ok) := Do(env, m, w, call);
            if call.FinishCall? && w.sink.file.Stream? && ok
            then r.archives == w.archives[w.sink.committedPath := Archive(w.log, call.producerDrops)]
            else r.archives == w.archives
  {
    hide Core, Begin, Finish, Abort, EmitBlock, Fflush;
    match call
    case BeginCall(card, session, start) => BeginArchives(env, m, w, card, session, start);
    case WriteCall(frames) =>
    case FinishCall(drops) =>
      if w.sink.file.Stream? {
        FinishOutcome(env, w, drops);
      } else {
        NothingToFinish(env, w, drops);
      }
    case AbortCall =>
  }

  lemma NothingToFinish(env: Environment, w: World, drops: uint32)
    requires w.sink.file.NoFile?
    ensures Finish(env, w, drops) == Fail(w, Internal)
  {
  }

  lemma ArchiveFoundOrNamed(w: World, r: World, path: string)
    requires Safe(w) && Safe(r) && w.storage.history <= r.storage.history && IsArchive(path)
    requires path !in w.storage.disk.files && path in r.storage.disk.files
    ensures path !in w.archives && path in r.archives
  {
    var h := w.storage.history;
    assert r.storage.history[0] == h[0];
    assert Kept(h[0], h[|h| - 1]);
  }

  /** Only a finish that returns true makes an archive. */
  lemma NewArchive(env: Environment, m: Metadata, w: World, call: Call, path: string)
    requires Sound(w) && StreamOpen(w.storage, w.sink.file) && IsArchive(path) && path !in w.storage.disk.files
    requires path in Do(env, m, w, call).0.storage.disk.files
    ensures call.FinishCall? && w.sink.file.Stream? && w.sink.committedPath == path && Do(env, m, w, call).1
  {
    hide Safe, Do, ArchivesWhole, FileSound;
    CallKeeps(env, m, w, call);
    ArchivesOfCall(env, m, w, call);
    ArchiveFoundOrNamed(w, Do(env, m, w, call).0, path);
  }

  /** ... and not before its last moment. */
  lemma FirstSeen(env: Environment, m: Metadata, w: World, call: Call, rest: seq<Call>, i: nat, path: string)
    requires Sound(w) && StreamOpen(w.storage, w.sink.file) && IsArchive(path) && path !in w.storage.disk.files
    requires path in Do(env, m, w, call).0.storage.disk.files
    requires var all := Run(env, m, Do(env, m, w, call).0, rest).storage.history; i < |all| && path in all[i].files
    ensures |w.storage.history| < |Do(env, m, w, call).0.storage.history| <= i + 1
  {
    hide Safe, Finish, ArchivesWhole, FileSound, RecordingBytes;
    NewArchive(env, m, w, call, path);
    CommitIsLastStep(env, w, call.producerDrops);
    NeverThere(w, path);
    var next := Do(env, m, w, call).0;
    var h, all := next.storage.history, Run(env, m, next, rest).storage.history;
    assert h <= all;
    assert i < |h| ==> all[i] == h[i];
    assert |h| == |w.storage.history| ==> h == w.storage.history;
  }

  /** Streams opened and not closed are the one the sink holds; abort leaves none. */
  lemma StreamsConserved(env: Environment, m: Metadata, disk: Disk, calls: seq<Call>)
    requires FoundDisk(disk)
    ensures var r := Run(env, m, Boot(disk), calls);
            && r.storage.openCount - r.storage.closeCount == (if r.sink.file.Stream? then 1 else 0)
            && |r.storage.streams| == r.storage.openCount - r.storage.closeCount
            && (calls != [] && calls[|calls| - 1].AbortCall? ==> r.storage.streams == map[])
  {
    hide Kept, Placed, ArchivesNamed, ArchivesWhole, FileSound, Do;
    BootSound(disk);
    RunSound(env, m, Boot(disk), calls);
    if calls != [] && calls[|calls| - 1].AbortCall? {
      RunSnoc(env, m, Boot(disk), calls[..|calls| - 1], AbortCall);
      assert calls[..|calls| - 1] + [AbortCall] == calls;
      AfterAbort(env, m, Run(env, m, Boot(disk), calls[..|calls| - 1]));
    }
  }

  lemma AfterAbort(env: Environment, m: Metadata, w: World)
    requires StreamOpen(w.storage, w.sink.file)
    ensures Do(env, m, w, AbortCall).0.sink.file.NoFile?
  {
  }

  lemma {:induction false} RunSnoc(env: Environment, m: Metadata, w: World, calls: seq<Call>, last: Call)
    requires StreamOpen(w.storage, w.sink.file)
    ensures Run(env, m, w, calls + [last]) == Do(env, m, Run(env, m, w, calls), last).0
    decreases |calls|
  {
    hide Do;
    if calls == [] {
      assert calls + [last] == [last];
      assert [last][1..] == [];
    } else {
      RunSnoc(env, m, Do(env, m, w, calls[0]).0, calls[1..], last);
      assert (calls + [last])[1..] == calls[1..] + [last];
    }
  }

  // ---- Errors ----

  /** One call raises an error exactly when it returns false, and only begin clears one. */
  lemma ErrorOfCall(env: Environment, m: Metadata, w: World, call: Call)
    requires StreamOpen(w.storage, w.sink.file)
    ensures var (r, ok) := Do(env, m, w, call);
            && (!call.BeginCall? && w.sink.error != NoError ==> r.sink.error == w.sink.error)
            && (call.BeginCall? || w.sink.error == NoError ==> (r.sink.error == NoError <==> ok))
  {
    hide Abort, Allocate, EmitHeader, EmitBlock, EmitFooter, Fflush, Fclose, Rename, Mkdir, Fopen, MakeHeader,
         FixedText;
  }

  ghost predicate WithoutBegin(calls: seq<Call>) {
    forall c :: c in calls ==> !c.BeginCall?
  }

  /** What the k-th call returns. */
  ghost function Returned(env: Environment, m: Metadata, w: World, calls: seq<Call>, k: nat): bool
    requires StreamOpen(w.storage, w.sink.file) && k < |calls|
  {
    Do(env, m, Run(env, m, w, calls[..k]), calls[k]).1
  }

  /** From one begin to the next the error is the first one raised: it stays once it is there, and it
      is there exactly if some call has returned false. */
  lemma {:induction false} ErrorLatched(env: Environment, m: Metadata, w: World, calls: seq<Call>)
    requires StreamOpen(w.storage, w.sink.file) && WithoutBegin(calls)
    ensures w.sink.error != NoError ==> Run(env, m, w, calls).sink.error == w.sink.error
    ensures w.sink.error == NoError ==>
              (Run(env, m, w, calls).sink.error != NoError
               <==> exists k :: 0 <= k < |calls| && !Returned(env, m, w, calls, k))
    decreases |calls|
  {
    hide Do;
    if calls != [] {
      var (next, ok) := Do(env, m, w, calls[0]);
      var rest := calls[1..];
      ErrorOfCall(env, m, w, calls[0]);
      ErrorLatched(env, m, next, rest);
      assert calls[..0] == [];
      assert Returned(env, m, w, calls, 0) == ok;
      forall k | 0 <= k < |rest| ensures Returned(env, m, w, calls, k + 1) == Returned(env, m, next, rest, k) {
        assert calls[..k + 1][0] == calls[0] && calls[..k + 1][1..] == rest[..k];
      }
      if w.sink.error == NoError && ok && Run(env, m, next, rest).sink.error != NoError {
        var k :| 0 <= k < |rest| && !Returned(env, m, next, rest, k);
        assert !Returned(env, m, w, calls, k + 1);
      }
      if k :| 0 <= k < |calls| && !Returned(env, m, w, calls, k) {
        if k > 0 {
          assert !Returned(env, m, next, rest, k - 1);
        }
      }
    }
  }

  // ---- Begin ----

  ghost predicate Taken(disk: Disk, path: string) {
    path in disk.directories || path in disk.files
  }

  /** The k-th name tried, the sequence wrapping around at 2^32. */
  ghost function Candidate(root: string, storageSequence: uint32, startTimeMs: uint32, k: nat): string {
    DirectoryPath(root, Add32(storageSequence, k), startTimeMs)
  }

  /** The search makes one call per name and stops within its attempts. If it succeeds, it created the
      first name that was free, and nothing else; if it fails, it created none, and either every name
      was taken or a call failed for another reason. */
  lemma {:induction false} FirstFreeName(env: Environment, s: Storage, root: string, storageSequence: uint32,
                                         startTimeMs: uint32, attempts: nat, directory: string) returns (k: nat)
    ensures k <= attempts
    ensures forall j :: 0 <= j < k ==> Taken(s.disk, Candidate(root, storageSequence, startTimeMs, j))
    ensures var a := Allocate(env, s, root, storageSequence, startTimeMs, attempts, directory);
            var name := Candidate(root, storageSequence, startTimeMs, k);
            && a.storage.calls == s.calls + (if k < attempts then k + 1 else k)
            && (a.created ==> && k < attempts && !Taken(s.disk, name)
                              && a.storageSequence == Add32(storageSequence, k) && a.directory == name
                              && a.storage.disk == s.disk.(directories := s.disk.directories + {name}))
            && (!a.created ==> && a.storage.disk == s.disk
                               && (k == attempts || !env(s.calls + k).succeeds))
    decreases attempts
  {
    hide DirectoryPath;
    k := 0;
    assert Add32(storageSequence, 0) == storageSequence;
    if attempts > 0 {
      var path := DirectoryPath(root, storageSequence, startTimeMs);
      var (after, r) := Mkdir(env, s, path);
      if r == AlreadyExists {
        var next := Add32(storageSequence, 1);
        var j := FirstFreeName(env, after, root, next, startTimeMs, attempts - 1, path);
        k := j + 1;
        forall i | 0 <= i < k ensures Taken(s.disk, Candidate(root, storageSequence, startTimeMs, i)) {
          if i > 0 {
            Add32Twice(storageSequence, 1, i - 1);
            assert Candidate(root, next, startTimeMs, i - 1) == Candidate(root, storageSequence, startTimeMs, i);
          }
        }
        Add32Twice(storageSequence, 1, j);
      }
    }
  }

  lemma OpenedSession(env: Environment, m: Metadata, w: World, a: Allocation, session: uint32, start: uint32)
    requires w.sink.file.NoFile? && w.sink.directory == a.directory && OpenSession(env, m, w, a, session, start).1
    ensures var r := OpenSession(env, m, w, a, session, start).0;
            && Streaming(r) && r.log == Log(MakeHeader(m, session, a.storageSequence, start), [], 0, true)
            && r.sink.directory == a.directory && r.sink.blocksSinceFlush == w.sink.blocksSinceFlush
  {
    hide MakeHeader, EmitHeader, Fflush;
  }

  lemma AllocatedName(env: Environment, s: Storage, root: string, storageSequence: uint32, startTimeMs: uint32,
                      attempts: nat, directory: string)
    requires Allocate(env, s, root, storageSequence, startTimeMs, attempts, directory).created
    ensures var a := Allocate(env, s, root, storageSequence, startTimeMs, attempts, directory);
            a.directory == DirectoryPath(root, a.storageSequence, startTimeMs)
  {
    hide Allocate, DirectoryPath;
    var k := FirstFreeName(env, s, root, storageSequence, startTimeMs, attempts, directory);
  }

  lemma BegunNames(env: Environment, m: Metadata, w: World, card: bool, session: uint32,
                   start: uint32) returns (storageSequence: uint32)
    requires StreamOpen(w.storage, w.sink.file) && Begin(env, m, w, card, session, start).1
    ensures var r := Begin(env, m, w, card, session, start).0;
            && Streaming(r) && r.log == Log(MakeHeader(m, session, storageSequence, start), [], 0, true)
            && r.sink.directory == DirectoryPath(RobotRoot(m), storageSequence, start)
            && r.sink.blocksSinceFlush == 0
  {
    hide Abort, Allocate, OpenSession, RobotRoot, DirectoryPath, MakeHeader;
    var idle := Abort(env, w);
    var ready := idle.(sink := idle.sink.(error := NoError, encoder := IDLE, blocksSinceFlush := 0), log := NO_SESSION);
    var s1 := Mkdir(env, ready.storage, FLIGHT_ROOT).0;
    var s2 := Mkdir(env, s1, RobotRoot(m)).0;
    AllocatedName(env, s2, RobotRoot(m), session, start, MAX_ATTEMPTS, ready.sink.directory);
    var a := Allocate(env, s2, RobotRoot(m), session, start, MAX_ATTEMPTS, ready.sink.directory);
    var placed := ready.(storage := a.storage, sink := ready.sink.(directory := a.directory));
    OpenedSession(env, m, placed, a, session, start);
    storageSequence := a.storageSequence;
  }

  lemma FreshFile(file: File, sink: Sink, header: FileHeader)
    requires AllAppendable([]) && FileSound(file, sink, Log(header, [], 0, true))
    ensures file == File(HeaderBytes(header), [])
  {
    hide HeaderBytes, BlocksBytes, AfterAppends;
    NothingEmitted(header);
    var none: seq<seq<Frame>> := [];
    assert none[..0] == none;
    assert file.durable[..|HeaderBytes(header)|] == HeaderBytes(header);
  }

  /** The header is of this program's format and tells everything the metadata tell. */
  ghost predicate Describes(h: FileHeader, m: Metadata) {
    && h.magic == 0x324C_3556 && h.formatMajor == 2 && h.formatMinor == 0
    && h.logSchemaMajor == 3 && h.logSchemaMinor == 1 && h.endianMarker == 0x0102_0304
    && h.headerSize == 160 && h.frameSize == 1536
    && h.bootId == m.bootId && h.robotIdHash == m.robotIdHash && h.configHash == m.configHash
    && h.softwareIdentityHash == m.softwareIdentityHash && h.hardwareRevision == m.hardwareRevision
    && h.configSchema == m.configSchema && h.calibrationRevision == m.calibrationRevision
    && h.hardwareVerification == m.hardwareVerification && h.dirtyBuild == m.dirtyBuild
    && h.robotId == m.robotId && h.softwareVersion == m.softwareVersion && h.sourceCommit == m.sourceCommit
  }

  lemma MadeHeader(m: Metadata, session: uint32, storageSequence: uint32, start: uint32)
    ensures var h := MakeHeader(m, session, storageSequence, start);
            && Describes(h, m) && h.sessionSequence == session && h.storageSequence == storageSequence
            && h.startTimeMs == start && h.runIdHash == RunId(m.bootId, session)
  {
    hide RunId;
  }

  /** After a begin that returns true, the file holds one header, all of it durable, that reads back as
      naming the session and start time asked for, the run and all of the metadata; and its storage
      sequence and start time are exactly those in its directory's name. */
  lemma BegunSession(env: Environment, m: Metadata, w: World, card: bool, session: uint32, start: uint32)
    requires Sound(w) && Begin(env, m, w, card, session, start).1
    ensures var r := Begin(env, m, w, card, session, start).0;
            && Streaming(r) && r.log.batches == []
            && var bytes := OpenFile(r).durable;
               && OpenFile(r).pending == [] && |bytes| == HEADER_SIZE && Intact(bytes, HEADER_BODY)
               && var h := HeaderOf(bytes);
                  && h == r.log.header && Describes(h, m)
                  && h.sessionSequence == session && h.startTimeMs == start
                  && h.runIdHash == RunId(m.bootId, session)
                  && r.sink.directory == DirectoryPath(RobotRoot(m), h.storageSequence, h.startTimeMs)
                  && Parse(r.sink.directory[|RobotRoot(m)| + 1..])
                     == Name(SessionName(h.storageSequence, h.startTimeMs))
  {
    hide Begin, Safe, ArchivesWhole, FileSound, RobotRoot, Format, Parse, HeaderBytes, HeaderOf, Intact, RunId,
         MakeHeader, Describes;
    BeginSound(env, m, w, card, session, start);
    var storageSequence := BegunNames(env, m, w, card, session, start);
    var r := Begin(env, m, w, card, session, start).0;
    MadeHeader(m, session, storageSequence, start);
    ParseOfFormat(SessionName(storageSequence, start));
    assert r.sink.directory[|RobotRoot(m)| + 1..] == Format(SessionName(storageSequence, start));
    FreshFile(OpenFile(r), r.sink, r.log.header);
    HeaderRoundTrip(r.log.header);
  }

  // ---- How much a loss of power can take ----

  /** After a write that returns true on an intact session, the sink's counter is the number of blocks
      since the last successful flush, also when flushes have failed in between; the header and all
      blocks before these are durable; and these are at most 49, unless 2^32 blocks went by without a
      successful flush. */
  lemma BoundedLoss(env: Environment, w: World, frames: Frames)
    requires Sound(w) && w.log.intact && Write(env, w, frames).1
    ensures var r := Write(env, w, frames).0; var log := r.log;
            && Streaming(r) && frames.Batch?
            && log.header == w.log.header && log.batches == w.log.batches + [frames.frames]
            && AllAppendable(log.batches)
            && (log.unflushed == w.log.unflushed + 1 || log.unflushed == 0)
            && r.sink.blocksSinceFlush == Add32(0, log.unflushed)
            && DurableBut(OpenFile(r), log.header, log.batches, log.unflushed)
            && (log.unflushed < 0x1_0000_0000 ==> log.unflushed <= 49)
  {
    hide Safe, ArchivesWhole, EmitBlock, Fflush, AllAppendable, AfterAppends, Emitted, Contents, DurableBut;
    WriteSound(env, w, frames);
    var r := Write(env, w, frames).0;
    if r.log.unflushed < 0x1_0000_0000 {
      Add32Small(r.log.unflushed);
    }
  }
}
