/** What a recording session leaves on the card, whatever fails afterwards and whenever the power
    goes: the worker drives the sink through any ticks, over any environment. */
module RecordingSurvival {
  import opened Bytes
  import opened RecordingFile
  import opened RecordingEncoder
  import opened RecordingVerifier
  import opened RecordingRecovery
  import opened RecordingAccess
  import opened Card
  import opened SessionNames
  import opened SinkProtocol
  import opened SinkSafety
  import opened SinkContents
  import opened SinkCrashes
  import opened SinkRuns
  import opened RecordingWorker

  // ---- Archives ----

  /** Every DATA.V5L that appears on the card, at any moment of any run of the worker, is one whole
      recording of well-formed frames, all of it durable. The verifier finds it complete exactly when it
      has a frame and its footer still names the first; below 2^32 frames it always does, and no fault is
      reported but those the frames themselves show. */
  lemma ArchivesVerify(env: Environment, m: Metadata, disk: Disk, ticks: seq<Tick>, i: nat, path: string)
    returns (log: Log, drops: uint32)
    requires FoundDisk(disk) && forall t :: t in ticks ==> GoodTick(t)
    requires i < |Ticks(env, m, Idle(disk), ticks).world.storage.history|
    requires var files := Ticks(env, m, Idle(disk), ticks).world.storage.history[i].files;
             IsArchive(path) && path in files && path !in disk.files
    ensures AllAppendable(log.batches) && GoodLog(log)
    ensures var file := Ticks(env, m, Idle(disk), ticks).world.storage.history[i].files[path];
            && file == File(RecordingBytes(log.header, log.batches, drops), [])
            && Verify(InMemory(file.durable)).complete == (log.batches != [] && FirstRemembered(log.batches))
            && (|Flatten(log.batches)| < 0x1_0000_0000 ==>
                  var r := Verify(InMemory(file.durable));
                  && r.complete == (log.batches != [])
                  && r.recoverableFrames == |Flatten(log.batches)| && r.producerDrops == drops && r.header == log.header
                  && r.faultBits == FinalFaults(log.header.runIdHash, Flatten(log.batches), false, log.batches == []))
  {
    hide Safe, TickOnce, GoodTick, GoodLog, Verify, FinalFaults, RecordingBytes, AllAppendable, FileSound,
         FirstRemembered, Recovered;
    IdleDisciplined(disk);
    TicksDisciplined(env, m, Idle(disk), ticks);
    var r := Ticks(env, m, Idle(disk), ticks).world;
    ArchiveNamed(r, disk, i, path);
    log, drops := r.archives[path].log, r.archives[path].producerDrops;
    LogParts(log);
    FinishedRecordingVerified(InMemory(RecordingBytes(log.header, log.batches, drops)), log.header, log.batches, drops);
    if |Flatten(log.batches)| < 0x1_0000_0000 {
      FinishedRecordingComplete(InMemory(RecordingBytes(log.header, log.batches, drops)), log.header, log.batches,
                                drops);
    }
  }

  lemma LogParts(log: Log)
    requires GoodLog(log)
    ensures log.intact && AllGoodBatches(log.batches) && Standard(log.header)
  {
  }

  lemma ArchiveNamed(w: World, disk: Disk, i: nat, path: string)
    requires Safe(w) && [disk] <= w.storage.history && i < |w.storage.history|
    requires IsArchive(path) && path in w.storage.history[i].files && path !in disk.files
    ensures path in w.archives && path in w.storage.disk.files
    ensures w.storage.history[i].files[path] == w.storage.disk.files[path]
  {
    hide Placed, StreamsMatch, DirectoriesExist, OthersWritten;
    assert Kept(w.storage.history[i], w.storage.history[|w.storage.history| - 1]);
  }

  // ---- No session ends unnoticed ----

  ghost predicate StillRecording(worker: Worker, r: Worker) {
    && r.sessionOpen && r.world.sink.error == NoError
    && r.failures == worker.failures && r.world.archives == worker.world.archives
  }

  ghost predicate Committed(worker: Worker, r: Worker) {
    && !r.sessionOpen && r.world.sink.error == NoError
    && r.world.sink.committedPath in r.world.archives && r.world.sink.committedPath !in worker.world.archives
  }

  /** One cause is reported: the sink's first error, or an internal one if the sink had none. */
  ghost predicate Reported(worker: Worker, r: Worker) {
    && !r.sessionOpen && r.world.archives == worker.world.archives
    && r.failures == worker.failures + [if r.world.sink.error == NoError then Internal else r.world.sink.error]
  }

  lemma OpenAccounted(env: Environment, m: Metadata, worker: Worker, t: Tick)
    requires Disciplined(worker) && (worker.sessionOpen || t.opening)
    ensures WorkerUsable(worker)
    ensures var r := OpenStage(env, m, worker, t);
            if r.Returned? then Reported(worker, r.worker) else StillRecording(worker, r.worker)
  {
    hide Sound, Begin, GoodLog, MakeHeader;
    SoundStream(worker.world);
    if !worker.sessionOpen {
      BeginArchives(env, m, worker.world, t.cardInstalled, t.sessionSequence, t.startTimeMs);
      ErrorOfCall(env, m, worker.world, BeginCall(t.cardInstalled, t.sessionSequence, t.startTimeMs));
    }
  }

  lemma DrainAccounted(env: Environment, m: Metadata, worker: Worker, t: Tick)
    requires Disciplined(worker) && worker.sessionOpen
    ensures WorkerUsable(worker)
    ensures var r := DrainStage(env, worker, t);
            if r.Returned? then Reported(worker, r.worker) else StillRecording(worker, r.worker)
  {
    hide Sound, Write, GoodLog;
    SoundStream(worker.world);
    WriteOutcome(env, worker.world, Popped(t));
    ErrorOfCall(env, m, worker.world, WriteCall(Batch(Popped(t))));
  }

  lemma CloseAccounted(env: Environment, m: Metadata, worker: Worker, t: Tick)
    requires Disciplined(worker) && worker.sessionOpen
    ensures WorkerUsable(worker)
    ensures var r := CloseStage(env, worker, t);
            if r.Returned? then Reported(worker, r.worker)
            else if r.worker.sessionOpen then StillRecording(worker, r.worker) else Committed(worker, r.worker)
  {
    hide Safe, ArchivesWhole, FileSound, Finish, Begin, Write, Abort, GoodLog;
    SoundStream(worker.world);
    var drops := (t.dropsAtClose - worker.dropsAtOpen) % 0x1_0000_0000;
    FinishOutcome(env, worker.world, drops);
    ErrorOfCall(env, m, worker.world, FinishCall(drops));
  }

  /** A tick that finds a session open or asked for leaves it recording without a failure, or commits
      it, or commits nothing and reports exactly one cause. No session ends unnoticed. */
  lemma NoSilentLoss(env: Environment, m: Metadata, worker: Worker, t: Tick)
    requires Disciplined(worker) && GoodTick(t) && (worker.sessionOpen || t.opening)
    ensures WorkerUsable(worker)
    ensures var r := TickOnce(env, m, worker, t);
            StillRecording(worker, r) || Committed(worker, r) || Reported(worker, r)
  {
    hide Disciplined, OpenStage, DrainStage, CloseStage, GoodTick;
    OpenAccounted(env, m, worker, t);
    OpenDisciplined(env, m, worker, t);
    var s1 := OpenStage(env, m, worker, t);
    if s1.Continues? {
      DrainAccounted(env, m, s1.worker, t);
      DrainDisciplined(env, m, s1.worker, t);
      var s2 := DrainStage(env, s1.worker, t);
      if s2.Continues? {
        CloseAccounted(env, m, s2.worker, t);
      }
    }
  }

  // ---- What the card still holds of a session, ever after ----

  /** A session as it was at some moment: its two paths, its header, the batches acknowledged by then,
      all that it may ever be given, and what was durable. */
  datatype Session = Session(temporaryPath: string, committedPath: string, header: FileHeader,
                             batches: seq<seq<Frame>>, all: seq<seq<Frame>>, floor: seq<Byte>)

  ghost predicate Extends(session: Session, target: seq<seq<Frame>>) {
    session.batches <= target <= session.all && AllAppendable(target) && AllGoodBatches(target)
  }

  /** One of the session's files starts with what was durable and is a beginning of one recording that
      continues the session. */
  ghost predicate HeldAt(disk: Disk, session: Session, path: string, target: seq<seq<Frame>>, drops: uint32) {
    && (path == session.temporaryPath || path == session.committedPath)
    && Extends(session, target)
    && Between(disk, path, session.floor, RecordingBytes(session.header, target, drops))
  }

  ghost predicate Remains(disk: Disk, session: Session) {
    exists path, target, drops :: HeldAt(disk, session, path, target, drops)
  }

  ghost predicate RemainsSince(s: Storage, k: nat, session: Session) {
    && k < |s.history| && s.history[|s.history| - 1] == s.disk
    && forall i :: k <= i < |s.history| ==> Remains(s.history[i], session)
  }

  /** The session is being recorded, and may still be given the batches `rest`. */
  ghost predicate Live(w: World, session: Session, rest: seq<seq<Frame>>) {
    && Sound(w) && Streaming(w) && GoodLog(w.log)
    && w.log.header == session.header && session.batches <= w.log.batches
    && w.sink.temporaryPath == session.temporaryPath && w.sink.committedPath == session.committedPath
    && IsPrefix(session.floor, OpenFile(w).durable)
    && w.log.batches + rest <= session.all
  }

  /** The session's file is there and the sink no longer writes it. */
  ghost predicate Closed(w: World, session: Session) {
    Safe(w) && exists path, target, drops :: HeldAt(w.storage.disk, session, path, target, drops) && NotOpen(w, path)
  }

  lemma Moments(before: Storage, after: Storage, k: nat, session: Session, path: string, target: seq<seq<Frame>>,
                drops: uint32)
    requires RemainsSince(before, k, session) && before.history <= after.history
    requires path == session.temporaryPath || path == session.committedPath
    requires Extends(session, target)
    requires Always(after, |before.history| - 1, path, session.floor, RecordingBytes(session.header, target, drops))
    ensures RemainsSince(after, k, session)
    ensures HeldAt(after.disk, session, path, target, drops)
  {
    hide Between, Extends, RecordingBytes;
    forall i | k <= i < |after.history| ensures Remains(after.history[i], session) {
      if i < |before.history| {
        assert after.history[i] == before.history[i];
      } else {
        assert HeldAt(after.history[i], session, path, target, drops);
      }
    }
  }

  lemma LowerFloor(s: Storage, k: nat, path: string, floor: seq<Byte>, lower: seq<Byte>, ceiling: seq<Byte>)
    requires Always(s, k, path, floor, ceiling) && IsPrefix(lower, floor)
    ensures Always(s, k, path, lower, ceiling)
  {
    forall i | k <= i < |s.history| ensures Between(s.history[i], path, lower, ceiling) {
      PrefixTrans(lower, floor, s.history[i].files[path].durable);
    }
  }

  lemma AlwaysAtPresent(s: Storage, path: string, floor: seq<Byte>, ceiling: seq<Byte>)
    requires s.history != [] && s.history[|s.history| - 1] == s.disk && Between(s.disk, path, floor, ceiling)
    ensures Always(s, |s.history| - 1, path, floor, ceiling)
  {
  }

  lemma HistoryEndsNow(w: World)
    requires Safe(w)
    ensures w.storage.history != [] && w.storage.history[|w.storage.history| - 1] == w.storage.disk
  {
  }

  /** Whatever call follows, a closed session stays as it is. */
  lemma ClosedCall(env: Environment, m: Metadata, w: World, call: Call, k: nat, session: Session)
    requires Closed(w, session) && RemainsSince(w.storage, k, session) && StreamOpen(w.storage, w.sink.file)
    ensures var r := Do(env, m, w, call).0; Closed(r, session) && RemainsSince(r.storage, k, session)
  {
    hide Safe, Between, AllAppendable, AllGoodBatches, RecordingBytes, Do, NotOpen, RemainsSince;
    var path, target, drops :| HeldAt(w.storage.disk, session, path, target, drops) && NotOpen(w, path);
    HistoryEndsNow(w);
    var now := |w.storage.history| - 1;
    var ceiling := RecordingBytes(session.header, target, drops);
    AlwaysAtPresent(w.storage, path, session.floor, ceiling);
    CallKeeps(env, m, w, call);
    CallLeavesAlone(env, m, w, call, now, path, session.floor, ceiling);
    Moments(w.storage, Do(env, m, w, call).0.storage, k, session, path, target, drops);
  }

  lemma LiveParts(w: World, session: Session, rest: seq<seq<Frame>>)
    requires Live(w, session, rest)
    ensures Safe(w) && StreamOpen(w.storage, w.sink.file) && AllAppendable(w.log.batches)
    ensures Extends(session, w.log.batches)
  {
    hide Safe, FileSound, AllAppendable, AllGoodBatches, ArchivesWhole;
  }

  /** After a call that fails, the abort that follows closes the session. */
  lemma AbortCloses(env: Environment, w: World, k: nat, now: nat, session: Session, target: seq<seq<Frame>>,
                    drops: uint32)
    requires Safe(w) && StreamOpen(w.storage, w.sink.file) && Extends(session, target)
    requires Always(w.storage, now, session.temporaryPath, session.floor, RecordingBytes(session.header, target, drops))
    ensures Safe(Abort(env, w))
    ensures Always(Abort(env, w).storage, now, session.temporaryPath, session.floor,
                   RecordingBytes(session.header, target, drops))
  {
    hide Safe, Always, AllAppendable, AllGoodBatches, RecordingBytes, Abort;
    AbortKeeps(env, w);
    AbortAlways(env, w, now, session.temporaryPath, session.floor, RecordingBytes(session.header, target, drops));
  }

  lemma ExtendsSnoc(session: Session, batches: seq<seq<Frame>>, frames: seq<Frame>)
    requires Extends(session, batches) && Appendable(frames) && AllGood(frames)
    requires batches + [frames] <= session.all
    ensures Extends(session, batches + [frames])
  {
    hide AllAppendable, AllGoodBatches, AllGood;
    AppendableSnoc(batches, frames);
    BatchesSnocGood(batches, frames);
  }

  /** A closed session from an open one: the stream is gone and the file holds. */
  lemma NowClosed(w: World, session: Session, path: string, target: seq<seq<Frame>>, drops: uint32)
    requires Safe(w) && w.sink.file.NoFile? && HeldAt(w.storage.disk, session, path, target, drops)
    ensures Closed(w, session)
  {
    hide Safe, HeldAt;
    assert NotOpen(w, path);
  }

  /** What is left of a failed call on an open session once it has been aborted. */
  lemma FailedCall(env: Environment, m: Metadata, w: World, call: Call, k: nat, session: Session,
                   target: seq<seq<Frame>>, drops: uint32, rest: seq<seq<Frame>>)
    requires Live(w, session, rest) && RemainsSince(w.storage, k, session) && Extends(session, target)
    requires Target(w, call) == target && (call.FinishCall? ==> drops == call.producerDrops && !Finish(env, w, drops).1)
    ensures var r := Do(env, m, w, call).0;
            Closed(Abort(env, r), session) && RemainsSince(Abort(env, r).storage, k, session)
  {
    hide *;
    LiveParts(w, session, rest);
    var r := Do(env, m, w, call).0;
    SteadyCall(env, m, w, call, k, session, target, drops, rest);
    CallKeeps(env, m, w, call);
    var now := |w.storage.history| - 1;
    AbortCloses(env, r, k, now, session, target, drops);
    Moments(w.storage, Abort(env, r).storage, k, session, session.temporaryPath, target, drops);
    NowClosed(Abort(env, r), session, session.temporaryPath, target, drops);
  }

  /** Every moment of a call on an open session, short of a commit. */
  lemma SteadyCall(env: Environment, m: Metadata, w: World, call: Call, k: nat, session: Session,
                   target: seq<seq<Frame>>, drops: uint32, rest: seq<seq<Frame>>)
    requires Live(w, session, rest) && RemainsSince(w.storage, k, session) && Extends(session, target)
    requires Target(w, call) == target && (call.FinishCall? ==> drops == call.producerDrops && !Finish(env, w, drops).1)
    ensures |w.storage.history| > 0
    ensures Always(Do(env, m, w, call).0.storage, |w.storage.history| - 1, session.temporaryPath, session.floor,
                   RecordingBytes(session.header, target, drops))
  {
    hide Sound, Always, AllAppendable, AllGoodBatches, RecordingBytes, Do, Target, RemainsSince, Finish;
    LiveParts(w, session, rest);
    HistoryEndsNow(w);
    EveryMomentOfCall(env, m, w, call, drops);
    LowerFloor(Do(env, m, w, call).0.storage, |w.storage.history| - 1, session.temporaryPath, OpenFile(w).durable,
               session.floor,
               RecordingBytes(session.header, target, drops));
  }

  lemma FloorOfOpenFile(w: World, now: nat, path: string, floor: seq<Byte>, ceiling: seq<Byte>)
    requires Safe(w) && w.sink.file.Stream? && StreamOpen(w.storage, w.sink.file) && path == w.sink.temporaryPath
    requires Always(w.storage, now, path, floor, ceiling)
    ensures IsPrefix(floor, OpenFile(w).durable)
  {
    hide Core, Contents;
    StreamAtPath(w);
  }

  lemma WrittenCall(env: Environment, m: Metadata, w: World, frames: seq<Frame>, k: nat, session: Session,
                    rest: seq<seq<Frame>>)
    requires Live(w, session, [frames] + rest) && RemainsSince(w.storage, k, session)
    requires 0 < |frames| <= BATCH_SIZE && AllGood(frames)
    ensures var (r, ok) := Write(env, w, Batch(frames));
            if ok then Live(r, session, rest) && RemainsSince(r.storage, k, session)
            else Closed(Abort(env, r), session) && RemainsSince(Abort(env, r).storage, k, session)
  {
    hide Safe, ArchivesWhole, FileSound, AllAppendable, AllGood, AllGoodBatches, RecordingBytes, Write, Abort,
         RemainsSince, Closed, Always;
    LiveParts(w, session, [frames] + rest);
    var call := WriteCall(Batch(frames));
    var target := w.log.batches + [frames];
    assert w.log.batches + ([frames] + rest) == target + rest;
    ExtendsSnoc(session, w.log.batches, frames);
    var (r, ok) := Write(env, w, Batch(frames));
    if ok {
      SteadyCall(env, m, w, call, k, session, target, 0, [frames] + rest);
      Moments(w.storage, r.storage, k, session, session.temporaryPath, target, 0);
      WriteSound(env, w, Batch(frames));
      WriteOutcome(env, w, frames);
      WrittenStreams(env, w, frames);
      FloorOfOpenFile(r, |w.storage.history| - 1, session.temporaryPath, session.floor,
                      RecordingBytes(session.header, target, 0));
    } else {
      FailedCall(env, m, w, call, k, session, target, 0, [frames] + rest);
    }
  }

  lemma WrittenStreams(env: Environment, w: World, frames: seq<Frame>)
    requires StreamOpen(w.storage, w.sink.file) && w.log.intact && Write(env, w, Batch(frames)).1
    ensures var r := Write(env, w, Batch(frames)).0;
            Streaming(r) && r.sink.temporaryPath == w.sink.temporaryPath && r.sink.committedPath == w.sink.committedPath
  {
    hide EmitBlock, Fflush;
  }

  // ---- A finish that commits ----

  /** The storage one moment ago. */
  ghost function Before(s: Storage): Storage
    requires |s.history| > 1
  {
    s.(history := s.history[..|s.history| - 1], disk := s.history[|s.history| - 2])
  }

  /** Every moment of a finish that commits but the last; at the last the file has its final name. */
  lemma CommittingMoments(env: Environment, w: World, drops: uint32, k: nat, path: string, floor: seq<Byte>,
                          ceiling: seq<Byte>)
    requires Safe(w) && w.sink.file.Stream? && StreamOpen(w.storage, w.sink.file) && path == w.sink.temporaryPath
    requires Always(w.storage, k, path, floor, ceiling) && RoomForFooter(w, drops, ceiling)
    requires Finish(env, w, drops).1
    ensures var s := Finish(env, w, drops).0.storage;
            && |s.history| > 1 && s.history[|s.history| - 1] == s.disk
            && Always(Before(s), k, path, floor, ceiling)
            && w.storage.history <= Before(s).history
  {
    hide Core, Always, EmitFooter, Fflush, Fclose, RoomForFooter;
    EmitFooterAlways(env, w, drops, k, path, floor, ceiling);
    EmitFooterKeeps(env, w.storage, w.sink, w.archives, w.sink.encoder, drops);
    var emitted := EmitFooter(env, w.storage, w.sink.file, w.sink.encoder, drops);
    FflushAlways(env, emitted.storage, w.sink.file.id, k, path, floor, ceiling);
    FflushKeeps(env, emitted.storage, w.sink, w.archives);
    var flushed := Fflush(env, emitted.storage, w.sink.file.id).0;
    CoreStream(flushed, w.sink, w.archives);
    FcloseAlways(env, flushed, w.sink.file.id, k, path, floor, ceiling);
    var closed := Fclose(env, flushed, w.sink.file.id).0;
    ThreeSteps(env, emitted.storage, w.sink.file.id);
    OneStepBack(closed, Rename(env, closed, w.sink.temporaryPath, w.sink.committedPath).0.disk, k, path, floor,
                ceiling);
  }

  lemma ThreeSteps(env: Environment, s: Storage, handle: nat)
    requires handle in s.streams && s.streams[handle] in s.disk.files
    ensures var flushed := Fflush(env, s, handle).0;
            && handle in flushed.streams && flushed.streams[handle] in flushed.disk.files
            && s.history <= flushed.history <= Fclose(env, flushed, handle).0.history
  {
    hide Transfer;
  }

  lemma OneStepBack(s: Storage, disk: Disk, k: nat, path: string, floor: seq<Byte>, ceiling: seq<Byte>)
    requires Always(s, k, path, floor, ceiling)
    ensures |Next(s, disk).history| > 1
    ensures Before(Next(s, disk)).history == s.history
    ensures Always(Before(Next(s, disk)), k, path, floor, ceiling)
  {
    hide Between;
    assert Next(s, disk).history[..|s.history|] == s.history;
  }

  lemma CommittedCall(env: Environment, w: World, drops: uint32, k: nat, session: Session, rest: seq<seq<Frame>>)
    requires Live(w, session, rest) && RemainsSince(w.storage, k, session) && Finish(env, w, drops).1
    ensures var r := Finish(env, w, drops).0; Closed(r, session) && RemainsSince(r.storage, k, session)
  {
    hide Safe, ArchivesWhole, FileSound, AllAppendable, AllGoodBatches, RecordingBytes, Finish, Always, RoomForFooter,
         Extends, RemainsSince, HeldAt, Between, Contents;
    LiveParts(w, session, rest);
    var r := Finish(env, w, drops).0;
    var now := |w.storage.history| - 1;
    var target := w.log.batches;
    var ceiling := RecordingBytes(session.header, target, drops);
    HistoryEndsNow(w);
    RoomInTarget(w, FinishCall(drops), drops);
    StreamAtPath(w);
    StartAlways(w, OpenFile(w).durable, ceiling);
    LowerFloor(w.storage, now, session.temporaryPath, OpenFile(w).durable, session.floor, ceiling);
    CommittingMoments(env, w, drops, now, session.temporaryPath, session.floor, ceiling);
    Moments(w.storage, Before(r.storage), k, session, session.temporaryPath, target, drops);
    FinishedWhole(env, w, drops);
    FinishKeeps(env, w, drops);
    FloorOfWhole(w, session, drops);
    WholeFile(r.storage.disk, session, target, drops);
    FinishReleases(env, w, drops);
    OneMomentMore(r.storage, k, session);
    NowClosed(r, session, session.committedPath, target, drops);
  }

  lemma FloorOfWhole(w: World, session: Session, drops: uint32)
    requires Safe(w) && w.sink.file.Stream? && StreamOpen(w.storage, w.sink.file) && AllAppendable(w.log.batches)
    requires IsPrefix(session.floor, OpenFile(w).durable)
    requires IsPrefix(Contents(OpenFile(w)), RecordingBytes(session.header, w.log.batches, drops))
    ensures IsPrefix(session.floor, RecordingBytes(session.header, w.log.batches, drops))
  {
    hide Core, RecordingBytes, AllAppendable;
    PrefixOfSum(OpenFile(w).durable, OpenFile(w).pending);
    PrefixTrans(session.floor, OpenFile(w).durable, Contents(OpenFile(w)));
    PrefixTrans(session.floor, Contents(OpenFile(w)), RecordingBytes(session.header, w.log.batches, drops));
  }

  lemma WholeFile(disk: Disk, session: Session, target: seq<seq<Frame>>, drops: uint32)
    requires Extends(session, target) && session.committedPath in disk.files
    requires disk.files[session.committedPath] == File(RecordingBytes(session.header, target, drops), [])
    requires IsPrefix(session.floor, RecordingBytes(session.header, target, drops))
    ensures HeldAt(disk, session, session.committedPath, target, drops)
  {
    hide RecordingBytes, AllAppendable, AllGoodBatches;
    var bytes := RecordingBytes(session.header, target, drops);
    assert bytes + [] == bytes;
  }

  lemma OneMomentMore(s: Storage, k: nat, session: Session)
    requires |s.history| > 1 && s.history[|s.history| - 1] == s.disk
    requires RemainsSince(Before(s), k, session) && Remains(s.disk, session)
    ensures RemainsSince(s, k, session)
  {
    hide Remains;
  }

  // ---- Ticks ----

  ghost predicate Tracked(worker: Worker, session: Session, k: nat, rest: seq<seq<Frame>>) {
    && Disciplined(worker) && RemainsSince(worker.world.storage, k, session)
    && (Closed(worker.world, session) || (worker.sessionOpen && Live(worker.world, session, rest)))
  }

  lemma OpenTracked(env: Environment, m: Metadata, worker: Worker, t: Tick, session: Session, k: nat,
                    rest: seq<seq<Frame>>)
    requires Tracked(worker, session, k, rest)
    ensures WorkerUsable(worker) && Tracked(OpenStage(env, m, worker, t).worker, session, k, rest)
  {
    hide Disciplined, Closed, Live, RemainsSince, Begin, Abort;
    DisciplinedUsable(worker);
    OpenDisciplined(env, m, worker, t);
    if t.opening && !worker.sessionOpen {
      var begin := BeginCall(t.cardInstalled, t.sessionSequence, t.startTimeMs);
      ClosedCall(env, m, worker.world, begin, k, session);
      ClosedCall(env, m, Do(env, m, worker.world, begin).0, AbortCall, k, session);
    }
  }

  lemma DrainTracked(env: Environment, m: Metadata, worker: Worker, t: Tick, session: Session, k: nat,
                     rest: seq<seq<Frame>>)
    requires Tracked(worker, session, k, Given(t) + rest) && GoodTick(t)
    ensures WorkerUsable(worker) && Tracked(DrainStage(env, worker, t).worker, session, k, rest)
  {
    hide Disciplined, Closed, Live, RemainsSince, Write, Abort, AllGood;
    DisciplinedUsable(worker);
    DrainDisciplined(env, m, worker, t);
    PoppedGood(t);
    var w := worker.world;
    var write := WriteCall(Batch(Popped(t)));
    if Closed(w, session) {
      ClosedCall(env, m, w, write, k, session);
      ClosedCall(env, m, Do(env, m, w, write).0, AbortCall, k, session);
    } else if t.draining && Popped(t) != [] {
      WrittenCall(env, m, w, Popped(t), k, session, rest);
    } else {
      assert Given(t) + rest == rest;
    }
  }

  lemma CloseTracked(env: Environment, m: Metadata, worker: Worker, t: Tick, session: Session, k: nat,
                     rest: seq<seq<Frame>>)
    requires Tracked(worker, session, k, rest)
    ensures WorkerUsable(worker) && Tracked(CloseStage(env, worker, t).worker, session, k, rest)
  {
    hide Disciplined, Closed, Live, RemainsSince, Finish, Abort;
    DisciplinedUsable(worker);
    CloseDisciplined(env, worker, t);
    var w := worker.world;
    var drops := (t.dropsAtClose - worker.dropsAtOpen) % 0x1_0000_0000;
    var finish := FinishCall(drops);
    if Closed(w, session) {
      ClosedCall(env, m, w, finish, k, session);
      ClosedCall(env, m, Do(env, m, w, finish).0, AbortCall, k, session);
    } else if t.closingAndEmpty {
      if Finish(env, w, drops).1 {
        CommittedCall(env, w, drops, k, session, rest);
      } else {
        LiveExtends(w, session, rest);
        FailedCall(env, m, w, finish, k, session, w.log.batches, drops, rest);
      }
    }
  }

  lemma LiveExtends(w: World, session: Session, rest: seq<seq<Frame>>)
    requires Live(w, session, rest)
    ensures Extends(session, w.log.batches)
  {
    LiveParts(w, session, rest);
  }

  lemma TickTracked(env: Environment, m: Metadata, worker: Worker, t: Tick, session: Session, k: nat,
                    rest: seq<seq<Frame>>)
    requires Tracked(worker, session, k, Given(t) + rest) && GoodTick(t)
    ensures WorkerUsable(worker) && Tracked(TickOnce(env, m, worker, t), session, k, rest)
  {
    hide Disciplined, Closed, Live, RemainsSince, OpenStage, DrainStage, CloseStage, GoodTick, Given;
    DisciplinedUsable(worker);
    OpenTracked(env, m, worker, t, session, k, Given(t) + rest);
    var s1 := OpenStage(env, m, worker, t);
    if s1.Continues? {
      DrainTracked(env, m, s1.worker, t, session, k, rest);
      var s2 := DrainStage(env, s1.worker, t);
      if s2.Continues? {
        CloseTracked(env, m, s2.worker, t, session, k, rest);
        ReportTracked(CloseStage(env, s2.worker, t).worker, Internal, session, k, rest);
      }
    } else {
      ReturnedShut(env, m, worker, t);
    }
  }

  lemma ReturnedShut(env: Environment, m: Metadata, worker: Worker, t: Tick)
    requires WorkerUsable(worker)
    ensures OpenStage(env, m, worker, t).Returned? ==> !OpenStage(env, m, worker, t).worker.sessionOpen
  {
    hide Begin, Abort;
  }

  lemma ReportTracked(worker: Worker, cause: SinkError, session: Session, k: nat, rest: seq<seq<Frame>>)
    requires Tracked(worker, session, k, rest)
    ensures Tracked(ReportFailure(worker, cause), session, k, rest)
  {
    hide Sound, GoodArchives, GoodLog, Closed, Live, RemainsSince;
  }

  /** What a tick gives an open session. */
  function Given(t: Tick): seq<seq<Frame>> {
    if t.draining && Popped(t) != [] then [Popped(t)] else []
  }

  /** What the ticks give the session that is open when they begin, until it ends. */
  ghost function Offered(env: Environment, m: Metadata, worker: Worker, ticks: seq<Tick>): seq<seq<Frame>>
    requires WorkerUsable(worker)
    decreases |ticks|
  {
    if ticks == [] || !worker.sessionOpen then []
    else Given(ticks[0]) + Offered(env, m, TickOnce(env, m, worker, ticks[0]), ticks[1..])
  }

  lemma {:induction false} TicksTracked(env: Environment, m: Metadata, worker: Worker, ticks: seq<Tick>,
                                        session: Session, k: nat)
    requires WorkerUsable(worker) && Tracked(worker, session, k, Offered(env, m, worker, ticks))
    requires forall t :: t in ticks ==> GoodTick(t)
    ensures Tracked(Ticks(env, m, worker, ticks), session, k, [])
    decreases |ticks|
  {
    hide Disciplined, Closed, Live, RemainsSince, TickOnce, GoodTick, Given;
    if ticks != [] {
      var next := TickOnce(env, m, worker, ticks[0]);
      TickTracked(env, m, worker, ticks[0], session, k, Offered(env, m, next, ticks[1..]));
      TicksTracked(env, m, next, ticks[1..], session, k);
    }
  }

  // ---- What a loss of power can take ----

  /** The batches a loss of power cannot take any more: all but the last 49. */
  function Secured(batches: seq<seq<Frame>>): seq<seq<Frame>> {
    if |batches| <= 49 then [] else batches[..|batches| - 49]
  }

  ghost function SessionOf(worker: Worker, rest: seq<seq<Frame>>): Session
    requires AllAppendable(worker.world.log.batches)
  {
    var sink, log := worker.world.sink, worker.world.log;
    TakeAppendable(log.batches, |Secured(log.batches)|);
    SecuredTake(log.batches);
    Session(sink.temporaryPath, sink.committedPath, log.header, log.batches, log.batches + rest,
            Emitted(log.header, Secured(log.batches)))
  }

  lemma SecuredTake(batches: seq<seq<Frame>>)
    ensures |Secured(batches)| <= |batches| && Secured(batches) == batches[..|Secured(batches)|]
  {
  }

  lemma {:induction false} BlocksTake(blockSequence: uint32, batches: seq<seq<Frame>>, j: nat)
    requires j <= |batches| && AllAppendable(batches)
    ensures AllAppendable(batches[..j])
    ensures IsPrefix(BlocksBytes(blockSequence, batches[..j]), BlocksBytes(blockSequence, batches))
    decreases j
  {
    hide BlockBytes, Appendable;
    if j == 0 {
      assert batches[..0] == [];
    } else {
      BlocksTake(Add32(blockSequence, 1), batches[1..], j - 1);
      assert batches[..j][0] == batches[0] && batches[..j][1..] == batches[1..][..j - 1];
    }
  }

  lemma EmittedTake(header: FileHeader, batches: seq<seq<Frame>>, j: nat)
    requires j <= |batches| && AllAppendable(batches)
    ensures AllAppendable(batches[..j])
    ensures IsPrefix(Emitted(header, batches[..j]), Emitted(header, batches))
  {
    hide HeaderBytes, BlocksBytes, AllAppendable;
    BlocksTake(1, batches, j);
    var a, b := BlocksBytes(1, batches[..j]), BlocksBytes(1, batches);
    assert (HeaderBytes(header) + b)[..HEADER_SIZE + |a|] == HeaderBytes(header) + a;
  }

  /** While fewer than 50 blocks wait for a flush, all but the last 49 are durable. */
  lemma SecuredDurable(w: World)
    requires Sound(w) && Streaming(w) && w.log.unflushed < PERIODIC_FLUSH_BLOCKS
    ensures AllAppendable(w.log.batches) && AllAppendable(Secured(w.log.batches))
    ensures IsPrefix(Emitted(w.log.header, Secured(w.log.batches)), OpenFile(w).durable)
  {
    hide Safe, ArchivesWhole, Emitted, AllAppendable, AfterAppends, Contents;
    var batches := w.log.batches;
    assert FileSound(OpenFile(w), w.sink, w.log);
    var flushed := batches[..|batches| - w.log.unflushed];
    var j := |Secured(batches)|;
    SecuredTake(batches);
    assert DurableBut(OpenFile(w), w.log.header, batches, w.log.unflushed);
    assert flushed[..j] == Secured(batches);
    EmittedTake(w.log.header, flushed, j);
    PrefixTrans(Emitted(w.log.header, Secured(batches)), Emitted(w.log.header, flushed), OpenFile(w).durable);
  }

  lemma StartTracked(worker: Worker, rest: seq<seq<Frame>>)
    requires Disciplined(worker) && worker.sessionOpen
    ensures AllAppendable(worker.world.log.batches) && |worker.world.storage.history| > 0
    ensures Tracked(worker, SessionOf(worker, rest), |worker.world.storage.history| - 1, rest)
  {
    hide Safe, ArchivesWhole, FileSound, AllAppendable, AllGoodBatches, Emitted, RecordingBytes, Contents, Secured;
    var w := worker.world;
    HistoryEndsNow(w);
    SecuredDurable(w);
    var session := SessionOf(worker, rest);
    RoomInTarget(w, AbortCall, 0);
    StreamAtPath(w);
    LiveParts(w, session, rest);
    assert HeldAt(w.storage.disk, session, session.temporaryPath, w.log.batches, 0);
  }

  lemma {:induction false} AtLeastWhole(batches: seq<seq<Frame>>, j: nat, n: nat)
    requires j <= |batches| && n >= BlocksLength(batches[..j])
    ensures WholeBlocks(batches, n) >= j
    decreases j
  {
    if j > 0 {
      assert batches[..j][0] == batches[0] && batches[..j][1..] == batches[1..][..j - 1];
      AtLeastWhole(batches[1..], j - 1, n - BlockLength(batches[0]));
    }
  }

  /** A file image holds the header and the first `k` batches of `target` as whole blocks, and the
      verifier counts exactly these. */
  ghost predicate HoldsBlocks(image: seq<Byte>, target: seq<seq<Frame>>, k: nat)
    requires k <= |target|
  {
    var r := Verify(InMemory(image)); var blocks := target[..k]; var end := HEADER_SIZE + BlocksLength(blocks);
    && AllAppendable(blocks) && end <= r.validBytes <= |image| && image[HEADER_SIZE..end] == BlocksBytes(1, blocks)
    && r.validBlocks == Add32(0, k) && r.recoverableFrames == Add32(0, |Flatten(blocks)|)
  }

  /** The verifier counts all blocks of `kept` and maybe more, all of them of `target`; and unless these
      are 2^32 frames or more, each frame it counts is handed out as `target` has it, and no other is. */
  ghost predicate ImageGivesBack(image: seq<Byte>, header: FileHeader, kept: seq<seq<Frame>>, target: seq<seq<Frame>>) {
    var r := Verify(InMemory(image));
    && r.header == header
    && (exists k :: |kept| <= k <= |target| && HoldsBlocks(image, target, k))
    && (|Flatten(target)| < 0x1_0000_0000 ==>
          && |Flatten(kept)| <= r.recoverableFrames <= |Flatten(target)|
          && forall index: uint32 ::
               CopyFrame(image, index) == if index < r.recoverableFrames then Some(Flatten(target)[index]) else None)
  }

  /** ... whatever part of the file's buffer survives. */
  ghost predicate GivesBack(file: File, header: FileHeader, kept: seq<seq<Frame>>, target: seq<seq<Frame>>) {
    forall image :: CrashImage(file, image) ==> ImageGivesBack(image, header, kept, target)
  }

  /** A file image between a recording's first blocks and the whole of it gives back those blocks. */
  lemma ImageRecovered(image: seq<Byte>, header: FileHeader, kept: seq<seq<Frame>>, target: seq<seq<Frame>>,
                       drops: uint32)
    requires Standard(header) && kept <= target && AllAppendable(target) && AllGoodBatches(target)
    requires AllAppendable(kept)
    requires IsPrefix(Emitted(header, kept), image) && IsPrefix(image, RecordingBytes(header, target, drops))
    ensures ImageGivesBack(image, header, kept, target)
  {
    hide Verify, CopyFrame, Standard, AllAppendable, AllGoodBatches, RecordingBytes, BlocksBytes, HeaderBytes,
         BlocksLength, WholeBlocks;
    BlocksBytesLength(1, kept);
    assert target[..|kept|] == kept;
    AtLeastWhole(target, |kept|, |image| - HEADER_SIZE);
    var k := ReportOnPrefix(image, header, target, drops);
    TakeAppendable(target, k);
    assert HoldsBlocks(image, target, k);
    if |Flatten(target)| < 0x1_0000_0000 {
      FlattenTake(target, k);
      FlattenTake(target[..k], |kept|);
      assert target[..k][..|kept|] == kept;
      Add32Small(|Flatten(target[..k])|);
      forall index: uint32
        ensures CopyFrame(image, index)
             == if index < Verify(InMemory(image)).recoverableFrames then Some(Flatten(target)[index]) else None
      {
        FramesComeBack(image, header, target, drops, index);
      }
    }
  }

  lemma ImageOfFile(disk: Disk, session: Session, path: string, target: seq<seq<Frame>>, drops: uint32,
                    image: seq<Byte>)
    requires HeldAt(disk, session, path, target, drops) && path in disk.files && CrashImage(disk.files[path], image)
    ensures IsPrefix(session.floor, image) && IsPrefix(image, RecordingBytes(session.header, target, drops))
  {
    hide RecordingBytes, AllAppendable, AllGoodBatches;
    HeldFile(disk, session, path, target, drops);
    var file := disk.files[path];
    var n :| 0 <= n <= |file.pending| && image == file.durable + file.pending[..n];
    assert image == Contents(file)[..|file.durable| + n];
    PrefixTrans(image, Contents(file), RecordingBytes(session.header, target, drops));
    assert session.floor == image[..|session.floor|];
  }

  lemma HeldFile(disk: Disk, session: Session, path: string, target: seq<seq<Frame>>, drops: uint32)
    requires HeldAt(disk, session, path, target, drops)
    ensures path in disk.files && Extends(session, target)
    ensures path == session.temporaryPath || path == session.committedPath
  {
  }

  lemma SinceDisciplined(env: Environment, m: Metadata, worker: Worker, ticks: seq<Tick>, i: nat)
    returns (path: string, target: seq<seq<Frame>>)
    requires WorkerUsable(worker) && Disciplined(worker) && worker.sessionOpen && forall t :: t in ticks ==> GoodTick(t)
    requires |worker.world.storage.history| - 1 <= i < |Ticks(env, m, worker, ticks).world.storage.history|
    ensures path == worker.world.sink.temporaryPath || path == worker.world.sink.committedPath
    ensures worker.world.log.batches <= target <= worker.world.log.batches + Offered(env, m, worker, ticks)
    ensures var files := Ticks(env, m, worker, ticks).world.storage.history[i].files;
            path in files && GivesBack(files[path], worker.world.log.header, Secured(worker.world.log.batches), target)
  {
    hide Disciplined, Closed, Live, GoodTick, Ticks, HeldAt, CrashImage, RecordingBytes, AllAppendable, AllGoodBatches,
         ImageGivesBack, Emitted, Standard, Secured, Offered;
    var log := worker.world.log;
    var kept, rest := Secured(log.batches), Offered(env, m, worker, ticks);
    StartTracked(worker, rest);
    var session := SessionOf(worker, rest);
    TicksTracked(env, m, worker, ticks, session, |worker.world.storage.history| - 1);
    var disk := Ticks(env, m, worker, ticks).world.storage.history[i];
    assert Remains(disk, session);
    var p, t, drops :| HeldAt(disk, session, p, t, drops);
    path, target := p, t;
    HeldFile(disk, session, path, target, drops);
    SessionParts(worker);
    SecuredTake(log.batches);
    forall image | CrashImage(disk.files[path], image) ensures ImageGivesBack(image, log.header, kept, target) {
      ImageOfFile(disk, session, path, target, drops, image);
      ImageRecovered(image, session.header, kept, target, drops);
    }
  }

  /** On any card, in any run of the worker: if a session is open after the ticks `before`, power may go
      at any later moment, during a call, between two calls, or long after the session ended, however it
      ended and however many ticks ago. Then one of the session's two files is on the card, and from it
      the verifier recovers every block acknowledged by then but the last 49, followed by nothing but
      what the session was given before it ended. If those are fewer than 2^32 frames, each comes back
      exactly as it was captured; beyond that the verifier's 32-bit counts wrap around. */
  lemma AcknowledgedFramesSurvive(env: Environment, m: Metadata, disk: Disk, before: seq<Tick>, after: seq<Tick>,
                                  i: nat)
    returns (path: string, target: seq<seq<Frame>>)
    requires FoundDisk(disk) && (forall t :: t in before ==> GoodTick(t)) && (forall t :: t in after ==> GoodTick(t))
    requires Ticks(env, m, Idle(disk), before).sessionOpen
    requires var worker := Ticks(env, m, Idle(disk), before);
             |worker.world.storage.history| - 1 <= i < |Ticks(env, m, worker, after).world.storage.history|
    ensures var worker := Ticks(env, m, Idle(disk), before); var log := worker.world.log;
            && (path == worker.world.sink.temporaryPath || path == worker.world.sink.committedPath)
            && log.batches <= target <= log.batches + Offered(env, m, worker, after)
            && var files := Ticks(env, m, worker, after).world.storage.history[i].files;
               path in files && GivesBack(files[path], log.header, Secured(log.batches), target)
  {
    hide Disciplined, TickOnce, GoodTick, FoundDisk, Ticks, GivesBack, Offered;
    IdleDisciplined(disk);
    TicksDisciplined(env, m, Idle(disk), before);
    path, target := SinceDisciplined(env, m, Ticks(env, m, Idle(disk), before), after, i);
  }

  lemma SessionParts(worker: Worker)
    requires Disciplined(worker) && worker.sessionOpen
    ensures Standard(worker.world.log.header) && AllAppendable(worker.world.log.batches)
    ensures AllAppendable(Secured(worker.world.log.batches))
  {
    hide Safe, ArchivesWhole, FileSound, Standard;
    TakeAppendable(worker.world.log.batches, |Secured(worker.world.log.batches)|);
    SecuredTake(worker.world.log.batches);
  }
}
