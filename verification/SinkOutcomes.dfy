/** When each call of the sink succeeds, and which error it leaves, said of the C library's calls alone:
    the n-th call works or does not, and the first that does not decides. */
module SinkOutcomes {
  import opened Bytes
  import opened RecordingFile
  import opened RecordingEncoder
  import opened Card
  import opened SessionNames
  import opened SinkProtocol
  import opened SinkSafety
  import opened SinkContents
  import opened SinkRuns

  /** The calls from the i-th up to the j-th work. */
  ghost predicate Work(env: Environment, i: nat, j: nat) {
    forall n :: i <= n < j ==> env(n).succeeds
  }

  /** The n-th call, an fwrite, takes all that many bytes; it may do so even when it reports a failure. */
  predicate Takes(env: Environment, n: nat, size: nat) {
    env(n).succeeds || env(n).amount >= size
  }

  // ---- begin ----

  /** The names before the k-th are taken, and the k-th is not, if it is among those that are tried. */
  ghost predicate FirstFree(disk: Disk, root: string, storageSequence: uint32, startTimeMs: uint32, attempts: nat,
                            k: nat) {
    && k <= attempts
    && (forall j :: 0 <= j < k ==> Taken(disk, Candidate(root, storageSequence, startTimeMs, j)))
    && (k < attempts ==> !Taken(disk, Candidate(root, storageSequence, startTimeMs, k)))
  }

  /** The search creates the first free name exactly if there is one and every call up to its own works. */
  lemma {:induction false} AllocateOutcome(env: Environment, s: Storage, root: string, storageSequence: uint32,
                                           startTimeMs: uint32, attempts: nat, directory: string) returns (k: nat)
    ensures FirstFree(s.disk, root, storageSequence, startTimeMs, attempts, k)
    ensures var a := Allocate(env, s, root, storageSequence, startTimeMs, attempts, directory);
            && (a.created <==> k < attempts && Work(env, s.calls, s.calls + k + 1))
            && (a.created ==> a.storage.calls == s.calls + k + 1)
            && (k == attempts ==> !a.created)
    decreases attempts
  {
    hide DirectoryPath;
    k := 0;
    assert Add32(storageSequence, 0) == storageSequence;
    if attempts > 0 {
      var path := DirectoryPath(root, storageSequence, startTimeMs);
      assert path == Candidate(root, storageSequence, startTimeMs, 0);
      if Taken(s.disk, path) {
        var next := Add32(storageSequence, 1);
        var after := Card.Next(s, s.disk);
        var j := AllocateOutcome(env, after, root, next, startTimeMs, attempts - 1, path);
        k := j + 1;
        forall i | 0 < i <= k
          ensures Candidate(root, next, startTimeMs, i - 1) == Candidate(root, storageSequence, startTimeMs, i)
        {
          Add32Twice(storageSequence, 1, i - 1);
        }
        forall i | 0 <= i < k ensures Taken(s.disk, Candidate(root, storageSequence, startTimeMs, i)) {
          if i > 0 {
            assert Taken(s.disk, Candidate(root, next, startTimeMs, i - 1));
          }
        }
        assert Mkdir(env, s, path) == if env(s.calls).succeeds then (after, AlreadyExists) else (after, Failed);
      }
    }
  }

  /** The stream, the header and the flush are the next three calls. */
  lemma OpenSessionOutcome(env: Environment, m: Metadata, w: World, a: Allocation, session: uint32, start: uint32)
    requires w.sink.file.NoFile? && w.sink.error == NoError
    ensures var (r, ok) := OpenSession(env, m, w, a, session, start); var c := w.storage.calls;
            && (ok <==> env(c).succeeds && Takes(env, c + 1, HEADER_SIZE) && env(c + 2).succeeds)
            && r.sink.error == if !env(c).succeeds then FileOpen
                               else if !Takes(env, c + 1, HEADER_SIZE) then HeaderWrite
                               else if !env(c + 2).succeeds then FlushFailed else NoError
  {
    hide MakeHeader, HeaderBytes;
  }

  lemma CandidatesApart(m: Metadata, storageSequence: uint32, startTimeMs: uint32, k: nat)
    ensures Candidate(RobotRoot(m), storageSequence, startTimeMs, k) != FLIGHT_ROOT
    ensures Candidate(RobotRoot(m), storageSequence, startTimeMs, k) != RobotRoot(m)
  {
    hide FixedText;
    var name := Candidate(RobotRoot(m), storageSequence, startTimeMs, k);
    assert |name| > |RobotRoot(m)| > |FLIGHT_ROOT|;
  }

  /** Where the calls of begin start: after the flush and close that abort makes of an open stream. */
  function FirstCall(w: World): nat {
    w.storage.calls + if w.sink.file.Stream? then 2 else 0
  }

  /** The directories above the session's are no names it may get. */
  lemma RootsMade(env: Environment, m: Metadata, s: Storage, session: uint32, start: uint32, k: nat)
    ensures var (s1, flight) := Mkdir(env, s, FLIGHT_ROOT); var (s2, root) := Mkdir(env, s1, RobotRoot(m));
            && (flight == Failed <==> !env(s.calls).succeeds) && (root == Failed <==> !env(s.calls + 1).succeeds)
            && s2.calls == s.calls + 2
            && (FirstFree(s2.disk, RobotRoot(m), session, start, MAX_ATTEMPTS, k)
                <==> FirstFree(s.disk, RobotRoot(m), session, start, MAX_ATTEMPTS, k))
  {
    hide Candidate, RobotRoot;
    var s1 := Mkdir(env, s, FLIGHT_ROOT).0;
    var s2 := Mkdir(env, s1, RobotRoot(m)).0;
    forall j ensures Taken(s2.disk, Candidate(RobotRoot(m), session, start, j))
                == Taken(s.disk, Candidate(RobotRoot(m), session, start, j)) {
      CandidatesApart(m, session, start, j);
    }
  }

  lemma AbortLeavesNames(env: Environment, w: World)
    requires StreamOpen(w.storage, w.sink.file)
    ensures var r := Abort(env, w);
            && r.storage.calls == FirstCall(w) && r.storage.disk.directories == w.storage.disk.directories
            && r.storage.disk.files.Keys == w.storage.disk.files.Keys
  {
    hide Transfer;
  }

  /** A begin that finds no card, or a robot without a name, fails before it makes a directory. */
  lemma BeginRefused(env: Environment, m: Metadata, w: World, card: bool, session: uint32, start: uint32)
    requires StreamOpen(w.storage, w.sink.file) && (!card || m.robotId[0] == 0)
    ensures var (r, ok) := Begin(env, m, w, card, session, start);
            && !ok && r.sink.error == (if card then DirectoryCreate else CardMissing)
            && r.storage.disk.directories == w.storage.disk.directories
  {
    hide Abort, Allocate, OpenSession;
    AbortLeavesNames(env, w);
  }

  /** With a card and a name for the robot, everything depends on the C library: the first mkdir calls, one for
      each of the two directories above the session's and one for each name that is tried, then fopen, fwrite and
      fflush. Begin returns true exactly if a name is free and all of them work, and else leaves the error of the
      first that does not. */
  lemma BeginOutcome(env: Environment, m: Metadata, w: World, session: uint32, start: uint32) returns (k: nat)
    requires StreamOpen(w.storage, w.sink.file) && m.robotId[0] != 0
    ensures FirstFree(w.storage.disk, RobotRoot(m), session, start, 10000, k)
    ensures var (r, ok) := Begin(env, m, w, true, session, start); var c := FirstCall(w);
            var named := k < 10000 && Work(env, c, c + k + 3);
            && (ok <==> named && env(c + k + 3).succeeds && Takes(env, c + k + 4, HEADER_SIZE)
                        && env(c + k + 5).succeeds)
            && r.sink.error == if !named then DirectoryCreate
                               else if !env(c + k + 3).succeeds then FileOpen
                               else if !Takes(env, c + k + 4, HEADER_SIZE) then HeaderWrite
                               else if !env(c + k + 5).succeeds then FlushFailed else NoError
  {
    hide Abort, Allocate, OpenSession, RobotRoot, FirstFree, Work, Mkdir;
    var idle := Abort(env, w);
    var ready := idle.(sink := idle.sink.(error := NoError, encoder := IDLE, blocksSinceFlush := 0), log := NO_SESSION);
    var c := FirstCall(w);
    AbortLeavesNames(env, w);
    var s1 := Mkdir(env, ready.storage, FLIGHT_ROOT).0;
    var s2 := Mkdir(env, s1, RobotRoot(m)).0;
    k := AllocateOutcome(env, s2, RobotRoot(m), session, start, MAX_ATTEMPTS, ready.sink.directory);
    RootsMade(env, m, ready.storage, session, start, k);
    SameNames(ready.storage.disk, w.storage.disk, RobotRoot(m), session, start, k);
    TwoAndMore(env, c, k);
    var a := Allocate(env, s2, RobotRoot(m), session, start, MAX_ATTEMPTS, ready.sink.directory);
    var placed := ready.(storage := a.storage, sink := ready.sink.(directory := a.directory));
    OpenSessionOutcome(env, m, placed, a, session, start);
  }

  lemma SameNames(disk: Disk, other: Disk, root: string, session: uint32, start: uint32, k: nat)
    requires disk.directories == other.directories && disk.files.Keys == other.files.Keys
    ensures FirstFree(disk, root, session, start, MAX_ATTEMPTS, k)
       <==> FirstFree(other, root, session, start, MAX_ATTEMPTS, k)
  {
    hide Candidate;
    forall path ensures Taken(disk, path) == Taken(other, path) {
    }
  }

  lemma TwoAndMore(env: Environment, c: nat, k: nat)
    ensures Work(env, c, c + k + 3) <==> env(c).succeeds && env(c + 1).succeeds && Work(env, c + 2, c + 2 + k + 1)
  {
  }

  // ---- write, finish and abort ----

  /** A write of frames to a stream whose encoder is writing makes two calls, and a third if the block is the
      fiftieth since the last flush that worked: each must work, and the first that does not decides the error.
      Anything else is refused. */
  lemma WriteOutcome(env: Environment, w: World, frames: Frames)
    requires StreamOpen(w.storage, w.sink.file) && w.sink.error == NoError
    ensures var (r, ok) := Write(env, w, frames);
            if w.sink.file.NoFile? || frames.NullPointer? || frames.frames == [] then !ok && r.sink.error == Internal
            else
              var c, n := w.storage.calls, |frames.frames|;
              var taken := && w.sink.encoder.writing && n <= MAX_BATCH
                           && Takes(env, c, BLOCK_SIZE) && Takes(env, c + 1, FRAME_SIZE * n);
              var due := (w.sink.blocksSinceFlush + 1) % 0x1_0000_0000 >= 50;
              && (ok <==> taken && (due ==> env(c + 2).succeeds))
              && r.sink.error == if !taken then DataWrite
                                 else if due && !env(c + 2).succeeds then FlushFailed else NoError
  {
    hide BlockHeaderBytes, MakeBlock, Flatten, Counted;
    if frames.Batch? {
      PayloadLength(frames.frames);
    }
  }

  /** Finish makes four calls in turn; it returns true exactly if all of them work, and else leaves the error of
      the first that does not. */
  lemma FinishOutcome(env: Environment, w: World, drops: uint32)
    requires Safe(w) && StreamOpen(w.storage, w.sink.file) && w.sink.error == NoError
    ensures var (r, ok) := Finish(env, w, drops);
            if w.sink.file.NoFile? then !ok && r.sink.error == Internal
            else
              var c := w.storage.calls;
              var taken := w.sink.encoder.writing && Takes(env, c, FOOTER_SIZE);
              && (ok <==> taken && Work(env, c + 1, c + 4))
              && r.sink.error == if !taken then FooterWrite
                                 else if !env(c + 1).succeeds then FlushFailed
                                 else if !env(c + 2).succeeds then CloseFailed
                                 else if !env(c + 3).succeeds then CommitRename else NoError
  {
    hide FooterBytes, MakeFooter, HistoryKept, ArchivesNamed, DirectoriesExist, OthersWritten, Transfer;
  }

  /** An open session's encoder is writing, so neither call is refused for want of one. */
  lemma IntactWrites(w: World)
    requires Sound(w) && Streaming(w)
    ensures w.sink.encoder.writing
  {
    hide Safe, ArchivesWhole, DurableBut, Contents, Emitted, AfterAppends;
    CountsAfter(STARTED, w.log.batches);
  }

  /** What abort gives up is lost only if neither its flush nor its close works; otherwise all that was written
      is durable. */
  lemma AbortKeepsData(env: Environment, w: World)
    requires Safe(w) && StreamOpen(w.storage, w.sink.file) && w.sink.file.Stream?
    requires env(w.storage.calls).succeeds || env(w.storage.calls + 1).succeeds
    ensures var files := Abort(env, w).storage.disk.files;
            && w.sink.temporaryPath in files && files[w.sink.temporaryPath] == File(Contents(OpenFile(w)), [])
  {
    hide Core, Transfer;
    StreamAtPath(w);
    var s := w.storage;
    FflushContents(env, s, w.sink.file.id);
    var flushed := Fflush(env, s, w.sink.file.id).0;
    FcloseContents(env, flushed, w.sink.file.id);
  }
}
