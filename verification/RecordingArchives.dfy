/** What the archives of any run of the worker hold, said of the ticks alone: which tick began the session,
    which ended it, what was popped in between and how many frames the ring dropped meanwhile. */
module RecordingArchives {
  import opened Bytes
  import opened RecordingFile
  import opened RecordingEncoder
  import opened RecordingVerifier
  import opened RecordingRecovery
  import opened Card
  import opened SessionNames
  import opened SinkProtocol
  import opened SinkSafety
  import opened SinkContents
  import opened SinkRuns
  import opened RecordingWorker
  import opened RecordingSurvival

  /** The batches the ticks pop. */
  ghost function GivenBy(ticks: seq<Tick>): seq<seq<Frame>> {
    if ticks == [] then [] else GivenBy(ticks[..|ticks| - 1]) + Given(ticks[|ticks| - 1])
  }

  /** The header is of the session that was asked for when this tick began it. */
  ghost predicate BegunBy(h: FileHeader, m: Metadata, t: Tick) {
    && t.opening && t.cardInstalled
    && Describes(h, m) && h.sessionSequence == t.sessionSequence && h.startTimeMs == t.startTimeMs
    && h.runIdHash == RunId(m.bootId, t.sessionSequence)
  }

  ghost predicate Holding(worker: Worker, m: Metadata, first: Tick, given: seq<seq<Frame>>) {
    && worker.sessionOpen && worker.dropsAtOpen == first.dropsAtOpen
    && BegunBy(worker.world.log.header, m, first) && worker.world.log.batches == given
  }

  /** The archive is of the session that the tick `first` began and the tick `last` finished. */
  ghost predicate Records(a: Archive, m: Metadata, first: Tick, last: Tick, given: seq<seq<Frame>>) {
    && BegunBy(a.log.header, m, first) && a.log.batches == given
    && last.closingAndEmpty && a.producerDrops == (last.dropsAtClose - first.dropsAtOpen) % 0x1_0000_0000
  }

  lemma CardNeeded(env: Environment, m: Metadata, w: World, card: bool, session: uint32, start: uint32)
    requires StreamOpen(w.storage, w.sink.file) && Begin(env, m, w, card, session, start).1
    ensures card
  {
    hide Abort, Allocate, OpenSession;
  }

  lemma OpenHolds(env: Environment, m: Metadata, worker: Worker, t: Tick)
    requires Disciplined(worker)
    ensures WorkerUsable(worker)
    ensures var r := OpenStage(env, m, worker, t);
            && r.worker.world.archives == worker.world.archives
            && (worker.sessionOpen ==> r == Continues(worker))
            && (r.Continues? && r.worker.sessionOpen && !worker.sessionOpen ==> Holding(r.worker, m, t, []))
            && (r.Returned? ==> !r.worker.sessionOpen)
  {
    hide Sound, Begin, Abort, MakeHeader, GoodLog, Describes, RunId;
    SoundStream(worker.world);
    if t.opening && !worker.sessionOpen {
      var (world, ok) := Begin(env, m, worker.world, t.cardInstalled, t.sessionSequence, t.startTimeMs);
      BeginArchives(env, m, worker.world, t.cardInstalled, t.sessionSequence, t.startTimeMs);
      if ok {
        CardNeeded(env, m, worker.world, t.cardInstalled, t.sessionSequence, t.startTimeMs);
        var s := BegunNames(env, m, worker.world, t.cardInstalled, t.sessionSequence, t.startTimeMs);
        MadeHeader(m, t.sessionSequence, s, t.startTimeMs);
      }
    }
  }

  lemma DrainHolds(env: Environment, m: Metadata, worker: Worker, t: Tick, first: Tick, given: seq<seq<Frame>>)
    requires Disciplined(worker) && (worker.sessionOpen ==> Holding(worker, m, first, given))
    ensures WorkerUsable(worker)
    ensures var r := DrainStage(env, worker, t);
            && r.worker.world.archives == worker.world.archives
            && (r.Continues? ==> r.worker.sessionOpen == worker.sessionOpen)
            && (r.Continues? && worker.sessionOpen ==> Holding(r.worker, m, first, given + Given(t)))
            && (r.Returned? ==> !r.worker.sessionOpen)
  {
    hide Sound, Write, Abort, BegunBy;
    SoundStream(worker.world);
    WriteOutcome(env, worker.world, Popped(t));
    assert given + [] == given;
  }

  lemma CloseHolds(env: Environment, m: Metadata, worker: Worker, t: Tick, first: Tick, given: seq<seq<Frame>>)
    requires Disciplined(worker) && (worker.sessionOpen ==> Holding(worker, m, first, given))
    ensures WorkerUsable(worker)
    ensures var r := CloseStage(env, worker, t); var before, after := worker.world.archives, r.worker.world.archives;
            && (r.worker.sessionOpen ==> r == Continues(worker))
            && (forall p :: p in before ==> p in after && after[p] == before[p])
            && (forall p :: p in after && p !in before ==> worker.sessionOpen && Records(after[p], m, first, t, given))
  {
    hide Safe, ArchivesWhole, FileSound, Finish, Abort, BegunBy, GoodLog;
    SoundStream(worker.world);
    if worker.sessionOpen && t.closingAndEmpty {
      FinishOutcome(env, worker.world, (t.dropsAtClose - worker.dropsAtOpen) % 0x1_0000_0000);
    }
  }

  /** What one tick makes of the session it finds or begins. */
  lemma TickHolds(env: Environment, m: Metadata, worker: Worker, t: Tick, first: Tick, given: seq<seq<Frame>>)
    requires Disciplined(worker) && GoodTick(t)
    requires if worker.sessionOpen then Holding(worker, m, first, given) else first == t && given == []
    ensures WorkerUsable(worker)
    ensures var r := TickOnce(env, m, worker, t); var before, after := worker.world.archives, r.world.archives;
            && (r.sessionOpen ==> Holding(r, m, first, given + Given(t)))
            && (forall p :: p in before ==> p in after && after[p] == before[p])
            && (forall p :: p in after && p !in before ==> Records(after[p], m, first, t, given + Given(t)))
  {
    hide Disciplined, OpenStage, DrainStage, CloseStage, GoodTick, Given, Holding, Records;
    DisciplinedUsable(worker);
    OpenHolds(env, m, worker, t);
    OpenDisciplined(env, m, worker, t);
    var s1 := OpenStage(env, m, worker, t);
    if s1.Continues? {
      DrainHolds(env, m, s1.worker, t, first, given);
      DrainDisciplined(env, m, s1.worker, t);
      var s2 := DrainStage(env, s1.worker, t);
      if s2.Continues? {
        CloseHolds(env, m, s2.worker, t, first, given + Given(t));
      }
    }
  }

  ghost predicate AllGoodTicks(ticks: seq<Tick>) {
    forall t :: t in ticks ==> GoodTick(t)
  }

  /** The worker after the first n ticks. */
  ghost function After(env: Environment, m: Metadata, disk: Disk, ticks: seq<Tick>, n: nat): (worker: Worker)
    requires n <= |ticks|
    ensures WorkerUsable(worker)
  {
    Ticks(env, m, Idle(disk), ticks[..n])
  }

  lemma AfterOneMore(env: Environment, m: Metadata, disk: Disk, ticks: seq<Tick>, n: nat)
    requires n < |ticks|
    ensures After(env, m, disk, ticks, n + 1) == TickOnce(env, m, After(env, m, disk, ticks, n), ticks[n])
  {
    hide Ticks, TickOnce;
    assert ticks[..n + 1] == ticks[..n] + [ticks[n]];
    TicksSnoc(env, m, Idle(disk), ticks[..n], ticks[n]);
  }

  lemma GivenOneMore(ticks: seq<Tick>, j: nat, n: nat)
    requires j <= n < |ticks|
    ensures GivenBy(ticks[j..n + 1]) == GivenBy(ticks[j..n]) + Given(ticks[n])
  {
    hide Given;
    assert ticks[j..n + 1][..n - j] == ticks[j..n];
  }

  /** The session open after n ticks was begun by the j-th, and has been open since. */
  ghost predicate OpenSince(env: Environment, m: Metadata, disk: Disk, ticks: seq<Tick>, n: nat, j: nat)
    requires n <= |ticks|
  {
    && j < n && !After(env, m, disk, ticks, j).sessionOpen
    && (forall i :: j < i <= n ==> After(env, m, disk, ticks, i).sessionOpen)
  }

  lemma AfterDisciplined(env: Environment, m: Metadata, disk: Disk, ticks: seq<Tick>, n: nat)
    requires FoundDisk(disk) && AllGoodTicks(ticks) && n <= |ticks|
    ensures Disciplined(After(env, m, disk, ticks, n))
  {
    hide Disciplined, GoodTick, Ticks;
    IdleDisciplined(disk);
    TicksDisciplined(env, m, Idle(disk), ticks[..n]);
  }

  lemma {:induction false} SessionSince(env: Environment, m: Metadata, disk: Disk, ticks: seq<Tick>, n: nat)
    returns (j: nat)
    requires FoundDisk(disk) && AllGoodTicks(ticks) && n <= |ticks| && After(env, m, disk, ticks, n).sessionOpen
    ensures OpenSince(env, m, disk, ticks, n, j)
    ensures Holding(After(env, m, disk, ticks, n), m, ticks[j], GivenBy(ticks[j..n]))
    decreases n
  {
    hide Disciplined, GoodTick, TickOnce, Ticks, After, Holding, Records, Given, GivenBy;
    if n == 0 {
      NothingOpen(env, m, disk, ticks);
    } else {
      var t := ticks[n - 1];
      AfterDisciplined(env, m, disk, ticks, n - 1);
      AfterOneMore(env, m, disk, ticks, n - 1);
      if After(env, m, disk, ticks, n - 1).sessionOpen {
        j := SessionSince(env, m, disk, ticks, n - 1);
        TickHolds(env, m, After(env, m, disk, ticks, n - 1), t, ticks[j], GivenBy(ticks[j..n - 1]));
      } else {
        j := n - 1;
        NothingGiven(ticks, j);
        TickHolds(env, m, After(env, m, disk, ticks, n - 1), t, t, []);
      }
      GivenOneMore(ticks, j, n - 1);
    }
  }

  lemma NothingOpen(env: Environment, m: Metadata, disk: Disk, ticks: seq<Tick>)
    ensures !After(env, m, disk, ticks, 0).sessionOpen && After(env, m, disk, ticks, 0).world.archives == map[]
  {
  }

  lemma NothingGiven(ticks: seq<Tick>, j: nat)
    requires j <= |ticks|
    ensures GivenBy(ticks[j..j]) == []
  {
  }

  /** The tick that committed an archive, and the one that had begun its session. */
  lemma {:induction false} ArchiveRecords(env: Environment, m: Metadata, disk: Disk, ticks: seq<Tick>, n: nat,
                                          path: string)
    returns (j: nat, k: nat)
    requires FoundDisk(disk) && AllGoodTicks(ticks) && n <= |ticks|
    requires path in After(env, m, disk, ticks, n).world.archives
    ensures j <= k < n && path !in After(env, m, disk, ticks, k).world.archives
    ensures path in After(env, m, disk, ticks, k + 1).world.archives
    ensures !After(env, m, disk, ticks, j).sessionOpen
    ensures forall i :: j < i <= k ==> After(env, m, disk, ticks, i).sessionOpen
    ensures Records(After(env, m, disk, ticks, n).world.archives[path], m, ticks[j], ticks[k],
                    GivenBy(ticks[j..k + 1]))
    decreases n
  {
    hide Disciplined, GoodTick, TickOnce, Ticks, After, Holding, Records, Given, GivenBy;
    if n == 0 {
      NothingOpen(env, m, disk, ticks);
    } else {
      var before, t := After(env, m, disk, ticks, n - 1), ticks[n - 1];
      AfterDisciplined(env, m, disk, ticks, n - 1);
      AfterOneMore(env, m, disk, ticks, n - 1);
      var i := n - 1;
      if before.sessionOpen {
        i := SessionSince(env, m, disk, ticks, n - 1);
      } else {
        NothingGiven(ticks, i);
      }
      TickHolds(env, m, before, t, ticks[i], GivenBy(ticks[i..n - 1]));
      GivenOneMore(ticks, i, n - 1);
      if path in before.world.archives {
        j, k := ArchiveRecords(env, m, disk, ticks, n - 1, path);
      } else {
        j, k := i, n - 1;
      }
    }
  }

  lemma ArchiveFound(w: World, disk: Disk, path: string)
    requires Safe(w) && [disk] <= w.storage.history && IsArchive(path) && path !in disk.files
    ensures path in w.storage.disk.files <==> path in w.archives
  {
    hide StreamsMatch, Placed, DirectoriesExist, OthersWritten, HistoryKept;
    assert w.storage.history[0] == disk;
  }

  lemma DisciplinedSafe(worker: Worker)
    requires Disciplined(worker)
    ensures Safe(worker.world)
  {
    hide Safe, FileSound, ArchivesWhole, GoodLog;
  }

  lemma FoundAfter(env: Environment, m: Metadata, disk: Disk, ticks: seq<Tick>, n: nat, path: string)
    requires FoundDisk(disk) && AllGoodTicks(ticks) && n <= |ticks| && IsArchive(path) && path !in disk.files
    ensures var w := After(env, m, disk, ticks, n).world; path in w.storage.disk.files <==> path in w.archives
  {
    hide Disciplined, GoodTick, Safe, IsArchive;
    AfterDisciplined(env, m, disk, ticks, n);
    DisciplinedSafe(After(env, m, disk, ticks, n));
    ArchiveFound(After(env, m, disk, ticks, n).world, disk, path);
  }

  lemma FooterLast(header: FileHeader, batches: seq<seq<Frame>>, drops: uint32)
    requires AllAppendable(batches)
    ensures var bytes := RecordingBytes(header, batches, drops);
            |bytes| >= FOOTER_SIZE && FooterOf(bytes[|bytes| - FOOTER_SIZE..]).producerDrops == drops
  {
    hide HeaderBytes, FooterBytes, BlocksBytes, Appendable, FooterOf, MakeFooter;
    var footer := MakeFooter(AfterAppends(STARTED, batches), drops);
    var bytes := RecordingBytes(header, batches, drops);
    FooterRoundTrip(footer);
    FooterDrops(AfterAppends(STARTED, batches), drops);
    assert bytes[|bytes| - FOOTER_SIZE..] == FooterBytes(footer);
  }

  /** Every DATA.V5L that appears on the card, at any moment of any run of the worker, was committed by one
      tick, which found the session closing and the ring empty, and begun by one not after it, between which
      the session was open; it is the recording of exactly the frames popped from the one to the other, under
      the header of the session asked for then, with as many drops as the ring counted in between. */
  lemma ArchiveOfTicks(env: Environment, m: Metadata, disk: Disk, ticks: seq<Tick>, i: nat, path: string)
    returns (j: nat, k: nat, header: FileHeader)
    requires FoundDisk(disk) && AllGoodTicks(ticks)
    requires i < |After(env, m, disk, ticks, |ticks|).world.storage.history|
    requires var files := After(env, m, disk, ticks, |ticks|).world.storage.history[i].files;
             IsArchive(path) && path in files && path !in disk.files
    ensures j <= k < |ticks| && BegunBy(header, m, ticks[j]) && ticks[k].closingAndEmpty
    ensures path !in After(env, m, disk, ticks, k).world.storage.disk.files
    ensures path in After(env, m, disk, ticks, k + 1).world.storage.disk.files
    ensures !After(env, m, disk, ticks, j).sessionOpen
    ensures forall i :: j < i <= k ==> After(env, m, disk, ticks, i).sessionOpen
    ensures var batches := GivenBy(ticks[j..k + 1]);
            var drops := (ticks[k].dropsAtClose - ticks[j].dropsAtOpen) % 0x1_0000_0000;
            var bytes := After(env, m, disk, ticks, |ticks|).world.storage.history[i].files[path].durable;
            && AllAppendable(batches) && bytes == RecordingBytes(header, batches, drops)
            && |bytes| >= FOOTER_SIZE && FooterOf(bytes[|bytes| - FOOTER_SIZE..]).producerDrops == drops
            && Verify(InMemory(bytes)).producerDrops == drops && Verify(InMemory(bytes)).header == header
  {
    hide Disciplined, GoodTick, Ticks, TickOnce, Given, BegunBy, RecordingBytes, AllAppendable, Verify, FooterOf,
         IsArchive, AllGoodBatches, Standard, FinalFaults, FirstRemembered;
    var n := |ticks|;
    assert ticks[..n] == ticks;
    var w := After(env, m, disk, ticks, n).world;
    AfterDisciplined(env, m, disk, ticks, n);
    DisciplinedSafe(After(env, m, disk, ticks, n));
    ArchiveNamed(w, disk, i, path);
    j, k := ArchiveRecords(env, m, disk, ticks, n, path);
    FoundAfter(env, m, disk, ticks, k, path);
    FoundAfter(env, m, disk, ticks, k + 1, path);
    var a := w.archives[path];
    header := a.log.header;
    DisciplinedArchive(After(env, m, disk, ticks, n), path);
    LogParts(a.log);
    FooterLast(header, a.log.batches, a.producerDrops);
    var bytes := RecordingBytes(header, a.log.batches, a.producerDrops);
    FinishedReport(bytes, header, a.log.batches, a.producerDrops);
  }

  lemma DisciplinedArchive(worker: Worker, path: string)
    requires Disciplined(worker) && path in worker.world.archives
    ensures var a := worker.world.archives[path];
            && GoodLog(a.log) && AllAppendable(a.log.batches) && path in worker.world.storage.disk.files
            && worker.world.storage.disk.files[path]
               == File(RecordingBytes(a.log.header, a.log.batches, a.producerDrops), [])
  {
    hide Safe, FileSound, AllAppendable, AllGoodBatches, Standard, RecordingBytes;
  }

  lemma FinishedReport(bytes: seq<Byte>, header: FileHeader, batches: seq<seq<Frame>>, drops: uint32)
    requires Standard(header) && AllAppendable(batches) && AllGoodBatches(batches)
    requires bytes == RecordingBytes(header, batches, drops)
    ensures Verify(InMemory(bytes)).producerDrops == drops && Verify(InMemory(bytes)).header == header
  {
    hide Verify, RecordingBytes, AllAppendable, AllGoodBatches, Standard, FinalFaults, FirstRemembered, FrameFaults,
         FrameSequence, FrameTime;
    FinishedRecordingVerified(InMemory(bytes), header, batches, drops);
  }
}
