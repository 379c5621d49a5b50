/** RecordingWorker (include/robot/telemetry/recording.hpp) driving the sink, and what a recording
    session therefore leaves on the card. The recording control and the ring are shared with the
    control task; what the worker reads from them in one tick is an input, so a statement about all
    inputs is one about all interleavings. */
module RecordingWorker {
  import opened Bytes
  import opened RecordingFile
  import opened RecordingRecovery
  import opened Card
  import opened SinkProtocol
  import opened SinkSafety
  import opened SinkContents
  import opened SinkRuns

  const BATCH_SIZE: nat := 8

  /** What one tick sees: the states read in turn, the frames the ring has to give before a pop fails,
      the drop counters, and whether the transitions it asks of the control succeed. */
  datatype Tick = Tick(
    opening: bool, cardInstalled: bool, sessionSequence: uint32, startTimeMs: uint32,
    dropsAtOpen: uint32, marksRecording: bool,
    draining: bool, pops: seq<Frame>,
    closingAndEmpty: bool, dropsAtClose: uint32, marksIdle: bool,
    closingUnopened: bool, marksIdleAgain: bool)

  /** The batch drainBatch pops: as many frames as there are, and no more than fit. */
  function Popped(t: Tick): (batch: seq<Frame>)
    ensures |batch| <= BATCH_SIZE
  {
    if |t.pops| <= BATCH_SIZE then t.pops else t.pops[..BATCH_SIZE]
  }

  /** The worker, its sink's world, and the causes it has reported to the control, each with an alert. */
  datatype Worker = Worker(world: World, sessionOpen: bool, dropsAtOpen: uint32, failures: seq<SinkError>)

  function Idle(disk: Disk): Worker {
    Worker(Boot(disk), false, 0, [])
  }

  /** RecordingControl::fail never stores a missing cause. */
  function ReportFailure(worker: Worker, cause: SinkError): Worker {
    worker.(failures := worker.failures + [if cause == NoError then Internal else cause])
  }

  function FailSession(env: Environment, worker: Worker): Worker
    requires StreamOpen(worker.world.storage, worker.world.sink.file)
  {
    ReportFailure(worker.(world := Abort(env, worker.world), sessionOpen := false), worker.world.sink.error)
  }

  datatype Stage = Returned(worker: Worker) | Continues(worker: Worker)

  predicate WorkerUsable(worker: Worker) {
    StreamOpen(worker.world.storage, worker.world.sink.file)
  }

  function OpenStage(env: Environment, m: Metadata, worker: Worker, t: Tick): (r: Stage)
    requires WorkerUsable(worker)
    ensures WorkerUsable(r.worker)
    ensures worker.world.storage.history <= r.worker.world.storage.history
  {
    if !t.opening || worker.sessionOpen then Continues(worker)
    else
      var (world, ok) := Begin(env, m, worker.world, t.cardInstalled, t.sessionSequence, t.startTimeMs);
      var begun := worker.(world := world);
      if !ok then Returned(FailSession(env, begun))
      else if !t.marksRecording then
        var aborted := begun.(world := Abort(env, world), sessionOpen := false, dropsAtOpen := t.dropsAtOpen);
        Returned(ReportFailure(aborted, Internal))
      else Continues(begun.(sessionOpen := true, dropsAtOpen := t.dropsAtOpen))
  }

  function DrainStage(env: Environment, worker: Worker, t: Tick): (r: Stage)
    requires WorkerUsable(worker)
    ensures WorkerUsable(r.worker)
    ensures worker.world.storage.history <= r.worker.world.storage.history
  {
    if !worker.sessionOpen || !t.draining || Popped(t) == [] then Continues(worker)
    else
      var (world, ok) := Write(env, worker.world, Batch(Popped(t)));
      if ok then Continues(worker.(world := world)) else Returned(FailSession(env, worker.(world := world)))
  }

  function CloseStage(env: Environment, worker: Worker, t: Tick): (r: Stage)
    requires WorkerUsable(worker)
    ensures WorkerUsable(r.worker)
    ensures worker.world.storage.history <= r.worker.world.storage.history
  {
    if !worker.sessionOpen || !t.closingAndEmpty then Continues(worker)
    else
      var (world, ok) := Finish(env, worker.world, (t.dropsAtClose - worker.dropsAtOpen) % 0x1_0000_0000);
      if !ok then Returned(FailSession(env, worker.(world := world)))
      else
        var closed := worker.(world := world, sessionOpen := false);
        Continues(if t.marksIdle then closed else ReportFailure(closed, Internal))
  }

  function TickOnce(env: Environment, m: Metadata, worker: Worker, t: Tick): (r: Worker)
    requires WorkerUsable(worker)
    ensures WorkerUsable(r)
    ensures worker.world.storage.history <= r.world.storage.history
  {
    match OpenStage(env, m, worker, t)
    case Returned(w1) => w1
    case Continues(w1) =>
      match DrainStage(env, w1, t)
      case Returned(w2) => w2
      case Continues(w2) =>
        match CloseStage(env, w2, t)
        case Returned(w3) => w3
        case Continues(w3) =>
          if !w3.sessionOpen && t.closingUnopened && !t.marksIdleAgain then ReportFailure(w3, Internal) else w3
  }

  function Ticks(env: Environment, m: Metadata, worker: Worker, ticks: seq<Tick>): (r: Worker)
    requires WorkerUsable(worker)
    ensures WorkerUsable(r)
    ensures worker.world.storage.history <= r.world.storage.history
    decreases |ticks|
  {
    if ticks == [] then worker else Ticks(env, m, TickOnce(env, m, worker, ticks[0]), ticks[1..])
  }

  lemma {:induction false} TicksSnoc(env: Environment, m: Metadata, worker: Worker, ticks: seq<Tick>, t: Tick)
    requires WorkerUsable(worker)
    ensures Ticks(env, m, worker, ticks + [t]) == TickOnce(env, m, Ticks(env, m, worker, ticks), t)
    decreases |ticks|
  {
    hide TickOnce;
    if ticks == [] {
      assert [t][1..] == [];
      assert ticks + [t] == [t];
    } else {
      TicksSnoc(env, m, TickOnce(env, m, worker, ticks[0]), ticks[1..], t);
      assert (ticks + [t])[1..] == ticks[1..] + [t];
    }
  }

  // ---- The discipline the worker keeps ----

  /** A session of which every batch was taken, whose frames are well formed and whose header is ours. */
  ghost predicate GoodLog(log: Log) {
    log.intact && AllGoodBatches(log.batches) && Standard(log.header)
  }

  ghost predicate GoodArchives(archives: map<string, Archive>) {
    forall p :: p in archives ==> GoodLog(archives[p].log)
  }

  /** Between ticks: an open session has had no failure and fewer than 50 blocks since its last flush,
      without one no stream is open, and every archive committed so far is of a good session. */
  ghost predicate Disciplined(worker: Worker) {
    var w := worker.world;
    && Sound(w) && GoodArchives(w.archives)
    && (worker.sessionOpen ==> && w.sink.error == NoError && Streaming(w) && GoodLog(w.log)
                               && w.log.unflushed == w.sink.blocksSinceFlush < PERIODIC_FLUSH_BLOCKS)
    && (!worker.sessionOpen ==> w.sink.file.NoFile?)
  }

  /** The frames the control task captured are well formed. */
  ghost predicate GoodTick(t: Tick) {
    AllGood(t.pops)
  }

  lemma FailSessionDisciplined(env: Environment, worker: Worker)
    requires Sound(worker.world) && GoodArchives(worker.world.archives)
    ensures WorkerUsable(worker) && Disciplined(FailSession(env, worker))
    ensures Abort(env, worker.world).archives == worker.world.archives
  {
    hide Sound, GoodLog;
    SoundStream(worker.world);
    AbortSound(env, worker.world);
  }

  lemma BatchesSnocGood(batches: seq<seq<Frame>>, last: seq<Frame>)
    requires AllGoodBatches(batches) && AllGood(last)
    ensures AllGoodBatches(batches + [last])
  {
    hide AllGood;
    forall b | b in batches + [last] ensures AllGood(b) {
      assert b in batches || b == last;
    }
  }

  lemma NewHeaderStandard(m: Metadata, sessionSequence: uint32, storageSequence: uint32, startTimeMs: uint32)
    ensures GoodLog(Log(MakeHeader(m, sessionSequence, storageSequence, startTimeMs), [], 0, true))
  {
    hide RunId;
  }

  lemma OpenDisciplined(env: Environment, m: Metadata, worker: Worker, t: Tick)
    requires Disciplined(worker)
    ensures WorkerUsable(worker) && Disciplined(OpenStage(env, m, worker, t).worker)
  {
    hide Sound, Begin, Abort, MakeHeader, GoodLog;
    SoundStream(worker.world);
    if t.opening && !worker.sessionOpen {
      BeginSound(env, m, worker.world, t.cardInstalled, t.sessionSequence, t.startTimeMs);
      BeginArchives(env, m, worker.world, t.cardInstalled, t.sessionSequence, t.startTimeMs);
      var (world, ok) := Begin(env, m, worker.world, t.cardInstalled, t.sessionSequence, t.startTimeMs);
      var begun := worker.(world := world);
      FailSessionDisciplined(env, begun);
      AbortSound(env, world);
      if ok {
        var s := BegunNames(env, m, worker.world, t.cardInstalled, t.sessionSequence, t.startTimeMs);
        NewHeaderStandard(m, t.sessionSequence, s, t.startTimeMs);
        ErrorOfCall(env, m, worker.world, BeginCall(t.cardInstalled, t.sessionSequence, t.startTimeMs));
      }
    }
  }

  lemma WriteOutcome(env: Environment, w: World, frames: seq<Frame>)
    requires StreamOpen(w.storage, w.sink.file)
    ensures var (r, ok) := Write(env, w, Batch(frames));
            && r.archives == w.archives && r.sink.file == w.sink.file
            && (ok ==> && r.log == w.log.(batches := w.log.batches + [frames], unflushed := r.log.unflushed)
                       && r.sink.blocksSinceFlush < PERIODIC_FLUSH_BLOCKS
                       && (w.log.unflushed == w.sink.blocksSinceFlush < PERIODIC_FLUSH_BLOCKS
                           ==> r.log.unflushed == r.sink.blocksSinceFlush))
  {
    hide EmitBlock, Fflush;
  }

  lemma PoppedGood(t: Tick)
    requires GoodTick(t)
    ensures AllGood(Popped(t))
  {
    hide GoodFrame;
  }

  lemma DrainDisciplined(env: Environment, m: Metadata, worker: Worker, t: Tick)
    requires Disciplined(worker) && GoodTick(t)
    ensures WorkerUsable(worker) && Disciplined(DrainStage(env, worker, t).worker)
  {
    hide Sound, Abort, Write, AllGood, AllGoodBatches;
    SoundStream(worker.world);
    if worker.sessionOpen && t.draining && Popped(t) != [] {
      WriteSound(env, worker.world, Batch(Popped(t)));
      WriteOutcome(env, worker.world, Popped(t));
      ErrorOfCall(env, m, worker.world, WriteCall(Batch(Popped(t))));
      PoppedGood(t);
      BatchesSnocGood(worker.world.log.batches, Popped(t));
      var (world, ok) := Write(env, worker.world, Batch(Popped(t)));
      if !ok {
        FailSessionDisciplined(env, worker.(world := world));
      }
    }
  }

  lemma FinishReleases(env: Environment, w: World, drops: uint32)
    requires StreamOpen(w.storage, w.sink.file) && Finish(env, w, drops).1
    ensures Finish(env, w, drops).0.sink.file.NoFile?
  {
    hide EmitFooter, Fflush, Fclose, Rename;
  }

  lemma CloseDisciplined(env: Environment, worker: Worker, t: Tick)
    requires Disciplined(worker)
    ensures WorkerUsable(worker) && Disciplined(CloseStage(env, worker, t).worker)
  {
    hide Safe, ArchivesWhole, FileSound, Abort, Finish, GoodLog;
    SoundStream(worker.world);
    if worker.sessionOpen && t.closingAndEmpty {
      var drops := (t.dropsAtClose - worker.dropsAtOpen) % 0x1_0000_0000;
      FinishSound(env, worker.world, drops);
      FinishOutcome(env, worker.world, drops);
      var (world, ok) := Finish(env, worker.world, drops);
      if ok {
        FinishReleases(env, worker.world, drops);
      } else {
        FailSessionDisciplined(env, worker.(world := world));
      }
    }
  }

  lemma TickDisciplined(env: Environment, m: Metadata, worker: Worker, t: Tick)
    requires Disciplined(worker) && GoodTick(t)
    ensures WorkerUsable(worker) && Disciplined(TickOnce(env, m, worker, t))
  {
    hide Sound, OpenStage, DrainStage, CloseStage, GoodLog, GoodTick;
    SoundStream(worker.world);
    OpenDisciplined(env, m, worker, t);
    var s1 := OpenStage(env, m, worker, t);
    if s1.Continues? {
      DrainDisciplined(env, m, s1.worker, t);
      var s2 := DrainStage(env, s1.worker, t);
      if s2.Continues? {
        CloseDisciplined(env, s2.worker, t);
      }
    }
  }

  lemma {:induction false} TicksDisciplined(env: Environment, m: Metadata, worker: Worker, ticks: seq<Tick>)
    requires Disciplined(worker) && forall t :: t in ticks ==> GoodTick(t)
    ensures WorkerUsable(worker) && Disciplined(Ticks(env, m, worker, ticks))
    decreases |ticks|
  {
    hide Disciplined, TickOnce, GoodTick;
    DisciplinedUsable(worker);
    if ticks != [] {
      TickDisciplined(env, m, worker, ticks[0]);
      TicksDisciplined(env, m, TickOnce(env, m, worker, ticks[0]), ticks[1..]);
    }
  }

  lemma DisciplinedUsable(worker: Worker)
    requires Disciplined(worker)
    ensures WorkerUsable(worker)
  {
  }

  lemma IdleDisciplined(disk: Disk)
    requires FoundDisk(disk)
    ensures Disciplined(Idle(disk))
  {
    hide Sound;
    BootSound(disk);
  }
}
