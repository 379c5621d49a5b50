/** The recording control, the worker and the card as one system: the worker's steps through its tick
    take their answers from the sink, and everything it reads of the control is what the control holds
    then. The control task and the callbacks interleave freely between any two of its steps. */
module RecordingSystem {
  import opened Bytes
  import opened RecordingFile
  import opened RecordingEncoder
  import opened RecordingRecovery
  import opened Card
  import opened SessionNames
  import opened SinkProtocol
  import opened SinkSafety
  import opened SinkContents
  import SinkRuns
  import opened RecordingWorker
  import RecordingSurvival
  import C = RecordingControl

  /** The control, the worker with its sink and card, and what the worker's ticks have seen: of those that
      are over, and of the one it is in so far. What they have seen decides nothing. */
  datatype System = System(control: C.Control, worker: Worker, ticks: seq<Tick>, tick: Tick)

  /** What a step of the worker sees of anything else than the control: the card, the session's number and
      start, the ring and its drop counter. */
  datatype Seen = Seen(cardInstalled: bool, sessionSequence: uint32, startTimeMs: uint32, pops: seq<Frame>,
                       ringEmpty: bool, drops: uint32)

  type OtherStep = step: C.Step | !step.Worker? witness C.RequestStop

  datatype Step =
    | Others(step: OtherStep) // of the control task or a callback
    | WorkerTask(seen: Seen)

  /** A tick that was asked for nothing and refused nothing. */
  const UNSEEN: Tick := Tick(false, false, 0, 0, 0, true, false, [], false, 0, true, false, true)

  function PowerOn(disk: Disk): System {
    System(C.START, Idle(disk), [], UNSEEN)
  }

  /** What the worker's next step adds to what its tick has seen. */
  function Noted(c: C.Control, t: Tick, seen: Seen): (noted: Tick)
    ensures noted.pops == if c.place.Draining? then seen.pops else t.pops
  {
    match c.place
    case Beginning =>
      t.(opening := true, cardInstalled := seen.cardInstalled, sessionSequence := seen.sessionSequence,
         startTimeMs := seen.startTimeMs, dropsAtOpen := seen.drops)
    case MarkingRecording => t.(marksRecording := c.state == C.Opening)
    case Draining => t.(draining := true, pops := seen.pops)
    case Finishing => t.(closingAndEmpty := true, dropsAtClose := seen.drops)
    case MarkingIdle => t.(marksIdle := c.state == C.Closing)
    case Discarding => t.(closingUnopened := true, marksIdleAgain := c.state == C.Closing)
    case _ => t
  }

  /** What the worker's next step does to the sink, and whether it ends the tick. */
  function Worked(env: Environment, m: Metadata, s: System, t: Tick): (r: Stage)
    requires WorkerUsable(s.worker)
    ensures WorkerUsable(r.worker)
  {
    match s.control.place
    case Beginning => OpenStage(env, m, s.worker, t)
    case MarkingRecording =>
      if t.marksRecording then Continues(s.worker)
      else
        var aborted := s.worker.(world := Abort(env, s.worker.world), sessionOpen := false);
        Stage.Returned(ReportFailure(aborted, Internal))
    case Draining => DrainStage(env, s.worker, t)
    case Finishing => CloseStage(env, s.worker, t)
    case MarkingIdle => Continues(if t.marksIdle then s.worker else ReportFailure(s.worker, Internal))
    case Discarding => Continues(if t.marksIdleAgain then s.worker else ReportFailure(s.worker, Internal))
    case _ => Continues(s.worker)
  }

  /** What the control is told of it. */
  function Answer(env: Environment, m: Metadata, s: System, seen: Seen): bool
    requires WorkerUsable(s.worker)
  {
    if s.control.place.BeforeClose? then seen.ringEmpty
    else Worked(env, m, s, Noted(s.control, s.tick, seen)).Continues?
  }

  predicate TickOver(before: C.Place, after: C.Place) {
    !before.Raising? && (after == C.Top || after == C.Raising(C.Top))
  }

  function ControlStep(env: Environment, m: Metadata, s: System, step: Step): C.Step
    requires WorkerUsable(s.worker)
  {
    match step
    case Others(other) => other
    case WorkerTask(seen) => C.Worker(Answer(env, m, s, seen))
  }

  function Next(env: Environment, m: Metadata, s: System, step: Step): (r: System)
    requires WorkerUsable(s.worker)
    ensures WorkerUsable(r.worker)
  {
    var control := C.Next(s.control, ControlStep(env, m, s, step));
    match step
    case Others(_) => s.(control := control)
    case WorkerTask(seen) =>
      var t := Noted(s.control, s.tick, seen);
      var worker := Worked(env, m, s, t).worker;
      if TickOver(s.control.place, control.place) then System(control, worker, s.ticks + [t], UNSEEN)
      else System(control, worker, s.ticks, t)
  }

  function Run(env: Environment, m: Metadata, s: System, steps: seq<Step>): (r: System)
    requires WorkerUsable(s.worker)
    ensures WorkerUsable(r.worker)
    decreases |steps|
  {
    if steps == [] then s else Run(env, m, Next(env, m, s, steps[0]), steps[1..])
  }

  // ---- The worker's part of a run ----

  ghost function Drained(env: Environment, m: Metadata, worker: Worker, t: Tick): (r: Stage)
    requires WorkerUsable(worker)
    ensures WorkerUsable(r.worker)
  {
    var begun := OpenStage(env, m, worker, t);
    if begun.Continues? then DrainStage(env, begun.worker, t) else begun
  }

  ghost function Ended(env: Environment, m: Metadata, worker: Worker, t: Tick): (r: Stage)
    requires WorkerUsable(worker)
    ensures WorkerUsable(r.worker)
  {
    var drained := Drained(env, m, worker, t);
    if drained.Continues? then CloseStage(env, drained.worker, t) else drained
  }

  /** The worker is where the stages it has been through leave one that began the tick as `base`. */
  ghost predicate Aligned(env: Environment, m: Metadata, base: Worker, s: System)
    requires WorkerUsable(base)
  {
    var t := s.tick;
    && t.marksRecording && t.marksIdle && t.marksIdleAgain && !t.closingUnopened
    && match s.control.place
       case MarkingRecording =>
         !t.draining && !t.closingAndEmpty && t.opening && !base.sessionOpen
         && OpenStage(env, m, base, t) == Continues(s.worker)
       case BeforeDrain => !t.draining && !t.closingAndEmpty && OpenStage(env, m, base, t) == Continues(s.worker)
       case Draining => !t.draining && !t.closingAndEmpty && OpenStage(env, m, base, t) == Continues(s.worker)
       case BeforeClose => !t.closingAndEmpty && Drained(env, m, base, t) == Continues(s.worker)
       case Finishing => !t.closingAndEmpty && Drained(env, m, base, t) == Continues(s.worker)
       case MarkingIdle => Ended(env, m, base, t) == Continues(s.worker)
       case BeforeDiscard => Ended(env, m, base, t) == Continues(s.worker)
       case Discarding => Ended(env, m, base, t) == Continues(s.worker)
       case _ => t == UNSEEN && s.worker == base
  }

  lemma TickEnds(env: Environment, m: Metadata, worker: Worker, t: Tick)
    requires WorkerUsable(worker)
    ensures var ended := Ended(env, m, worker, t);
            TickOnce(env, m, worker, t)
            == if ended.Continues? && !ended.worker.sessionOpen && t.closingUnopened && !t.marksIdleAgain
               then ReportFailure(ended.worker, Internal) else ended.worker
  {
    hide OpenStage, DrainStage, CloseStage;
  }

  /** Each stage reads its own part of the tick only. */
  lemma OpenReads(env: Environment, m: Metadata, worker: Worker, t: Tick, u: Tick)
    requires WorkerUsable(worker)
    requires t == u.(draining := t.draining, pops := t.pops, closingAndEmpty := t.closingAndEmpty,
                     dropsAtClose := t.dropsAtClose, marksIdle := t.marksIdle, closingUnopened := t.closingUnopened,
                     marksIdleAgain := t.marksIdleAgain)
    ensures OpenStage(env, m, worker, t) == OpenStage(env, m, worker, u)
  {
    hide Begin, Abort;
  }

  lemma DrainReads(env: Environment, worker: Worker, t: Tick, u: Tick)
    requires WorkerUsable(worker) && t.draining == u.draining && t.pops == u.pops
    ensures DrainStage(env, worker, t) == DrainStage(env, worker, u)
  {
    hide Write, Abort;
  }

  lemma CloseReads(env: Environment, worker: Worker, t: Tick, u: Tick)
    requires WorkerUsable(worker)
    requires t.closingAndEmpty == u.closingAndEmpty && t.dropsAtClose == u.dropsAtClose && t.marksIdle == u.marksIdle
    ensures CloseStage(env, worker, t) == CloseStage(env, worker, u)
  {
    hide Finish, Abort;
  }

  lemma DrainedReads(env: Environment, m: Metadata, worker: Worker, t: Tick, u: Tick)
    requires WorkerUsable(worker)
    requires t == u.(closingAndEmpty := t.closingAndEmpty, dropsAtClose := t.dropsAtClose,
                     closingUnopened := t.closingUnopened, marksIdleAgain := t.marksIdleAgain)
    ensures Drained(env, m, worker, t) == Drained(env, m, worker, u)
  {
    hide OpenStage, DrainStage;
    OpenReads(env, m, worker, t, u);
    DrainReads(env, OpenStage(env, m, worker, u).worker, t, u);
  }

  lemma EndedReads(env: Environment, m: Metadata, worker: Worker, t: Tick, u: Tick)
    requires WorkerUsable(worker)
    requires t == u.(closingUnopened := t.closingUnopened, marksIdleAgain := t.marksIdleAgain)
    ensures Ended(env, m, worker, t) == Ended(env, m, worker, u)
  {
    hide Drained, CloseStage;
    DrainedReads(env, m, worker, t, u);
    CloseReads(env, Drained(env, m, worker, u).worker, t, u);
  }

  /** Wherever the worker stands, it is where its tick, as far as it has been seen, leaves it. */
  lemma AlignedTick(env: Environment, m: Metadata, base: Worker, s: System)
    requires WorkerUsable(base) && Aligned(env, m, base, s)
    ensures TickOnce(env, m, base, s.tick) == s.worker
  {
    hide Begin, Write, Finish, Abort;
  }

  // ---- What holds between any two steps ----

  /** The new archives are as many as the commits, the causes reported as many as the failures. */
  ghost predicate Tallied(disk: Disk, s: System) {
    && s.worker.sessionOpen == s.control.sessionOpen
    && [disk] <= s.worker.world.storage.history
    && |s.worker.world.archives| == s.control.commits
    && (forall p :: p in s.worker.world.archives ==> p !in disk.files)
    && |s.worker.failures| == s.control.sinkFailures + s.control.refusedRecording + s.control.refusedIdle
  }

  ghost predicate GoodTicks(s: System) {
    GoodTick(s.tick) && forall t :: t in s.ticks ==> GoodTick(t)
  }

  /** The frames the ring gives are well formed. */
  ghost predicate GoodStep(step: Step) {
    step.WorkerTask? ==> AllGood(step.seen.pops)
  }

  // ---- One step ----

  /** The worker's step takes the worker on through its tick, or to the tick's end. */
  ghost predicate TakenOn(env: Environment, m: Metadata, base: Worker, s: System, seen: Seen)
    requires WorkerUsable(base) && WorkerUsable(s.worker)
  {
    var r := Next(env, m, s, WorkerTask(seen));
    && r.worker.sessionOpen == r.control.sessionOpen
    && if TickOver(s.control.place, r.control.place)
       then TickOnce(env, m, base, Noted(s.control, s.tick, seen)) == r.worker
       else Aligned(env, m, base, r)
  }

  ghost predicate Standing(env: Environment, m: Metadata, base: Worker, s: System) {
    && WorkerUsable(base) && WorkerUsable(s.worker) && Aligned(env, m, base, s)
    && C.Shaped(s.control) && s.worker.sessionOpen == s.control.sessionOpen
  }

  lemma OpenTakesOn(env: Environment, m: Metadata, base: Worker, s: System, seen: Seen)
    requires Standing(env, m, base, s)
    requires s.control.place.Top? || s.control.place.Raising? || s.control.place.Beginning?
    ensures TakenOn(env, m, base, s, seen)
  {
    hide Begin, Write, Finish, Abort, DrainStage, CloseStage;
  }

  lemma MarkTakesOn(env: Environment, m: Metadata, base: Worker, s: System, seen: Seen)
    requires Standing(env, m, base, s) && s.control.place.MarkingRecording?
    ensures TakenOn(env, m, base, s, seen)
  {
    hide Begin, Write, Finish, Abort, DrainStage, CloseStage;
  }

  lemma DrainTakesOn(env: Environment, m: Metadata, base: Worker, s: System, seen: Seen)
    requires Standing(env, m, base, s) && (s.control.place.BeforeDrain? || s.control.place.Draining?)
    ensures TakenOn(env, m, base, s, seen)
  {
    hide OpenStage, Write, Abort, CloseStage;
    OpenReads(env, m, base, Noted(s.control, s.tick, seen), s.tick);
  }

  lemma NotClosedTakesOn(env: Environment, m: Metadata, base: Worker, s: System, seen: Seen)
    requires Standing(env, m, base, s) && s.control.place.BeforeClose?
    ensures TakenOn(env, m, base, s, seen)
  {
    hide OpenStage, DrainStage, Drained, TickOnce, Finish, Abort;
  }

  lemma FinishTakesOn(env: Environment, m: Metadata, base: Worker, s: System, seen: Seen)
    requires Standing(env, m, base, s) && s.control.place.Finishing?
    ensures TakenOn(env, m, base, s, seen)
  {
    hide OpenStage, DrainStage, Drained, TickOnce, Finish, Abort;
    var t := Noted(s.control, s.tick, seen);
    DrainedReads(env, m, base, t, s.tick);
    TickEnds(env, m, base, t);
  }

  lemma EndTakesOn(env: Environment, m: Metadata, base: Worker, s: System, seen: Seen)
    requires Standing(env, m, base, s)
    requires s.control.place.MarkingIdle? || s.control.place.BeforeDiscard? || s.control.place.Discarding?
    ensures TakenOn(env, m, base, s, seen)
  {
    hide OpenStage, DrainStage, CloseStage, Ended, TickOnce;
    var t := Noted(s.control, s.tick, seen);
    EndedReads(env, m, base, t, s.tick);
    TickEnds(env, m, base, t);
  }

  // ---- Commits and causes ----

  /** What the sink commits is on no card it began with. */
  lemma CommitIsNew(disk: Disk, w: World)
    requires Safe(w) && w.sink.file.Stream? && [disk] <= w.storage.history
    ensures w.sink.committedPath !in disk.files && w.sink.committedPath !in w.archives
  {
    hide StreamsMatch, DirectoriesExist, OthersWritten;
    var h := w.storage.history;
    PathKinds(w.sink.directory);
    assert Kept(h[0], h[|h| - 1]);
  }

  /** Of the commits and the causes, as many more as the control counts. */
  ghost predicate OneOutcome(disk: Disk, s: System, r: System) {
    && |r.worker.failures| - |s.worker.failures|
       == r.control.sinkFailures + r.control.refusedRecording + r.control.refusedIdle
          - (s.control.sinkFailures + s.control.refusedRecording + s.control.refusedIdle)
    && if r.control.commits == s.control.commits then r.worker.world.archives == s.worker.world.archives
       else && r.control.commits == s.control.commits + 1
            && var w := s.worker.world;
               && w.sink.committedPath !in w.archives && w.sink.committedPath !in disk.files
               && w.sink.committedPath in r.worker.world.archives
               && r.worker.world.archives
                  == w.archives[w.sink.committedPath := r.worker.world.archives[w.sink.committedPath]]
  }

  ghost predicate Working(disk: Disk, s: System) {
    && Disciplined(s.worker) && WorkerUsable(s.worker) && [disk] <= s.worker.world.storage.history
    && C.Shaped(s.control) && s.worker.sessionOpen == s.control.sessionOpen
    && s.tick.marksRecording && s.tick.marksIdle && s.tick.marksIdleAgain
  }

  lemma BeginOutcome(env: Environment, m: Metadata, disk: Disk, s: System, seen: Seen)
    requires Working(disk, s) && s.control.place.Beginning?
    ensures OneOutcome(disk, s, Next(env, m, s, WorkerTask(seen)))
  {
    hide OpenStage, DrainStage, CloseStage, Disciplined;
    RecordingSurvival.OpenAccounted(env, m, s.worker, Noted(s.control, s.tick, seen));
  }

  lemma DrainOutcome(env: Environment, m: Metadata, disk: Disk, s: System, seen: Seen)
    requires Working(disk, s) && s.control.place.Draining?
    ensures OneOutcome(disk, s, Next(env, m, s, WorkerTask(seen)))
  {
    hide OpenStage, DrainStage, CloseStage, Disciplined;
    RecordingSurvival.DrainAccounted(env, m, s.worker, Noted(s.control, s.tick, seen));
  }

  lemma FinishOutcome(env: Environment, m: Metadata, disk: Disk, s: System, seen: Seen)
    requires Working(disk, s) && s.control.place.Finishing?
    ensures OneOutcome(disk, s, Next(env, m, s, WorkerTask(seen)))
  {
    hide OpenStage, DrainStage, Finish, Safe, ArchivesWhole, FileSound, GoodLog;
    var w := s.worker.world;
    CommitIsNew(disk, w);
    SinkRuns.FinishOutcome(env, w, (seen.drops - s.worker.dropsAtOpen) % 0x1_0000_0000);
  }

  lemma MarkOutcome(env: Environment, m: Metadata, disk: Disk, s: System, seen: Seen)
    requires Working(disk, s) && s.control.place.MarkingRecording?
    ensures OneOutcome(disk, s, Next(env, m, s, WorkerTask(seen)))
  {
    hide OpenStage, DrainStage, CloseStage, Disciplined;
  }

  /** Nothing ends at the other places. */
  predicate Uneventful(place: C.Place) {
    !place.Beginning? && !place.MarkingRecording? && !place.Draining? && !place.Finishing?
  }

  lemma NothingWorked(env: Environment, m: Metadata, s: System, seen: Seen)
    requires WorkerUsable(s.worker) && C.Shaped(s.control) && Uneventful(s.control.place)
    requires s.tick.marksIdle && s.tick.marksIdleAgain
    ensures Worked(env, m, s, Noted(s.control, s.tick, seen)).worker == s.worker
  {
  }

  lemma NothingCounted(c: C.Control, succeeds: bool)
    requires C.Shaped(c) && Uneventful(c.place)
    ensures var r := C.Next(c, C.Worker(succeeds));
            && r.commits == c.commits && r.sinkFailures == c.sinkFailures
            && r.refusedRecording == c.refusedRecording && r.refusedIdle == c.refusedIdle
  {
  }

  lemma OtherOutcome(env: Environment, m: Metadata, disk: Disk, s: System, seen: Seen)
    requires Working(disk, s) && Uneventful(s.control.place)
    ensures OneOutcome(disk, s, Next(env, m, s, WorkerTask(seen)))
  {
    hide Worked, C.Next, Noted, Disciplined, C.Shaped;
    NothingWorked(env, m, s, seen);
    NothingCounted(s.control, Answer(env, m, s, seen));
  }

  // ---- Every step ----

  lemma OneOutcomeTallied(disk: Disk, s: System, r: System)
    requires Tallied(disk, s) && OneOutcome(disk, s, r) && r.worker.sessionOpen == r.control.sessionOpen
    requires s.worker.world.storage.history <= r.worker.world.storage.history
    ensures Tallied(disk, r)
  {
  }

  lemma HistoryGrows(env: Environment, m: Metadata, s: System, step: Step)
    requires WorkerUsable(s.worker)
    ensures s.worker.world.storage.history <= Next(env, m, s, step).worker.world.storage.history
  {
    hide OpenStage, DrainStage, CloseStage, Abort, C.Next, Noted;
  }

  lemma WorkerOutcome(env: Environment, m: Metadata, disk: Disk, s: System, seen: Seen)
    requires Working(disk, s)
    ensures OneOutcome(disk, s, Next(env, m, s, WorkerTask(seen)))
  {
    hide Working, OneOutcome;
    match s.control.place
    case Beginning => BeginOutcome(env, m, disk, s, seen);
    case MarkingRecording => MarkOutcome(env, m, disk, s, seen);
    case Draining => DrainOutcome(env, m, disk, s, seen);
    case Finishing => FinishOutcome(env, m, disk, s, seen);
    case _ => OtherOutcome(env, m, disk, s, seen);
  }

  lemma WorkerTakesOn(env: Environment, m: Metadata, base: Worker, s: System, seen: Seen)
    requires Standing(env, m, base, s)
    ensures TakenOn(env, m, base, s, seen)
  {
    hide Standing, TakenOn;
    match s.control.place
    case MarkingRecording => MarkTakesOn(env, m, base, s, seen);
    case BeforeDrain => DrainTakesOn(env, m, base, s, seen);
    case Draining => DrainTakesOn(env, m, base, s, seen);
    case BeforeClose => NotClosedTakesOn(env, m, base, s, seen);
    case Finishing => FinishTakesOn(env, m, base, s, seen);
    case MarkingIdle => EndTakesOn(env, m, base, s, seen);
    case BeforeDiscard => EndTakesOn(env, m, base, s, seen);
    case Discarding => EndTakesOn(env, m, base, s, seen);
    case _ => OpenTakesOn(env, m, base, s, seen);
  }

  /** The worker's ticks so far, on a card as it was found. */
  ghost function Begun(env: Environment, m: Metadata, disk: Disk, s: System): (worker: Worker)
    ensures WorkerUsable(worker)
  {
    Ticks(env, m, Idle(disk), s.ticks)
  }

  ghost predicate Joined(env: Environment, m: Metadata, disk: Disk, s: System) {
    && Standing(env, m, Begun(env, m, disk, s), s)
    && C.Coherent(s.control) && GoodTicks(s) && Tallied(disk, s)
  }

  /** The worker is what its ticks make of it: those that are over, and the one it is in as far as it has come. */
  lemma WorkerProjects(env: Environment, m: Metadata, disk: Disk, s: System)
    requires Joined(env, m, disk, s)
    ensures Ticks(env, m, Idle(disk), s.ticks + [s.tick]) == s.worker
  {
    hide Ticks, TickOnce, GoodTicks, Tallied, C.Coherent;
    AlignedTick(env, m, Begun(env, m, disk, s), s);
    TicksSnoc(env, m, Idle(disk), s.ticks, s.tick);
  }

  lemma JoinedDisciplined(env: Environment, m: Metadata, disk: Disk, s: System)
    requires SinkRuns.FoundDisk(disk) && Joined(env, m, disk, s)
    ensures Disciplined(s.worker)
  {
    hide Disciplined, Ticks, GoodTick, Standing, Tallied, C.Coherent;
    IdleDisciplined(disk);
    WorkerProjects(env, m, disk, s);
    TicksDisciplined(env, m, Idle(disk), s.ticks + [s.tick]);
  }

  lemma JoinedWorking(env: Environment, m: Metadata, disk: Disk, s: System)
    requires SinkRuns.FoundDisk(disk) && Joined(env, m, disk, s)
    ensures Working(disk, s)
  {
    hide Disciplined, Ticks, OpenStage, Drained, Ended, GoodTick;
    JoinedDisciplined(env, m, disk, s);
  }

  lemma UnseenGood()
    ensures GoodTick(UNSEEN)
  {
    hide GoodFrame;
    assert UNSEEN.pops == [];
  }

  lemma NotedGood(c: C.Control, t: Tick, seen: Seen)
    requires GoodTick(t) && AllGood(seen.pops)
    ensures GoodTick(Noted(c, t, seen)) && GoodTick(UNSEEN)
  {
    hide Noted, AllGood;
    UnseenGood();
  }

  lemma StepGood(env: Environment, m: Metadata, s: System, seen: Seen)
    requires WorkerUsable(s.worker) && GoodTicks(s) && AllGood(seen.pops)
    ensures GoodTicks(Next(env, m, s, WorkerTask(seen)))
  {
    hide GoodTick, AllGood, Worked, C.Next, Noted, TickOver;
    NotedGood(s.control, s.tick, seen);
  }

  /** Over the end of a tick, the next one begins where it ended. */
  lemma StandsAgain(env: Environment, m: Metadata, disk: Disk, s: System, seen: Seen)
    requires WorkerUsable(s.worker) && TakenOn(env, m, Begun(env, m, disk, s), s, seen)
    requires C.Shaped(Next(env, m, s, WorkerTask(seen)).control)
    ensures var r := Next(env, m, s, WorkerTask(seen)); Standing(env, m, Begun(env, m, disk, r), r)
  {
    hide Worked, C.Next, Noted, C.Shaped, Ticks, TickOnce, OpenStage, Drained, Ended;
    TicksSnoc(env, m, Idle(disk), s.ticks, Noted(s.control, s.tick, seen));
  }

  lemma JoinedParts(env: Environment, m: Metadata, disk: Disk, s: System)
    ensures Joined(env, m, disk, s)
       <==> Standing(env, m, Begun(env, m, disk, s), s) && C.Coherent(s.control) && GoodTicks(s) && Tallied(disk, s)
  {
    hide Begun, Standing, C.Coherent, GoodTicks, Tallied;
  }

  lemma StandingParts(env: Environment, m: Metadata, base: Worker, s: System)
    requires Standing(env, m, base, s)
    ensures WorkerUsable(base) && WorkerUsable(s.worker) && C.Shaped(s.control)
  {
    hide Aligned, C.Shaped;
  }

  lemma SessionsAgree(env: Environment, m: Metadata, base: Worker, s: System, seen: Seen)
    requires WorkerUsable(base) && WorkerUsable(s.worker) && TakenOn(env, m, base, s, seen)
    ensures var r := Next(env, m, s, WorkerTask(seen)); r.worker.sessionOpen == r.control.sessionOpen
  {
    hide Next, Aligned, TickOnce;
  }

  lemma CoherentShaped(c: C.Control)
    requires C.Coherent(c)
    ensures C.Shaped(c)
  {
    hide C.Shaped;
  }

  lemma ControlOfNext(env: Environment, m: Metadata, s: System, step: Step)
    requires WorkerUsable(s.worker)
    ensures Next(env, m, s, step).control == C.Next(s.control, ControlStep(env, m, s, step))
  {
    hide C.Next, Worked, Noted;
  }

  lemma WorkerJoined(env: Environment, m: Metadata, disk: Disk, s: System, seen: Seen)
    requires SinkRuns.FoundDisk(disk) && Joined(env, m, disk, s) && AllGood(seen.pops)
    ensures WorkerUsable(s.worker) && Joined(env, m, disk, Next(env, m, s, WorkerTask(seen)))
  {
    hide *;
    var base := Begun(env, m, disk, s);
    JoinedParts(env, m, disk, s);
    StandingParts(env, m, base, s);
    JoinedWorking(env, m, disk, s);
    var step := WorkerTask(seen);
    var r := Next(env, m, s, step);
    C.NextCoherent(s.control, ControlStep(env, m, s, step));
    ControlOfNext(env, m, s, step);
    CoherentShaped(r.control);
    WorkerTakesOn(env, m, base, s, seen);
    SessionsAgree(env, m, base, s, seen);
    StandsAgain(env, m, disk, s, seen);
    WorkerOutcome(env, m, disk, s, seen);
    HistoryGrows(env, m, s, step);
    OneOutcomeTallied(disk, s, r);
    StepGood(env, m, s, seen);
    JoinedParts(env, m, disk, r);
  }

  lemma OthersJoined(env: Environment, m: Metadata, disk: Disk, s: System, step: OtherStep)
    requires Joined(env, m, disk, s)
    ensures WorkerUsable(s.worker) && Joined(env, m, disk, Next(env, m, s, Others(step)))
  {
    hide GoodTick, OpenStage, Drained, Ended, Ticks, C.Coherent, C.Shaped, C.Next;
    C.NextCoherent(s.control, step);
    CoherentShaped(C.Next(s.control, step));
    OthersCount(s.control, step);
  }

  /** The control task and the callbacks leave the worker's part of the control to the worker. */
  lemma OthersCount(c: C.Control, step: OtherStep)
    ensures var r := C.Next(c, step);
            && r.place == c.place && r.sessionOpen == c.sessionOpen && r.commits == c.commits
            && r.sinkFailures == c.sinkFailures && r.refusedRecording == c.refusedRecording
            && r.refusedIdle == c.refusedIdle
  {
  }

  lemma NextJoined(env: Environment, m: Metadata, disk: Disk, s: System, step: Step)
    requires SinkRuns.FoundDisk(disk) && Joined(env, m, disk, s) && GoodStep(step)
    ensures WorkerUsable(s.worker) && Joined(env, m, disk, Next(env, m, s, step))
  {
    hide Joined, Next;
    match step
    case Others(other) => OthersJoined(env, m, disk, s, other);
    case WorkerTask(seen) => WorkerJoined(env, m, disk, s, seen);
  }

  lemma StartJoined(env: Environment, m: Metadata, disk: Disk)
    ensures Joined(env, m, disk, PowerOn(disk))
  {
    hide C.Coherent, GoodTick;
    C.StartCoherent();
    CoherentShaped(C.START);
    UnseenGood();
  }

  // ---- Every run ----

  ghost function ControlSteps(env: Environment, m: Metadata, s: System, steps: seq<Step>): seq<C.Step>
    requires WorkerUsable(s.worker)
    decreases |steps|
  {
    if steps == [] then []
    else [ControlStep(env, m, s, steps[0])] + ControlSteps(env, m, Next(env, m, s, steps[0]), steps[1..])
  }

  lemma {:induction false} ControlProjects(env: Environment, m: Metadata, s: System, steps: seq<Step>)
    requires WorkerUsable(s.worker)
    ensures C.Run(s.control, ControlSteps(env, m, s, steps)) == Run(env, m, s, steps).control
    decreases |steps|
  {
    hide Next, ControlStep, C.Next;
    if steps != [] {
      var next := Next(env, m, s, steps[0]);
      ControlOfNext(env, m, s, steps[0]);
      ControlProjects(env, m, next, steps[1..]);
      assert ControlSteps(env, m, s, steps)[1..] == ControlSteps(env, m, next, steps[1..]);
    }
  }

  lemma {:induction false} RunJoined(env: Environment, m: Metadata, disk: Disk, s: System, steps: seq<Step>)
    requires SinkRuns.FoundDisk(disk) && Joined(env, m, disk, s) && forall step :: step in steps ==> GoodStep(step)
    ensures WorkerUsable(s.worker) && Joined(env, m, disk, Run(env, m, s, steps))
    decreases |steps|
  {
    hide Joined, Next, GoodStep;
    if steps == [] {
      JoinedUsable(env, m, disk, s);
    } else {
      NextJoined(env, m, disk, s, steps[0]);
      RunJoined(env, m, disk, Next(env, m, s, steps[0]), steps[1..]);
    }
  }

  lemma JoinedUsable(env: Environment, m: Metadata, disk: Disk, s: System)
    requires Joined(env, m, disk, s)
    ensures WorkerUsable(s.worker) && GoodTicks(s)
  {
    hide Begun, Aligned, C.Shaped, C.Coherent, GoodTicks, Tallied;
  }

  /** Every run of the system is one of the control, and one of the worker: all that is proved of either
      under any answers and any inputs holds of both together. */
  lemma RunProjects(env: Environment, m: Metadata, disk: Disk, steps: seq<Step>)
    requires SinkRuns.FoundDisk(disk) && forall step :: step in steps ==> GoodStep(step)
    ensures var r := Run(env, m, PowerOn(disk), steps);
            && r.control == C.Run(C.START, ControlSteps(env, m, PowerOn(disk), steps))
            && r.worker == Ticks(env, m, Idle(disk), r.ticks + [r.tick])
            && (forall t :: t in r.ticks + [r.tick] ==> GoodTick(t))
  {
    hide Run, Joined, Ticks, GoodStep, GoodTick, ControlSteps;
    var r := Run(env, m, PowerOn(disk), steps);
    StartJoined(env, m, disk);
    RunJoined(env, m, disk, PowerOn(disk), steps);
    ControlProjects(env, m, PowerOn(disk), steps);
    WorkerProjects(env, m, disk, r);
    JoinedUsable(env, m, disk, r);
  }

  /** The recordings on a card that were not there when it was found. */
  ghost function NewArchives(found: Disk, now: Disk): set<string> {
    set p | p in now.files && IsArchive(p) && p !in found.files
  }

  lemma ArchivesAreNew(disk: Disk, w: World)
    requires Safe(w) && [disk] <= w.storage.history && forall p :: p in w.archives ==> p !in disk.files
    ensures NewArchives(disk, w.storage.disk) == w.archives.Keys
    ensures |NewArchives(disk, w.storage.disk)| == |w.archives|
  {
    hide StreamsMatch, Placed, DirectoriesExist, OthersWritten, HistoryKept, IsArchive;
    assert w.storage.history[0] == disk;
  }

  /** The file holds one whole recording of well-formed frames, all of it durable. */
  ghost predicate HoldsRecording(file: File, archive: Archive) {
    && GoodLog(archive.log) && AllAppendable(archive.log.batches)
    && file == File(RecordingBytes(archive.log.header, archive.log.batches, archive.producerDrops), [])
  }

  lemma ArchivesHold(w: World)
    requires Sound(w) && GoodArchives(w.archives)
    ensures forall p :: p in w.archives ==> p in w.storage.disk.files
                                            && HoldsRecording(w.storage.disk.files[p], w.archives[p])
  {
    hide Safe, FileSound, AllGoodBatches, Standard, AllAppendable, RecordingBytes;
  }

  /** On any card, over every interleaving of the three tasks and whatever fails: the commits the control
      counts are the new archives on the card, no more and no fewer, each one whole recording; every session
      asked for is one of them, or ended with one reported cause, or was cancelled unseen, or is still in
      progress; every cause is one alert, but for those of starts refused for want of a recorder; and the
      sink holds a stream exactly while the worker's session is open. */
  lemma SessionsOnCard(env: Environment, m: Metadata, disk: Disk, steps: seq<Step>)
    requires SinkRuns.FoundDisk(disk) && forall step :: step in steps ==> GoodStep(step)
    ensures var r := Run(env, m, PowerOn(disk), steps);
            var c, w, failures := r.control, r.worker.world, |r.worker.failures|;
            var added := NewArchives(disk, w.storage.disk);
            && |added| == c.commits
            && (forall p :: p in added ==> p in w.archives && HoldsRecording(w.storage.disk.files[p], w.archives[p]))
            && c.starts == |added| + failures + c.cancelled + C.Count(C.InProgress(c))
            && c.alerts + C.Count(c.place.Raising?) == failures + c.refusals
            && (w.sink.file.Stream? <==> c.sessionOpen)
  {
    hide Run, Joined, GoodStep, Begun, Standing, Sound, Disciplined, ControlSteps, C.Run, HoldsRecording;
    var r := Run(env, m, PowerOn(disk), steps);
    StartJoined(env, m, disk);
    RunJoined(env, m, disk, PowerOn(disk), steps);
    JoinedDisciplined(env, m, disk, r);
    JoinedParts(env, m, disk, r);
    DisciplinedParts(r.worker);
    ArchivesAreNew(disk, r.worker.world);
    ArchivesHold(r.worker.world);
    ControlProjects(env, m, PowerOn(disk), steps);
    C.EverySessionAccounted(ControlSteps(env, m, PowerOn(disk), steps));
  }

  lemma DisciplinedParts(worker: Worker)
    requires Disciplined(worker)
    ensures Sound(worker.world) && Safe(worker.world) && GoodArchives(worker.world.archives)
    ensures worker.world.sink.file.Stream? <==> worker.sessionOpen
  {
    hide Safe, FileSound, ArchivesWhole, GoodLog;
  }
}
