/** The lifecycle gate of src/main.cpp: what must have happened before the control loop may run. */
module Lifecycle {
  const MINIMUM_US: nat := 3_000_000
  const TIMEOUT_US: nat := 5_000_000

  /** What one tick of the start-up self-check finds: the time since it began, whether every required
      device has answered by then, and the faults it would end with. */
  datatype Sample = Sample(elapsedUs: nat, allObserved: bool, faults: bv32)

  /** What the robot finds at start-up. `samples` reach the self-check's timeout by the `bound`-th. */
  datatype Boot = Boot(
    configValid: bool, driveInitializes: bool, imuInstalled: bool, calibrationStarts: bool,
    outputTaskCreated: bool, hmiTaskCreated: bool, telemetryTaskCreated: bool,
    samples: nat -> Sample, bound: nat)
  {
    ghost predicate Timed() {
      samples(bound).elapsedUs >= TIMEOUT_US
    }

    predicate HardwareInitializes() {
      configValid && driveInitializes
    }

    /** A fault no sample can cure: the self-check waits no longer than its minimum. */
    predicate Hopeless() {
      !configValid || !HardwareInitializes() || !imuInstalled || !(imuInstalled && calibrationStarts)
    }

    /** StartupSelfCheck completes with this sample, if it has not before. */
    predicate CompletesAt(n: nat) {
      var s := samples(n);
      s.elapsedUs >= MINIMUM_US && (s.allObserved || Hopeless() || s.elapsedUs >= TIMEOUT_US)
    }

    predicate Healthy(n: nat) {
      samples(n).faults == 0
    }
  }

  /** The first sample, from the n-th on, with which the self-check completes. */
  function Completion(b: Boot, n: nat): (k: nat)
    requires b.Timed() && n <= b.bound
    ensures n <= k <= b.bound && b.CompletesAt(k)
    ensures forall i :: n <= i < k ==> !b.CompletesAt(i)
    decreases b.bound - n
  {
    if b.CompletesAt(n) then n else Completion(b, n + 1)
  }

  /** When the self-check ends: never before three seconds; by the first sample after five; as soon as every
      required device has answered, if that is in between; and at three seconds already if nothing can help. */
  lemma CheckTiming(b: Boot)
    requires b.Timed()
    ensures var k := Completion(b, 0);
            && b.samples(k).elapsedUs >= 3_000_000
            && (b.samples(k).elapsedUs >= 5_000_000 || b.samples(k).allObserved
                || !b.configValid || !b.driveInitializes || !b.imuInstalled || !b.calibrationStarts)
            && forall i :: 0 <= i < k ==>
                 && b.samples(i).elapsedUs < 5_000_000
                 && (b.samples(i).elapsedUs >= 3_000_000 ==>
                       && !b.samples(i).allObserved && b.configValid && b.driveInitializes
                       && b.imuInstalled && b.calibrationStarts)
  {
    hide Completion;
    forall i | 0 <= i < Completion(b, 0)
      ensures b.samples(i).elapsedUs < 5_000_000
      ensures b.samples(i).elapsedUs >= 3_000_000 ==>
                && !b.samples(i).allObserved && b.configValid && b.driveInitializes && b.imuInstalled
                && b.calibrationStarts
    {
      assert !b.CompletesAt(i);
    }
  }

  // ---- The callbacks, as functions of the program's state ----

  /** What the program does, in the order it does it. */
  datatype Event =
    | HardwareTried(ok: bool) | OutputTaskTried(ok: bool) | HmiTaskTried(ok: bool) | TelemetryTaskTried(ok: bool)
    | RobotDisabled | SelfCheckCompleted(healthy: bool) | AlertPublished | ControlEntered

  datatype Runtime = NoRuntime | Runtime(configValid: bool, hardwareInitialized: bool, selfCheckComplete: bool,
                                         recorderAvailable: bool)

  /** The program's global pointers, and all it has done so far. */
  datatype Program = Program(runtime: Runtime, outputTask: bool, hmiTask: bool, telemetryTask: bool, events: seq<Event>)

  const POWER_ON: Program := Program(NoRuntime, false, false, false, [])

  datatype Callback = Initialize(boot: Boot) | Disabled | CompetitionInitialize | Autonomous | Opcontrol

  /** The self-check disables the robot first, and publishes an alert last, if it is unhealthy. */
  function SelfCheckEvents(healthy: bool): seq<Event> {
    [RobotDisabled, SelfCheckCompleted(healthy)] + if healthy then [] else [AlertPublished]
  }

  /** An output task is created only once the hardware is initialised, the other tasks always. */
  function TaskEvents(b: Boot, hardwareInitialized: bool): (events: seq<Event>)
    ensures |events| >= 2
  {
    (if hardwareInitialized then [OutputTaskTried(b.outputTaskCreated)] else [])
    + [HmiTaskTried(b.hmiTaskCreated), TelemetryTaskTried(b.telemetryTaskCreated)]
  }

  /** All tasks are created before the self-check. */
  function StartEvents(b: Boot): (events: seq<Event>)
    requires b.Timed()
    ensures |events| >= 5
  {
    [HardwareTried(b.HardwareInitializes())] + TaskEvents(b, b.HardwareInitializes())
    + SelfCheckEvents(b.Healthy(Completion(b, 0)))
  }

  /** An output task from an earlier initialisation stays if the hardware fails in a later one. */
  function Initialized(p: Program, b: Boot): Program
    requires b.Timed()
  {
    Program(Runtime(b.configValid, b.HardwareInitializes(), true, b.telemetryTaskCreated),
            if b.HardwareInitializes() then b.outputTaskCreated else p.outputTask,
            b.hmiTaskCreated, b.telemetryTaskCreated, p.events + StartEvents(b))
  }

  /** The line shown after a start-up: the first thing missing. */
  function StatusLine(hardware: bool, outputTask: bool, hmiTask: bool, telemetryTask: bool, healthy: bool): string {
    if !hardware then "CONFIG/HARDWARE ERROR"
    else if !outputTask then "OUTPUT TASK ERROR"
    else if !hmiTask then "CONTROLLER HMI ERROR"
    else if !telemetryTask then "RECORDER TASK ERROR"
    else if !healthy then "READY: SENSOR WARNING"
    else "READY: SELF CHECK OK"
  }

  /** Each line is shown for what it says, and only then. */
  lemma LinesMean(hardware: bool, outputTask: bool, hmiTask: bool, telemetryTask: bool, healthy: bool)
    ensures var line := StatusLine(hardware, outputTask, hmiTask, telemetryTask, healthy);
            && (line == "CONFIG/HARDWARE ERROR" <==> !hardware)
            && (line == "OUTPUT TASK ERROR" <==> hardware && !outputTask)
            && (line == "CONTROLLER HMI ERROR" <==> hardware && outputTask && !hmiTask)
            && (line == "RECORDER TASK ERROR" <==> hardware && outputTask && hmiTask && !telemetryTask)
            && (line == "READY: SENSOR WARNING" <==> hardware && outputTask && hmiTask && telemetryTask && !healthy)
            && (line == "READY: SELF CHECK OK" <==> hardware && outputTask && hmiTask && telemetryTask && healthy)
  {
    assert |"CONFIG/HARDWARE ERROR"| == |"READY: SENSOR WARNING"| == 21 && "CONFIG/HARDWARE ERROR"[0] == 'C';
    assert "READY: SENSOR WARNING"[0] == 'R' && |"OUTPUT TASK ERROR"| == 17 && |"RECORDER TASK ERROR"| == 19;
    assert |"CONTROLLER HMI ERROR"| == |"READY: SELF CHECK OK"| == 20 && "CONTROLLER HMI ERROR"[0] == 'C';
  }

  predicate Ready(p: Program) {
    p.runtime.Runtime? && p.runtime.hardwareInitialized && p.runtime.selfCheckComplete
  }

  ghost predicate Possible(c: Callback) {
    c.Initialize? ==> c.boot.Timed()
  }

  function Called(p: Program, c: Callback): Program
    requires Possible(c)
  {
    match c
    case Initialize(b) => Initialized(p, b)
    case Opcontrol => if Ready(p) && p.outputTask && p.hmiTask then p.(events := p.events + [ControlEntered]) else p
    case _ => if p.runtime.Runtime? then p.(events := p.events + [RobotDisabled]) else p
  }

  ghost predicate AllPossible(calls: seq<Callback>) {
    forall c :: c in calls ==> Possible(c)
  }

  function AllCalled(p: Program, calls: seq<Callback>): Program
    requires AllPossible(calls)
  {
    if calls == [] then p else Called(AllCalled(p, calls[..|calls| - 1]), calls[|calls| - 1])
  }

  datatype Start = Never | Last(boot: Boot)

  /** The start-up that the program runs on. */
  function LastStart(calls: seq<Callback>): Start {
    if calls == [] then Never
    else if calls[|calls| - 1].Initialize? then Last(calls[|calls| - 1].boot)
    else LastStart(calls[..|calls| - 1])
  }

  ghost predicate Reflects(p: Program, start: Start) {
    match start
    case Never => p.runtime.NoRuntime? && !p.outputTask && !p.hmiTask
    case Last(b) =>
      && p.runtime == Runtime(b.configValid, b.HardwareInitializes(), true, b.telemetryTaskCreated)
      && (b.HardwareInitializes() ==> p.outputTask == b.outputTaskCreated)
      && p.hmiTask == b.hmiTaskCreated
  }

  lemma {:induction false} ProgramReflectsStart(calls: seq<Callback>)
    requires AllPossible(calls)
    ensures Reflects(AllCalled(POWER_ON, calls), LastStart(calls))
    decreases |calls|
  {
    hide StartEvents;
    if calls != [] {
      ProgramReflectsStart(calls[..|calls| - 1]);
    }
  }

  predicate Drivable(b: Boot) {
    b.configValid && b.driveInitializes && b.outputTaskCreated && b.hmiTaskCreated
  }

  /** After any sequence of callbacks, driver control enters the control loop exactly if the last start-up
      found a valid configuration, initialised the drive and created the output and controller tasks; a
      missing telemetry task or an unhealthy self-check does not matter. */
  lemma {:induction false} ControlGate(calls: seq<Callback>)
    requires AllPossible(calls)
    ensures AllPossible(calls + [Opcontrol])
    ensures var before := AllCalled(POWER_ON, calls); var after := AllCalled(POWER_ON, calls + [Opcontrol]);
            if LastStart(calls).Last? && Drivable(LastStart(calls).boot)
            then after.events == before.events + [ControlEntered] else after == before
  {
    ProgramReflectsStart(calls);
    assert (calls + [Opcontrol])[..|calls|] == calls;
  }

  /** And any other callback but a start-up disables the robot, if there has been one, and changes nothing else. */
  lemma OthersDisable(calls: seq<Callback>, c: Callback)
    requires AllPossible(calls) && !c.Initialize? && !c.Opcontrol?
    ensures AllPossible(calls + [c])
    ensures var before := AllCalled(POWER_ON, calls);
            AllCalled(POWER_ON, calls + [c])
            == if LastStart(calls).Last? then before.(events := before.events + [RobotDisabled]) else before
  {
    ProgramReflectsStart(calls);
    assert (calls + [c])[..|calls|] == calls;
  }

  /** What a start-up does, in order: the hardware first, an output task only if that is ready, the other two tasks
      always, then the robot is disabled and its self-check completed, and last, only if that failed, an alert. */
  lemma StartInOrder(b: Boot)
    requires b.Timed()
    ensures var e, ready, healthy := StartEvents(b), b.configValid && b.driveInitializes, b.Healthy(Completion(b, 0));
            var tasks := if ready then 2 else 1;
            && |e| == tasks + (if healthy then 4 else 5)
            && e[0] == HardwareTried(ready) && (ready ==> e[1] == OutputTaskTried(b.outputTaskCreated))
            && e[tasks] == HmiTaskTried(b.hmiTaskCreated) && e[tasks + 1] == TelemetryTaskTried(b.telemetryTaskCreated)
            && e[tasks + 2] == RobotDisabled && e[tasks + 3] == SelfCheckCompleted(healthy)
            && (!healthy ==> e[tasks + 4] == AlertPublished)
  {
    hide Completion;
  }

  /** The start-up's events are the ones from the i-th on, and after them, up to the n-th, the robot has only
      been disabled or driven. */
  ghost predicate StartedAt(events: seq<Event>, n: nat, b: Boot, i: nat)
    requires n <= |events| && b.Timed()
  {
    var end := i + |StartEvents(b)|;
    && end <= n && events[i..end] == StartEvents(b)
    && forall k :: end <= k < n ==> events[k] == RobotDisabled || events[k] == ControlEntered
  }

  ghost predicate StartedBefore(events: seq<Event>, n: nat, b: Boot)
    requires n <= |events| && b.Timed()
  {
    exists i: nat :: StartedAt(events, n, b, i)
  }

  lemma StartedSnoc(events: seq<Event>, n: nat, b: Boot, more: seq<Event>)
    requires b.Timed() && n <= |events| && StartedBefore(events, n, b)
    ensures StartedBefore(events + more, n, b)
  {
    hide StartEvents;
    var i: nat :| StartedAt(events, n, b, i);
    var end := i + |StartEvents(b)|;
    assert (events + more)[i..end] == events[i..end];
    assert StartedAt(events + more, n, b, i);
  }

  lemma StartedLonger(events: seq<Event>, b: Boot, e: Event)
    requires b.Timed() && StartedBefore(events, |events|, b) && (e == RobotDisabled || e == ControlEntered)
    ensures StartedBefore(events + [e], |events + [e]|, b)
  {
    hide StartEvents;
    var i: nat :| StartedAt(events, |events|, b, i);
    var end := i + |StartEvents(b)|;
    assert (events + [e])[i..end] == events[i..end];
    assert StartedAt(events + [e], |events + [e]|, b, i);
  }

  lemma JustStarted(events: seq<Event>, b: Boot)
    requires b.Timed()
    ensures StartedBefore(events + StartEvents(b), |events + StartEvents(b)|, b)
  {
    hide StartEvents;
    var all, start := events + StartEvents(b), StartEvents(b);
    assert all[|events|..|events| + |start|] == start;
    assert StartedAt(all, |all|, b, |events|);
  }

  lemma StartsWithoutControl(before: seq<Event>, b: Boot, j: nat)
    requires b.Timed() && |before| <= j < |before + StartEvents(b)|
    ensures (before + StartEvents(b))[j] != ControlEntered
  {
    assert (before + StartEvents(b))[j] == StartEvents(b)[j - |before|];
  }

  /** Wherever the control loop was entered, a start-up of a drivable robot came before, with all its events
      in order up to its completed self-check, and no other start-up in between. */
  lemma {:induction false} ControlRunsAfterCheck(calls: seq<Callback>, j: nat) returns (b: Boot)
    requires AllPossible(calls) && j < |AllCalled(POWER_ON, calls).events|
    requires AllCalled(POWER_ON, calls).events[j] == ControlEntered
    ensures b.Timed() && Drivable(b) && StartedBefore(AllCalled(POWER_ON, calls).events, j, b)
    ensures SelfCheckCompleted(b.Healthy(Completion(b, 0))) in StartEvents(b)
    decreases |calls|
  {
    hide StartEvents, StartedBefore;
    var init, last := calls[..|calls| - 1], calls[|calls| - 1];
    var before := AllCalled(POWER_ON, init);
    if j < |before.events| {
      b := ControlRunsAfterCheck(init, j);
      StartedSnoc(before.events, j, b, AllCalled(POWER_ON, calls).events[|before.events|..]);
      assert AllCalled(POWER_ON, calls).events
          == before.events + AllCalled(POWER_ON, calls).events[|before.events|..];
    } else {
      NotInStart(calls, j);
      ProgramReflectsStart(init);
      TimedStart(init);
      b := LastStart(init).boot;
      LastStartEvents(init);
      StartedSnoc(before.events, j, b, [ControlEntered]);
      SelfCheckIncluded(b);
    }
  }

  lemma NotInStart(calls: seq<Callback>, j: nat)
    requires AllPossible(calls) && calls != []
    requires |AllCalled(POWER_ON, calls[..|calls| - 1]).events| <= j < |AllCalled(POWER_ON, calls).events|
    requires AllCalled(POWER_ON, calls).events[j] == ControlEntered
    ensures calls[|calls| - 1].Opcontrol? && j == |AllCalled(POWER_ON, calls[..|calls| - 1]).events|
    ensures var p := AllCalled(POWER_ON, calls[..|calls| - 1]); Ready(p) && p.outputTask && p.hmiTask
  {
    hide StartEvents;
    var before, last := AllCalled(POWER_ON, calls[..|calls| - 1]).events, calls[|calls| - 1];
    assert last in calls;
    if last.Initialize? {
      StartsWithoutControl(before, last.boot, j);
    }
  }

  lemma SelfCheckIncluded(b: Boot)
    requires b.Timed()
    ensures SelfCheckCompleted(b.Healthy(Completion(b, 0))) in StartEvents(b)
  {
    var healthy := b.Healthy(Completion(b, 0));
    assert SelfCheckEvents(healthy)[1] == SelfCheckCompleted(healthy);
  }

  lemma {:induction false} TimedStart(calls: seq<Callback>)
    requires AllPossible(calls) && LastStart(calls).Last?
    ensures LastStart(calls).boot.Timed()
    decreases |calls|
  {
    assert calls[|calls| - 1] in calls;
    if !calls[|calls| - 1].Initialize? {
      TimedStart(calls[..|calls| - 1]);
    }
  }

  lemma {:induction false} LastStartEvents(calls: seq<Callback>)
    requires AllPossible(calls) && LastStart(calls).Last?
    ensures LastStart(calls).boot.Timed()
    ensures var events := AllCalled(POWER_ON, calls).events; StartedBefore(events, |events|, LastStart(calls).boot)
    decreases |calls|
  {
    hide StartEvents, StartedBefore;
    var init, last := calls[..|calls| - 1], calls[|calls| - 1];
    var before := AllCalled(POWER_ON, init).events;
    TimedStart(calls);
    if last.Initialize? {
      JustStarted(before, last.boot);
    } else {
      LastStartEvents(init);
      var b := LastStart(calls).boot;
      StartedLonger(before, b, RobotDisabled);
      StartedLonger(before, b, ControlEntered);
    }
  }

  // ---- The classes ----

  /** What the program has done, for the record. */
  class Journal {
    ghost var events: seq<Event>

    constructor ()
      ensures events == []
    {
      events := [];
    }

    ghost method Note(e: Event)
      modifies this
      ensures events == old(events) + [e]
    {
      events := events + [e];
    }
  }

  class RobotRuntime {
    const journal: Journal
    var configValid: bool
    var hardwareInitialized: bool
    var selfCheckComplete: bool
    var selfCheckFaults: bv32
    var recorderAvailable: bool
    var publishedAlert: bool

    constructor (journal: Journal)
      ensures this.journal == journal && State() == Runtime(false, false, false, true) && !publishedAlert
    {
      this.journal := journal;
      configValid, hardwareInitialized, selfCheckComplete, selfCheckFaults := false, false, false, 0;
      recorderAvailable, publishedAlert := true, false;
    }

    function State(): Runtime
      reads this
    {
      Runtime(configValid, hardwareInitialized, selfCheckComplete, recorderAvailable)
    }

    method InitializeHardware(b: Boot) returns (ok: bool)
      modifies this`configValid, this`hardwareInitialized, journal
      ensures configValid == b.configValid && ok == hardwareInitialized == b.HardwareInitializes()
      ensures journal.events == old(journal.events) + [HardwareTried(ok)]
    {
      configValid := b.configValid;
      hardwareInitialized := configValid && b.driveInitializes;
      ok := hardwareInitialized;
      journal.Note(HardwareTried(ok));
    }

    method ForceDisabled()
      modifies journal
      ensures journal.events == old(journal.events) + [RobotDisabled]
    {
      journal.Note(RobotDisabled);
    }

    /** The robot is disabled first; the check ends with the first sample that completes it, and only then
        publishes an alert, if it is unhealthy. */
    method RunStartupSelfCheck(b: Boot) returns (sequence: nat, healthy: bool)
      requires b.Timed() && configValid == b.configValid && hardwareInitialized == b.HardwareInitializes()
      modifies this, journal
      ensures State() == Runtime(b.configValid, b.HardwareInitializes(), true, old(recorderAvailable))
      ensures sequence == Completion(b, 0) + 1 && healthy == b.Healthy(sequence - 1)
      ensures publishedAlert == (old(publishedAlert) || !healthy) && selfCheckFaults == b.samples(sequence - 1).faults
      ensures journal.events == old(journal.events) + SelfCheckEvents(healthy)
    {
      ForceDisabled();
      var calibrationStarted := b.imuInstalled && b.calibrationStarts;
      var hopeless := !configValid || !hardwareInitialized || !b.imuInstalled || !calibrationStarted;
      sequence := 0;
      var complete := false;
      while !complete
        invariant sequence <= Completion(b, 0) + 1
        invariant complete == (sequence == Completion(b, 0) + 1)
        decreases Completion(b, 0) + 1 - sequence
      {
        var sample := b.samples(sequence);
        sequence := sequence + 1;
        var due := sample.allObserved || hopeless || sample.elapsedUs >= TIMEOUT_US;
        complete := sample.elapsedUs >= MINIMUM_US && due;
        assert complete == b.CompletesAt(sequence - 1);
      }
      selfCheckComplete := true;
      selfCheckFaults := b.samples(sequence - 1).faults;
      healthy := selfCheckFaults == 0;
      journal.Note(SelfCheckCompleted(healthy));
      if !healthy {
        publishedAlert := true;
        journal.Note(AlertPublished);
      }
    }
  }

  class RobotProgram {
    const journal: Journal
    var runtime: RobotRuntime?
    var outputTask: bool
    var hmiTask: bool
    var telemetryTask: bool

    constructor ()
      ensures runtime == null && fresh(journal) && State() == POWER_ON
    {
      journal := new Journal();
      runtime, outputTask, hmiTask, telemetryTask := null, false, false, false;
    }

    ghost predicate Valid()
      reads this, runtime
    {
      runtime != null ==> runtime.journal == journal
    }

    ghost function State(): Program
      reads this, runtime, journal
    {
      Program(if runtime == null then NoRuntime else runtime.State(), outputTask, hmiTask, telemetryTask,
              journal.events)
    }

    method CreateTasks(b: Boot, hardwareInitialized: bool)
      modifies this`outputTask, this`hmiTask, this`telemetryTask, journal
      ensures outputTask == if hardwareInitialized then b.outputTaskCreated else old(outputTask)
      ensures hmiTask == b.hmiTaskCreated && telemetryTask == b.telemetryTaskCreated
      ensures journal.events == old(journal.events) + TaskEvents(b, hardwareInitialized)
    {
      if hardwareInitialized {
        outputTask := b.outputTaskCreated;
        journal.Note(OutputTaskTried(outputTask));
      }
      hmiTask := b.hmiTaskCreated;
      journal.Note(HmiTaskTried(hmiTask));
      telemetryTask := b.telemetryTaskCreated;
      journal.Note(TelemetryTaskTried(telemetryTask));
    }

    method InitializeRobot(b: Boot) returns (line: string)
      requires Valid() && b.Timed()
      modifies this, journal
      ensures Valid() && runtime != null && fresh(runtime) && State() == Called(old(State()), Initialize(b))
      ensures runtime.publishedAlert == !b.Healthy(Completion(b, 0))
      ensures line == StatusLine(b.HardwareInitializes(), outputTask, b.hmiTaskCreated, b.telemetryTaskCreated,
                                 b.Healthy(Completion(b, 0)))
    {
      hide StatusLine, Completion, SelfCheckEvents, TaskEvents;
      var robot := new RobotRuntime(journal);
      runtime := robot;
      var hardwareInitialized := robot.InitializeHardware(b);
      CreateTasks(b, hardwareInitialized);
      robot.recorderAvailable := telemetryTask;
      var sequence, healthy := robot.RunStartupSelfCheck(b);
      line := StatusLine(hardwareInitialized, outputTask, hmiTask, telemetryTask, healthy);
    }

    /** disabled, competition_initialize and autonomous. */
    method ForceDisabled()
      requires Valid()
      modifies journal
      ensures Valid() && State() == Called(old(State()), Disabled)
    {
      if runtime != null {
        runtime.ForceDisabled();
      }
    }

    method RunOpcontrol() returns (locked: bool)
      requires Valid()
      modifies journal
      ensures Valid() && State() == Called(old(State()), Opcontrol)
      ensures locked <==> State() == old(State())
    {
      if runtime == null || !(runtime.hardwareInitialized && runtime.selfCheckComplete) || !outputTask || !hmiTask {
        return true;
      }
      journal.Note(ControlEntered);
      return false;
    }
  }
}
