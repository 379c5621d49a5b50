/** The start-up of src/main.cpp, the recording control and the alert relay as one system: all of its
    tasks interleave, and every alert comes from the recording control. */
module RobotAlerts {
  import C = RecordingControl
  import R = AlertRelay
  import L = Lifecycle

  /** `initialized` once the initialize callback has returned, `driving` while the control task runs. */
  datatype Robot = Robot(control: C.Control, relay: R.Relay, initialized: bool, driving: bool)

  function PowerOn(b: L.Boot): Robot {
    Robot(C.START.(available := b.telemetryTaskCreated), R.START, false, false)
  }

  datatype Step =
    | SelfCheckEnds
    | InitializeReturns
    | Opcontrol              // the callback, which enters the control loop if the robot is drivable
    | ControlTask(press: bool)
    | ControlTaskEnds        // on a change of mode, wherever it stands
    | StopRequested          // by any callback, and by the self-check when it begins
    | WorkerTask(succeeds: bool)
    | RelayTask(step: R.Step)

  /** A step of the recording control, and with it the alert it may count. */
  function Controlled(r: Robot, step: C.Step): Robot {
    var control := C.Next(r.control, step);
    r.(control := control, relay := if control.alerts > r.control.alerts then R.Next(r.relay, R.Alert) else r.relay)
  }

  predicate Relays(b: L.Boot, step: R.Step) {
    match step
    case Alert => false
    case SelfCheckEnds(_) => false
    case TelemetryLooks => b.telemetryTaskCreated
    case TelemetryReads => b.telemetryTaskCreated
    case TelemetryPublishes => b.telemetryTaskCreated
    case _ => b.hmiTaskCreated
  }

  function Next(b: L.Boot, r: Robot, step: Step): Robot
    requires b.Timed()
  {
    match step
    case SelfCheckEnds => r.(relay := R.Next(r.relay, R.SelfCheckEnds(b.Healthy(L.Completion(b, 0)))))
    case InitializeReturns => if r.relay.checked then r.(initialized := true) else r
    case Opcontrol => if r.initialized && L.Drivable(b) then r.(driving := true) else r
    case ControlTask(press) => if r.driving then Controlled(r, C.Observes(press)) else r
    case ControlTaskEnds => Controlled(r, C.ObserverEnds).(driving := false)
    case StopRequested => Controlled(r, C.RequestStop)
    case WorkerTask(succeeds) => if b.telemetryTaskCreated then Controlled(r, C.Worker(succeeds)) else r
    case RelayTask(relayStep) => if Relays(b, relayStep) then r.(relay := R.Next(r.relay, relayStep)) else r
  }

  function Run(b: L.Boot, r: Robot, steps: seq<Step>): Robot
    requires b.Timed()
    decreases |steps|
  {
    if steps == [] then r else Run(b, Next(b, r, steps[0]), steps[1..])
  }

  // ---- The relay's part of a run ----

  /** What one step of the system is to the relay: at most one step. */
  function Projected(b: L.Boot, r: Robot, step: Step): seq<R.Step>
    requires b.Timed()
  {
    if Next(b, r, step).relay == r.relay then []
    else
      match step
      case SelfCheckEnds => [R.SelfCheckEnds(b.Healthy(L.Completion(b, 0)))]
      case RelayTask(relayStep) => [relayStep]
      case _ => [R.Alert]
  }

  ghost function RelaySteps(b: L.Boot, r: Robot, steps: seq<Step>): seq<R.Step>
    requires b.Timed()
    decreases |steps|
  {
    if steps == [] then [] else Projected(b, r, steps[0]) + RelaySteps(b, Next(b, r, steps[0]), steps[1..])
  }

  // ---- No alert before the self-check has ended ----

  /** Nothing has been asked of the recording control. */
  ghost predicate Dormant(c: C.Control) {
    && c.state == C.Idle && c.decision == C.Undecided && !c.sessionOpen && c.alerts == 0
    && (c.place == C.Top || c.place == C.BeforeDrain || c.place == C.BeforeClose || c.place == C.BeforeDiscard)
  }

  ghost predicate Orderly(r: Robot) {
    && r.relay.alerts == r.control.alerts
    && (r.initialized ==> r.relay.checked)
    && (r.driving ==> r.initialized)
    && (!r.initialized ==> Dormant(r.control))
  }

  /** The control counts at most one alert at a time. */
  lemma OneAlertAtATime(c: C.Control, step: C.Step)
    ensures c.alerts <= C.Next(c, step).alerts <= c.alerts + 1
  {
  }

  lemma DormantStays(c: C.Control, step: C.Step)
    requires Dormant(c) && !step.Observes?
    ensures Dormant(C.Next(c, step))
  {
  }

  lemma ControlledOrderly(r: Robot, step: C.Step)
    requires Orderly(r) && (step.Observes? ==> r.initialized)
    ensures Orderly(Controlled(r, step))
    ensures Controlled(r, step).relay
         == r.relay || (Controlled(r, step).relay == R.Next(r.relay, R.Alert) && r.relay.checked)
  {
    hide C.Next;
    OneAlertAtATime(r.control, step);
    if !r.initialized {
      DormantStays(r.control, step);
    }
  }

  /** One step of the system keeps the order, and is at most one step of the relay, an alert only after
      the self-check. */
  lemma NextOrderly(b: L.Boot, r: Robot, step: Step)
    requires b.Timed() && Orderly(r)
    ensures var next := Next(b, r, step); var relaySteps := Projected(b, r, step);
            && Orderly(next)
            && R.Run(r.relay, relaySteps) == next.relay && R.AlertsAfterCheck(r.relay, relaySteps)
  {
    hide Controlled, R.Next, R.Run, R.AlertsAfterCheck;
    R.NothingRun(r.relay);
    var relaySteps := Projected(b, r, step);
    match step
    case SelfCheckEnds =>
      var check := R.SelfCheckEnds(b.Healthy(L.Completion(b, 0)));
      CheckOrTask(r, check);
      OneStep(r.relay, check);
    case InitializeReturns =>
    case Opcontrol =>
    case ControlTask(press) =>
      if r.driving {
        ControlledOrderly(r, C.Observes(press));
        AlertAfterCheck(r.relay);
      }
    case ControlTaskEnds =>
      ControlledOrderly(r, C.ObserverEnds);
      AlertAfterCheck(r.relay);
    case StopRequested =>
      ControlledOrderly(r, C.RequestStop);
      AlertAfterCheck(r.relay);
    case WorkerTask(succeeds) =>
      ControlledOrderly(r, C.Worker(succeeds));
      AlertAfterCheck(r.relay);
    case RelayTask(relayStep) =>
      if Relays(b, relayStep) {
        CheckOrTask(r, relayStep);
        OneStep(r.relay, relayStep);
      }
  }

  lemma CheckOrTask(r: Robot, step: R.Step)
    requires Orderly(r) && !step.Alert?
    ensures Orderly(r.(relay := R.Next(r.relay, step)))
  {
  }

  lemma OneStep(s: R.Relay, step: R.Step)
    requires !step.Alert?
    ensures R.Run(s, [step]) == R.Next(s, step) && R.AlertsAfterCheck(s, [step])
  {
    hide R.Next;
    R.RunOne(s, step);
    R.NoAlerts(s, [step]);
  }

  lemma AlertAfterCheck(s: R.Relay)
    ensures R.Run(s, [R.Alert]) == R.Next(s, R.Alert)
    ensures s.checked ==> R.AlertsAfterCheck(s, [R.Alert])
  {
    hide R.Next;
    R.RunOne(s, R.Alert);
    assert [R.Alert][1..] == [];
    R.NothingRun(R.Next(s, R.Alert));
  }

  lemma {:induction false} RunProjects(b: L.Boot, r: Robot, steps: seq<Step>)
    requires b.Timed() && Orderly(r)
    ensures Orderly(Run(b, r, steps))
    ensures var relaySteps := RelaySteps(b, r, steps);
            R.Run(r.relay, relaySteps) == Run(b, r, steps).relay && R.AlertsAfterCheck(r.relay, relaySteps)
    decreases |steps|
  {
    hide Orderly, Next, Projected, R.Run, R.AlertsAfterCheck;
    if steps == [] {
      R.NothingRun(r.relay);
    } else {
      var next := Next(b, r, steps[0]);
      NextOrderly(b, r, steps[0]);
      RunProjects(b, next, steps[1..]);
      R.RunConcat(r.relay, Projected(b, r, steps[0]), RelaySteps(b, next, steps[1..]));
      R.AfterCheckConcat(r.relay, Projected(b, r, steps[0]), RelaySteps(b, next, steps[1..]));
    }
  }

  /** Of the whole robot, over every interleaving from power on: the alerts relayed are those the recording
      control counts, all of them after the self-check; whenever both tasks are caught up and not overrun,
      a rumble has succeeded after the last of them, and after an unhealthy self-check; and there are never
      more rumbles than alerts and the one unhealthy self-check. */
  lemma RecordingAlertsDelivered(b: L.Boot, steps: seq<Step>)
    requires b.Timed()
    ensures var r := Run(b, PowerOn(b), steps);
            && r.relay.alerts == r.control.alerts
            && (r.control.alerts > 0 ==> r.relay.checked)
            && (R.CaughtUp(r.relay) && R.NotOverrun(r.relay) ==>
                  && (r.control.alerts > 0 ==> r.relay.lastRumble > r.relay.lastAlert)
                  && (r.relay.unhealthy ==> r.relay.lastRumble > r.relay.lastCheck))
            && r.relay.rumbles <= r.control.alerts + R.Count(r.relay.unhealthy)
  {
    hide Run, RelaySteps, R.Run, R.AlertsAfterCheck, R.CaughtUp, R.NotOverrun, R.Count;
    var start := PowerOn(b);
    StartOrderly(b);
    RunProjects(b, start, steps);
    R.RelayedState(RelaySteps(b, start, steps));
    R.NoSpuriousAlerts(RelaySteps(b, start, steps));
  }

  lemma StartOrderly(b: L.Boot)
    ensures Orderly(PowerOn(b)) && PowerOn(b).relay == R.START
  {
  }
}
