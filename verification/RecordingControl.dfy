/** RecordingControl of include/robot/telemetry/recording.hpp, shared by three tasks: the control task
    observes the button, competition callbacks request stops, and the worker of the telemetry task goes
    through its tick. Each access to a shared atomic is a step; steps interleave freely, and one that
    its task cannot take changes nothing. */
module RecordingControl {
  datatype State = Idle | Opening | Recording | Closing

  /** Where the control task stands in observe: before it reads the state, before it reads whether the
      recorder is available, before it stores a state, and within a fail, before each of its stores. */
  datatype Decision = Undecided | Pressed | Store(next: State) | Refuse | Raise

  /** Where the worker stands in its tick; `Raising` is within a fail, before the alert is counted. */
  datatype Place =
    | Top | Beginning | MarkingRecording | BeforeDrain | Draining | BeforeClose | Finishing
    | MarkingIdle | BeforeDiscard | Discarding | Raising(next: Place)

  /** `starts` counts the sessions asked for, `cancelled` those stopped before the worker saw them,
      `commits` those finished, `sinkFailures` those a failing sink ended; `refusedRecording` and
      `refusedIdle` count the transitions that were not taken because the state had changed, `refusals`
      the starts refused for want of a recorder, `stops` the stops requested and `alerts` the alerts. */
  datatype Control = Control(
    state: State, available: bool, decision: Decision,
    place: Place, sessionOpen: bool,
    alerts: nat, sinkFailures: nat, refusedRecording: nat, refusedIdle: nat, refusals: nat,
    stops: nat, starts: nat, cancelled: nat, commits: nat)

  const START: Control := Control(Idle, true, Undecided, Top, false, 0, 0, 0, 0, 0, 0, 0, 0, 0)

  datatype Step =
    | Observes(press: bool)  // observe's next access; a press held long enough starts or stops
    | ObserverEnds           // the control task is deleted, wherever it stands
    | RequestStop
    | SetAvailable(available: bool)
    | Worker(succeeds: bool) // the worker's next access or sink call; `succeeds` is the sink's or the ring's answer

  function Count(b: bool): nat {
    if b then 1 else 0
  }

  /** A session was asked for and has neither been cancelled nor come to an end. */
  predicate InProgress(c: Control) {
    c.sessionOpen || c.state == Opening || c.place.Beginning?
  }

  function Observe(c: Control, press: bool): Control {
    match c.decision
    case Undecided =>
      if press && c.state == Idle then c.(decision := Pressed)
      else if press && c.state == Recording then c.(decision := Store(Closing))
      else c
    case Pressed => c.(decision := if c.available then Store(Opening) else Refuse)
    case Store(next) =>
      c.(state := next, decision := Undecided, starts := c.starts + Count(next == Opening))
    case Refuse => c.(state := Idle, decision := Raise)
    case Raise => c.(decision := Undecided, alerts := c.alerts + 1, refusals := c.refusals + 1)
  }

  /** failSession of the worker, which also ends the tick, up to the store of the state. */
  function FailSession(c: Control): Control {
    c.(state := Idle, sessionOpen := false, place := Raising(Top), sinkFailures := c.sinkFailures + 1)
  }

  function MarkIdle(c: Control, next: Place): Control {
    if c.state == Closing then c.(state := Idle, place := next)
    else c.(state := Idle, place := Raising(next), refusedIdle := c.refusedIdle + 1)
  }

  function WorkerStep(c: Control, succeeds: bool): Control {
    match c.place
    case Top => c.(place := if c.state == Opening && !c.sessionOpen then Beginning else BeforeDrain)
    case Beginning =>
      if succeeds then c.(sessionOpen := true, place := MarkingRecording) else FailSession(c)
    case MarkingRecording =>
      if c.state == Opening then c.(state := Recording, place := BeforeDrain)
      else c.(state := Idle, sessionOpen := false, place := Raising(Top), refusedRecording := c.refusedRecording + 1)
    case BeforeDrain =>
      c.(place := if c.sessionOpen && (c.state == Recording || c.state == Closing) then Draining else BeforeClose)
    case Draining => if succeeds then c.(place := BeforeClose) else FailSession(c)
    case BeforeClose =>
      c.(place := if c.sessionOpen && c.state == Closing && succeeds then Finishing else BeforeDiscard)
    case Finishing =>
      if succeeds then c.(sessionOpen := false, place := MarkingIdle, commits := c.commits + 1) else FailSession(c)
    case MarkingIdle => MarkIdle(c, BeforeDiscard)
    case BeforeDiscard => c.(place := if !c.sessionOpen && c.state == Closing then Discarding else Top)
    case Discarding => MarkIdle(c, Top)
    case Raising(next) => c.(place := next, alerts := c.alerts + 1)
  }

  function Next(c: Control, step: Step): Control {
    match step
    case Observes(press) => Observe(c, press)
    case ObserverEnds => c.(decision := Undecided)
    case RequestStop =>
      if c.state == Opening || c.state == Recording
      then c.(state := Closing, stops := c.stops + 1, cancelled := c.cancelled + Count(!InProgress(c.(state := Idle))))
      else c
    case SetAvailable(available) => c.(available := available)
    case Worker(succeeds) => WorkerStep(c, succeeds)
  }

  function Run(c: Control, steps: seq<Step>): Control
    decreases |steps|
  {
    if steps == [] then c else Run(Next(c, steps[0]), steps[1..])
  }

  // ---- What holds between any two steps ----

  /** The places at which the worker's session is open. */
  predicate Held(place: Place) {
    place.MarkingRecording? || place.Draining? || place.Finishing?
  }

  ghost predicate Coherent(c: Control) {
    Shaped(c) && Tallied(c)
  }

  ghost predicate Shaped(c: Control) {
    && (c.decision.Pressed? || c.decision.Refuse? || c.decision.Raise? ==> c.state == Idle)
    && (c.decision == Store(Opening) ==> c.state == Idle)
    && (c.decision.Store? && c.decision.next != Opening ==> c.decision.next == Closing && c.state != Opening)
    && (Held(c.place) ==> c.sessionOpen)
    && (c.place.Beginning? || c.place.MarkingIdle? || c.place.Discarding? || c.place.Raising? ==> !c.sessionOpen)
    && (c.place.Raising? ==> c.place.next == Top)
    && (c.place.Beginning? || c.place.MarkingRecording? ==> c.state == Opening || c.state == Closing)
    && (c.place.Finishing? || c.place.MarkingIdle? || c.place.Discarding? ==> c.state == Closing)
    && (c.sessionOpen && !c.place.MarkingRecording? ==> c.state == Recording || c.state == Closing)
    && (!c.sessionOpen ==> c.state != Recording)
  }

  ghost predicate Tallied(c: Control) {
    && c.refusedIdle == 0
    && c.alerts + Count(c.place.Raising?) == c.sinkFailures + c.refusedRecording + c.refusals
    && c.refusedRecording + Count((c.place.Beginning? || c.place.MarkingRecording?) && c.state == Closing) <= c.stops
    && c.starts == c.commits + c.sinkFailures + c.refusedRecording + c.cancelled + Count(InProgress(c))
  }

  lemma WorkerShaped(c: Control, succeeds: bool)
    requires Shaped(c)
    ensures Shaped(WorkerStep(c, succeeds))
  {
  }

  lemma WorkerTallied(c: Control, succeeds: bool)
    requires Shaped(c) && Tallied(c)
    ensures Tallied(WorkerStep(c, succeeds))
  {
  }

  lemma WorkerCoherent(c: Control, succeeds: bool)
    requires Coherent(c)
    ensures Coherent(WorkerStep(c, succeeds))
  {
    hide Shaped, Tallied;
    WorkerShaped(c, succeeds);
    WorkerTallied(c, succeeds);
  }

  lemma ObserveCoherent(c: Control, press: bool)
    requires Coherent(c)
    ensures Coherent(Observe(c, press))
  {
  }

  lemma NextCoherent(c: Control, step: Step)
    requires Coherent(c)
    ensures Coherent(Next(c, step))
  {
    hide WorkerStep, Observe;
    match step
    case Worker(succeeds) => WorkerCoherent(c, succeeds);
    case Observes(press) => ObserveCoherent(c, press);
    case _ =>
  }

  lemma {:induction false} RunCoherent(c: Control, steps: seq<Step>)
    requires Coherent(c)
    ensures Coherent(Run(c, steps))
    decreases |steps|
  {
    hide Coherent, Next;
    if steps != [] {
      NextCoherent(c, steps[0]);
      RunCoherent(Next(c, steps[0]), steps[1..]);
    }
  }

  /** Over every interleaving of the three tasks: returning to idle is never refused, so a committed
      session raises no alert; starting to record is refused only when a stop came in between; every
      session asked for is cancelled unseen, still in progress, committed, or ended by exactly one failure
      or refusal; and the alerts are those, one of which may be about to be counted, and one for each
      start refused for want of a recorder. Between two ticks an open session is being recorded or closed,
      and no recording goes on without one. */
  lemma EverySessionAccounted(steps: seq<Step>)
    ensures var r := Run(START, steps);
            && r.refusedIdle == 0 && r.refusedRecording <= r.stops
            && r.starts == r.commits + r.sinkFailures + r.refusedRecording + r.cancelled + Count(InProgress(r))
            && r.alerts + Count(r.place.Raising?) == r.sinkFailures + r.refusedRecording + r.refusals
            && (r.place.Top? && r.sessionOpen ==> r.state == Recording || r.state == Closing)
            && (r.state == Recording ==> r.sessionOpen)
  {
    hide Run, Coherent;
    StartCoherent();
    RunCoherent(START, steps);
    CoherentMeans(Run(START, steps));
  }

  lemma StartCoherent()
    ensures Coherent(START)
  {
    IdleCoherent(START);
  }

  lemma IdleCoherent(c: Control)
    requires c.state == Idle && c.decision == Undecided && c.place == Top && !c.sessionOpen
    requires c.alerts == c.sinkFailures == c.refusedRecording == c.refusedIdle == c.refusals == 0
    requires c.stops == c.starts == c.cancelled == c.commits == 0
    ensures Coherent(c)
  {
  }

  lemma CoherentMeans(c: Control)
    requires Coherent(c)
    ensures c.refusedIdle == 0 && c.refusedRecording <= c.stops
    ensures c.starts == c.commits + c.sinkFailures + c.refusedRecording + c.cancelled + Count(InProgress(c))
    ensures c.alerts + Count(c.place.Raising?) == c.sinkFailures + c.refusedRecording + c.refusals
    ensures c.place.Top? && c.sessionOpen ==> c.state == Recording || c.state == Closing
    ensures c.state == Recording ==> c.sessionOpen
  {
  }

  // ---- A stop without a session ----

  /** The state is closing, but there is nothing to close: a stop came before the worker saw the session,
      or was stored after it had ended. */
  ghost predicate Stale(c: Control) {
    Coherent(c) && c.state == Closing && !InProgress(c)
  }

  /** How many steps of the worker it takes at most until it marks the state idle. */
  function Distance(place: Place): nat {
    match place
    case Raising(next) => 1 + Distance(next)
    case Top => 5
    case BeforeDrain => 4
    case BeforeClose => 3
    case BeforeDiscard => 2
    case _ => 1
  }

  /** Nothing was started, ended, refused or failed in between. */
  predicate SameTally(c: Control, r: Control) {
    && r.starts == c.starts && r.commits == c.commits && r.cancelled == c.cancelled
    && r.sinkFailures == c.sinkFailures && r.refusedRecording == c.refusedRecording && r.refusals == c.refusals
  }

  lemma StaleStep(c: Control, step: Step)
    requires Stale(c)
    ensures var r := Next(c, step);
            && SameTally(c, r)
            && ((r.state == Idle && !InProgress(r))
                || (Stale(r) && Distance(r.place) + Count(step.Worker?) <= Distance(c.place)))
  {
    hide Coherent;
    NextCoherent(c, step);
    StaleShape(c);
  }

  lemma StaleShape(c: Control)
    requires Stale(c)
    ensures !Held(c.place) && !c.place.Beginning? && !c.sessionOpen
    ensures c.decision.Undecided? || c.decision == Store(Closing)
    ensures c.place.Raising? ==> c.place.next == Top
  {
  }

  function WorkerSteps(steps: seq<Step>): nat {
    if steps == [] then 0 else Count(steps[0].Worker?) + WorkerSteps(steps[1..])
  }

  /** However the tasks interleave, the worker returns such a state to idle within six of its own steps, and
      until then nothing is started, ended, refused or failed. */
  lemma {:induction false} StaleStopSettles(c: Control, steps: seq<Step>) returns (k: nat)
    requires Stale(c) && WorkerSteps(steps) >= Distance(c.place)
    ensures Distance(c.place) <= 6
    ensures k <= |steps| && SameTally(c, Run(c, steps[..k]))
    ensures Run(c, steps[..k]).state == Idle && !InProgress(Run(c, steps[..k]))
    decreases |steps|
  {
    hide Coherent, Next;
    StaleDistance(c);
    StaleStep(c, steps[0]);
    var next := Next(c, steps[0]);
    if next.state == Idle {
      k := 1;
      assert steps[..1] == [steps[0]] && [steps[0]][1..] == [];
      assert Run(next, []) == next;
    } else {
      var j := StaleStopSettles(next, steps[1..]);
      k := j + 1;
      assert steps[..k][0] == steps[0] && steps[..k][1..] == steps[1..][..j];
    }
  }

  lemma StaleDistance(c: Control)
    requires Stale(c)
    ensures 0 < Distance(c.place) <= 6
  {
    if c.place.Raising? {
      assert c.place == Raising(Top);
      assert Distance(Raising(Top)) == 6;
    }
  }

  // ---- What a press and a stop lead to ----

  ghost predicate AllSucceed(steps: seq<Step>) {
    Worker(false) !in steps
  }

  /** How many steps of the worker it takes at most until a session asked for is recorded. */
  function StartDistance(place: Place): nat {
    match place
    case MarkingRecording => 1
    case Beginning => 2
    case Top => 3
    case Raising(_) => 4
    case BeforeDiscard => 4
    case BeforeClose => 5
    case _ => 6
  }

  lemma StartStep(c: Control, step: Step)
    requires Coherent(c) && c.state == Opening && step != RequestStop && step != Worker(false)
    ensures var r := Next(c, step);
            && Coherent(r) && r.sinkFailures == c.sinkFailures && r.refusedRecording == c.refusedRecording
            && ((r.state == Recording && r.sessionOpen)
                || (r.state == Opening && StartDistance(r.place) + Count(step.Worker?) <= StartDistance(c.place)))
  {
    hide Coherent;
    NextCoherent(c, step);
    OpeningShape(c);
  }

  lemma OpeningShape(c: Control)
    requires Coherent(c) && c.state == Opening
    ensures c.sessionOpen <==> c.place.MarkingRecording?
    ensures !c.place.Finishing? && !c.place.MarkingIdle? && !c.place.Discarding? && !c.place.Draining?
    ensures c.decision.Undecided? && (c.place.Raising? ==> c.place.next == Top)
  {
  }

  /** However the tasks interleave, a session that was asked for is being recorded after at most six steps of the
      worker, if no stop is requested meanwhile and the sink does what it is asked. */
  lemma {:induction false} StartsRecording(c: Control, steps: seq<Step>) returns (k: nat)
    requires Coherent(c) && c.state == Opening && AllSucceed(steps) && RequestStop !in steps
    requires WorkerSteps(steps) >= StartDistance(c.place)
    ensures StartDistance(c.place) <= 6 && k <= |steps|
    ensures var r := Run(c, steps[..k]);
            && r.state == Recording && r.sessionOpen
            && r.sinkFailures == c.sinkFailures && r.refusedRecording == c.refusedRecording
    decreases |steps|
  {
    hide Coherent, Next;
    StartStep(c, steps[0]);
    var next := Next(c, steps[0]);
    if next.state == Recording {
      k := 1;
      assert steps[..1] == [steps[0]] && [steps[0]][1..] == [];
      assert Run(next, []) == next;
    } else {
      var j := StartsRecording(next, steps[1..]);
      k := j + 1;
      assert steps[..k][0] == steps[0] && steps[..k][1..] == steps[1..][..j];
    }
  }

  /** How many steps of the worker it takes at most until an open session that is to be closed is committed. */
  function StopDistance(place: Place): nat {
    match place
    case Finishing => 1
    case BeforeClose => 2
    case Draining => 3
    case BeforeDrain => 4
    case Top => 5
    case _ => 6
  }

  lemma StopStep(c: Control, step: Step)
    requires Coherent(c) && c.sessionOpen && c.state == Closing && !c.place.MarkingRecording? && step != Worker(false)
    ensures var r := Next(c, step);
            && Coherent(r) && r.sinkFailures == c.sinkFailures
            && (r.commits == c.commits + 1
                || (&& r.commits == c.commits && r.sessionOpen && r.state == Closing && !r.place.MarkingRecording?
                    && StopDistance(r.place) + Count(step.Worker?) <= StopDistance(c.place)))
  {
    hide Coherent;
    NextCoherent(c, step);
    ClosingShape(c);
  }

  lemma ClosingShape(c: Control)
    requires Coherent(c) && c.sessionOpen && c.state == Closing
    ensures !c.place.Beginning? && !c.place.MarkingIdle? && !c.place.Discarding? && !c.place.Raising?
    ensures c.decision.Undecided? || c.decision == Store(Closing)
  {
  }

  /** However the tasks interleave, an open session that is to be closed is committed after at most six steps of the
      worker, if the ring is empty and the sink does what it is asked. */
  lemma {:induction false} StopCommits(c: Control, steps: seq<Step>) returns (k: nat)
    requires Coherent(c) && c.sessionOpen && c.state == Closing && !c.place.MarkingRecording? && AllSucceed(steps)
    requires WorkerSteps(steps) >= StopDistance(c.place)
    ensures StopDistance(c.place) <= 6 && k <= |steps|
    ensures var r := Run(c, steps[..k]); r.commits == c.commits + 1 && r.sinkFailures == c.sinkFailures
    decreases |steps|
  {
    hide Coherent, Next;
    StopStep(c, steps[0]);
    var next := Next(c, steps[0]);
    if next.commits == c.commits + 1 {
      k := 1;
      assert steps[..1] == [steps[0]] && [steps[0]][1..] == [];
      assert Run(next, []) == next;
    } else {
      var j := StopCommits(next, steps[1..]);
      k := j + 1;
      assert steps[..k][0] == steps[0] && steps[..k][1..] == steps[1..][..j];
    }
  }

  // ---- Who starts a session ----

  function Presses(steps: seq<Step>): nat {
    if steps == [] then 0 else Count(steps[0] == Observes(true)) + Presses(steps[1..])
  }

  /** A start is being decided. */
  predicate Starting(d: Decision) {
    d.Pressed? || d == Store(Opening) || d.Refuse? || d.Raise?
  }

  lemma PressStep(c: Control, step: Step)
    ensures var r := Next(c, step);
            && r.starts + r.refusals + Count(Starting(r.decision))
               <= c.starts + c.refusals + Count(Starting(c.decision)) + Count(step == Observes(true))
            && (c.available && !c.decision.Refuse? && !c.decision.Raise? && step != SetAvailable(false)
                ==> r.available && r.refusals == c.refusals && !r.decision.Refuse? && !r.decision.Raise?)
            && (!c.available && c.decision != Store(Opening) && step != SetAvailable(true)
                ==> !r.available && r.starts == c.starts && r.decision != Store(Opening))
  {
    hide WorkerStep;
    if step.Worker? {
      WorkerAside(c, step.succeeds);
    }
  }

  lemma WorkerAside(c: Control, succeeds: bool)
    ensures var r := WorkerStep(c, succeeds);
            && r.starts == c.starts && r.refusals == c.refusals
            && r.decision == c.decision && r.available == c.available
  {
  }

  /** From any state in which no start is being decided: every start, and every start refused, comes from a press of
      its own; none is refused while the recorder is available, and none is made while it is not. */
  lemma StartsFromPresses(c: Control, steps: seq<Step>)
    requires !Starting(c.decision)
    ensures var r := Run(c, steps);
            && r.starts + r.refusals <= c.starts + c.refusals + Presses(steps)
            && (c.available && SetAvailable(false) !in steps ==> r.refusals == c.refusals)
            && (!c.available && SetAvailable(true) !in steps ==> r.starts == c.starts)
  {
    Counting(c, steps);
  }

  lemma {:induction false} Counting(c: Control, steps: seq<Step>)
    ensures var r := Run(c, steps);
            && r.starts + r.refusals + Count(Starting(r.decision))
               <= c.starts + c.refusals + Count(Starting(c.decision)) + Presses(steps)
            && (c.available && !c.decision.Refuse? && !c.decision.Raise? && SetAvailable(false) !in steps
                ==> r.refusals == c.refusals)
            && (!c.available && c.decision != Store(Opening) && SetAvailable(true) !in steps ==> r.starts == c.starts)
    decreases |steps|
  {
    hide Next;
    if steps != [] {
      PressStep(c, steps[0]);
      Counting(Next(c, steps[0]), steps[1..]);
    }
  }

  /** A press that nothing interrupts starts a session if none is there and the recorder is available, is refused with
      an alert if it is not, and stops one that is being recorded. */
  lemma PressTakesEffect(c: Control)
    requires c.decision == Undecided
    ensures var d := Next(c, Observes(true)); var e := Next(d, Observes(false)); var f := Next(e, Observes(false));
            && (c.state == Idle && c.available ==> f == c.(state := Opening, starts := c.starts + 1))
            && (c.state == Idle && !c.available
                ==> Next(f, Observes(false)) == c.(alerts := c.alerts + 1, refusals := c.refusals + 1))
            && (c.state == Recording ==> e == c.(state := Closing))
            && (c.state == Opening || c.state == Closing ==> d == c)
  {
  }
}
