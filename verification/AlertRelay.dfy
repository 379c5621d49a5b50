/** The alert relay of src/main.cpp: the recording control counts alerts, the telemetry task relays
    them into a shared box, the controller task rumbles, and the start-up self-check writes the same
    box once. Steps of the three tasks interleave freely; a step that its task cannot take changes
    nothing. */
module AlertRelay {
  import opened Bytes

  /** Where the telemetry task stands in its loop: before it reads the counter, with a new count, or
      with the box's value in hand. Ghosts of the reads, `seen` is the number of alerts counted then. */
  datatype Telemetry = Waiting | Requested(seen: nat) | Reading(seen: nat, value: uint32)

  /** Where the controller task stands: before it reads the box, with an alert to give, or with the page to draw. */
  datatype Hmi = Polling | Alerting(read: nat, value: uint32) | Rendering

  /** `alerts` counts the alerts ever raised, of which the control keeps the lower 32 bits; `handled` is
      how many the telemetry task has relayed, again known to it only by the lower 32 bits. `writes`
      counts the writes of the box, `answered` how many of them a successful rumble has answered. */
  datatype Relay = Relay(
    alerts: nat,
    box: uint32, writes: nat, relayed: nat,
    telemetry: Telemetry, handled: nat,
    hmi: Hmi, handledValue: uint32, answered: nat,
    checked: bool, unhealthy: bool,
    clock: nat, lastAlert: nat, lastCheck: nat, lastRumble: nat,
    looks: nat, rumbles: nat, failedRumbles: nat, draws: nat)

  const START: Relay := Relay(0, 0, 0, 0, Waiting, 0, Polling, 0, 0, false, false, 0, 0, 0, 0, 0, 0, 0, 0)

  datatype Step =
    | Alert
    | SelfCheckEnds(healthy: bool)
    | TelemetryLooks | TelemetryReads | TelemetryPublishes
    | HmiLooks | HmiRumbles(succeeds: bool) | HmiDraws

  function Low(n: nat): uint32 {
    n % 0x1_0000_0000
  }

  function Publish(s: Relay, value: uint32): Relay {
    s.(box := value, writes := s.writes + 1)
  }

  function Take(s: Relay, step: Step): Relay {
    match step
    case Alert => s.(alerts := s.alerts + 1, lastAlert := s.clock)
    case SelfCheckEnds(healthy) =>
      if s.checked then s
      else
        var t := s.(checked := true, unhealthy := !healthy, lastCheck := s.clock);
        if healthy then t else Publish(t, 1)
    case TelemetryLooks =>
      if s.telemetry.Waiting? && Low(s.alerts) != Low(s.handled) then s.(telemetry := Requested(s.alerts)) else s
    case TelemetryReads =>
      if s.telemetry.Requested? then s.(telemetry := Reading(s.telemetry.seen, s.box)) else s
    case TelemetryPublishes =>
      if s.telemetry.Reading?
      then Publish(s, Add32(s.telemetry.value, 1)).(handled := s.telemetry.seen, telemetry := Waiting,
                                                    relayed := s.relayed + 1)
      else s
    case HmiLooks =>
      if s.hmi.Polling? then s.(looks := s.looks + 1,
                                hmi := if s.box != s.handledValue then Alerting(s.writes, s.box) else Rendering)
      else s
    case HmiRumbles(succeeds) =>
      if !s.hmi.Alerting? then s
      else if !succeeds then s.(hmi := Polling, failedRumbles := s.failedRumbles + 1)
      else s.(hmi := Polling, handledValue := s.hmi.value, answered := s.hmi.read, rumbles := s.rumbles + 1,
              lastRumble := s.clock)
    case HmiDraws =>
      if s.hmi.Rendering? then s.(hmi := Polling, draws := s.draws + 1) else s
  }

  /** One step of some task, at the next moment. */
  function Next(s: Relay, step: Step): Relay {
    Take(s.(clock := s.clock + 1), step)
  }

  function Run(s: Relay, steps: seq<Step>): Relay
    decreases |steps|
  {
    if steps == [] then s else Run(Next(s, steps[0]), steps[1..])
  }

  // ---- No alert without a cause ----

  function Count(b: bool): nat {
    if b then 1 else 0
  }

  /** The value of the box the controller task has last acted on or is acting on. */
  function Current(s: Relay): uint32 {
    if s.hmi.Alerting? then s.hmi.value else s.handledValue
  }

  ghost predicate Frugal(s: Relay) {
    && s.writes == s.relayed + Count(s.unhealthy)
    && (s.unhealthy ==> s.checked)
    && s.relayed <= s.handled <= s.alerts
    && (!s.telemetry.Waiting? ==> s.handled < s.telemetry.seen <= s.alerts)
    && s.rumbles + Count(s.hmi.Alerting?) + Count(s.box != Current(s)) <= s.writes
    && s.looks == s.rumbles + s.failedRumbles + s.draws + Count(!s.hmi.Polling?)
  }

  lemma NextFrugal(s: Relay, step: Step)
    requires Frugal(s)
    ensures Frugal(Next(s, step))
  {
    hide Low;
  }

  lemma StartFrugal()
    ensures Frugal(START)
  {
  }

  lemma {:induction false} RunFrugal(s: Relay, steps: seq<Step>)
    requires Frugal(s)
    ensures Frugal(Run(s, steps))
    decreases |steps|
  {
    hide Frugal, Next;
    if steps != [] {
      NextFrugal(s, steps[0]);
      RunFrugal(Next(s, steps[0]), steps[1..]);
    }
  }

  /** Over every interleaving, even one in which the self-check's write races the telemetry task's
      read and write: successful rumbles never exceed the alerts and the one unhealthy self-check, and
      every iteration of the controller task either tries to rumble or draws, never both. */
  lemma NoSpuriousAlerts(steps: seq<Step>)
    ensures var r := Run(START, steps);
            && r.rumbles <= r.alerts + Count(r.unhealthy)
            && r.looks == r.rumbles + r.failedRumbles + r.draws + Count(!r.hmi.Polling?)
  {
    hide Run, Frugal;
    StartFrugal();
    RunFrugal(START, steps);
    FrugalMeans(Run(START, steps));
  }

  lemma FrugalMeans(s: Relay)
    requires Frugal(s)
    ensures s.rumbles <= s.alerts + Count(s.unhealthy)
    ensures s.looks == s.rumbles + s.failedRumbles + s.draws + Count(!s.hmi.Polling?)
  {
  }

  // ---- Alerts are delivered ----

  /** No alert is raised before the self-check has ended. */
  ghost predicate AlertsAfterCheck(s: Relay, steps: seq<Step>)
    decreases |steps|
  {
    steps != [] ==> && (steps[0].Alert? ==> s.checked) && AlertsAfterCheck(Next(s, steps[0]), steps[1..])
  }

  ghost predicate Delivering(s: Relay) {
    && (!s.checked ==> s.alerts == 0 && s.writes == 0)
    && s.handled <= s.alerts && (!s.telemetry.Waiting? ==> s.handled < s.telemetry.seen <= s.alerts)
    && s.box == Low(s.writes)
    && (s.telemetry.Reading? ==> s.telemetry.value == s.box)
    && s.handledValue == Low(s.answered) && s.answered <= s.writes
    && (s.hmi.Alerting? ==> s.hmi.value == Low(s.hmi.read) && s.answered < s.hmi.read <= s.writes)
    && s.lastAlert <= s.clock && s.lastCheck <= s.clock && s.lastRumble <= s.clock
    && (s.unhealthy ==> s.checked) && (s.unhealthy && s.lastRumble <= s.lastCheck ==> s.answered < s.writes)
    && (s.alerts > 0 && s.lastRumble <= s.lastAlert ==> s.handled < s.alerts || s.answered < s.writes)
  }

  lemma NextDelivering(s: Relay, step: Step)
    requires Delivering(s) && (step.Alert? ==> s.checked)
    ensures Delivering(Next(s, step))
  {
    assert Low(1) == 1;
    hide Low;
    LowNext(s.writes);
  }

  lemma StartDelivering()
    ensures Delivering(START)
  {
  }

  lemma LowNext(n: nat)
    ensures Low(n + 1) == Add32(Low(n), 1)
  {
    Add32Twice(0, n, 1);
  }

  lemma {:induction false} RunDelivering(s: Relay, steps: seq<Step>)
    requires Delivering(s) && AlertsAfterCheck(s, steps)
    ensures Delivering(Run(s, steps))
    decreases |steps|
  {
    hide Delivering, Next;
    if steps != [] {
      NextDelivering(s, steps[0]);
      RunDelivering(Next(s, steps[0]), steps[1..]);
    }
  }

  /** Both tasks see nothing new: the telemetry task its last count, the controller task its last value. */
  ghost predicate CaughtUp(s: Relay) {
    && s.telemetry.Waiting? && Low(s.alerts) == Low(s.handled)
    && s.hmi.Polling? && s.box == s.handledValue
  }

  /** Fewer than 2^32 alerts wait for the telemetry task, and fewer than 2^32 writes for the controller task. */
  ghost predicate NotOverrun(s: Relay) {
    s.alerts < s.handled + 0x1_0000_0000 && s.writes < s.answered + 0x1_0000_0000
  }

  lemma LowSame(a: nat, b: nat)
    requires a <= b < a + 0x1_0000_0000 && Low(a) == Low(b)
    ensures a == b
  {
  }

  /** What the state remembers: a rumble has succeeded after the last alert, and after an unhealthy self-check. */
  lemma RelayedState(steps: seq<Step>)
    requires AlertsAfterCheck(START, steps)
    ensures var r := Run(START, steps);
            CaughtUp(r) && NotOverrun(r) ==>
              && (r.alerts > 0 ==> r.lastRumble > r.lastAlert)
              && (r.unhealthy ==> r.lastRumble > r.lastCheck)
  {
    hide Run, AlertsAfterCheck, Low;
    StartDelivering();
    RunDelivering(START, steps);
    var r := Run(START, steps);
    if CaughtUp(r) && NotOverrun(r) {
      LowSame(r.handled, r.alerts);
      LowSame(r.answered, r.writes);
    }
  }

  /** The j-th step is a rumble that succeeds, of a controller task that has an alert to give. */
  ghost predicate RumblesAt(steps: seq<Step>, j: nat) {
    j < |steps| && steps[j] == HmiRumbles(true) && Run(START, steps[..j]).hmi.Alerting?
  }

  /** The self-check ends with the i-th step, unhealthy. */
  ghost predicate CheckFailsAt(steps: seq<Step>, i: nat) {
    i < |steps| && steps[i] == SelfCheckEnds(false) && forall k :: 0 <= k < i ==> !steps[k].SelfCheckEnds?
  }

  ghost function AlertsIn(steps: seq<Step>): nat {
    if steps == [] then 0 else AlertsIn(steps[..|steps| - 1]) + Count(steps[|steps| - 1].Alert?)
  }

  ghost function RumblesIn(steps: seq<Step>): nat {
    if steps == [] then 0 else RumblesIn(steps[..|steps| - 1]) + Count(RumblesAt(steps, |steps| - 1))
  }

  /** The state remembers how many alerts were raised and rumbles succeeded, when the last of each did, and when the
      check failed. */
  ghost predicate Remembers(steps: seq<Step>, r: Relay) {
    && r.clock == |steps| && r.alerts == AlertsIn(steps) && r.rumbles == RumblesIn(steps)
    && (r.unhealthy ==> exists i: nat :: CheckFailsAt(steps, i))
    && (r.checked <==> exists k :: 0 <= k < |steps| && steps[k].SelfCheckEnds?)
    && (forall i :: 0 <= i < |steps| && steps[i].Alert? ==> r.alerts > 0 && i < r.lastAlert)
    && (r.unhealthy ==> r.checked) && (forall i: nat :: CheckFailsAt(steps, i) ==> r.unhealthy && i < r.lastCheck)
    && (r.lastRumble > 0 ==> RumblesAt(steps, r.lastRumble - 1))
  }

  lemma RunSnoc(s: Relay, steps: seq<Step>, last: Step)
    ensures Run(s, steps + [last]) == Next(Run(s, steps), last)
  {
    hide Next, Run;
    RunConcat(s, steps, [last]);
    RunOne(Run(s, steps), last);
  }

  lemma RumbledBefore(steps: seq<Step>, last: Step, j: nat)
    requires RumblesAt(steps, j)
    ensures RumblesAt(steps + [last], j)
  {
    hide Run;
    assert (steps + [last])[..j] == steps[..j];
  }

  lemma RememberedStep(steps: seq<Step>, last: Step)
    requires Remembers(steps, Run(START, steps))
    ensures Remembers(steps + [last], Next(Run(START, steps), last))
  {
    hide Run, RumblesAt, Low;
    var r, all := Run(START, steps), steps + [last];
    assert all[..|steps|] == steps;
    if r.lastRumble > 0 {
      RumbledBefore(steps, last, r.lastRumble - 1);
    }
    RumbledLast(steps, last);
    if k :| 0 <= k < |steps| && steps[k].SelfCheckEnds? {
      assert all[k].SelfCheckEnds?;
    }
    forall i: nat | CheckFailsAt(all, i) ensures i < |steps| ==> CheckFailsAt(steps, i) {
      assert forall k :: 0 <= k < i && k < |steps| ==> all[k] == steps[k];
    }
    if last.SelfCheckEnds? {
      assert all[|steps|].SelfCheckEnds?;
      if !r.checked && !last.healthy {
        CheckedLast(steps, last);
      }
    }
    if i: nat :| CheckFailsAt(steps, i) {
      assert CheckFailsAt(all, i);
    }
  }

  lemma RumbledLast(steps: seq<Step>, last: Step)
    ensures RumblesAt(steps + [last], |steps|) <==> last == HmiRumbles(true) && Run(START, steps).hmi.Alerting?
  {
    hide Run;
    assert (steps + [last])[..|steps|] == steps;
  }

  lemma CheckedLast(steps: seq<Step>, last: Step)
    requires last == SelfCheckEnds(false) && forall k :: 0 <= k < |steps| ==> !steps[k].SelfCheckEnds?
    ensures CheckFailsAt(steps + [last], |steps|)
  {
  }

  lemma {:induction false} Remembered(steps: seq<Step>)
    ensures Remembers(steps, Run(START, steps))
    decreases |steps|
  {
    hide Next, Remembers, Run;
    if steps == [] {
      NothingRemembered(steps);
    } else {
      var init, last := steps[..|steps| - 1], steps[|steps| - 1];
      Remembered(init);
      RememberedStep(init, last);
      RunSnoc(START, init, last);
      assert init + [last] == steps;
    }
  }

  lemma NothingRemembered(steps: seq<Step>)
    requires steps == []
    ensures Remembers(steps, Run(START, steps))
  {
    hide Next, RumblesAt;
    assert Run(START, steps) == START;
  }

  /** Over every interleaving: successful rumbles never outnumber the alerts raised and one failed self-check. */
  lemma RumblesCaused(steps: seq<Step>)
    ensures RumblesIn(steps) <= AlertsIn(steps) + Count(exists i: nat :: CheckFailsAt(steps, i))
  {
    hide Run, RumblesIn, AlertsIn, CheckFailsAt;
    NoSpuriousAlerts(steps);
    Remembered(steps);
  }

  /** Whenever both tasks are caught up, every alert, and a self-check that ended unhealthy, has been followed by a
      rumble that succeeded. */
  lemma AlertsDelivered(steps: seq<Step>, i: nat)
    requires AlertsAfterCheck(START, steps) && CaughtUp(Run(START, steps)) && NotOverrun(Run(START, steps))
    requires i < |steps| && (steps[i].Alert? || CheckFailsAt(steps, i))
    ensures exists j :: j > i && RumblesAt(steps, j)
  {
    hide Run, AlertsAfterCheck, CaughtUp, NotOverrun, RumblesAt, CheckFailsAt;
    RelayedState(steps);
    Remembered(steps);
    assert RumblesAt(steps, Run(START, steps).lastRumble - 1);
  }

  /** The bounds are exact: of the states in which both tasks are caught up, they hold of those in which
      everything has been relayed and answered, and of no other. */
  lemma CaughtUpExactly(steps: seq<Step>)
    requires AlertsAfterCheck(START, steps)
    ensures var r := Run(START, steps);
            CaughtUp(r) ==> (NotOverrun(r) <==> r.handled == r.alerts && r.answered == r.writes)
  {
    hide Run, AlertsAfterCheck;
    StartDelivering();
    RunDelivering(START, steps);
    var r := Run(START, steps);
    if CaughtUp(r) && NotOverrun(r) {
      LowSame(r.handled, r.alerts);
      LowSame(r.answered, r.writes);
    }
  }

  ghost predicate NeverRumbles(steps: seq<Step>) {
    HmiRumbles(true) !in steps
  }

  /** A pending alert stays pending over any number of failed rumbles, and as long as fewer than 2^32
      writes wait, the controller task's next look finds it. */
  lemma {:induction false} PendingStaysPending(s: Relay, steps: seq<Step>)
    requires Delivering(s) && AlertsAfterCheck(s, steps) && NeverRumbles(steps) && s.answered < s.writes
    ensures var r := Run(s, steps);
            && r.answered < r.writes && r.rumbles == s.rumbles
            && (r.writes < r.answered + 0x1_0000_0000 && r.hmi.Polling? ==> Next(r, HmiLooks).hmi == Alerting(r.writes,
                                                                                                              r.box))
    decreases |steps|
  {
    if steps != [] {
      var next := Next(s, steps[0]);
      NextDelivering(s, steps[0]);
      assert next.answered == s.answered && next.writes >= s.writes && next.rumbles == s.rumbles;
      PendingStaysPending(next, steps[1..]);
    } else if s.writes < s.answered + 0x1_0000_0000 && s.box == s.handledValue {
      LowSame(s.answered, s.writes);
    }
  }

  // ---- Where it would fail ----

  lemma LowDiffers(n: nat)
    ensures Low(n + 1) != Low(n)
  {
  }

  /** The telemetry task takes up an alert. */
  lemma AlertTaken(s: Relay)
    requires s.telemetry.Waiting? && s.handled == s.alerts
    ensures Run(s, [Alert, TelemetryLooks, TelemetryReads])
         == s.(alerts := s.alerts + 1, clock := s.clock + 3, lastAlert := s.clock + 1,
               telemetry := Reading(s.alerts + 1, s.box))
  {
    hide Run, Low;
    LowDiffers(s.alerts);
    RunThree(s, Alert, TelemetryLooks, TelemetryReads);
  }

  lemma RunThree(s: Relay, a: Step, b: Step, c: Step)
    ensures Run(s, [a, b, c]) == Next(Next(Next(s, a), b), c)
  {
    hide Next;
    assert [a, b, c][1..] == [b, c];
    assert [b, c][1..] == [c];
    assert [c][1..] == [];
    assert Run(s, [a, b, c]) == Run(Next(s, a), [b, c]);
    assert Run(Next(s, a), [b, c]) == Run(Next(Next(s, a), b), [c]);
    assert Run(Next(Next(s, a), b), [c]) == Run(Next(Next(Next(s, a), b), c), []);
  }

  lemma {:induction false} RunConcat(s: Relay, a: seq<Step>, b: seq<Step>)
    ensures Run(s, a + b) == Run(Run(s, a), b)
    decreases |a|
  {
    hide Next;
    if a == [] {
      assert a + b == b;
    } else {
      RunConcat(Next(s, a[0]), a[1..], b);
      assert (a + b)[1..] == a[1..] + b;
    }
  }

  lemma {:induction false} ManyAlerts(s: Relay, n: nat) returns (steps: seq<Step>)
    ensures forall step :: step in steps ==> step == Alert
    ensures Run(s, steps)
         == s.(alerts := s.alerts + n, clock := s.clock + n, lastAlert := if n == 0 then s.lastAlert else s.clock + n)
    decreases n
  {
    steps := [];
    if n > 0 {
      var rest := ManyAlerts(Next(s, Alert), n - 1);
      steps := [Alert] + rest;
      assert steps[1..] == rest;
    }
  }

  /** The bound on unhandled alerts is reached: 2^32 of them between two looks go unnoticed. */
  lemma OverrunLost() returns (steps: seq<Step>)
    ensures AlertsAfterCheck(START, [SelfCheckEnds(true)] + steps)
    ensures var r := Run(START, [SelfCheckEnds(true)] + steps);
            CaughtUp(r) && r.alerts == r.handled + 0x1_0000_0000 && r.rumbles == 0
  {
    var s := Next(START, SelfCheckEnds(true));
    steps := ManyAlerts(s, 0x1_0000_0000);
    OnlyAlerts(s, steps);
    var all := [SelfCheckEnds(true)] + steps;
    assert all[1..] == steps;
  }

  /** The telemetry task relays an alert that the controller task does not look at. */
  lemma RelayedUnseen(s: Relay)
    requires s.checked && s.telemetry.Waiting? && s.handled == s.alerts && s.hmi.Polling? && s.box == Low(s.writes)
    ensures var r := Run(Run(s, [Alert, TelemetryLooks, TelemetryReads]), [TelemetryPublishes]);
            Unseen(s, r, 1)
  {
    hide Low, Run;
    AlertTaken(s);
    var taken := Run(s, [Alert, TelemetryLooks, TelemetryReads]);
    RunOne(taken, TelemetryPublishes);
    LowNext(s.writes);
  }

  lemma RunOne(s: Relay, step: Step)
    ensures Run(s, [step]) == Next(s, step)
  {
    hide Next;
    assert [step][1..] == [];
  }

  lemma RelayingRaisesOnce(s: Relay)
    requires s.checked
    ensures AlertsAfterCheck(s, [Alert, TelemetryLooks, TelemetryReads])
    ensures AlertsAfterCheck(Run(s, [Alert, TelemetryLooks, TelemetryReads]), [TelemetryPublishes])
  {
    hide Run;
    NoAlerts(Run(s, [Alert, TelemetryLooks, TelemetryReads]), [TelemetryPublishes]);
    OneAlert(s, [TelemetryLooks, TelemetryReads]);
    assert [Alert] + [TelemetryLooks, TelemetryReads] == [Alert, TelemetryLooks, TelemetryReads];
  }

  /** `n` more alerts have been relayed, and the controller task has not looked. */
  ghost predicate Unseen(s: Relay, r: Relay, n: nat) {
    && r.checked && r.telemetry.Waiting? && r.handled == r.alerts == s.alerts + n
    && r.writes == s.writes + n && r.box == Low(r.writes)
    && r.hmi.Polling? && r.handledValue == s.handledValue && r.answered == s.answered && r.rumbles == s.rumbles
  }

  lemma OneAlert(s: Relay, rest: seq<Step>)
    requires s.checked && forall step :: step in rest ==> !step.Alert?
    ensures AlertsAfterCheck(s, [Alert] + rest)
  {
    assert ([Alert] + rest)[1..] == rest;
    NoAlerts(Next(s, Alert), rest);
  }

  lemma {:induction false} NoAlerts(s: Relay, steps: seq<Step>)
    requires forall step :: step in steps ==> !step.Alert?
    ensures AlertsAfterCheck(s, steps)
    decreases |steps|
  {
    if steps != [] {
      assert steps[0] in steps;
      NoAlerts(Next(s, steps[0]), steps[1..]);
    }
  }

  lemma {:induction false} AfterCheckConcat(s: Relay, a: seq<Step>, b: seq<Step>)
    requires AlertsAfterCheck(s, a) && AlertsAfterCheck(Run(s, a), b)
    ensures AlertsAfterCheck(s, a + b)
    decreases |a|
  {
    hide Next;
    if a == [] {
      assert a + b == b;
    } else {
      assert (a + b)[1..] == a[1..] + b;
      AfterCheckConcat(Next(s, a[0]), a[1..], b);
    }
  }

  lemma NothingRun(s: Relay)
    ensures Run(s, []) == s && AlertsAfterCheck(s, [])
  {
  }

  lemma {:induction false} ManyUnseen(s: Relay, n: nat) returns (steps: seq<Step>)
    requires s.checked && s.telemetry.Waiting? && s.handled == s.alerts && s.hmi.Polling? && s.box == Low(s.writes)
    ensures AlertsAfterCheck(s, steps) && Unseen(s, Run(s, steps), n)
    decreases n
  {
    hide Low, Next, Run;
    NothingRun(s);
    steps := [];
    if n > 0 {
      var up, down := [Alert, TelemetryLooks, TelemetryReads], [TelemetryPublishes];
      RelayedUnseen(s);
      RelayingRaisesOnce(s);
      var rest := ManyUnseen(Run(Run(s, up), down), n - 1);
      steps := up + (down + rest);
      RunConcat(Run(s, up), down, rest);
      RunConcat(s, up, down + rest);
      AfterCheckConcat(Run(s, up), down, rest);
      AfterCheckConcat(s, up, down + rest);
    }
  }

  /** The bound on unanswered writes is reached as well: 2^32 relayed alerts between two looks of the
      controller task go unnoticed. */
  lemma BoxOverrunLost() returns (steps: seq<Step>)
    ensures AlertsAfterCheck(START, [SelfCheckEnds(true)] + steps)
    ensures var r := Run(START, [SelfCheckEnds(true)] + steps);
            && CaughtUp(r) && r.handled == r.alerts == 0x1_0000_0000
            && r.writes == r.answered + 0x1_0000_0000 && r.rumbles == 0
  {
    hide Run;
    var check := [SelfCheckEnds(true)];
    CheckTaken();
    var s := Run(START, check);
    steps := ManyUnseen(s, 0x1_0000_0000);
    RunConcat(START, check, steps);
    NoAlerts(START, check);
    AfterCheckConcat(START, check, steps);
  }

  lemma CheckTaken()
    ensures var s := Run(START, [SelfCheckEnds(true)]);
            && s.checked && s.telemetry.Waiting? && s.handled == s.alerts == 0 && s.hmi.Polling?
            && s.box == Low(s.writes)
            && s.writes == s.answered == 0 && s.handledValue == 0 && s.rumbles == 0
  {
    assert [SelfCheckEnds(true)][1..] == [];
  }

  lemma {:induction false} OnlyAlerts(s: Relay, steps: seq<Step>)
    requires s.checked && forall step :: step in steps ==> step == Alert
    ensures AlertsAfterCheck(s, steps)
    decreases |steps|
  {
    if steps != [] {
      assert steps[0] in steps;
      assert forall step :: step in steps[1..] ==> step in steps;
      OnlyAlerts(Next(s, steps[0]), steps[1..]);
    }
  }
}
