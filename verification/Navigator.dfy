/**
 The LiDAR navigator: the loop that feeds the planner with the latest sensor samples, sends its
 commands to the robot, and turns its end into an exit code.

 The robot's answers, the sensors, the clock and the stop flag are arbitrary inputs: one
 `Cycle` holds what one pass of the loop reads.
 */
module Navigator {
  import opened PlannerModel
  import opened PlannerRuns
  import opened PlannerSafety
  import opened PlannerTicks
  import opened PlannerClosedLoop
  import opened Rounding
  import opened LocalPlanners

  // ----- arguments -----

  datatype Arguments = Arguments(
    target: real, speed: real, stop: real, sideClearance: real, shift: real, attempts: int)

  function Clamp(v: real, low: real, high: real): real {
    if v < low then low else if high < v then high else v
  }

  function ClampInt(v: int, low: int, high: int): int {
    if v < low then low else if high < v then high else v
  }

  const DEFAULTS := Config(
    20.0, 0.22, 0.14, 0.80, 1.10, 1.20, 0.35, 0.80, 1.20, 0.08, 0.01, 3.0, 3, 3, 2)

  /** The configuration the navigator gives its planner. */
  function Configured(a: Arguments): Config {
    var stop := Clamp(a.stop, 0.40, 1.50);
    DEFAULTS.(
      targetDistance := Clamp(a.target, 0.5, 60.0),
      forwardSpeed := Clamp(a.speed, 0.10, 0.35),
      stopDistance := stop,
      minSideClearance := Clamp(a.sideClearance, 0.40, 1.50),
      lateralShift := Clamp(a.shift, 0.40, 1.50),
      maxBypassAttempts := ClampInt(a.attempts, 0, 4),
      resumeDistance := Max(stop + 0.25, 1.10))
  }

  function MaxRuntime(c: Config): real
    requires c.forwardSpeed > 0.0
  {
    Clamp(c.targetDistance / c.forwardSpeed * 4.0 + 120.0, 180.0, 1200.0)
  }

  const CONTROL_PERIOD := 0.05

  const SENSOR_MAX_AGE := 0.50

  // ----- one pass of the loop -----

  /** The latest samples and the times they were received, 0 for never. */
  datatype Sensors = Sensors(
    range: RangeSample, pose: PoseSample, rangeReceived: real, poseReceived: real)

  /** What the Move call does: return a code, or throw. */
  datatype Reply = Code(code: int) | Throws

  datatype Cycle = Cycle(stopRequested: bool, now: real, sensors: Sensors, reply: Reply)

  predicate Fresh(received: real, now: real) {
    received > 0.0 && now - received <= SENSOR_MAX_AGE
  }

  function InputOf(c: Cycle): PlannerInput {
    PlannerInput(c.sensors.range, c.sensors.pose, c.now,
                 Fresh(c.sensors.rangeReceived, c.now), Fresh(c.sensors.poseReceived, c.now))
  }

  /** The planner and the number of Move calls that have failed since the last good one. */
  datatype Nav = Nav(planner: Planner, failures: nat)

  function Due(p: Planner, deadline: real, c: Cycle): Planner {
    if c.now >= deadline then Failed(p, RuntimeExceeded, false) else p
  }

  function Command(cfg: Config, p: Planner, deadline: real, c: Cycle): Output {
    Update(cfg, Due(p, deadline, c), InputOf(c)).out
  }

  function Counted(failures: nat, reply: Reply): nat {
    match reply
    case Code(code) => if code == 0 then 0 else failures + 1
    case Throws => failures
  }

  function Pass(cfg: Config, nav: Nav, deadline: real, c: Cycle): Nav {
    var next := Update(cfg, Due(nav.planner, deadline, c), InputOf(c)).next;
    var failures := Counted(nav.failures, c.reply);
    Nav(if c.reply.Code? && c.reply.code != 0 && failures >= 4 then Failed(next, MoveFailures, false) else next,
        failures)
  }

  /** Where the loop is after `n` passes, from the planner it starts with. */
  function NavAt(cfg: Config, deadline: real, cycles: seq<Cycle>, n: nat): Nav
    requires n <= |cycles|
  {
    if n == 0 then Nav(INITIAL, 0) else Pass(cfg, NavAt(cfg, deadline, cycles, n - 1), deadline, cycles[n - 1])
  }

  function CommandAt(cfg: Config, deadline: real, cycles: seq<Cycle>, i: nat): Output
    requires i < |cycles|
  {
    Command(cfg, NavAt(cfg, deadline, cycles, i).planner, deadline, cycles[i])
  }

  // ----- the loop -----

  /** Why the loop has ended; `Running` when the inputs are used up before it does. */
  datatype LoopEnd = Interrupted | Finished(last: Output) | Threw | Running

  /** Pass `i` neither finds the stop flag set, nor throws, nor ends the route. */
  predicate GoesOn(cfg: Config, deadline: real, cycles: seq<Cycle>, i: nat)
    requires i < |cycles|
  {
    && !cycles[i].stopRequested && cycles[i].reply.Code?
    && !CommandAt(cfg, deadline, cycles, i).terminal
  }

  /** The loop ends with `end` at pass `n`, having sent `sent`. */
  ghost predicate Ends(cfg: Config, deadline: real, cycles: seq<Cycle>, n: nat, end: LoopEnd, sent: seq<Output>) {
    && n <= |cycles|
    && (forall i | 0 <= i < n :: GoesOn(cfg, deadline, cycles, i))
    && n <= |sent| && (forall i | 0 <= i < |sent| && i < |cycles| :: sent[i] == CommandAt(cfg, deadline, cycles, i))
    && (match end
        case Running => n == |cycles| == |sent|
        case Interrupted => n < |cycles| && cycles[n].stopRequested && |sent| == n
        case Threw => n < |cycles| && !cycles[n].stopRequested && cycles[n].reply.Throws? && |sent| == n + 1
        case Finished(last) =>
          && n < |cycles| && !cycles[n].stopRequested && cycles[n].reply.Code?
          && |sent| == n + 1 && last == sent[n] && last.terminal)
  }

  method Control(planner: LocalPlanner, cycles: seq<Cycle>, deadline: real)
      returns (end: LoopEnd, sent: seq<Output>, ghost n: nat)
    requires planner.Snapshot() == INITIAL
    modifies planner
    ensures Ends(planner.config, deadline, cycles, n, end, sent)
  {
    hide Update;
    var failures := 0;
    var i := 0;
    sent := [];
    while i < |cycles|
      invariant 0 <= i <= |cycles| && |sent| == i
      invariant NavAt(planner.config, deadline, cycles, i) == Nav(planner.Snapshot(), failures)
      invariant forall j | 0 <= j < i :: GoesOn(planner.config, deadline, cycles, j)
      invariant forall j | 0 <= j < i :: sent[j] == CommandAt(planner.config, deadline, cycles, j)
    {
      var c := cycles[i];
      if c.stopRequested {
        return Interrupted, sent, i;
      }
      var command, reply := Drive(planner, c, deadline);
      sent := sent + [command];
      if reply.Throws? {
        return Threw, sent, i;
      }
      failures := CountReply(planner, failures, reply.code);
      if command.terminal {
        return Finished(command), sent, i;
      }
      i := i + 1;
    }
    return Running, sent, i;
  }

  // The Move-failure counter, which stops the planner at the fourth failure in a row.
  method CountReply(planner: LocalPlanner, before: nat, code: int) returns (failures: nat)
    modifies planner
    ensures failures == Counted(before, Code(code))
    ensures planner.Snapshot()
         == if code != 0 && failures >= 4 then Failed(old(planner.Snapshot()), MoveFailures, false)
            else old(planner.Snapshot())
  {
    failures := before;
    if code == 0 {
      failures := 0;
    } else {
      failures := failures + 1;
      if failures >= 4 {
        ghost var path := planner.Fail(MoveFailures, false);
      }
    }
  }

  // One update and the Move call that sends its command.
  method Drive(planner: LocalPlanner, c: Cycle, deadline: real) returns (command: Output, reply: Reply)
    modifies planner
    ensures command == Command(planner.config, old(planner.Snapshot()), deadline, c)
    ensures reply == c.reply
    ensures planner.Snapshot()
         == Update(planner.config, Due(old(planner.Snapshot()), deadline, c), InputOf(c)).next
  {
    ghost var path;
    if c.now >= deadline {
      path := planner.Fail(RuntimeExceeded, false);
    }
    command, path := planner.Update(InputOf(c));
    reply := c.reply;
  }

  // ----- what every loop keeps -----

  lemma PassKeepsValid(cfg: Config, nav: Nav, deadline: real, c: Cycle)
    requires Usual(cfg) && Valid(cfg, nav.planner)
    ensures Valid(cfg, Due(nav.planner, deadline, c))
    ensures Valid(cfg, Pass(cfg, nav, deadline, c).planner)
    ensures nav.planner.initialized ==> Pass(cfg, nav, deadline, c).planner.initialized
  {
    EventKeepsValid(cfg, nav.planner, Failure(RuntimeExceeded, false));
    EventKeepsValid(cfg, Due(nav.planner, deadline, c), Sense(InputOf(c)));
    EventKeepsValid(cfg, Update(cfg, Due(nav.planner, deadline, c), InputOf(c)).next, Failure(MoveFailures, false));
    hide Update, Valid;
  }

  lemma {:induction false} NavIsValid(cfg: Config, deadline: real, cycles: seq<Cycle>, n: nat)
    requires Usual(cfg) && n <= |cycles|
    ensures Valid(cfg, NavAt(cfg, deadline, cycles, n).planner)
  {
    hide Update, Pass, Valid;
    InitialIsValid(cfg);
    if n > 0 {
      NavIsValid(cfg, deadline, cycles, n - 1);
      PassKeepsValid(cfg, NavAt(cfg, deadline, cycles, n - 1), deadline, cycles[n - 1]);
    }
  }

  lemma FirstTickGoesOn(cfg: Config, p: Planner, input: PlannerInput)
    requires Usual(cfg) && Valid(cfg, p) && !p.initialized
    ensures !Update(cfg, p, input).out.terminal
  {
    if Usable(input) {
      AtOrigin(p, Sampled(input));
      hide Located;
    }
  }

  lemma TerminalCommand(cfg: Config, p: Planner, input: PlannerInput)
    requires p.initialized && Terminal(p.state)
    ensures var out := Update(cfg, p, input).out;
            out.terminal && out.vx == 0.0 && out.vy == 0.0 && out.yawRate == 0.0
  {
    TerminalStep(cfg, p, Sense(input));
  }

  /**
   A pass at or past the runtime deadline ends the loop with a zero command if, and only if, the
   planner has had its first usable sample before: until then the deadline is forgotten.
   */
  lemma DeadlineEndsLoop(cfg: Config, deadline: real, cycles: seq<Cycle>, i: nat)
    requires Usual(cfg) && i < |cycles| && cycles[i].now >= deadline
    ensures CommandAt(cfg, deadline, cycles, i).terminal <==> NavAt(cfg, deadline, cycles, i).planner.initialized
    ensures var out := CommandAt(cfg, deadline, cycles, i);
            out.terminal ==> out.vx == 0.0 && out.vy == 0.0 && out.yawRate == 0.0
  {
    NavIsValid(cfg, deadline, cycles, i);
    var nav := NavAt(cfg, deadline, cycles, i);
    PassKeepsValid(cfg, nav, deadline, cycles[i]);
    hide Update, Valid;
    if nav.planner.initialized {
      TerminalCommand(cfg, Due(nav.planner, deadline, cycles[i]), InputOf(cycles[i]));
    } else {
      FirstTickGoesOn(cfg, Due(nav.planner, deadline, cycles[i]), InputOf(cycles[i]));
    }
  }

  // ----- the age of the samples -----

  /** Both samples of the pass have been received, and not more than half a second before it. */
  predicate Current(c: Cycle) {
    && c.sensors.rangeReceived > 0.0 && c.now - c.sensors.rangeReceived <= 0.50
    && c.sensors.poseReceived > 0.0 && c.now - c.sensors.poseReceived <= 0.50
  }

  /**
   Samples that are missing or older than half a second never move the robot, and they end the loop of
   a started planner: with a zero command, a sensor fault, and exit code 7 unless a stop is requested.
   */
  lemma StaleSensorsEndLoop(cfg: Config, deadline: real, cycles: seq<Cycle>, i: nat)
    requires Usual(cfg) && i < |cycles| && !Current(cycles[i])
    ensures var out := CommandAt(cfg, deadline, cycles, i);
            && out.vx == out.vy == out.yawRate == 0.0
            && (NavAt(cfg, deadline, cycles, i).planner.initialized ==>
                  && out.terminal && out.state.SensorFault?
                  && ExitCode(Finished(out), false) == 7 && ExitCode(Finished(out), true) == 130)
  {
    NavIsValid(cfg, deadline, cycles, i);
    PassKeepsValid(cfg, NavAt(cfg, deadline, cycles, i), deadline, cycles[i]);
    hide Update, Valid;
    StaleTick(cfg, Due(NavAt(cfg, deadline, cycles, i).planner, deadline, cycles[i]), InputOf(cycles[i]));
  }

  lemma StaleTick(cfg: Config, p: Planner, input: PlannerInput)
    requires !(input.rangeFresh && input.poseFresh)
    ensures var out := Update(cfg, p, input).out;
            && out.vx == out.vy == out.yawRate == 0.0
            && (p.initialized ==> out.terminal && out.state.SensorFault?)
  {
  }

  /** And on current samples with good values a planner that has not ended has no sensor fault. */
  lemma CurrentSensorsAreUsed(cfg: Config, deadline: real, cycles: seq<Cycle>, i: nat)
    requires Usual(cfg) && i < |cycles| && Current(cycles[i]) && ValuesValid(InputOf(cycles[i]))
    requires !NavAt(cfg, deadline, cycles, i).planner.state.SensorFault?
    ensures !CommandAt(cfg, deadline, cycles, i).state.SensorFault?
  {
    NavIsValid(cfg, deadline, cycles, i);
    var p := NavAt(cfg, deadline, cycles, i).planner;
    PassKeepsValid(cfg, NavAt(cfg, deadline, cycles, i), deadline, cycles[i]);
    SensorFaultExactly(cfg, Due(p, deadline, cycles[i]), InputOf(cycles[i]));
    TerminalFlag(cfg, Due(p, deadline, cycles[i]), InputOf(cycles[i]));
    hide Update, Valid;
    if !p.initialized {
      FirstTickGoesOn(cfg, Due(p, deadline, cycles[i]), InputOf(cycles[i]));
    }
  }

  // ----- failing Move calls -----

  predicate MoveFailed(cycles: seq<Cycle>, i: nat)
    requires i < |cycles|
  {
    cycles[i].reply.Code? && cycles[i].reply.code != 0
  }

  /** The counter is the length of the run of failed calls that just ended. */
  lemma {:induction false} FailuresAreCounted(cfg: Config, deadline: real, cycles: seq<Cycle>, n: nat)
    requires n <= |cycles| && forall j | 0 <= j < n :: cycles[j].reply.Code?
    ensures var f := NavAt(cfg, deadline, cycles, n).failures;
            && f <= n
            && (forall j | n - f <= j < n :: MoveFailed(cycles, j))
            && (f < n ==> !MoveFailed(cycles, n - f - 1))
  {
    hide Update;
    if n > 0 {
      FailuresAreCounted(cfg, deadline, cycles, n - 1);
    }
  }

  // Four failures leave the planner stopped.
  lemma StoppedByFailures(cfg: Config, deadline: real, cycles: seq<Cycle>, n: nat)
    requires 0 < n <= |cycles| && cycles[n - 1].reply.Code?
    requires NavAt(cfg, deadline, cycles, n).failures >= 4
    ensures NavAt(cfg, deadline, cycles, n).planner.state.Blocked?
  {
    hide Update;
  }

  /**
   The pass after four failed Move calls in a row ends the loop, with a zero command, if and only if
   the planner has had its first usable sample: until then the failures are forgotten.
   */
  lemma FourFailuresEndLoop(cfg: Config, deadline: real, cycles: seq<Cycle>, i: nat)
    requires Usual(cfg) && 4 <= i < |cycles|
    requires forall j | 0 <= j < i :: cycles[j].reply.Code?
    requires forall j | i - 4 <= j < i :: MoveFailed(cycles, j)
    ensures CommandAt(cfg, deadline, cycles, i).terminal <==> NavAt(cfg, deadline, cycles, i).planner.initialized
    ensures var out := CommandAt(cfg, deadline, cycles, i);
            out.terminal ==> out.vx == 0.0 && out.vy == 0.0 && out.yawRate == 0.0
  {
    hide Update, Valid;
    FailuresAreCounted(cfg, deadline, cycles, i);
    var nav := NavAt(cfg, deadline, cycles, i);
    StoppedByFailures(cfg, deadline, cycles, i);
    if nav.planner.initialized {
      TerminalCommand(cfg, Due(nav.planner, deadline, cycles[i]), InputOf(cycles[i]));
    } else {
      NavIsValid(cfg, deadline, cycles, i);
      PassKeepsValid(cfg, nav, deadline, cycles[i]);
      FirstTickGoesOn(cfg, Due(nav.planner, deadline, cycles[i]), InputOf(cycles[i]));
    }
  }

  /**
   The failure counter, exactly: a pass whose command does not report Move failures yet leaves a planner
   stopped for them if and only if its Move call and the three before it have failed.
   */
  lemma FourthFailureStops(cfg: Config, deadline: real, cycles: seq<Cycle>, i: nat)
    requires i < |cycles| && !CommandAt(cfg, deadline, cycles, i).reason.MoveFailures?
    requires forall j | 0 <= j <= i :: cycles[j].reply.Code?
    ensures NavAt(cfg, deadline, cycles, i + 1).planner.reason.MoveFailures?
        <==> i >= 3 && forall j | i - 3 <= j <= i :: cycles[j].reply.code != 0
    ensures var p := NavAt(cfg, deadline, cycles, i + 1).planner;
            if p.reason.MoveFailures? then p.state.Blocked?
            else p.state == CommandAt(cfg, deadline, cycles, i).state
  {
    hide Update, Pass, MoveFailed;
    FourInARow(cfg, deadline, cycles, i + 1);
    PassFails(cfg, NavAt(cfg, deadline, cycles, i), deadline, cycles[i]);
    NextPass(cfg, deadline, cycles, i);
  }

  lemma FourInARow(cfg: Config, deadline: real, cycles: seq<Cycle>, n: nat)
    requires n <= |cycles| && forall j | 0 <= j < n :: cycles[j].reply.Code?
    ensures NavAt(cfg, deadline, cycles, n).failures >= 4
        <==> n >= 4 && forall j | n - 4 <= j < n :: cycles[j].reply.code != 0
  {
    FailuresAreCounted(cfg, deadline, cycles, n);
    hide NavAt;
    LastFour(cycles, n, NavAt(cfg, deadline, cycles, n).failures);
  }

  lemma NextPass(cfg: Config, deadline: real, cycles: seq<Cycle>, i: nat)
    requires i < |cycles|
    ensures NavAt(cfg, deadline, cycles, i + 1) == Pass(cfg, NavAt(cfg, deadline, cycles, i), deadline, cycles[i])
  {
    hide Update, Pass;
  }

  lemma LastFour(cycles: seq<Cycle>, n: nat, row: nat)
    requires row <= n <= |cycles| && forall j | 0 <= j < n :: cycles[j].reply.Code?
    requires (forall j | n - row <= j < n :: MoveFailed(cycles, j)) && (row < n ==> !MoveFailed(cycles, n - row - 1))
    ensures row >= 4 <==> n >= 4 && forall j | n - 4 <= j < n :: cycles[j].reply.code != 0
  {
    if row >= 4 {
      forall j | n - 4 <= j < n
        ensures cycles[j].reply.code != 0
      {
        assert MoveFailed(cycles, j);
      }
    }
  }

  lemma PassFails(cfg: Config, nav: Nav, deadline: real, c: Cycle)
    requires c.reply.Code? && !Command(cfg, nav.planner, deadline, c).reason.MoveFailures?
    ensures var q := Pass(cfg, nav, deadline, c);
            && (q.planner.reason.MoveFailures? <==> q.failures >= 4)
            && (if q.planner.reason.MoveFailures? then q.planner.state.Blocked?
                else q.planner.state == Command(cfg, nav.planner, deadline, c).state)
  {
    ReportsItself(cfg, Due(nav.planner, deadline, c), InputOf(c));
    hide Update;
  }

  lemma {:induction false} DecisionReportsItself(cfg: Config, p: Planner, s: Sample)
    ensures var t := Decide(cfg, p, s); t.out.state == t.next.state && t.out.reason == t.next.reason
    decreases FallsLeft(p.state)
  {
    match Act(cfg, p, s)
    case End(_) =>
    case FallTo(q) => DecisionReportsItself(cfg, q, s);
  }

  lemma ReportsItself(cfg: Config, p: Planner, input: PlannerInput)
    ensures var t := Update(cfg, p, input); t.out.state == t.next.state && t.out.reason == t.next.reason
  {
    hide Act, Decide, Located, AtLeast;
    if Reaches(cfg, p, input) {
      DecisionReportsItself(cfg, Handed(cfg, p, input), Sampled(input));
    }
  }

  // ----- the deadline -----

  lemma {:induction false} DecisionKnowsNoDeadline(cfg: Config, p: Planner, s: Sample)
    requires !p.reason.RuntimeExceeded?
    ensures !Decide(cfg, p, s).next.reason.RuntimeExceeded?
    decreases FallsLeft(p.state)
  {
    match Act(cfg, p, s)
    case End(_) =>
    case FallTo(q) => DecisionKnowsNoDeadline(cfg, q, s);
  }

  lemma UpdateKnowsNoDeadline(cfg: Config, p: Planner, input: PlannerInput)
    requires !p.reason.RuntimeExceeded?
    ensures !Update(cfg, p, input).next.reason.RuntimeExceeded?
  {
    if Reaches(cfg, p, input) {
      DecisionKnowsNoDeadline(cfg, Handed(cfg, p, input), Sampled(input));
    }
  }

  /** No loop reports that its runtime is exceeded before a pass at or past the deadline. */
  lemma {:induction false} NotExceededBefore(cfg: Config, deadline: real, cycles: seq<Cycle>, n: nat)
    requires n <= |cycles| && forall j | 0 <= j < n :: cycles[j].now < deadline
    ensures !NavAt(cfg, deadline, cycles, n).planner.reason.RuntimeExceeded?
    ensures n > 0 ==> !CommandAt(cfg, deadline, cycles, n - 1).reason.RuntimeExceeded?
  {
    hide Update;
    if n > 0 {
      NotExceededBefore(cfg, deadline, cycles, n - 1);
      var p, c := NavAt(cfg, deadline, cycles, n - 1).planner, cycles[n - 1];
      UpdateKnowsNoDeadline(cfg, p, InputOf(c));
      ReportsItself(cfg, p, InputOf(c));
    }
  }

  // ----- the exit code -----

  function ExitCode(end: LoopEnd, stopAtEnd: bool): int {
    match end
    case Threw => 9
    case Finished(last) =>
      if stopAtEnd then 130
      else if last.state.Complete? then 0
      else if last.state.SensorFault? then 7 else 6
    case _ => if stopAtEnd then 130 else 0
  }

  /** What each exit code says about the end of the loop. */
  lemma ExitCodeTells(end: LoopEnd, stopAtEnd: bool)
    requires end.Interrupted? ==> stopAtEnd
    requires !end.Running?
    requires end.Finished? ==> Terminal(end.last.state)
    ensures var code := ExitCode(end, stopAtEnd);
            && code in {0, 6, 7, 9, 130}
            && (code == 9 <==> end.Threw?) && (code == 130 <==> !end.Threw? && stopAtEnd)
            && (code == 0 <==> !stopAtEnd && end.Finished? && end.last.state.Complete?)
            && (code == 7 <==> !stopAtEnd && end.Finished? && end.last.state.SensorFault?)
            && (code == 6 <==> !stopAtEnd && end.Finished? && end.last.state.Blocked?)
  {
  }

  /** What the planner is fed in a pass: the latest samples as they are, each fresh for half a second. */
  predicate Feeds(c: Cycle, input: PlannerInput) {
    && input.range == c.sensors.range && input.pose == c.sensors.pose && input.now == c.now
    && (input.rangeFresh <==> c.sensors.rangeReceived > 0.0 && c.now - c.sensors.rangeReceived <= 0.50)
    && (input.poseFresh <==> c.sensors.poseReceived > 0.0 && c.now - c.sensors.poseReceived <= 0.50)
  }

  /** The command of a pass is the planner's for the samples of this pass, after a failure at the deadline. */
  lemma CommandIsPlanned(cfg: Config, deadline: real, cycles: seq<Cycle>, i: nat, input: PlannerInput)
    requires i < |cycles| && Feeds(cycles[i], input)
    ensures var p := NavAt(cfg, deadline, cycles, i).planner;
            CommandAt(cfg, deadline, cycles, i)
            == Update(cfg, if cycles[i].now < deadline then p else Failed(p, RuntimeExceeded, false), input).out
  {
    assert input == InputOf(cycles[i]);
    hide Update;
  }

  /** The planner inside the loop makes a planner run; event `e` of it belongs to pass `origin[e]`. */
  lemma {:induction false} NavIsARun(cfg: Config, deadline: real, cycles: seq<Cycle>, n: nat)
      returns (events: seq<Event>, origin: seq<nat>)
    requires n <= |cycles|
    ensures |origin| == |events|
    ensures StateAt(cfg, events, |events|) == NavAt(cfg, deadline, cycles, n).planner
    ensures forall e | 0 <= e < |events| :: origin[e] < n
    ensures forall e | 0 <= e < |events| && events[e].Sense? :: events[e].input == InputOf(cycles[origin[e]])
    ensures forall e | 0 <= e < |events| && events[e].Sense? :: Feeds(cycles[origin[e]], events[e].input)
  {
    hide Update, Failed;
    if n == 0 {
      events, origin := [], [];
    } else {
      events, origin := NavIsARun(cfg, deadline, cycles, n - 1);
      var c, nav := cycles[n - 1], NavAt(cfg, deadline, cycles, n - 1);
      if c.now >= deadline {
        Extended(cfg, events, Failure(RuntimeExceeded, false));
        events, origin := events + [Failure(RuntimeExceeded, false)], origin + [n - 1];
      }
      Extended(cfg, events, Sense(InputOf(c)));
      events, origin := events + [Sense(InputOf(c))], origin + [n - 1];
      if c.reply.Code? && c.reply.code != 0 && Counted(nav.failures, c.reply) >= 4 {
        Extended(cfg, events, Failure(MoveFailures, false));
        events, origin := events + [Failure(MoveFailures, false)], origin + [n - 1];
      }
    }
  }

  lemma {:induction false} SamePrefix(cfg: Config, a: seq<Event>, b: seq<Event>, n: nat)
    requires n <= |a| && n <= |b| && forall i | 0 <= i < n :: a[i] == b[i]
    ensures StateAt(cfg, a, n) == StateAt(cfg, b, n)
  {
    hide Update;
    if n > 0 {
      SamePrefix(cfg, a, b, n - 1);
    }
  }

  lemma Extended(cfg: Config, events: seq<Event>, e: Event)
    ensures StateAt(cfg, events + [e], |events| + 1) == After(cfg, StateAt(cfg, events, |events|), e)
  {
    hide Update;
    SamePrefix(cfg, events, events + [e], |events|);
  }

  ghost predicate UnitHeadings(cycles: seq<Cycle>) {
    forall i | 0 <= i < |cycles| && cycles[i].sensors.pose.yaw.Yaw? ::
      IsUnit(cycles[i].sensors.pose.yaw.heading)
  }

  /**
   Exit code 0 is honest: the last command was Complete, and two usable samples the loop has read
   are at least the target distance apart.
   */
  lemma ExitZeroIsHonest(cfg: Config, deadline: real, cycles: seq<Cycle>, n: nat, end: LoopEnd,
                         sent: seq<Output>, stopAtEnd: bool) returns (o: nat, j: nat)
    requires Usual(cfg) && UnitHeadings(cycles)
    requires Ends(cfg, deadline, cycles, n, end, sent) && !end.Running?
    requires end.Interrupted? ==> stopAtEnd
    requires ExitCode(end, stopAtEnd) == 0
    ensures end.Finished? && end.last.state.Complete? && !stopAtEnd
    ensures o <= n < |cycles| && j <= n
    ensures Usable(InputOf(cycles[o])) && Usable(InputOf(cycles[j]))
    ensures var a, b := cycles[o].sensors.pose, cycles[j].sensors.pose;
            var dx, dy := b.x.value - a.x.value, b.y.value - a.y.value;
            dx * dx + dy * dy >= cfg.targetDistance * cfg.targetDistance
  {
    hide Update;
    assert sent[n] == CommandAt(cfg, deadline, cycles, n);
    var events, origin := CompleteRun(cfg, deadline, cycles, n);
    UnitEvents(cycles, events, origin);
    var eo, ej := HonestCompletion(cfg, events, |events|);
    o, j := origin[eo], origin[ej];
    assert events[eo].Sense? && events[ej].Sense?;
  }

  lemma UnitEvents(cycles: seq<Cycle>, events: seq<Event>, origin: seq<nat>)
    requires UnitHeadings(cycles) && |origin| == |events|
    requires forall e | 0 <= e < |events| :: origin[e] < |cycles|
    requires forall e | 0 <= e < |events| && events[e].Sense? :: events[e].input == InputOf(cycles[origin[e]])
    ensures UnitYaws(events)
  {
    forall e | 0 <= e < |events| && UsableAt(events, e)
      ensures IsUnit(SampleAt(events, e).heading)
    {
      assert cycles[origin[e]].sensors.pose.yaw.Yaw?;
    }
  }

  // The run that ends with the command of pass `n`.
  lemma CompleteRun(cfg: Config, deadline: real, cycles: seq<Cycle>, n: nat)
      returns (events: seq<Event>, origin: seq<nat>)
    requires Usual(cfg) && n < |cycles|
    requires CommandAt(cfg, deadline, cycles, n).terminal && CommandAt(cfg, deadline, cycles, n).state.Complete?
    ensures |origin| == |events| && StateAt(cfg, events, |events|).state.Complete?
    ensures forall e | 0 <= e < |events| :: origin[e] <= n
    ensures forall e | 0 <= e < |events| && events[e].Sense? :: events[e].input == InputOf(cycles[origin[e]])
  {
    hide Update, Failed;
    var c := cycles[n];
    events, origin := NavIsARun(cfg, deadline, cycles, n);
    if c.now >= deadline {
      Extended(cfg, events, Failure(RuntimeExceeded, false));
      events, origin := events + [Failure(RuntimeExceeded, false)], origin + [n];
    }
    Extended(cfg, events, Sense(InputOf(c)));
    AlwaysValid(cfg, events, |events|);
    TerminalFlag(cfg, StateAt(cfg, events, |events|), InputOf(c));
    events, origin := events + [Sense(InputOf(c))], origin + [n];
  }

  // ----- the whole program -----

  const BUSY := Code(3104)

  /** Calls up to six times while the answer is "busy"; a call that throws ends it. */
  method RetryBusy(call: nat -> Reply) returns (reply: Reply, calls: nat)
    ensures Retried(call, reply, calls)
  {
    reply := BUSY;
    calls := 0;
    for attempt := 0 to 6
      invariant calls == attempt && (calls > 0 ==> reply == call(calls - 1)) && reply == BUSY
      invariant forall j | 0 <= j < calls :: call(j) == BUSY
    {
      reply := call(attempt);
      calls := attempt + 1;
      if reply != BUSY { return; }
    }
  }

  /** One to six calls: all but the last were busy, six if that is, and the last answer counts. */
  predicate Retried(call: nat -> Reply, reply: Reply, calls: nat) {
    && 1 <= calls <= 6 && reply == call(calls - 1)
    && (forall j | 0 <= j < calls - 1 :: call(j) == Code(3104))
    && (reply == Code(3104) ==> calls == 6)
  }

  /** One of the six calls is granted, after nothing but busy answers. */
  predicate Granted(call: nat -> Reply) {
    exists calls: nat | 1 <= calls <= 6 :: Retried(call, Code(0), calls)
  }

  datatype Velocity = Velocity(vx: real, vy: real, yawRate: real)

  const STANDSTILL := Velocity(0.0, 0.0, 0.0)

  function VelocityOf(out: Output): Velocity {
    Velocity(out.vx, out.vy, out.yawRate)
  }

  function Velocities(sent: seq<Output>): (v: seq<Velocity>)
    ensures |v| == |sent| && forall i | 0 <= i < |v| :: v[i] == VelocityOf(sent[i])
  {
    if sent == [] then [] else Velocities(sent[..|sent| - 1]) + [VelocityOf(sent[|sent| - 1])]
  }

  function Standstills(n: nat): (v: seq<Velocity>)
    ensures |v| == n && forall i | 0 <= i < n :: v[i] == STANDSTILL
  {
    if n == 0 then [] else Standstills(n - 1) + [STANDSTILL]
  }

  /**
   What the program finds outside its loop: whether it connects, whether the sensors are valid once
   it has stopped waiting for them, the probe flag, whether the client can be set up, and how the two
   claims, the zero velocities at the end and the release are answered.
   */
  datatype Setup = Setup(
    connects: bool, ready: bool, probe: bool, creates: bool,
    switchOn: nat -> Reply, claim: nat -> Reply, zeros: nat -> Reply, release: nat -> Reply)

  /** How the program ends: with a code, by an exception that nothing catches, or not yet. */
  datatype Exit = Returned(code: int) | Aborted | NotYet

  /** Sends zero velocities; one that throws ends the program. */
  method SendZeros(answers: nat -> Reply, count: nat) returns (zeros: nat, threw: bool)
    ensures zeros <= count && (threw <==> exists j: nat | j < count :: answers(j).Throws?)
    ensures if threw then zeros > 0 && answers(zeros - 1).Throws? else zeros == count
    ensures forall j: nat | j + 1 < zeros :: answers(j).Code?
  {
    zeros := 0;
    while zeros < count
      invariant zeros <= count && forall j: nat | j < zeros :: answers(j).Code?
    {
      zeros := zeros + 1;
      if answers(zeros - 1).Throws? { return zeros, true; }
    }
    threw := false;
  }

  /** The end of the program: the zeros, and the release when control was claimed. */
  method StopAndRelease(setup: Setup, claimed: bool, code: int) returns (exit: Exit, zeros: nat, releases: nat)
    ensures zeros <= (if claimed then 8 else 5)
    ensures exit.Returned? ==> zeros == (if claimed then 8 else 5) && exit.code == code
    ensures exit.Returned? || exit.Aborted?
    ensures exit.Aborted? <==>
              || (exists j: nat | j < (if claimed then 8 else 5) :: setup.zeros(j).Throws?)
              || (releases > 0 && setup.release(releases - 1).Throws?)
    ensures releases > 0 ==> Retried(setup.release, setup.release(releases - 1), releases)
    ensures releases > 0 <==> claimed && forall j: nat | j < 8 :: setup.zeros(j).Code?
  {
    releases := 0;
    var threw;
    zeros, threw := SendZeros(setup.zeros, if claimed then 8 else 5);
    if threw { return Aborted, zeros, releases; }
    if claimed {
      var reply;
      reply, releases := RetryBusy(setup.release);
      if reply.Throws? { return Aborted, zeros, releases; }
    }
    exit := Returned(code);
  }

  /**
   The program, with every velocity it sends. A velocity other than standstill is only ever a planner
   command, sent once obstacle avoidance is on and remote control is claimed. After its loop come
   eight standstills and the request to release remote control; it returns if and only if none of
   these throws, and an exception before the claims ends it without any velocity.
   */
  method Navigate(setup: Setup, args: Arguments, cycles: seq<Cycle>, started: real, stopAtEnd: bool)
      returns (exit: Exit, moves: seq<Velocity>, claimed: bool, releases: nat, end: LoopEnd,
               ghost zeros: nat, ghost sent: seq<Output>, ghost n: nat)
    ensures !setup.connects || (setup.ready && !setup.probe && !setup.creates) ==> exit == Aborted && moves == []
    ensures setup.connects && !setup.ready ==> exit == Returned(7) && moves == []
    ensures setup.connects && setup.ready && setup.probe ==> exit == Returned(0) && moves == []
    ensures claimed <==> Starts(setup) && Granted(setup.switchOn) && Granted(setup.claim)
    ensures Starts(setup) && !claimed ==>
              moves == Standstills(zeros) && (exit.Returned? ==> exit.code == 9 && zeros == 5) && !exit.NotYet?
    ensures claimed ==>
              && Ends(Clamped(Configured(args)), started + MaxRuntime(Configured(args)), cycles, n, end, sent)
              && moves == Velocities(sent) + Standstills(zeros)
              && (exit.NotYet? <==> end.Running?) && (exit.NotYet? ==> zeros == 0)
              && (exit.Returned? ==> exit.code == ExitCode(end, stopAtEnd) && zeros == 8 && releases > 0)
    ensures Starts(setup) && !exit.NotYet? ==>
              (exit.Aborted? <==>
                 || (exists j: nat | j < (if claimed then 8 else 5) :: setup.zeros(j).Throws?)
                 || (releases > 0 && setup.release(releases - 1).Throws?))
    ensures releases > 0 ==> claimed && Retried(setup.release, setup.release(releases - 1), releases)
  {
    hide Update, Ends, Clamped, ExitCode, Retried, Granted;
    exit, moves, claimed, releases, end, zeros, sent, n := Aborted, [], false, 0, Running, 0, [], 0;
    if !setup.connects { return; }
    if !setup.ready { exit := Returned(7); return; }
    if setup.probe { exit := Returned(0); return; }
    if !setup.creates { return; }
    var config := Configured(args);
    var code, stills := 9, 0;
    var switches, claims;
    claimed, switches, claims := ClaimControl(setup);
    if claimed {
      var planner := new LocalPlanner(config);
      var outs;
      end, outs, n := Control(planner, cycles, started + MaxRuntime(config));
      sent := outs;
      moves := Velocities(outs);
      if end.Running? {
        exit := NotYet;
        return;
      }
      code := ExitCode(end, stopAtEnd);
    }
    exit, stills, releases := StopAndRelease(setup, claimed, code);
    zeros := stills;
    moves := moves + Standstills(stills);
  }

  /** The program gets as far as its client. */
  predicate Starts(setup: Setup) {
    setup.connects && setup.ready && !setup.probe && setup.creates
  }

  // Obstacle avoidance first, then remote control; anything but code 0 throws.
  method ClaimControl(setup: Setup) returns (claimed: bool, switches: nat, claims: nat)
    ensures claimed <==> Granted(setup.switchOn) && Granted(setup.claim)
    ensures switches > 0 && Retried(setup.switchOn, setup.switchOn(switches - 1), switches)
    ensures if Granted(setup.switchOn) then claims > 0 && Retried(setup.claim, setup.claim(claims - 1), claims)
            else claims == 0
  {
    hide Retried, Granted;
    claimed, claims := false, 0;
    var reply;
    reply, switches := RetryBusy(setup.switchOn);
    RetriedOnce(setup.switchOn, reply, switches);
    RetriedInTime(setup.switchOn, reply, switches);
    if reply == Code(0) {
      reply, claims := RetryBusy(setup.claim);
      RetriedOnce(setup.claim, reply, claims);
      RetriedInTime(setup.claim, reply, claims);
      claimed := reply == Code(0);
    }
  }

  lemma OneWayToRetry(call: nat -> Reply, a: Reply, m: nat, b: Reply, n: nat)
    requires Retried(call, a, m) && Retried(call, b, n)
    ensures a == b && m == n
  {
  }

  lemma RetriedOnce(call: nat -> Reply, reply: Reply, calls: nat)
    requires Retried(call, reply, calls)
    ensures Granted(call) <==> reply == Code(0)
  {
    hide Retried;
    if c: nat :| 1 <= c <= 6 && Retried(call, Code(0), c) {
      OneWayToRetry(call, reply, calls, Code(0), c);
    } else if reply == Code(0) {
      RetriedInTime(call, reply, calls);
    }
  }

  lemma RetriedInTime(call: nat -> Reply, reply: Reply, calls: nat)
    requires Retried(call, reply, calls)
    ensures 1 <= calls <= 6 && reply == call(calls - 1)
  {
  }

  // ----- the runtime limit -----

  const PERIODIC := Timing([], CONTROL_PERIOD, CONTROL_PERIOD)

  lemma FewSteps(x: real, d: real)
    requires d > 0.0 && x > 0.0
    ensures Steps(x, d) as real <= x / d + 1.0
  {
  }

  lemma FewForwardSteps(target: real, speed: real)
    requires target > 0.0 && speed > 0.0
    ensures speed * CONTROL_PERIOD > 0.0
    ensures Steps(target, speed * CONTROL_PERIOD) as real * CONTROL_PERIOD <= target / speed + CONTROL_PERIOD
  {
    FewSteps(target, speed * CONTROL_PERIOD);
    assert target / (speed * CONTROL_PERIOD) * CONTROL_PERIOD == target / speed;
  }

  lemma FewLateralSteps(shift: real)
    requires 0.40 <= shift <= 1.50
    ensures Steps(shift, 0.14 * CONTROL_PERIOD) <= 216
  {
    FewSteps(shift, 0.14 * CONTROL_PERIOD);
    assert shift / 0.007 <= 1.50 / 0.007;
  }

  lemma FewTicks(attempts: int, each: nat)
    requires 0 <= attempts <= 4 && each <= 433
    ensures attempts * each <= 1732
  {
  }

  function ConfigOf(args: Arguments): Config {
    Clamped(Configured(args))
  }

  function DeadlineOf(args: Arguments, started: real): real {
    started + MaxRuntime(Configured(args))
  }

  /** The planner works with the speeds and the target it was configured with. */
  lemma ConfiguredIsUsual(args: Arguments)
    ensures Usual(ConfigOf(args)) && ComesBack(ConfigOf(args), PERIODIC)
    ensures ConfigOf(args).lateralSpeed * CONTROL_PERIOD
         <= 2.0 * ConfigOf(args).rejoinTolerance
    ensures var c, given := ConfigOf(args), Configured(args);
            && c.targetDistance == given.targetDistance && c.forwardSpeed == given.forwardSpeed
            && c.lateralSpeed == 0.14 && 0.40 <= c.lateralShift <= 1.50
            && 0 <= c.maxBypassAttempts <= 4 && 0.10 <= c.forwardSpeed && 0.5 <= c.targetDistance <= 60.0
  {
  }

  /** `x` is `v` brought into the range. */
  predicate Brings(v: real, low: real, high: real, x: real) {
    (v < low ==> x == low) && (low <= v <= high ==> x == v) && (v > high ==> x == high)
  }

  /** Every argument is brought into its range, and the side clearance leaves room for the shift. */
  lemma ArgumentsAreBounded(args: Arguments)
    ensures var c := ConfigOf(args);
            && Brings(args.target, 0.5, 60.0, c.targetDistance) && Brings(args.speed, 0.10, 0.35, c.forwardSpeed)
            && Brings(args.stop, 0.40, 1.50, c.stopDistance) && Brings(args.shift, 0.40, 1.50, c.lateralShift)
            && (args.attempts < 0 ==> c.maxBypassAttempts == 0) && (args.attempts > 4 ==> c.maxBypassAttempts == 4)
            && (0 <= args.attempts <= 4 ==> c.maxBypassAttempts == args.attempts)
            && Brings(args.sideClearance, Max(0.40, c.lateralShift + 0.35), Max(1.50, c.lateralShift + 0.35),
                      c.minSideClearance)
  {
  }

  /** The other parameters are fixed, but for the distance at which the front counts as clear. */
  lemma OtherParametersAreFixed(args: Arguments)
    ensures var c := ConfigOf(args);
            && c.resumeDistance == Max(c.stopDistance + 0.25, 1.10)
            && c.lateralSpeed == 0.14 && c.sideStopDistance == 0.35 && c.bypassForwardDistance == 1.20
            && c.rejoinTolerance == 0.08 && c.motionProgressEpsilon == 0.01 && c.motionStallTimeout == 3.0
            && c.blockedFrames == 3 && c.clearFrames == 3
  {
  }

  /** The runtime limit is four times the time the route takes and two minutes, brought between 3 and 20 minutes. */
  lemma RuntimeLimitIsBounded(args: Arguments)
    ensures Brings(ConfigOf(args).targetDistance / ConfigOf(args).forwardSpeed * 4.0 + 120.0, 180.0, 1200.0,
                   MaxRuntime(Configured(args)))
  {
    ConfiguredIsUsual(args);
    hide Configured, Clamped;
  }

  /** How long after the start the first usable sample may come for the limit to be out of reach. */
  const LATEST_START := 30.0

  lemma RuntimeLimitIsGenerous(args: Arguments)
    ensures Usual(ConfigOf(args)) && ComesBack(ConfigOf(args), PERIODIC)
    ensures TickBound(ConfigOf(args), PERIODIC) as real * CONTROL_PERIOD + LATEST_START
          < MaxRuntime(Configured(args))
  {
    ConfiguredIsUsual(args);
    var c := ConfigOf(args);
    hide Clamped, Configured, Steps;
    FewForwardSteps(c.targetDistance, c.forwardSpeed);
    FewLateralSteps(c.lateralShift);
    PaceSuits(c, PERIODIC);
    FewTicks(c.maxBypassAttempts, AttemptSteps(c, PaceOf(c, PERIODIC)));
    assert c.targetDistance / c.forwardSpeed <= 600.0;
  }

  // ----- a loop on time, and a robot that obeys -----

  /** Passes are one control period apart. */
  ghost predicate OnTime(cycles: seq<Cycle>) {
    forall i | 0 <= i < |cycles| - 1 :: cycles[i + 1].now == cycles[i].now + CONTROL_PERIOD
  }

  predicate UsablePass(cycles: seq<Cycle>, i: nat)
    requires i < |cycles|
  {
    Usable(InputOf(cycles[i]))
  }

  /** Pass `k` is the first that reads a usable sample. */
  predicate FirstUsablePass(cycles: seq<Cycle>, k: nat) {
    && k < |cycles| && UsablePass(cycles, k)
    && forall i | 0 <= i < k :: !UsablePass(cycles, i)
  }

  /** From pass `k` on, between two usable samples, the robot does what the loop commands. */
  ghost predicate Obeys(cfg: Config, deadline: real, cycles: seq<Cycle>, k: nat)
    requires FirstUsablePass(cycles, k)
  {
    forall i | k <= i < |cycles| - 1 && UsablePass(cycles, i) && UsablePass(cycles, i + 1) ::
      Sampled(InputOf(cycles[i + 1])).at
        == Driven(Sampled(InputOf(cycles[i])).at, Sampled(InputOf(cycles[k])).heading,
                  CommandAt(cfg, deadline, cycles, i).vx, CommandAt(cfg, deadline, cycles, i).vy, CONTROL_PERIOD)
  }

  /** Nothing has happened yet to this planner, except that it may have been told to fail. */
  predicate Untouched(p: Planner) {
    p.(state := Waiting, reason := AwaitingSensors) == INITIAL
  }

  lemma UntouchedTick(cfg: Config, p: Planner, input: PlannerInput)
    requires Untouched(p)
    ensures !Usable(input) ==> Untouched(Update(cfg, p, input).next)
    ensures Usable(input) ==>
              && Update(cfg, p, input).next == Update(cfg, INITIAL, input).next
              && Update(cfg, p, input).out == Update(cfg, INITIAL, input).out
  {
  }

  lemma UntouchedFails(p: Planner, reason: Reason, sensorFault: bool)
    requires Untouched(p)
    ensures Untouched(Failed(p, reason, sensorFault))
  {
    var f := Failed(p, reason, sensorFault);
    assert p.watch == INITIAL.watch && f.watch == p.watch;
  }

  lemma {:induction false} StaysUntouched(cfg: Config, deadline: real, cycles: seq<Cycle>, n: nat)
    requires n <= |cycles| && forall i | 0 <= i < n :: !UsablePass(cycles, i)
    ensures Untouched(NavAt(cfg, deadline, cycles, n).planner)
  {
    hide Update, Untouched, Failed, UsablePass;
    if n == 0 {
      assert Untouched(INITIAL) by {
        UntouchedAtFirst();
      }
    } else {
      StaysUntouched(cfg, deadline, cycles, n - 1);
      var c, before := cycles[n - 1], NavAt(cfg, deadline, cycles, n - 1).planner;
      assert !UsablePass(cycles, n - 1);
      UntouchedFails(before, RuntimeExceeded, false);
      UnusablePass(cycles, n - 1);
      UntouchedTick(cfg, Due(before, deadline, c), InputOf(c));
      UntouchedFails(Update(cfg, Due(before, deadline, c), InputOf(c)).next, MoveFailures, false);
    }
  }

  lemma UntouchedAtFirst()
    ensures Untouched(INITIAL)
  {
  }

  lemma UnusablePass(cycles: seq<Cycle>, i: nat)
    requires i < |cycles| && !UsablePass(cycles, i)
    ensures !Usable(InputOf(cycles[i]))
  {
  }

  /** What passes `k` to `n - 1` feed the planner. */
  function Fed(cycles: seq<Cycle>, k: nat, n: nat): (events: seq<Event>)
    requires k <= n <= |cycles|
    ensures |events| == n - k
    ensures forall j | 0 <= j < n - k :: events[j] == Sense(InputOf(cycles[k + j]))
  {
    seq(n - k, j requires 0 <= j < n - k => Sense(InputOf(cycles[k + j])))
  }

  /** Passes `0` to `n - 1` go on, all before the deadline, and `k` is the first usable one. */
  ghost predicate GoingOn(cfg: Config, deadline: real, cycles: seq<Cycle>, k: nat, n: nat) {
    && k < n <= |cycles| && FirstUsablePass(cycles, k)
    && forall i | 0 <= i < n :: GoesOn(cfg, deadline, cycles, i) && cycles[i].now < deadline
  }

  // A pass before the deadline is a tick, which its Move failures may follow with a failure.
  lemma EarlyPass(cfg: Config, deadline: real, cycles: seq<Cycle>, i: nat)
    requires i < |cycles| && cycles[i].now < deadline
    ensures var t := Update(cfg, NavAt(cfg, deadline, cycles, i).planner, InputOf(cycles[i]));
            && CommandAt(cfg, deadline, cycles, i) == t.out
            && (|| NavAt(cfg, deadline, cycles, i + 1).planner == t.next
                || NavAt(cfg, deadline, cycles, i + 1).planner == Failed(t.next, MoveFailures, false))
  {
    hide Update, Failed;
  }

  lemma FedState(cfg: Config, cycles: seq<Cycle>, k: nat, n: nat, j: nat)
    requires k <= n <= |cycles| && k + j < n
    ensures var t := Update(cfg, StateAt(cfg, Fed(cycles, k, n), j), InputOf(cycles[k + j]));
            StateAt(cfg, Fed(cycles, k, n), j + 1) == t.next && TickAt(cfg, Fed(cycles, k, n), j) == t
    ensures StateAt(cfg, Fed(cycles, k, n), 0) == INITIAL
  {
    hide Update;
  }

  lemma GoesOnAt(cfg: Config, deadline: real, cycles: seq<Cycle>, k: nat, n: nat, i: nat)
    requires GoingOn(cfg, deadline, cycles, k, n) && i < n
    ensures cycles[i].now < deadline && !CommandAt(cfg, deadline, cycles, i).terminal
  {
    hide CommandAt;
    assert GoesOn(cfg, deadline, cycles, i);
  }

  lemma GoingOnFirst(cfg: Config, deadline: real, cycles: seq<Cycle>, k: nat, n: nat)
    requires GoingOn(cfg, deadline, cycles, k, n)
    ensures FirstUsablePass(cycles, k) && k < n <= |cycles|
  {
  }

  lemma FirstUse(cycles: seq<Cycle>, k: nat)
    requires FirstUsablePass(cycles, k)
    ensures Usable(InputOf(cycles[k])) && forall i | 0 <= i < k :: !UsablePass(cycles, i)
  {
  }

  /** The two planners make the same of an input. */
  ghost predicate Alike(cfg: Config, p: Planner, q: Planner, input: PlannerInput) {
    Update(cfg, p, input).next == Update(cfg, q, input).next && Update(cfg, p, input).out == Update(cfg, q, input).out
  }

  lemma FedFirst(cfg: Config, deadline: real, cycles: seq<Cycle>, k: nat, n: nat)
    requires k < n <= |cycles| && FirstUsablePass(cycles, k)
    ensures Alike(cfg, NavAt(cfg, deadline, cycles, k).planner, StateAt(cfg, Fed(cycles, k, n), 0), InputOf(cycles[k]))
  {
    hide Update, Usable, Untouched, InputOf;
    FirstUse(cycles, k);
    StaysUntouched(cfg, deadline, cycles, k);
    UntouchedTick(cfg, NavAt(cfg, deadline, cycles, k).planner, InputOf(cycles[k]));
  }

  lemma AlikeAlways(cfg: Config, p: Planner, input: PlannerInput)
    ensures Alike(cfg, p, p, input)
  {
  }

  // While it goes on, pass `k + j` ticks the planner as event `j` does, and nothing else touches it.
  lemma {:induction false} FedTick(cfg: Config, deadline: real, cycles: seq<Cycle>, k: nat, n: nat, j: nat)
    requires Usual(cfg) && GoingOn(cfg, deadline, cycles, k, n) && k + j < n
    ensures Alike(cfg, NavAt(cfg, deadline, cycles, k + j).planner, StateAt(cfg, Fed(cycles, k, n), j),
                  InputOf(cycles[k + j]))
    decreases j
  {
    hide *;
    GoingOnFirst(cfg, deadline, cycles, k, n);
    if j == 0 {
      FedFirst(cfg, deadline, cycles, k, n);
    } else {
      FedTick(cfg, deadline, cycles, k, n, j - 1);
      FedNext(cfg, deadline, cycles, k, n, j - 1);
    }
  }

  lemma FedNext(cfg: Config, deadline: real, cycles: seq<Cycle>, k: nat, n: nat, j: nat)
    requires Usual(cfg) && GoingOn(cfg, deadline, cycles, k, n) && k + j + 1 < n
    requires Alike(cfg, NavAt(cfg, deadline, cycles, k + j).planner, StateAt(cfg, Fed(cycles, k, n), j),
                   InputOf(cycles[k + j]))
    ensures Alike(cfg, NavAt(cfg, deadline, cycles, k + j + 1).planner, StateAt(cfg, Fed(cycles, k, n), j + 1),
                  InputOf(cycles[k + j + 1]))
  {
    hide *;
    GoingOnFirst(cfg, deadline, cycles, k, n);
    NotInterfered(cfg, deadline, cycles, k, n, j);
    AlikeAlways(cfg, StateAt(cfg, Fed(cycles, k, n), j + 1), InputOf(cycles[k + j + 1]));
  }

  lemma FedUsable(cycles: seq<Cycle>, k: nat, n: nat)
    requires k < n <= |cycles| && Usable(InputOf(cycles[k]))
    ensures UsableAt(Fed(cycles, k, n), 0) && FirstUsable(Fed(cycles, k, n), 0)
    ensures SampleAt(Fed(cycles, k, n), 0) == Sampled(InputOf(cycles[k]))
  {
  }

  // A pass that another one follows has not been stopped by its Move failures.
  lemma NotInterfered(cfg: Config, deadline: real, cycles: seq<Cycle>, k: nat, n: nat, j: nat)
    requires Usual(cfg) && GoingOn(cfg, deadline, cycles, k, n) && k + j + 1 < n
    requires Alike(cfg, NavAt(cfg, deadline, cycles, k + j).planner, StateAt(cfg, Fed(cycles, k, n), j),
                   InputOf(cycles[k + j]))
    ensures NavAt(cfg, deadline, cycles, k + j + 1).planner == StateAt(cfg, Fed(cycles, k, n), j + 1)
  {
    hide *;
    GoingOnFirst(cfg, deadline, cycles, k, n);
    GoesOnAt(cfg, deadline, cycles, k, n, k + j);
    GoesOnAt(cfg, deadline, cycles, k, n, k + j + 1);
    EarlyPass(cfg, deadline, cycles, k + j);
    EarlyPass(cfg, deadline, cycles, k + j + 1);
    FirstUse(cycles, k);
    FedUsable(cycles, k, n);
    FedState(cfg, cycles, k, n, j);
    AlikeMeans(cfg, NavAt(cfg, deadline, cycles, k + j).planner, StateAt(cfg, Fed(cycles, k, n), j),
               InputOf(cycles[k + j]));
    var p := StateAt(cfg, Fed(cycles, k, n), j + 1);
    StartedAfterFirst(cfg, Fed(cycles, k, n), 0, j + 1);
    if NavAt(cfg, deadline, cycles, k + j + 1).planner == Failed(p, MoveFailures, false) {
      FailedIsTerminal(p, MoveFailures, false);
      TerminalCommand(cfg, Failed(p, MoveFailures, false), InputOf(cycles[k + j + 1]));
    }
  }

  lemma AlikeMeans(cfg: Config, p: Planner, q: Planner, input: PlannerInput)
    requires Alike(cfg, p, q, input)
    ensures Update(cfg, p, input).next == Update(cfg, q, input).next
    ensures Update(cfg, p, input).out == Update(cfg, q, input).out
  {
    hide Update;
  }

  lemma FedCommand(cfg: Config, deadline: real, cycles: seq<Cycle>, k: nat, n: nat, j: nat)
    requires Usual(cfg) && GoingOn(cfg, deadline, cycles, k, n) && k + j < n
    ensures CommandAt(cfg, deadline, cycles, k + j) == TickAt(cfg, Fed(cycles, k, n), j).out
  {
    hide *;
    GoingOnFirst(cfg, deadline, cycles, k, n);
    GoesOnAt(cfg, deadline, cycles, k, n, k + j);
    EarlyPass(cfg, deadline, cycles, k + j);
    FedTick(cfg, deadline, cycles, k, n, j);
    FedState(cfg, cycles, k, n, j);
    AlikeMeans(cfg, NavAt(cfg, deadline, cycles, k + j).planner, StateAt(cfg, Fed(cycles, k, n), j),
               InputOf(cycles[k + j]));
  }

  lemma FailedIsTerminal(p: Planner, reason: Reason, sensorFault: bool)
    ensures Terminal(Failed(p, reason, sensorFault).state)
    ensures Failed(p, reason, sensorFault).initialized == p.initialized
  {
  }

  lemma FedDrives(cfg: Config, deadline: real, cycles: seq<Cycle>, k: nat, n: nat, i: nat)
    requires Usual(cfg) && GoingOn(cfg, deadline, cycles, k, n) && Obeys(cfg, deadline, cycles, k)
    requires k + i + 1 < n && UsableAt(Fed(cycles, k, n), i) && UsableAt(Fed(cycles, k, n), i + 1)
    ensures SampleAt(Fed(cycles, k, n), i + 1).at
         == Driven(SampleAt(Fed(cycles, k, n), i).at, StateAt(cfg, Fed(cycles, k, n), i + 1).route.heading,
                   TickAt(cfg, Fed(cycles, k, n), i).out.vx, TickAt(cfg, Fed(cycles, k, n), i).out.vy, CONTROL_PERIOD)
  {
    hide Update, Driven, GoesOn, CommandAt, Usual, StateAt, TickAt, InputOf;
    FirstUse(cycles, k);
    FedUsable(cycles, k, n);
    FedCommand(cfg, deadline, cycles, k, n, i);
    StartedAfterFirst(cfg, Fed(cycles, k, n), 0, i + 1);
    var o := OriginIsFirstFix(cfg, Fed(cycles, k, n), i + 1);
    assert o == 0;
    assert UsablePass(cycles, k + i) && UsablePass(cycles, k + i + 1);
  }

  function Periods(n: nat): Timing {
    Timing(seq(n, _ => CONTROL_PERIOD), CONTROL_PERIOD, CONTROL_PERIOD)
  }

  lemma PeriodsComeBack(cfg: Config, n: nat)
    ensures ComesBack(cfg, Periods(n))
    ensures Periods(n).dtMin == PERIODIC.dtMin && Periods(n).dtMax == PERIODIC.dtMax
  {
  }

  lemma FedFollows(cfg: Config, deadline: real, cycles: seq<Cycle>, k: nat, n: nat)
    requires Usual(cfg) && GoingOn(cfg, deadline, cycles, k, n) && Obeys(cfg, deadline, cycles, k)
    ensures Follows(cfg, Fed(cycles, k, n), 0, Periods(n - k))
  {
    assert k < n <= |cycles|;
    hide Update, Driven, Usual, GoingOn, StateAt, TickAt, InputOf, Obeys;
    forall i | 0 <= i < n - k - 1 && UsableAt(Fed(cycles, k, n), i) && UsableAt(Fed(cycles, k, n), i + 1)
      ensures SampleAt(Fed(cycles, k, n), i + 1).at
           == Driven(SampleAt(Fed(cycles, k, n), i).at, StateAt(cfg, Fed(cycles, k, n), i + 1).route.heading,
                     TickAt(cfg, Fed(cycles, k, n), i).out.vx, TickAt(cfg, Fed(cycles, k, n), i).out.vy, CONTROL_PERIOD)
    {
      FedDrives(cfg, deadline, cycles, k, n, i);
    }
  }

  // A loop whose planner has ended has sent a terminal command.
  lemma EndedByCommand(cfg: Config, deadline: real, cycles: seq<Cycle>, k: nat, n: nat, j: nat)
    requires Usual(cfg) && GoingOn(cfg, deadline, cycles, k, n) && k + j + 1 == n
    ensures !Terminal(StateAt(cfg, Fed(cycles, k, n), j + 1).state)
  {
    hide *;
    GoingOnFirst(cfg, deadline, cycles, k, n);
    FirstUse(cycles, k);
    FedUsable(cycles, k, n);
    GoesOnAt(cfg, deadline, cycles, k, n, k + j);
    FedCommand(cfg, deadline, cycles, k, n, j);
    FedState(cfg, cycles, k, n, j);
    AlwaysValid(cfg, Fed(cycles, k, n), j);
    StartedAfterFirst(cfg, Fed(cycles, k, n), 0, j + 1);
    TerminalFlag(cfg, StateAt(cfg, Fed(cycles, k, n), j), InputOf(cycles[k + j]));
  }

  // As long as the loop goes on it is short of the tick bound.
  lemma FewPasses(cfg: Config, deadline: real, cycles: seq<Cycle>, k: nat, n: nat, j: nat)
    requires Usual(cfg) && ComesBack(cfg, PERIODIC) && UnitHeadings(cycles)
    requires GoingOn(cfg, deadline, cycles, k, n) && Obeys(cfg, deadline, cycles, k) && k + j + 1 == n
    ensures j + 1 < TickBound(cfg, PERIODIC)
  {
    hide *;
    GoingOnFirst(cfg, deadline, cycles, k, n);
    FedLooksRight(cycles, k, n);
    PeriodsComeBack(cfg, n - k);
    FedFollows(cfg, deadline, cycles, k, n);
    FirstUse(cycles, k);
    FedUsable(cycles, k, n);
    SameBound(cfg, PERIODIC, Periods(n - k));
    EndedByCommand(cfg, deadline, cycles, k, n, j);
    if j + 1 >= TickBound(cfg, Periods(n - k)) {
      ClosedLoopTerminates(cfg, Fed(cycles, k, n), 0, j + 1, Periods(n - k));
    }
  }

  lemma FedLooksRight(cycles: seq<Cycle>, k: nat, n: nat)
    requires UnitHeadings(cycles) && k <= n <= |cycles|
    ensures UnitYaws(Fed(cycles, k, n))
  {
    UnitEvents(cycles, Fed(cycles, k, n), seq(n - k, i requires 0 <= i < n - k => k + i));
  }

  lemma {:induction false} TimeOfPass(cycles: seq<Cycle>, k: nat, i: nat)
    requires OnTime(cycles) && k <= i < |cycles|
    ensures cycles[i].now == cycles[k].now + (i - k) as real * CONTROL_PERIOD
  {
    if k < i {
      TimeOfPass(cycles, k, i - 1);
    }
  }

  lemma PassIsEarly(args: Arguments, started: real, cycles: seq<Cycle>, k: nat, i: nat)
    requires OnTime(cycles) && k < |cycles| && cycles[k].now <= started + LATEST_START && i < |cycles|
    requires Usual(ConfigOf(args)) && ComesBack(ConfigOf(args), PERIODIC)
    requires i <= k || i - k < TickBound(ConfigOf(args), PERIODIC)
    ensures cycles[i].now < DeadlineOf(args, started)
  {
    RuntimeLimitIsGenerous(args);
    hide TickBound, ConfigOf, MaxRuntime, Configured;
    if i <= k {
      TimeOfPass(cycles, i, k);
      assert (k - i) as real * CONTROL_PERIOD >= 0.0;
    } else {
      TimeOfPass(cycles, k, i);
      assert (i - k) as real * CONTROL_PERIOD <= TickBound(ConfigOf(args), PERIODIC) as real * CONTROL_PERIOD;
    }
  }

  /** A loop on time: one pass each period, the first usable sample within half a minute, and an obeying robot. */
  ghost predicate Prompt(args: Arguments, started: real, cycles: seq<Cycle>, k: nat) {
    && UnitHeadings(cycles) && OnTime(cycles)
    && FirstUsablePass(cycles, k) && cycles[k].now <= started + LATEST_START
    && Obeys(ConfigOf(args), DeadlineOf(args, started), cycles, k)
  }

  lemma StillPrompt(args: Arguments, started: real, cycles: seq<Cycle>, k: nat, n: nat)
    requires Prompt(args, started, cycles, k) && k < n <= |cycles|
    requires forall i | 0 <= i < n :: GoesOn(ConfigOf(args), DeadlineOf(args, started), cycles, i)
    requires forall i | 0 <= i < n :: cycles[i].now < DeadlineOf(args, started)
    ensures n - k < TickBound(ConfigOf(args), PERIODIC)
  {
    assert GoingOn(ConfigOf(args), DeadlineOf(args, started), cycles, k, n) by {
      hide GoesOn, ConfigOf, DeadlineOf;
    }
    hide *;
    ConfiguredIsUsual(args);
    FewPasses(ConfigOf(args), DeadlineOf(args, started), cycles, k, n, n - k - 1);
  }

  /**
   The runtime limit never stops a robot that moves as commanded. Whatever the arguments, the
   ranges and the answers to Move, a loop on time makes fewer passes from its first usable sample
   on than the tick bound, and every pass it makes is before the deadline.
   */
  lemma {:induction false} LimitIsOutOfReach(args: Arguments, started: real, cycles: seq<Cycle>, k: nat, n: nat)
    requires Prompt(args, started, cycles, k) && n <= |cycles|
    requires forall i | 0 <= i < n :: GoesOn(ConfigOf(args), DeadlineOf(args, started), cycles, i)
    ensures Usual(ConfigOf(args)) && ComesBack(ConfigOf(args), PERIODIC)
    ensures n <= k || n - k < TickBound(ConfigOf(args), PERIODIC)
    ensures forall i | 0 <= i <= n && i < |cycles| :: cycles[i].now < DeadlineOf(args, started)
  {
    ConfiguredIsUsual(args);
    assert k < |cycles|;
    hide Update, GoesOn, TickBound, Clamped, Configured, MaxRuntime, Obeys, OnTime, FirstUsablePass, Usual, ComesBack;
    if n > 0 {
      LimitIsOutOfReach(args, started, cycles, k, n - 1);
      if n > k {
        StillPrompt(args, started, cycles, k, n);
      }
    }
    if n < |cycles| {
      PassIsEarly(args, started, cycles, k, n);
    }
  }
}
