/**
 Runs of the local planner: any finite sequence of `update` and `fail` calls, with any sensor
 stream. This module fixes what a run is and proves what holds after every one of its calls.
 */
module PlannerRuns {
  import opened PlannerModel

  datatype Event = Sense(input: PlannerInput) | Failure(reason: Reason, sensorFault: bool)

  function After(cfg: Config, p: Planner, e: Event): Planner {
    match e
    case Sense(input) => Update(cfg, p, input).next
    case Failure(reason, sensorFault) => Failed(p, reason, sensorFault)
  }

  /** The planner after the first `n` calls. */
  function StateAt(cfg: Config, events: seq<Event>, n: nat): Planner
    requires n <= |events|
  {
    if n == 0 then INITIAL else After(cfg, StateAt(cfg, events, n - 1), events[n - 1])
  }

  /** The tick that call `i` makes. */
  function TickAt(cfg: Config, events: seq<Event>, i: nat): Tick
    requires i < |events| && events[i].Sense?
  {
    Update(cfg, StateAt(cfg, events, i), events[i].input)
  }

  predicate UsableAt(events: seq<Event>, i: nat)
    requires i < |events|
  {
    events[i].Sense? && Usable(events[i].input)
  }

  function SampleAt(events: seq<Event>, i: nat): Sample
    requires i < |events| && UsableAt(events, i)
  {
    Sampled(events[i].input)
  }

  // ----- the invariant -----

  predicate Bypassing(state: NavigationState) {
    state.ShiftOut? || state.PassObstacle? || state.ShiftBack?
  }

  predicate Driving(state: NavigationState) {
    state.Forward? || Bypassing(state)
  }

  ghost predicate Unstarted(p: Planner) {
    && (p.state.Waiting? || p.state.Blocked? || p.state.SensorFault?)
    && p.bypass.side.Center? && p.bypass.attempts == 0 && !p.bypass.completeAfterRejoin
    && p.blockedCount == 0 && !p.watch.moving
  }

  ghost predicate Valid(cfg: Config, p: Planner) {
    && (!p.initialized ==> Unstarted(p))
    && (p.initialized ==> !p.state.Waiting?)
    && (Bypassing(p.state) ==>
          !p.bypass.side.Center? && p.bypass.goal == Signed(p.bypass.side, cfg.lateralShift))
    && (p.state.Forward? || p.state.Evaluate? || p.state.Complete? ==> p.bypass.side.Center?)
    && p.bypass.attempts <= cfg.maxBypassAttempts
    && (p.bypass.completeAfterRejoin ==> p.state.ShiftBack? || Terminal(p.state))
    && p.blockedCount < cfg.blockedFrames
    && (p.blockedCount > 0 ==> p.state.Forward? || Terminal(p.state))
    && (p.watch.moving ==> Driving(p.state))
  }

  /** The constructor's clamps establish the bounds, and clamping again changes nothing. */
  lemma ClampedConfigIsUsual(given: Config)
    ensures Usual(Clamped(given))
    ensures Clamped(given) == given <==> Usual(given)
    ensures Clamped(Clamped(given)) == Clamped(given)
  {
  }

  /** No field of `a` is smaller than that of `b`, and the progress epsilon is the same. */
  predicate AtLeastAs(a: Config, b: Config) {
    && a.targetDistance >= b.targetDistance && a.forwardSpeed >= b.forwardSpeed && a.lateralSpeed >= b.lateralSpeed
    && a.stopDistance >= b.stopDistance && a.resumeDistance >= b.resumeDistance
    && a.minSideClearance >= b.minSideClearance && a.sideStopDistance >= b.sideStopDistance
    && a.lateralShift >= b.lateralShift && a.bypassForwardDistance >= b.bypassForwardDistance
    && a.rejoinTolerance >= b.rejoinTolerance && a.motionProgressEpsilon == b.motionProgressEpsilon
    && a.motionStallTimeout >= b.motionStallTimeout && a.blockedFrames >= b.blockedFrames
    && a.clearFrames >= b.clearFrames && a.maxBypassAttempts >= b.maxBypassAttempts
  }

  /** The clamps change no more than they have to: theirs is the least configuration with the bounds above the given. */
  lemma ClampedConfigIsLeast(given: Config, other: Config)
    requires Usual(other) && AtLeastAs(other, given)
    ensures AtLeastAs(Clamped(given), given) && AtLeastAs(other, Clamped(given))
  {
  }

  lemma InitialIsValid(cfg: Config)
    requires Usual(cfg)
    ensures Valid(cfg, INITIAL)
  {
  }

  lemma ActKeepsValid(cfg: Config, p: Planner, s: Sample)
    requires Usual(cfg) && Valid(cfg, p) && p.initialized
    ensures match Act(cfg, p, s)
            case End(t) => Valid(cfg, t.next) && t.next.initialized
            case FallTo(q) => Valid(cfg, q) && q.initialized
  {
  }

  lemma {:induction false} DecideKeepsValid(cfg: Config, p: Planner, s: Sample)
    requires Usual(cfg) && Valid(cfg, p) && p.initialized
    ensures Valid(cfg, Decide(cfg, p, s).next) && Decide(cfg, p, s).next.initialized
    decreases FallsLeft(p.state)
  {
    ActKeepsValid(cfg, p, s);
    match Act(cfg, p, s)
    case End(_) =>
    case FallTo(q) => DecideKeepsValid(cfg, q, s);
  }

  lemma EventKeepsValid(cfg: Config, p: Planner, e: Event)
    requires Usual(cfg) && Valid(cfg, p)
    ensures Valid(cfg, After(cfg, p, e))
    ensures p.initialized ==> After(cfg, p, e).initialized
    ensures e.Sense? && Usable(e.input) ==> After(cfg, p, e).initialized
  {
    if e.Sense? && Reaches(cfg, p, e.input) {
      DecideKeepsValid(cfg, Handed(cfg, p, e.input), Sampled(e.input));
    }
  }

  /** The invariant holds after every call of every run. */
  lemma {:induction false} AlwaysValid(cfg: Config, events: seq<Event>, n: nat)
    requires Usual(cfg) && n <= |events|
    ensures Valid(cfg, StateAt(cfg, events, n))
  {
    hide Update;
    if n > 0 {
      AlwaysValid(cfg, events, n - 1);
      EventKeepsValid(cfg, StateAt(cfg, events, n - 1), events[n - 1]);
    }
  }

  // ----- the last resort at the end of `update` -----

  lemma {:induction false} DecisionNeverInvalid(cfg: Config, p: Planner, s: Sample)
    requires Usual(cfg) && Valid(cfg, p) && p.initialized
    requires p.reason != InvalidState
    ensures Decide(cfg, p, s).next.reason != InvalidState
    decreases FallsLeft(p.state)
  {
    ActKeepsValid(cfg, p, s);
    match Act(cfg, p, s)
    case End(_) =>
    case FallTo(q) => DecisionNeverInvalid(cfg, q, s);
  }

  lemma EventNeverInvalid(cfg: Config, p: Planner, e: Event)
    requires Usual(cfg) && Valid(cfg, p)
    requires p.reason != InvalidState
    requires e.Failure? ==> e.reason != InvalidState
    ensures After(cfg, p, e).reason != InvalidState
  {
    if e.Sense? && Reaches(cfg, p, e.input) {
      DecisionNeverInvalid(cfg, Handed(cfg, p, e.input), Sampled(e.input));
    }
  }

  /** No run reaches "Planner entered an invalid state", unless a caller of `fail` says so itself. */
  lemma {:induction false} InvalidStateUnreachable(cfg: Config, events: seq<Event>, n: nat)
    requires Usual(cfg) && n <= |events|
    requires forall i | 0 <= i < n :: events[i].Failure? ==> events[i].reason != InvalidState
    ensures StateAt(cfg, events, n).reason != InvalidState
  {
    hide Update;
    if n > 0 {
      InvalidStateUnreachable(cfg, events, n - 1);
      AlwaysValid(cfg, events, n - 1);
      EventNeverInvalid(cfg, StateAt(cfg, events, n - 1), events[n - 1]);
    }
  }

  // ----- terminal states -----

  /**
   Once a planner has had its first good sample, Complete, Blocked and SensorFault are closed
   under every call, and all its later commands are zero and terminal.
   */
  lemma TerminalStep(cfg: Config, p: Planner, e: Event)
    requires p.initialized && Terminal(p.state)
    ensures After(cfg, p, e).initialized && Terminal(After(cfg, p, e).state)
    ensures e.Sense? ==>
              var out := Update(cfg, p, e.input).out;
              out.terminal && out.vx == 0.0 && out.vy == 0.0 && out.yawRate == 0.0
  {
  }

  lemma {:induction false} TerminalForever(cfg: Config, events: seq<Event>, i: nat, j: nat)
    requires i <= j <= |events|
    requires StateAt(cfg, events, i).initialized && Terminal(StateAt(cfg, events, i).state)
    ensures StateAt(cfg, events, j).initialized && Terminal(StateAt(cfg, events, j).state)
  {
    hide Update;
    if i < j {
      TerminalForever(cfg, events, i, j - 1);
      TerminalStep(cfg, StateAt(cfg, events, j - 1), events[j - 1]);
    }
  }

  lemma TerminalCommandsAreZero(cfg: Config, events: seq<Event>, i: nat, j: nat)
    requires i <= j < |events| && events[j].Sense?
    requires StateAt(cfg, events, i).initialized && Terminal(StateAt(cfg, events, i).state)
    ensures var out := TickAt(cfg, events, j).out;
            out.terminal && out.vx == 0.0 && out.vy == 0.0 && out.yawRate == 0.0
  {
    hide Update;
    TerminalForever(cfg, events, i, j);
    TerminalStep(cfg, StateAt(cfg, events, j), events[j]);
  }

  /**
   Before the first good sample the set is not closed: that sample restarts a planner that
   `fail` has stopped, as if it had not been stopped.
   */
  lemma FailureBeforeFirstSampleIsForgotten(cfg: Config, reason: Reason, sensorFault: bool, input: PlannerInput)
    requires Usual(cfg) && Usable(input)
    ensures var failed := Failed(INITIAL, reason, sensorFault);
            Update(cfg, failed, input).next == Update(cfg, INITIAL, input).next
            && Update(cfg, failed, input).out == Update(cfg, INITIAL, input).out
  {
  }

  /** A good sample leaves a stopped planner stopped exactly when an earlier one has started it. */
  lemma StaysStoppedJustWhenStarted(cfg: Config, p: Planner, input: PlannerInput)
    requires Usual(cfg) && Valid(cfg, p) && Terminal(p.state) && Usable(input)
    ensures Terminal(Update(cfg, p, input).next.state) <==> p.initialized
  {
    if !p.initialized {
      var s := Sampled(input);
      assert Displacement(s.at, s.at) == Vec(0.0, 0.0);
      assert Prepared(p, s).route.forward == 0.0;
      hide Located;
    }
  }

  /** What the terminal flag of a command means. */
  lemma TerminalFlag(cfg: Config, p: Planner, input: PlannerInput)
    requires Usual(cfg) && Valid(cfg, p)
    ensures var t := Update(cfg, p, input);
            && t.out.state == t.next.state
            && (t.out.terminal <==> t.next.initialized && Terminal(t.next.state))
            && (t.out.terminal ==> t.out.stop)
            && (t.next.watch.moving <==> !t.out.stop)
  {
    if Reaches(cfg, p, input) {
      DecisionFlag(cfg, Handed(cfg, p, input), Sampled(input));
    }
  }

  lemma {:induction false} DecisionFlag(cfg: Config, p: Planner, s: Sample)
    requires Usual(cfg) && Valid(cfg, p) && p.initialized
    ensures var t := Decide(cfg, p, s);
            && t.out.state == t.next.state && t.next.initialized
            && (t.out.terminal <==> Terminal(t.next.state))
            && (t.out.terminal ==> t.out.stop)
            && (t.next.watch.moving <==> !t.out.stop)
    decreases FallsLeft(p.state)
  {
    ActKeepsValid(cfg, p, s);
    match Act(cfg, p, s)
    case End(_) =>
    case FallTo(q) => DecisionFlag(cfg, q, s);
  }
}
