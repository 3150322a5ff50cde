/**
 The planner in a closed loop with a robot that does what it is told: between two samples its
 pose follows the last command for a time between `dtMin` and `dtMax`. The ranges, the clock
 and the freshness of every sample stay arbitrary.
 */
module PlannerClosedLoop {
  import opened PlannerModel
  import opened PlannerRuns
  import opened PlannerSafety
  import opened Rounding

  // ----- the loop, in route coordinates -----

  /** How far one tick takes the robot: at least `forward` ahead, `lateral` to `lateralMax` sideways. */
  datatype Pace = Pace(forward: real, lateral: real, lateralMax: real)

  /**
   Steps that cannot carry the robot past the band around its route: they are shorter than the
   band, or all of the same length, or there is nothing to shift.
   */
  predicate Suits(cfg: Config, pace: Pace) {
    && pace.forward > 0.0 && pace.lateral > 0.0
    && (|| pace.lateralMax <= 2.0 * cfg.rejoinTolerance
        || pace.lateralMax == pace.lateral
        || cfg.lateralShift <= cfg.rejoinTolerance)
  }

  /** From `here` the robot has moved to `there` as the command told it, at the given pace. */
  predicate Obeyed(pace: Pace, out: Output, here: Route, there: Route) {
    && (if out.vx == 0.0 then there.forward == here.forward
        else there.forward >= here.forward + pace.forward)
    && (if out.vy == 0.0 then there.lateral == here.lateral
        else if out.vy > 0.0 then pace.lateral <= there.lateral - here.lateral <= pace.lateralMax
        else pace.lateral <= here.lateral - there.lateral <= pace.lateralMax)
  }

  /** The largest distance from the route. */
  function OffsetBound(cfg: Config, pace: Pace): real {
    Max(cfg.rejoinTolerance, cfg.lateralShift - cfg.rejoinTolerance + pace.lateralMax)
  }

  /** Where the robot can be in each state. */
  predicate Contained(cfg: Config, pace: Pace, state: NavigationState, side: Side, lateral: real) {
    && ((state.Forward? || state.Evaluate?) ==> OnRoute(cfg, lateral))
    && (Bypassing(state) ==>
          -cfg.rejoinTolerance <= Signed(side, lateral) <= OffsetBound(cfg, pace))
  }

  function Multiple(k: int, step: real): real {
    k as real * step
  }

  ghost predicate OnGrid(offset: real, step: real) {
    exists k: int :: offset == Multiple(k, step)
  }

  /** Steps of one length keep the robot on their multiples, and without a shift it stays on its route. */
  ghost predicate Aligned(cfg: Config, pace: Pace, lateral: real) {
    && (pace.lateralMax == pace.lateral ==> OnGrid(lateral, pace.lateral))
    && (cfg.lateralShift <= cfg.rejoinTolerance ==> lateral == 0.0)
  }

  lemma GridStep(here: real, there: real, step: real)
    requires OnGrid(here, step)
    requires there == here || there == here + step || there == here - step
    ensures OnGrid(there, step)
  {
    var k: int :| here == Multiple(k, step);
    assert Multiple(k + 1, step) == here + step;
    assert Multiple(k - 1, step) == here - step;
  }

  lemma GridOnSide(side: Side, offset: real, step: real)
    requires OnGrid(offset, step)
    ensures OnGrid(Signed(side, offset), step)
  {
    var k: int :| offset == Multiple(k, step);
    assert Multiple(-k, step) == -offset;
    assert Multiple(0, step) == 0.0;
  }

  /** On the grid, a step back from a positive offset goes at most back to the route. */
  lemma GridStepBack(offset: real, step: real)
    requires OnGrid(offset, step) && offset > 0.0 && step > 0.0
    ensures offset - step >= 0.0
  {
    var k: int :| offset == Multiple(k, step);
    assert k >= 1;
    assert (k - 1) as real * step >= 0.0;
  }

  lemma PositiveFactor(a: real, b: real)
    requires b > 0.0 && a * b > 0.0
    ensures a > 0.0
  {
  }

  lemma Exceeds(x: real, step: real, r: real)
    requires step > 0.0 && r * step < x
    ensures x / step > r
  {
    assert (x / step - r) * step == x - r * step;
    PositiveFactor(x / step - r, step);
  }

  lemma WholeSteps(k: int, step: real)
    requires step > 0.0
    ensures Multiple(k, step) / step == k as real
  {
  }

  lemma GridSteps(k: int, step: real, x: real)
    requires step > 0.0 && x > 0.0 && Multiple(k, step) - step < x
    ensures Steps(Multiple(k, step), step) <= Steps(x, step)
  {
    hide Ceil;
    assert (k as real - 1.0) * step == Multiple(k, step) - step;
    Exceeds(x, step, k as real - 1.0);
    WholeSteps(k, step);
    CeilCovers(k, x / step);
  }

  /** A shift is undone in no more steps than its whole length takes. */
  lemma BackSteps(cfg: Config, pace: Pace, offset: real)
    requires Usual(cfg) && Suits(cfg, pace) && offset <= OffsetBound(cfg, pace)
    requires pace.lateralMax == pace.lateral ==> OnGrid(offset, pace.lateral)
    requires cfg.lateralShift <= cfg.rejoinTolerance ==> offset == 0.0
    ensures Steps(offset - cfg.rejoinTolerance, pace.lateral) <= LateralSteps(cfg, pace)
  {
    if pace.lateralMax <= 2.0 * cfg.rejoinTolerance || offset <= cfg.rejoinTolerance {
      MoreSteps(offset - cfg.rejoinTolerance, cfg.lateralShift, pace.lateral);
    } else {
      var k: int :| offset == Multiple(k, pace.lateral);
      hide Multiple;
      MoreSteps(offset - cfg.rejoinTolerance, offset, pace.lateral);
      GridSteps(k, pace.lateral, cfg.lateralShift);
    }
  }

  function LateralSteps(cfg: Config, pace: Pace): nat
    requires Suits(cfg, pace)
  {
    Steps(cfg.lateralShift, pace.lateral)
  }

  function AttemptSteps(cfg: Config, pace: Pace): nat
    requires Suits(cfg, pace)
  {
    2 * LateralSteps(cfg, pace) + 1
  }

  /** More ticks than a planner in this state, with the robot there, can make before it ends. */
  function Rank(cfg: Config, pace: Pace, p: Planner, there: Route): int
    requires Suits(cfg, pace)
  {
    var ahead := Steps(cfg.targetDistance - there.forward, pace.forward);
    var spare := (cfg.maxBypassAttempts - p.bypass.attempts) * AttemptSteps(cfg, pace);
    var offset := Signed(p.bypass.side, there.lateral);
    match p.state
    case Waiting => ahead + spare + 2
    case Forward => ahead + spare + 2
    case Evaluate => ahead + spare + 1
    case ShiftOut =>
      ahead + spare + 2 + LateralSteps(cfg, pace)
      + Steps(cfg.lateralShift - cfg.rejoinTolerance - offset, pace.lateral)
    case PassObstacle => ahead + spare + 2 + LateralSteps(cfg, pace)
    case ShiftBack => ahead + spare + 2 + Steps(offset - cfg.rejoinTolerance, pace.lateral)
    case Complete => 0
    case Blocked => 0
    case SensorFault => 0
  }

  lemma RankIsPositive(cfg: Config, pace: Pace, p: Planner, there: Route)
    requires Usual(cfg) && Valid(cfg, p) && p.initialized && Suits(cfg, pace)
    requires !Terminal(p.state)
    ensures Rank(cfg, pace, p, there) >= 1
  {
    assert (cfg.maxBypassAttempts - p.bypass.attempts) * AttemptSteps(cfg, pace) >= 0;
  }

  /** A tick may end, or leave the robot contained and with fewer ticks to go. */
  ghost predicate Descends(cfg: Config, pace: Pace, p: Planner, t: Tick, there: Route)
    requires Suits(cfg, pace)
  {
    || Terminal(t.next.state)
    || (&& Contained(cfg, pace, t.next.state, t.next.bypass.side, there.lateral)
        && Rank(cfg, pace, t.next, there) < Rank(cfg, pace, p, p.route))
  }

  lemma FollowRouteDescends(cfg: Config, pace: Pace, p: Planner, s: Sample, there: Route)
    requires Usual(cfg) && Valid(cfg, p) && p.initialized && Suits(cfg, pace)
    requires Contained(cfg, pace, p.state, p.bypass.side, p.route.lateral) && p.state.Forward?
    requires Obeyed(pace, FollowRoute(cfg, p, s).tick.out, p.route, there)
    ensures Descends(cfg, pace, p, FollowRoute(cfg, p, s).tick, there)
  {
    hide AttemptSteps, Steps;
    var left := cfg.targetDistance - p.route.forward;
    if left > 0.0 && there.forward >= p.route.forward + pace.forward {
      OneStep(left, there.forward - p.route.forward, pace.forward);
    }
  }

  lemma ChooseSideRanks(cfg: Config, pace: Pace, p: Planner, s: Sample)
    requires Usual(cfg) && Valid(cfg, p) && p.initialized && Suits(cfg, pace)
    requires Contained(cfg, pace, p.state, p.bypass.side, p.route.lateral) && p.state.Evaluate?
    ensures match ChooseSide(cfg, p, s)
            case End(t) => Terminal(t.next.state)
            case FallTo(q) =>
              && Contained(cfg, pace, q.state, q.bypass.side, q.route.lateral)
              && Rank(cfg, pace, q, q.route) <= Rank(cfg, pace, p, p.route)
  {
    if ChooseSide(cfg, p, s).FallTo? {
      var q := ChooseSide(cfg, p, s).next;
      var offset := Signed(q.bypass.side, q.route.lateral);
      MoreSteps(cfg.lateralShift - cfg.rejoinTolerance - offset, cfg.lateralShift, pace.lateral);
      hide Steps;
      var left, each := cfg.maxBypassAttempts - p.bypass.attempts, AttemptSteps(cfg, pace);
      assert (left - 1) * each == left * each - each;
    }
  }

  lemma MoveAsideRanks(cfg: Config, pace: Pace, p: Planner, s: Sample, there: Route)
    requires Usual(cfg) && Valid(cfg, p) && p.initialized && Suits(cfg, pace)
    requires Contained(cfg, pace, p.state, p.bypass.side, p.route.lateral) && p.state.ShiftOut?
    requires MoveAside(cfg, p, s).End? ==> Obeyed(pace, MoveAside(cfg, p, s).tick.out, p.route, there)
    ensures match MoveAside(cfg, p, s)
            case End(t) => Descends(cfg, pace, p, t, there)
            case FallTo(q) =>
              && Contained(cfg, pace, q.state, q.bypass.side, q.route.lateral)
              && Rank(cfg, pace, q, q.route) <= Rank(cfg, pace, p, p.route)
  {
    hide AttemptSteps, Steps, LateralSteps;
    var here, next := Signed(p.bypass.side, p.route.lateral), Signed(p.bypass.side, there.lateral);
    var left := cfg.lateralShift - cfg.rejoinTolerance - here;
    if MoveAside(cfg, p, s).End? && !Terminal(MoveAside(cfg, p, s).tick.next.state) {
      OneStep(left, next - here, pace.lateral);
    }
  }

  lemma PassByRanks(cfg: Config, pace: Pace, p: Planner, s: Sample, there: Route)
    requires Usual(cfg) && Valid(cfg, p) && p.initialized && Suits(cfg, pace)
    requires Contained(cfg, pace, p.state, p.bypass.side, p.route.lateral) && p.state.PassObstacle?
    requires Aligned(cfg, pace, p.route.lateral)
    requires PassBy(cfg, p, s).End? ==> Obeyed(pace, PassBy(cfg, p, s).tick.out, p.route, there)
    ensures match PassBy(cfg, p, s)
            case End(t) => Descends(cfg, pace, p, t, there)
            case FallTo(q) =>
              && Contained(cfg, pace, q.state, q.bypass.side, q.route.lateral)
              && Rank(cfg, pace, q, q.route) <= Rank(cfg, pace, p, p.route)
  {
    var offset := Signed(p.bypass.side, p.route.lateral);
    if pace.lateralMax == pace.lateral {
      GridOnSide(p.bypass.side, p.route.lateral, pace.lateral);
    }
    hide AttemptSteps, Steps, OnGrid, LateralSteps;
    BackSteps(cfg, pace, offset);
    var left := cfg.targetDistance - p.route.forward;
    if left > 0.0 && there.forward >= p.route.forward + pace.forward {
      OneStep(left, there.forward - p.route.forward, pace.forward);
    }
  }

  lemma RejoinDescends(cfg: Config, pace: Pace, p: Planner, s: Sample, there: Route)
    requires Usual(cfg) && Valid(cfg, p) && p.initialized && Suits(cfg, pace)
    requires Contained(cfg, pace, p.state, p.bypass.side, p.route.lateral) && p.state.ShiftBack?
    requires Aligned(cfg, pace, p.route.lateral)
    requires Obeyed(pace, Rejoin(cfg, p, s).tick.out, p.route, there)
    ensures Descends(cfg, pace, p, Rejoin(cfg, p, s).tick, there)
  {
    hide AttemptSteps, Steps;
    var here, next := Signed(p.bypass.side, p.route.lateral), Signed(p.bypass.side, there.lateral);
    var t := Rejoin(cfg, p, s).tick;
    if t.next.state.ShiftBack? {
      if pace.lateralMax == pace.lateral {
        GridOnSide(p.bypass.side, p.route.lateral, pace.lateral);
        GridStepBack(here, pace.lateral);
      }
      OneStep(here - cfg.rejoinTolerance, here - next, pace.lateral);
    } else if t.next.state.Forward? {
      OneStep(cfg.targetDistance - p.route.forward, there.forward - p.route.forward, pace.forward);
    }
  }

  lemma {:induction false} DecisionDescends(cfg: Config, pace: Pace, p: Planner, s: Sample, there: Route)
    requires Usual(cfg) && Valid(cfg, p) && p.initialized && Suits(cfg, pace)
    requires Contained(cfg, pace, p.state, p.bypass.side, p.route.lateral)
    requires Aligned(cfg, pace, p.route.lateral)
    requires Obeyed(pace, Decide(cfg, p, s).out, p.route, there)
    ensures Descends(cfg, pace, p, Decide(cfg, p, s), there)
    decreases FallsLeft(p.state)
  {
    hide Rank, Contained, Obeyed, Aligned;
    ActKeepsValid(cfg, p, s);
    match p.state {
      case Forward => FollowRouteDescends(cfg, pace, p, s, there);
      case Evaluate => ChooseSideRanks(cfg, pace, p, s);
      case ShiftOut => MoveAsideRanks(cfg, pace, p, s, there);
      case PassObstacle => PassByRanks(cfg, pace, p, s, there);
      case ShiftBack => RejoinDescends(cfg, pace, p, s, there);
      case _ =>
    }
    if Act(cfg, p, s).FallTo? {
      DecisionDescends(cfg, pace, Act(cfg, p, s).next, s, there);
    }
  }

  /** Without a shift to make, a robot on its route is never sent sideways. */
  lemma {:induction false} DecisionGoesStraight(cfg: Config, p: Planner, s: Sample)
    requires Usual(cfg) && Valid(cfg, p) && p.initialized
    requires cfg.lateralShift <= cfg.rejoinTolerance && p.route.lateral == 0.0
    ensures Decide(cfg, p, s).out.vy == 0.0
    decreases FallsLeft(p.state)
  {
    ActKeepsValid(cfg, p, s);
    match Act(cfg, p, s)
    case End(_) =>
    case FallTo(q) => DecisionGoesStraight(cfg, q, s);
  }

  lemma StaysAligned(cfg: Config, pace: Pace, p: Planner, s: Sample, there: Route)
    requires Usual(cfg) && Valid(cfg, p) && p.initialized && Suits(cfg, pace)
    requires Aligned(cfg, pace, p.route.lateral)
    requires Obeyed(pace, Decide(cfg, p, s).out, p.route, there)
    ensures Aligned(cfg, pace, there.lateral)
  {
    hide Decide;
    if pace.lateralMax == pace.lateral {
      GridStep(p.route.lateral, there.lateral, pace.lateral);
    }
    if cfg.lateralShift <= cfg.rejoinTolerance {
      DecisionGoesStraight(cfg, p, s);
    }
  }

  // ----- the loop, in the world -----

  /** Where a robot at `at` is after driving for `dt` with the given velocity in the frame of `h`. */
  function Driven(at: Vec, h: Heading, vx: real, vy: real, dt: real): Vec {
    Vec(at.x + (vx * h.cos - vy * h.sin) * dt, at.y + (vx * h.sin + vy * h.cos) * dt)
  }

  lemma DrivenAlongAcross(h: Heading, d: Vec, vx: real, vy: real, dt: real)
    requires IsUnit(h)
    ensures Along(h, Driven(d, h, vx, vy, dt)) == Along(h, d) + vx * dt
    ensures Across(h, Driven(d, h, vx, vy, dt)) == Across(h, d) + vy * dt
  {
    var c, s := h.cos, h.sin;
    calc {
      Along(h, Driven(d, h, vx, vy, dt));
      Along(h, d) + (vx * c - vy * s) * dt * c + (vx * s + vy * c) * dt * s;
      Along(h, d) + vx * dt * (c * c + s * s);
    }
    calc {
      Across(h, Driven(d, h, vx, vy, dt));
      Across(h, d) - (vx * c - vy * s) * dt * s + (vx * s + vy * c) * dt * c;
      Across(h, d) + vy * dt * (c * c + s * s);
    }
  }

  lemma DrivenOnRoute(route: Route, at: Vec, vx: real, vy: real, dt: real)
    requires IsUnit(route.heading)
    ensures Located(route, Driven(at, route.heading, vx, vy, dt)).forward
         == Located(route, at).forward + vx * dt
    ensures Located(route, Driven(at, route.heading, vx, vy, dt)).lateral
         == Located(route, at).lateral + vy * dt
  {
    var d := Displacement(route.origin, at);
    DrivenAlongAcross(route.heading, d, vx, vy, dt);
    var moved := Driven(at, route.heading, vx, vy, dt);
    assert Displacement(route.origin, moved) == Driven(d, route.heading, vx, vy, dt);
  }

  /** How long each command lasts before the next sample. */
  datatype Timing = Timing(dts: seq<real>, dtMin: real, dtMax: real)

  /** From tick `k` on, the robot's pose follows the commands. Nothing is said of its ranges. */
  ghost predicate Follows(cfg: Config, events: seq<Event>, k: nat, time: Timing) {
    && |time.dts| == |events| && time.dtMin > 0.0
    && (forall i | k <= i < |events| :: events[i].Sense? && time.dtMin <= time.dts[i] <= time.dtMax)
    && (forall i | k <= i < |events| - 1 && UsableAt(events, i) && UsableAt(events, i + 1) ::
          SampleAt(events, i + 1).at
            == Driven(SampleAt(events, i).at, StateAt(cfg, events, i + 1).route.heading,
                      TickAt(cfg, events, i).out.vx, TickAt(cfg, events, i).out.vy, time.dts[i]))
  }

  function PaceOf(cfg: Config, time: Timing): Pace {
    Pace(cfg.forwardSpeed * time.dtMin, cfg.lateralSpeed * time.dtMin, cfg.lateralSpeed * time.dtMax)
  }

  /**
   A shift comes back to the route: a lateral step fits in the tolerance band around it, or every
   tick lasts the same, or the shift is no longer than the tolerance.
   */
  predicate ComesBack(cfg: Config, time: Timing) {
    && time.dtMin > 0.0
    && (|| cfg.lateralSpeed * time.dtMax <= 2.0 * cfg.rejoinTolerance
        || time.dtMin == time.dtMax
        || cfg.lateralShift <= cfg.rejoinTolerance)
  }

  lemma PaceSuits(cfg: Config, time: Timing)
    requires Usual(cfg) && ComesBack(cfg, time)
    ensures Suits(cfg, PaceOf(cfg, time))
  {
  }

  lemma Scaled(v: real, low: real, t: real, high: real)
    requires v > 0.0 && low <= t <= high
    ensures v * low <= v * t <= v * high
  {
  }

  /** The planner that tick `i` hands to its states: located by the sample, watchdog served. */
  function HandedAt(cfg: Config, events: seq<Event>, i: nat): Planner
    requires i < |events| && UsableAt(events, i)
  {
    Handed(cfg, StateAt(cfg, events, i), events[i].input)
  }

  // The state a tick leaves is located where its sample was.
  lemma LeftLocated(cfg: Config, events: seq<Event>, i: nat)
    requires Usual(cfg) && i < |events| && UsableAt(events, i)
    ensures StateAt(cfg, events, i + 1).route == HandedAt(cfg, events, i).route
    ensures var route := StateAt(cfg, events, i + 1).route; route == Located(route, SampleAt(events, i).at)
    ensures StateAt(cfg, events, i + 1).initialized
  {
    hide Update, Along, Across;
    AlwaysValid(cfg, events, i);
    EventKeepsValid(cfg, StateAt(cfg, events, i), events[i]);
    RouteStep(cfg, StateAt(cfg, events, i), events[i]);
  }

  lemma HeadingIsUnit(cfg: Config, events: seq<Event>, i: nat)
    requires Usual(cfg) && UnitYaws(events) && i <= |events| && StateAt(cfg, events, i).initialized
    ensures IsUnit(StateAt(cfg, events, i).route.heading)
  {
    hide Update;
    var o := OriginIsFirstFix(cfg, events, i);
  }

  /** Between two usable samples the robot moves, along its route, by the command's velocity. */
  lemma LoopMoves(cfg: Config, events: seq<Event>, k: nat, i: nat, time: Timing)
    requires Usual(cfg) && UnitYaws(events) && Follows(cfg, events, k, time)
    requires k <= i < |events| - 1 && UsableAt(events, i) && UsableAt(events, i + 1)
    ensures var here, there := StateAt(cfg, events, i + 1).route, HandedAt(cfg, events, i + 1).route;
            && there.forward == here.forward + TickAt(cfg, events, i).out.vx * time.dts[i]
            && there.lateral == here.lateral + TickAt(cfg, events, i).out.vy * time.dts[i]
            && there.origin == here.origin && there.heading == here.heading
  {
    hide Update, Along, Across, Driven;
    LeftLocated(cfg, events, i);
    HeadingIsUnit(cfg, events, i + 1);
    var out := TickAt(cfg, events, i).out;
    DrivenOnRoute(StateAt(cfg, events, i + 1).route, SampleAt(events, i).at, out.vx, out.vy, time.dts[i]);
  }

  lemma DriveOneWay(speed: real, low: real, dt: real, high: real, here: real, there: real)
    requires speed > 0.0 && low <= dt <= high && there == here + speed * dt
    ensures speed * low <= there - here <= speed * high
  {
    Scaled(speed, low, dt, high);
  }

  lemma DriveOtherWay(speed: real, low: real, dt: real, high: real, here: real, there: real)
    requires speed > 0.0 && low <= dt <= high && there == here + -speed * dt
    ensures speed * low <= here - there <= speed * high
  {
    Scaled(speed, low, dt, high);
    assert -speed * dt == -(speed * dt);
  }

  lemma PaceObeyed(cfg: Config, time: Timing, dt: real, out: Output, here: Route, there: Route)
    requires Usual(cfg) && 0.0 < time.dtMin <= dt <= time.dtMax
    requires out.vx == 0.0 || out.vx == cfg.forwardSpeed
    requires out.vy == 0.0 || out.vy == cfg.lateralSpeed || out.vy == -cfg.lateralSpeed
    requires there.forward == here.forward + out.vx * dt && there.lateral == here.lateral + out.vy * dt
    ensures Obeyed(PaceOf(cfg, time), out, here, there)
  {
    if out.vx == 0.0 {
      assert there.forward == here.forward;
    } else {
      DriveOneWay(cfg.forwardSpeed, time.dtMin, dt, time.dtMax, here.forward, there.forward);
    }
    if out.vy == 0.0 {
      assert there.lateral == here.lateral;
    } else if out.vy > 0.0 {
      DriveOneWay(cfg.lateralSpeed, time.dtMin, dt, time.dtMax, here.lateral, there.lateral);
    } else {
      DriveOtherWay(cfg.lateralSpeed, time.dtMin, dt, time.dtMax, here.lateral, there.lateral);
    }
  }

  lemma LoopObeys(cfg: Config, events: seq<Event>, k: nat, i: nat, time: Timing)
    requires Usual(cfg) && UnitYaws(events) && Follows(cfg, events, k, time)
    requires k <= i < |events| - 1 && UsableAt(events, i) && UsableAt(events, i + 1)
    ensures Obeyed(PaceOf(cfg, time), TickAt(cfg, events, i).out,
                   StateAt(cfg, events, i + 1).route, HandedAt(cfg, events, i + 1).route)
  {
    hide Update, Handed, PaceOf, Obeyed;
    AlwaysValid(cfg, events, i);
    CommandSafety(cfg, StateAt(cfg, events, i), events[i].input);
    LoopMoves(cfg, events, k, i, time);
    PaceObeyed(cfg, time, time.dts[i], TickAt(cfg, events, i).out,
               StateAt(cfg, events, i + 1).route, HandedAt(cfg, events, i + 1).route);
  }

  /** The robot is where a planner in this state can have it. */
  ghost predicate InReach(cfg: Config, pace: Pace, p: Planner) {
    && Contained(cfg, pace, p.state, p.bypass.side, p.route.lateral)
    && Aligned(cfg, pace, p.route.lateral)
  }

  /** A tick's descent, carried to the planner that the next usable tick hands to its states. */
  lemma LoopStep(cfg: Config, events: seq<Event>, k: nat, i: nat, time: Timing)
    requires Usual(cfg) && UnitYaws(events) && Follows(cfg, events, k, time) && ComesBack(cfg, time)
    requires k <= i < |events| - 1 && UsableAt(events, i) && UsableAt(events, i + 1)
    requires InReach(cfg, PaceOf(cfg, time), HandedAt(cfg, events, i))
    requires !Terminal(StateAt(cfg, events, i + 1).state)
    ensures Suits(cfg, PaceOf(cfg, time))
    ensures InReach(cfg, PaceOf(cfg, time), HandedAt(cfg, events, i + 1))
    ensures var r, q, pace := HandedAt(cfg, events, i), HandedAt(cfg, events, i + 1), PaceOf(cfg, time);
            Rank(cfg, pace, q, q.route) < Rank(cfg, pace, r, r.route)
  {
    hide PaceOf, Decide, Contained, Aligned, Obeyed, Along, Across, Usual;
    PaceSuits(cfg, time);
    LoopObeys(cfg, events, k, i, time);
    LeftLocated(cfg, events, i);
    AlwaysValid(cfg, events, i);
    HandedIsValid(cfg, StateAt(cfg, events, i), events[i].input);
    DecisionDescends(cfg, PaceOf(cfg, time), HandedAt(cfg, events, i), SampleAt(events, i),
                     HandedAt(cfg, events, i + 1).route);
    StaysAligned(cfg, PaceOf(cfg, time), HandedAt(cfg, events, i), SampleAt(events, i),
                 HandedAt(cfg, events, i + 1).route);
  }

  lemma HandedIsValid(cfg: Config, p: Planner, input: PlannerInput)
    requires Usual(cfg) && Valid(cfg, p) && Usable(input)
    ensures Valid(cfg, Handed(cfg, p, input)) && Handed(cfg, p, input).initialized
  {
  }

  /** More ticks than any run in the loop can make before it ends. */
  function TickBound(cfg: Config, time: Timing): nat
    requires Usual(cfg) && ComesBack(cfg, time)
  {
    PaceSuits(cfg, time);
    var pace := PaceOf(cfg, time);
    Steps(cfg.targetDistance, pace.forward) + cfg.maxBypassAttempts * AttemptSteps(cfg, pace) + 2
  }

  lemma SameBound(cfg: Config, a: Timing, b: Timing)
    requires Usual(cfg) && ComesBack(cfg, a) && a.dtMin == b.dtMin && a.dtMax == b.dtMax
    ensures TickBound(cfg, a) == TickBound(cfg, b)
  {
    assert PaceOf(cfg, a) == PaceOf(cfg, b);
  }

  lemma {:induction false} StartsAtFirstUsable(cfg: Config, events: seq<Event>, k: nat)
    requires Usual(cfg) && k <= |events|
    requires forall m | 0 <= m < k :: !UsableAt(events, m)
    ensures !StateAt(cfg, events, k).initialized
  {
    hide Update;
    if k > 0 {
      assert !UsableAt(events, k - 1);
      StartsAtFirstUsable(cfg, events, k - 1);
      RouteStep(cfg, StateAt(cfg, events, k - 1), events[k - 1]);
    }
  }

  lemma LoopStart(cfg: Config, events: seq<Event>, k: nat, time: Timing)
    requires Usual(cfg) && ComesBack(cfg, time)
    requires k < |events| && FirstUsable(events, k)
    ensures Suits(cfg, PaceOf(cfg, time))
    ensures var r := HandedAt(cfg, events, k);
            && InReach(cfg, PaceOf(cfg, time), r)
            && Rank(cfg, PaceOf(cfg, time), r, r.route) <= TickBound(cfg, time)
            && r.route.lateral == 0.0
  {
    assert Multiple(0, PaceOf(cfg, time).lateral) == 0.0;
    hide PaceOf, AttemptSteps, Steps, Decide, Multiple;
    PaceSuits(cfg, time);
    StartsAtFirstUsable(cfg, events, k);
    AlwaysValid(cfg, events, k);
    AtOrigin(StateAt(cfg, events, k), SampleAt(events, k));
  }

  lemma AtOrigin(p: Planner, s: Sample)
    requires !p.initialized
    ensures Prepared(p, s).route.forward == 0.0 && Prepared(p, s).route.lateral == 0.0
  {
    assert Displacement(s.at, s.at) == Vec(0.0, 0.0);
  }

  /** While the run has not ended, each tick has used up at least one of the bound. */
  lemma {:induction false} LoopRank(cfg: Config, events: seq<Event>, k: nat, i: nat, time: Timing)
    requires Usual(cfg) && UnitYaws(events) && Follows(cfg, events, k, time) && ComesBack(cfg, time)
    requires k <= i < |events| && FirstUsable(events, k) && UsableAt(events, i)
    requires i == k || !Terminal(StateAt(cfg, events, i).state)
    ensures Suits(cfg, PaceOf(cfg, time))
    ensures var r := HandedAt(cfg, events, i);
            && InReach(cfg, PaceOf(cfg, time), r)
            && Rank(cfg, PaceOf(cfg, time), r, r.route) + (i - k) <= TickBound(cfg, time)
  {
    hide PaceOf, InReach, Rank, TickBound, Handed, Update, Usual;
    LoopStart(cfg, events, k, time);
    if i > k {
      StillRunning(cfg, events, k, i - 1);
      LoopRank(cfg, events, k, i - 1, time);
      LoopStep(cfg, events, k, i - 1, time);
    }
  }

  // A run that has not ended after call `i` had a usable sample there, and had not ended before it.
  lemma StillRunning(cfg: Config, events: seq<Event>, k: nat, i: nat)
    requires Usual(cfg) && k <= i < |events| && FirstUsable(events, k) && events[i].Sense?
    requires !Terminal(StateAt(cfg, events, i + 1).state)
    ensures UsableAt(events, i)
    ensures i == k || !Terminal(StateAt(cfg, events, i).state)
  {
    if i > k {
      StartedAfterFirst(cfg, events, k, i);
      EndsWhenUnusable(cfg, StateAt(cfg, events, i), events[i]);
      if Terminal(StateAt(cfg, events, i).state) {
        TerminalStep(cfg, StateAt(cfg, events, i), events[i]);
      }
    }
  }

  lemma EndsWhenUnusable(cfg: Config, p: Planner, e: Event)
    requires p.initialized && e.Sense?
    ensures !Usable(e.input) ==> After(cfg, p, e).state.SensorFault?
  {
  }

  lemma {:induction false} StartedAfterFirst(cfg: Config, events: seq<Event>, k: nat, i: nat)
    requires Usual(cfg) && k < i <= |events| && UsableAt(events, k)
    ensures StateAt(cfg, events, i).initialized
  {
    hide Update;
    AlwaysValid(cfg, events, i - 1);
    EventKeepsValid(cfg, StateAt(cfg, events, i - 1), events[i - 1]);
    if i > k + 1 {
      StartedAfterFirst(cfg, events, k, i - 1);
    }
  }

  /** The robot of the shortest steps that obeys a command. */
  function Slowest(pace: Pace, out: Output, here: Route): Route {
    here.(forward := if out.vx == 0.0 then here.forward else here.forward + pace.forward,
          lateral := if out.vy == 0.0 then here.lateral
                     else if out.vy > 0.0 then here.lateral + pace.lateral
                     else here.lateral - pace.lateral)
  }

  lemma TwoTicksLeft(cfg: Config, events: seq<Event>, i: nat, time: Timing)
    requires Usual(cfg) && ComesBack(cfg, time) && time.dtMin <= time.dtMax
    requires i < |events| && UsableAt(events, i)
    requires !Terminal(StateAt(cfg, events, i + 1).state)
    requires InReach(cfg, PaceOf(cfg, time), HandedAt(cfg, events, i))
    requires Suits(cfg, PaceOf(cfg, time))
    ensures var r := HandedAt(cfg, events, i); Rank(cfg, PaceOf(cfg, time), r, r.route) >= 2
  {
    hide Decide, Contained, Aligned, Rank, Obeyed, Slowest;
    var r, pace, s := HandedAt(cfg, events, i), PaceOf(cfg, time), SampleAt(events, i);
    AlwaysValid(cfg, events, i);
    EventKeepsValid(cfg, StateAt(cfg, events, i), events[i]);
    HandedIsValid(cfg, StateAt(cfg, events, i), events[i].input);
    var there := Slowest(pace, Decide(cfg, r, s).out, r.route);
    Scaled(cfg.lateralSpeed, time.dtMin, time.dtMin, time.dtMax);
    SlowestObeys(pace, Decide(cfg, r, s).out, r.route);
    DecisionDescends(cfg, pace, r, s, there);
    RankIsPositive(cfg, pace, StateAt(cfg, events, i + 1), there);
  }

  lemma SlowestObeys(pace: Pace, out: Output, here: Route)
    requires pace.lateral <= pace.lateralMax
    ensures Obeyed(pace, out, here, Slowest(pace, out, here))
  {
  }

  /**
   Termination of the closed loop. From its first usable sample at tick `k` on, whatever the
   ranges, the clock and later sensor failures, the planner has ended after `TickBound` ticks:
   the forward steps to the target, twice the lateral steps of a shift and one stop for each
   bypass attempt, and two more.
   */
  lemma ClosedLoopTerminates(cfg: Config, events: seq<Event>, k: nat, n: nat, time: Timing)
    requires Usual(cfg) && UnitYaws(events) && Follows(cfg, events, k, time) && ComesBack(cfg, time)
    requires k < n <= |events| && FirstUsable(events, k)
    requires n - k >= TickBound(cfg, time)
    ensures Terminal(StateAt(cfg, events, n).state)
  {
    hide PaceOf, Rank, TickBound, Update, Handed, Usual;
    if !Terminal(StateAt(cfg, events, n).state) {
      StillRunning(cfg, events, k, n - 1);
      LoopRank(cfg, events, k, n - 1, time);
      TwoTicksLeft(cfg, events, n - 1, time);
    }
  }
}
