/**
 When a shift comes back to the route, exactly. With steps longer than the band around the route
 and ticks that are not all alike, the robot can drift by a little on each bypass until it steps
 over the band; from there the planner sends it away for as long as nothing is in its way. This
 module builds such a run, sample by sample, and so shows that `ComesBack` cannot be weakened.
 */
module PlannerOvershoot {
  import opened PlannerModel
  import opened PlannerRuns
  import opened PlannerSafety
  import opened PlannerClosedLoop
  import opened PlannerScenarios
  import opened Rounding

  // ----- a robot in an open hall -----

  /** What the next tick sees ahead, and how long after the last one it comes. */
  datatype Beat = Beat(front: real, dt: real)

  const CLOSE := 0.2

  const CLEAR := 1.0

  /** The planner after its last tick, and the robot it commands. */
  datatype Loop = Loop(planner: Planner, at: Vec, out: Output, now: real)

  const AT_REST := Loop(INITIAL, ORIGIN, Output(0.0, 0.0, 0.0, true, false, Waiting, 0.0, 0.0, 0, AwaitingSensors), 0.0)

  /** A fresh, valid sample of a robot that looks east, with room on both sides. */
  function InputAt(cfg: Config, at: Vec, front: real, now: real): PlannerInput {
    PlannerInput(
      RangeSample(Finite(front), Finite(cfg.minSideClearance), Finite(cfg.minSideClearance), true),
      PoseSample(Finite(at.x), Finite(at.y), Yaw(EAST), true), now, true, true)
  }

  function Moved(l: Loop, dt: real): Vec {
    Driven(l.at, EAST, l.out.vx, l.out.vy, dt)
  }

  function Ticked(cfg: Config, l: Loop, b: Beat): Loop {
    var at, now := Moved(l, b.dt), l.now + b.dt;
    var t := Update(cfg, l.planner, InputAt(cfg, at, b.front, now));
    Loop(t.next, at, t.out, now)
  }

  function LoopAt(cfg: Config, beats: seq<Beat>, n: nat): Loop
    requires n <= |beats|
  {
    if n == 0 then AT_REST else Ticked(cfg, LoopAt(cfg, beats, n - 1), beats[n - 1])
  }

  function Final(cfg: Config, beats: seq<Beat>): Loop {
    LoopAt(cfg, beats, |beats|)
  }

  function EventAt(cfg: Config, beats: seq<Beat>, i: nat): Event
    requires i < |beats|
  {
    var l := LoopAt(cfg, beats, i + 1);
    Sense(InputAt(cfg, l.at, beats[i].front, l.now))
  }

  function EventsOf(cfg: Config, beats: seq<Beat>): (events: seq<Event>)
    ensures |events| == |beats|
    ensures forall i | 0 <= i < |beats| :: events[i] == EventAt(cfg, beats, i)
  {
    seq(|beats|, i requires 0 <= i < |beats| => EventAt(cfg, beats, i))
  }

  /** Each command lasts until the next beat. */
  function TimingOf(beats: seq<Beat>, low: real, high: real): (time: Timing)
    ensures |time.dts| == |beats| && time.dtMin == low && time.dtMax == high
    ensures forall i | 0 <= i < |beats| - 1 :: time.dts[i] == beats[i + 1].dt
    ensures |beats| > 0 ==> time.dts[|beats| - 1] == high
  {
    Timing(seq(|beats|, i requires 0 <= i < |beats| => if i + 1 < |beats| then beats[i + 1].dt else high), low, high)
  }

  ghost predicate Paced(beats: seq<Beat>, low: real, high: real) {
    forall i | 0 <= i < |beats| :: beats[i].front > 0.0 && low <= beats[i].dt <= high
  }

  lemma {:induction false} BeatsAreARun(cfg: Config, beats: seq<Beat>, n: nat)
    requires n <= |beats|
    ensures StateAt(cfg, EventsOf(cfg, beats), n) == LoopAt(cfg, beats, n).planner
  {
    hide Update;
    if n > 0 {
      BeatsAreARun(cfg, beats, n - 1);
    }
  }

  lemma BeatIsUsable(cfg: Config, beats: seq<Beat>, low: real, high: real, i: nat)
    requires Usual(cfg) && Paced(beats, low, high) && i < |beats|
    ensures UsableAt(EventsOf(cfg, beats), i)
    ensures var s, l := SampleAt(EventsOf(cfg, beats), i), LoopAt(cfg, beats, i + 1);
            s.at == l.at && s.heading == EAST
  {
    hide Update;
    assert beats[i].front > 0.0;
  }

  lemma BeatsLookEast(cfg: Config, beats: seq<Beat>, low: real, high: real)
    requires Usual(cfg) && Paced(beats, low, high)
    ensures UnitYaws(EventsOf(cfg, beats))
  {
    hide Update;
    forall i | 0 <= i < |beats| && UsableAt(EventsOf(cfg, beats), i)
      ensures IsUnit(SampleAt(EventsOf(cfg, beats), i).heading)
    {
      BeatIsUsable(cfg, beats, low, high, i);
    }
  }

  /** Beats make a run of the closed loop, whose first sample is usable. */
  lemma BeatsFollow(cfg: Config, beats: seq<Beat>, low: real, high: real)
    requires Usual(cfg) && 0.0 < low <= high && beats != [] && Paced(beats, low, high)
    ensures Follows(cfg, EventsOf(cfg, beats), 0, TimingOf(beats, low, high))
    ensures UnitYaws(EventsOf(cfg, beats)) && FirstUsable(EventsOf(cfg, beats), 0)
  {
    hide Update, Driven, Usual;
    var events, time := EventsOf(cfg, beats), TimingOf(beats, low, high);
    BeatsLookEast(cfg, beats, low, high);
    BeatIsUsable(cfg, beats, low, high, 0);
    forall i | 0 <= i < |events|
      ensures events[i].Sense? && low <= time.dts[i] <= high
    {
      assert i + 1 < |beats| ==> time.dts[i] == beats[i + 1].dt;
    }
    forall i | 0 <= i < |events| - 1 && UsableAt(events, i) && UsableAt(events, i + 1)
      ensures SampleAt(events, i + 1).at
           == Driven(SampleAt(events, i).at, StateAt(cfg, events, i + 1).route.heading,
                     TickAt(cfg, events, i).out.vx, TickAt(cfg, events, i).out.vy, time.dts[i])
    {
      BeatDrives(cfg, beats, low, high, i);
    }
  }

  lemma BeatLeavesEast(cfg: Config, beats: seq<Beat>, low: real, high: real, i: nat)
    requires Usual(cfg) && Paced(beats, low, high) && i < |beats|
    ensures StateAt(cfg, EventsOf(cfg, beats), i + 1).route.heading == EAST
  {
    hide Update, Driven, Usual, EventAt;
    BeatIsUsable(cfg, beats, low, high, i);
    LeftLocated(cfg, EventsOf(cfg, beats), i);
    var o := OriginIsFirstFix(cfg, EventsOf(cfg, beats), i + 1);
    BeatIsUsable(cfg, beats, low, high, o);
  }

  lemma BeatDrives(cfg: Config, beats: seq<Beat>, low: real, high: real, i: nat)
    requires Usual(cfg) && Paced(beats, low, high) && i + 1 < |beats|
    ensures UsableAt(EventsOf(cfg, beats), i) && UsableAt(EventsOf(cfg, beats), i + 1)
    ensures SampleAt(EventsOf(cfg, beats), i + 1).at
         == Driven(SampleAt(EventsOf(cfg, beats), i).at, StateAt(cfg, EventsOf(cfg, beats), i + 1).route.heading,
                   TickAt(cfg, EventsOf(cfg, beats), i).out.vx, TickAt(cfg, EventsOf(cfg, beats), i).out.vy,
                   beats[i + 1].dt)
  {
    hide Update, Driven, Usual;
    BeatIsUsable(cfg, beats, low, high, i);
    BeatIsUsable(cfg, beats, low, high, i + 1);
    BeatLeavesEast(cfg, beats, low, high, i);
    BeatCommands(cfg, beats, i);
    hide EventsOf, StateAt, TickAt, Paced, InputAt;
    assert LoopAt(cfg, beats, i + 2).at == Moved(LoopAt(cfg, beats, i + 1), beats[i + 1].dt);
  }

  lemma BeatCommands(cfg: Config, beats: seq<Beat>, i: nat)
    requires i < |beats|
    ensures TickAt(cfg, EventsOf(cfg, beats), i).out == LoopAt(cfg, beats, i + 1).out
  {
    hide Update, Driven;
    BeatsAreARun(cfg, beats, i);
  }

  lemma {:induction false} SameBeats(cfg: Config, a: seq<Beat>, b: seq<Beat>, n: nat)
    requires n <= |a| && n <= |b| && forall i | 0 <= i < n :: a[i] == b[i]
    ensures LoopAt(cfg, a, n) == LoopAt(cfg, b, n)
  {
    hide Ticked;
    if n > 0 {
      SameBeats(cfg, a, b, n - 1);
    }
  }

  lemma OneMoreBeat(cfg: Config, beats: seq<Beat>, b: Beat)
    ensures Final(cfg, beats + [b]) == Ticked(cfg, Final(cfg, beats), b)
  {
    hide Ticked;
    SameBeats(cfg, beats, beats + [b], |beats|);
  }

  // ----- the rig -----

  /** The distances a run needs ahead: two drives for each bypass. */
  function Ahead(n: nat, drive: real): real {
    if n == 0 then 0.1 else Ahead(n - 1, drive) + 2.0 * drive
  }

  /** The speed that takes a robot past an obstacle in the shortest tick. */
  function PassingSpeed(low: real): real
    requires low > 0.0
  {
    0.05 + 0.3 / low
  }

  /** A configuration with these sideways parameters that allows `bypasses` bypasses, each of one tick ahead. */
  function Rig(speed: real, shift: real, tolerance: real, ahead: real, drive: real, bypasses: nat): Config {
    Config(Ahead(bypasses, drive), ahead, speed, 0.2, 0.3, shift + 0.1, 0.1, shift, 0.3, tolerance,
           0.0, 0.5, 1, 1, bypasses)
  }

  /** What the run below uses of its configuration. */
  ghost predicate Rigged(cfg: Config, low: real, high: real, drive: real) {
    && Usual(cfg) && 0.0 < low <= high
    && drive == cfg.forwardSpeed * high && drive >= 0.3
    && cfg.targetDistance == Ahead(cfg.maxBypassAttempts, drive)
    && cfg.stopDistance == 0.2 && cfg.resumeDistance == 0.3 && cfg.sideStopDistance == 0.1
    && cfg.bypassForwardDistance == 0.3 && cfg.motionProgressEpsilon == 0.0
    && cfg.blockedFrames == 1 && cfg.clearFrames == 1
  }

  lemma {:induction false} AheadIsPositive(n: nat, drive: real)
    requires drive > 0.0
    ensures Ahead(n, drive) >= 0.1
  {
    if n > 0 {
      AheadIsPositive(n - 1, drive);
    }
  }

  lemma PassingSpeedPasses(low: real, high: real)
    requires 0.0 < low <= high
    ensures PassingSpeed(low) >= 0.05 && PassingSpeed(low) * high >= 0.3
  {
    assert 0.3 / low > 0.0;
    Scaled(PassingSpeed(low), low, low, high);
    assert 0.3 / low * low == 0.3;
    assert 0.05 * low > 0.0;
    assert PassingSpeed(low) * low == 0.05 * low + 0.3 / low * low;
  }

  lemma RigIsRigged(speed: real, shift: real, tolerance: real, low: real, high: real, bypasses: nat)
    requires speed >= 0.05 && shift >= 0.2 && tolerance >= 0.02 && 0.0 < low <= high
    ensures var ahead := PassingSpeed(low);
            Rigged(Rig(speed, shift, tolerance, ahead, ahead * high, bypasses), low, high, ahead * high)
  {
    PassingSpeedPasses(low, high);
    AheadIsPositive(bypasses, PassingSpeed(low) * high);
    hide PassingSpeed, Ahead;
  }

  // ----- one tick in the hall -----

  /** The robot is at `x` along the route and `y` beside it, and the planner in this state knows it. */
  ghost predicate At(l: Loop, state: NavigationState, x: real, y: real) {
    && l.planner.initialized && l.planner.state == state
    && l.planner.route == Route(ORIGIN, EAST, x, y) && l.at == Vec(x, y)
  }

  /** The planner that the next tick hands to its states. */
  function HandedTo(l: Loop, x: real, y: real, now: real): Planner {
    l.planner.(route := Route(ORIGIN, EAST, x, y),
               watch := l.planner.watch.(anchor := Vec(x, y), lastProgress := now))
  }

  function SampleOf(cfg: Config, x: real, y: real, front: real, now: real): Sample {
    Sample(front, cfg.minSideClearance, cfg.minSideClearance, Vec(x, y), EAST, now)
  }

  /** With every tick counted as progress, a tick is what the state makes of the place it finds. */
  lemma TickInTheHall(cfg: Config, low: real, high: real, drive: real, l: Loop, state: NavigationState,
                      x: real, y: real, b: Beat)
    requires Rigged(cfg, low, high, drive) && At(l, state, x, y) && b.front > 0.0
    ensures var x', y', now := x + l.out.vx * b.dt, y + l.out.vy * b.dt, l.now + b.dt;
            var t := Decide(cfg, HandedTo(l, x', y', now), SampleOf(cfg, x', y', b.front, now));
            && Ticked(cfg, l, b).planner == t.next && Ticked(cfg, l, b).out == t.out
            && Ticked(cfg, l, b).at == Vec(x', y') && Ticked(cfg, l, b).now == now
  {
    hide Decide;
    var x', y', now := x + l.out.vx * b.dt, y + l.out.vy * b.dt, l.now + b.dt;
    assert Moved(l, b.dt) == Vec(x', y');
    var input := InputAt(cfg, Vec(x', y'), b.front, now);
    assert Sampled(input) == SampleOf(cfg, x', y', b.front, now);
    assert Located(l.planner.route, Vec(x', y')) == Route(ORIGIN, EAST, x', y');
    assert Handed(cfg, l.planner, input) == HandedTo(l, x', y', now);
  }

  // ----- the five situations of a bypass on the left -----

  ghost predicate Evaluating(l: Loop, n: nat, x: real, y: real) {
    && At(l, Evaluate, x, y) && l.out.vx == 0.0 && l.out.vy == 0.0
    && l.planner.bypass.attempts == n && !l.planner.bypass.completeAfterRejoin
  }

  ghost predicate Bypasses(cfg: Config, l: Loop, n: nat) {
    && l.planner.bypass.side == Left && l.planner.bypass.goal == cfg.lateralShift
    && l.planner.bypass.attempts == n && !l.planner.bypass.completeAfterRejoin
  }

  ghost predicate Leaving(cfg: Config, l: Loop, n: nat, x: real, y: real) {
    && At(l, ShiftOut, x, y) && l.out.vx == 0.0 && l.out.vy == cfg.lateralSpeed && Bypasses(cfg, l, n)
  }

  ghost predicate Passing(cfg: Config, l: Loop, n: nat, x: real, y: real) {
    && At(l, PassObstacle, x, y) && l.out.vx == cfg.forwardSpeed && l.out.vy == 0.0 && Bypasses(cfg, l, n)
    && l.planner.bypass.start == x
  }

  ghost predicate Returning(cfg: Config, l: Loop, n: nat, x: real, y: real) {
    && At(l, ShiftBack, x, y) && l.out.vx == 0.0 && l.out.vy == -cfg.lateralSpeed && Bypasses(cfg, l, n)
  }

  ghost predicate Resumed(cfg: Config, l: Loop, n: nat, x: real, y: real) {
    && At(l, Forward, x, y) && l.out.vx == cfg.forwardSpeed && l.out.vy == 0.0
    && l.planner.bypass.attempts == n && !l.planner.bypass.completeAfterRejoin
  }

  lemma FirstBeat(cfg: Config, low: real, high: real, drive: real)
    requires Rigged(cfg, low, high, drive)
    ensures Evaluating(Ticked(cfg, AT_REST, Beat(CLOSE, low)), 0, 0.0, 0.0)
  {
    assert Moved(AT_REST, low) == ORIGIN;
    assert Displacement(ORIGIN, ORIGIN) == ORIGIN;
    AheadIsPositive(cfg.maxBypassAttempts, drive);
  }

  lemma BeginShift(cfg: Config, low: real, high: real, drive: real, l: Loop, n: nat, x: real, y: real)
    requires Rigged(cfg, low, high, drive) && Evaluating(l, n, x, y) && n < cfg.maxBypassAttempts
    requires y < cfg.lateralShift - cfg.rejoinTolerance
    ensures Leaving(cfg, Ticked(cfg, l, Beat(CLEAR, high)), n + 1, x, y)
  {
    var b := Beat(CLEAR, high);
    TickInTheHall(cfg, low, high, drive, l, Evaluate, x, y, b);
    var p, s := HandedTo(l, x, y, l.now + high), SampleOf(cfg, x, y, CLEAR, l.now + high);
    assert Act(cfg, p, s) == FallTo(Selected(cfg, p, s));
    hide Ticked;
    assert MoveAside(cfg, Selected(cfg, p, s), s).End?;
  }

  lemma ShiftOn(cfg: Config, low: real, high: real, drive: real, l: Loop, n: nat, x: real, y: real, dt: real)
    requires Rigged(cfg, low, high, drive) && Leaving(cfg, l, n, x, y)
    requires x < cfg.targetDistance
    ensures var next, there := Ticked(cfg, l, Beat(CLEAR, dt)), y + cfg.lateralSpeed * dt;
            if there < cfg.lateralShift - cfg.rejoinTolerance then Leaving(cfg, next, n, x, there)
            else Passing(cfg, next, n, x, there)
  {
    var b, there := Beat(CLEAR, dt), y + cfg.lateralSpeed * dt;
    TickInTheHall(cfg, low, high, drive, l, ShiftOut, x, y, b);
    var p, s := HandedTo(l, x, there, l.now + dt), SampleOf(cfg, x, there, CLEAR, l.now + dt);
    hide Ticked;
    if there >= cfg.lateralShift - cfg.rejoinTolerance {
      assert Act(cfg, p, s).FallTo?;
      assert PassBy(cfg, Act(cfg, p, s).next, s).End?;
    }
  }

  lemma Pass(cfg: Config, low: real, high: real, drive: real, l: Loop, n: nat, x: real, y: real)
    requires Rigged(cfg, low, high, drive) && Passing(cfg, l, n, x, y)
    requires x + drive < cfg.targetDistance && y > cfg.rejoinTolerance
    ensures Returning(cfg, Ticked(cfg, l, Beat(CLEAR, high)), n, x + drive, y)
  {
    TickInTheHall(cfg, low, high, drive, l, PassObstacle, x, y, Beat(CLEAR, high));
    var p, s := HandedTo(l, x + drive, y, l.now + high), SampleOf(cfg, x + drive, y, CLEAR, l.now + high);
    hide Ticked;
    assert Act(cfg, p, s).FallTo?;
    assert Rejoin(cfg, Act(cfg, p, s).next, s).End?;
  }

  lemma ShiftBackOn(cfg: Config, low: real, high: real, drive: real, l: Loop, n: nat, x: real, y: real)
    requires Rigged(cfg, low, high, drive) && Returning(cfg, l, n, x, y) && x < cfg.targetDistance
    ensures var next, there := Ticked(cfg, l, Beat(CLEAR, high)), y - cfg.lateralSpeed * high;
            if OnRoute(cfg, there) then Resumed(cfg, next, n, x, there) else Returning(cfg, next, n, x, there)
  {
    var there := y - cfg.lateralSpeed * high;
    assert -cfg.lateralSpeed * high == -(cfg.lateralSpeed * high);
    TickInTheHall(cfg, low, high, drive, l, ShiftBack, x, y, Beat(CLEAR, high));
    var p, s := HandedTo(l, x, there, l.now + high), SampleOf(cfg, x, there, CLEAR, l.now + high);
    hide Ticked;
    assert Act(cfg, p, s) == Rejoin(cfg, p, s);
  }

  lemma MeetNext(cfg: Config, low: real, high: real, drive: real, l: Loop, n: nat, x: real, y: real)
    requires Rigged(cfg, low, high, drive) && Resumed(cfg, l, n, x, y) && x + drive < cfg.targetDistance
    ensures Evaluating(Ticked(cfg, l, Beat(CLOSE, high)), n, x + drive, y)
  {
    TickInTheHall(cfg, low, high, drive, l, Forward, x, y, Beat(CLOSE, high));
    var p, s := HandedTo(l, x + drive, y, l.now + high), SampleOf(cfg, x + drive, y, CLOSE, l.now + high);
    hide Ticked;
    assert Act(cfg, p, s) == FollowRoute(cfg, p, s);
  }

  // ----- one bypass, and all of them -----

  /** `n` steps up from `base`. */
  function Up(base: real, n: nat, step: real): real {
    if n == 0 then base else Up(base, n - 1, step) + step
  }

  lemma {:induction false} UpIsHigher(base: real, n: nat, step: real)
    requires n >= 1 && step > 0.0
    ensures Up(base, n, step) >= base + step
  {
    if n > 1 {
      UpIsHigher(base, n - 1, step);
    }
  }

  ghost predicate Drifts(cfg: Config, low: real, high: real, drift: real) {
    && 0.0 < drift <= cfg.lateralSpeed * (high - low)
    && drift < cfg.lateralSpeed * high - 2.0 * cfg.rejoinTolerance
    && cfg.lateralShift > cfg.rejoinTolerance
  }

  lemma MorePaced(beats: seq<Beat>, b: Beat, low: real, high: real)
    requires Paced(beats, low, high) && b.front > 0.0 && low <= b.dt <= high
    ensures Paced(beats + [b], low, high)
  {
  }

  /** How many steps are left to the side the robot is to reach. */
  function StepsOut(cfg: Config, y: real, step: real): nat
    requires step > 0.0
  {
    Steps(cfg.lateralShift - cfg.rejoinTolerance - y, step)
  }

  lemma OneStepOut(cfg: Config, y: real, step: real)
    requires step > 0.0 && y < cfg.lateralShift - cfg.rejoinTolerance
    ensures StepsOut(cfg, y + step, step) < StepsOut(cfg, y, step)
  {
    OneStep(cfg.lateralShift - cfg.rejoinTolerance - y, step, step);
    assert cfg.lateralShift - cfg.rejoinTolerance - (y + step) == cfg.lateralShift - cfg.rejoinTolerance - y - step;
  }

  lemma {:induction false} GoOut(cfg: Config, low: real, high: real, drive: real, step: real, beats: seq<Beat>, n: nat,
                                 x: real, base: real, i: nat)
      returns (longer: seq<Beat>, top: nat)
    requires Rigged(cfg, low, high, drive) && Paced(beats, low, high) && x < cfg.targetDistance
    requires step == cfg.lateralSpeed * high && step > 0.0
    requires Leaving(cfg, Final(cfg, beats), n, x, Up(base, i, step))
    requires Up(base, i, step) < cfg.lateralShift - cfg.rejoinTolerance
    ensures Paced(longer, low, high) && top >= 1
    ensures Passing(cfg, Final(cfg, longer), n, x, Up(base, top, step))
    decreases StepsOut(cfg, Up(base, i, step), step)
  {
    hide Leaving, Passing, Ticked, LoopAt, Rigged, Paced, StepsOut;
    var b := Beat(CLEAR, high);
    PacedHigh(beats, cfg, low, high, drive);
    ShiftOn(cfg, low, high, drive, Final(cfg, beats), n, x, Up(base, i, step), high);
    OneMoreBeat(cfg, beats, b);
    if Up(base, i + 1, step) < cfg.lateralShift - cfg.rejoinTolerance {
      OneStepOut(cfg, Up(base, i, step), step);
      longer, top := GoOut(cfg, low, high, drive, step, beats + [b], n, x, base, i + 1);
    } else {
      longer, top := beats + [b], i + 1;
    }
  }

  lemma PacedHigh(beats: seq<Beat>, cfg: Config, low: real, high: real, drive: real)
    requires Rigged(cfg, low, high, drive) && Paced(beats, low, high)
    ensures Paced(beats + [Beat(CLEAR, high)], low, high) && Paced(beats + [Beat(CLOSE, high)], low, high)
  {
  }

  lemma {:induction false} GoBack(cfg: Config, low: real, high: real, drive: real, beats: seq<Beat>, n: nat,
                                  x: real, base: real, i: nat)
      returns (longer: seq<Beat>)
    requires Rigged(cfg, low, high, drive) && Paced(beats, low, high) && x < cfg.targetDistance && i >= 1
    requires Returning(cfg, Final(cfg, beats), n, x, Up(base, i, cfg.lateralSpeed * high))
    requires cfg.lateralSpeed * high > 0.0 && base + cfg.lateralSpeed * high > cfg.rejoinTolerance
    ensures Paced(longer, low, high)
    ensures if OnRoute(cfg, base) then Resumed(cfg, Final(cfg, longer), n, x, base)
            else Returning(cfg, Final(cfg, longer), n, x, base)
    decreases i
  {
    hide Returning, Resumed, Ticked, LoopAt, Rigged, Paced;
    var b, step := Beat(CLEAR, high), cfg.lateralSpeed * high;
    PacedHigh(beats, cfg, low, high, drive);
    ShiftBackOn(cfg, low, high, drive, Final(cfg, beats), n, x, Up(base, i, step));
    OneMoreBeat(cfg, beats, b);
    if i == 1 {
      longer := beats + [b];
    } else {
      UpIsHigher(base, i - 1, step);
      longer := GoBack(cfg, low, high, drive, beats + [b], n, x, base, i - 1);
    }
  }

  // The first step out is shorter than the others by the drift.
  lemma FirstStep(cfg: Config, low: real, high: real, drift: real, y: real)
    requires Usual(cfg) && 0.0 < low <= high && Drifts(cfg, low, high, drift)
    ensures low <= high - drift / cfg.lateralSpeed <= high
    ensures y + cfg.lateralSpeed * (high - drift / cfg.lateralSpeed)
         == Up(y - drift, 1, cfg.lateralSpeed * high)
    ensures cfg.lateralSpeed * high > 0.0
  {
    var v := cfg.lateralSpeed;
    assert v * (drift / v) == drift;
    assert v * (high - drift / v) == v * high - v * (drift / v);
    assert drift / v > 0.0;
    Scaled(v, low, low, high);
    PositiveFactorOrZero(high - low - drift / v, v);
    assert Up(y - drift, 1, v * high) == Up(y - drift, 0, v * high) + v * high;
  }

  lemma PositiveFactorOrZero(a: real, b: real)
    requires b > 0.0
    ensures a * b >= 0.0 ==> a >= 0.0
    ensures a * b == b * a
  {
  }

  lemma GoOutFirst(cfg: Config, low: real, high: real, drive: real, step: real, dt: real, beats: seq<Beat>, n: nat,
                   x: real, y: real, base: real)
      returns (longer: seq<Beat>, top: nat)
    requires Rigged(cfg, low, high, drive) && Paced(beats, low, high)
    requires step == cfg.lateralSpeed * high && step > 0.0
    requires low <= dt <= high && y + cfg.lateralSpeed * dt == Up(base, 1, step)
    requires Evaluating(Final(cfg, beats), n, x, y) && n < cfg.maxBypassAttempts && x < cfg.targetDistance
    requires y < cfg.lateralShift - cfg.rejoinTolerance
    ensures Paced(longer, low, high) && top >= 1
    ensures Passing(cfg, Final(cfg, longer), n + 1, x, Up(base, top, step))
  {
    hide Evaluating, Leaving, Passing, Ticked, LoopAt, Up;
    var start, first := Beat(CLEAR, high), Beat(CLEAR, dt);
    BeginShift(cfg, low, high, drive, Final(cfg, beats), n, x, y);
    OneMoreBeat(cfg, beats, start);
    ShiftOn(cfg, low, high, drive, Final(cfg, beats + [start]), n + 1, x, y, dt);
    OneMoreBeat(cfg, beats + [start], first);
    MorePaced(beats, start, low, high);
    MorePaced(beats + [start], first, low, high);
    longer, top := beats + [start] + [first], 1;
    if Up(base, 1, step) < cfg.lateralShift - cfg.rejoinTolerance {
      longer, top := GoOut(cfg, low, high, drive, step, longer, n + 1, x, base, 1);
    }
  }

  /** A bypass ends `drift` to the right of where it began, or steps over the band. */
  lemma OneBypass(cfg: Config, low: real, high: real, drive: real, drift: real, beats: seq<Beat>, n: nat,
                  x: real, y: real)
      returns (longer: seq<Beat>)
    requires Rigged(cfg, low, high, drive) && Paced(beats, low, high) && Drifts(cfg, low, high, drift)
    requires Evaluating(Final(cfg, beats), n, x, y) && n < cfg.maxBypassAttempts
    requires x + 2.0 * drive < cfg.targetDistance && -cfg.rejoinTolerance <= y <= 0.0
    ensures Paced(longer, low, high)
    ensures if y - drift >= -cfg.rejoinTolerance
            then Evaluating(Final(cfg, longer), n + 1, x + drive + drive, y - drift)
            else Returning(cfg, Final(cfg, longer), n + 1, x + drive, y - drift)
  {
    hide Evaluating, Returning, Passing, Resumed, Ticked, LoopAt, Paced;
    var step := cfg.lateralSpeed * high;
    var top;
    FirstStep(cfg, low, high, drift, y);
    longer, top := GoOutFirst(cfg, low, high, drive, step, high - drift / cfg.lateralSpeed, beats, n, x, y, y - drift);
    UpIsHigher(y - drift, top, step);
    hide Up;
    Pass(cfg, low, high, drive, Final(cfg, longer), n + 1, x, Up(y - drift, top, step));
    OneMoreBeat(cfg, longer, Beat(CLEAR, high));
    PacedHigh(longer, cfg, low, high, drive);
    longer := GoBack(cfg, low, high, drive, longer + [Beat(CLEAR, high)], n + 1, x + drive, y - drift, top);
    if OnRoute(cfg, y - drift) {
      MeetNext(cfg, low, high, drive, Final(cfg, longer), n + 1, x + drive, y - drift);
      OneMoreBeat(cfg, longer, Beat(CLOSE, high));
      PacedHigh(longer, cfg, low, high, drive);
      longer := longer + [Beat(CLOSE, high)];
    }
  }

  /** The robot is beyond the band, at least `far` from its route, and is sent farther away. */
  ghost predicate Lost(cfg: Config, l: Loop, far: real) {
    exists n: nat, x: real, y: real ::
      Returning(cfg, l, n, x, y) && x < cfg.targetDistance && y < -cfg.rejoinTolerance && y <= -far
  }

  /** Enough bypasses drift the robot over the band. */
  lemma {:induction false} AllBypasses(cfg: Config, low: real, high: real, drive: real, drift: real, beats: seq<Beat>,
                                       n: nat, x: real, y: real)
      returns (longer: seq<Beat>)
    requires Rigged(cfg, low, high, drive) && Paced(beats, low, high) && Drifts(cfg, low, high, drift)
    requires Evaluating(Final(cfg, beats), n, x, y) && n <= cfg.maxBypassAttempts
    requires -cfg.rejoinTolerance <= y <= 0.0 && Up(0.0, cfg.maxBypassAttempts - n, drift) > y + cfg.rejoinTolerance
    requires x + Ahead(cfg.maxBypassAttempts - n, drive) <= cfg.targetDistance
    ensures Paced(longer, low, high) && Lost(cfg, Final(cfg, longer), 0.0)
    decreases cfg.maxBypassAttempts - n
  {
    hide Evaluating, Returning, Ticked, LoopAt, Paced;
    assert n < cfg.maxBypassAttempts;
    AheadIsPositive(cfg.maxBypassAttempts - n - 1, drive);
    longer := OneBypass(cfg, low, high, drive, drift, beats, n, x, y);
    if y - drift >= -cfg.rejoinTolerance {
      longer := AllBypasses(cfg, low, high, drive, drift, longer, n + 1, x + drive + drive, y - drift);
    } else {
      assert Returning(cfg, Final(cfg, longer), n + 1, x + drive, y - drift);
    }
  }

  /** A lost robot can stay so for any number of ticks, and each takes it a whole step farther away. */
  lemma {:induction false} StaysLost(cfg: Config, low: real, high: real, drive: real, step: real, beats: seq<Beat>,
                                     ticks: nat)
      returns (longer: seq<Beat>)
    requires Rigged(cfg, low, high, drive) && Paced(beats, low, high) && Lost(cfg, Final(cfg, beats), 0.0)
    requires step == cfg.lateralSpeed * high
    ensures Paced(longer, low, high) && Lost(cfg, Final(cfg, longer), Up(0.0, ticks, step))
    ensures |longer| == |beats| + ticks
    decreases ticks
  {
    hide Returning, Ticked, LoopAt, Paced;
    longer := beats;
    if ticks > 0 {
      longer := StaysLost(cfg, low, high, drive, step, beats, ticks - 1);
      var n: nat, x: real, y: real :|
        && Returning(cfg, Final(cfg, longer), n, x, y) && x < cfg.targetDistance
        && y < -cfg.rejoinTolerance && y <= -Up(0.0, ticks - 1, step);
      Scaled(cfg.lateralSpeed, 0.0, high, high);
      ShiftBackOn(cfg, low, high, drive, Final(cfg, longer), n, x, y);
      OneMoreBeat(cfg, longer, Beat(CLEAR, high));
      PacedHigh(longer, cfg, low, high, drive);
      longer := longer + [Beat(CLEAR, high)];
      assert Returning(cfg, Final(cfg, longer), n, x, y - step);
    }
  }

  // ----- the exact condition -----

  predicate Sideways(cfg: Config, speed: real, shift: real, tolerance: real) {
    cfg.lateralSpeed == speed && cfg.lateralShift == shift && cfg.rejoinTolerance == tolerance
  }

  /** Ticks between `low` and `high` long bring every shift back with these sideways parameters. */
  predicate Recoverable(speed: real, shift: real, tolerance: real, low: real, high: real) {
    speed * high <= 2.0 * tolerance || low == high || shift <= tolerance
  }

  function DriftOf(speed: real, tolerance: real, low: real, high: real): real {
    var a, b := speed * (high - low), (speed * high - 2.0 * tolerance) / 2.0;
    if a < b then a else b
  }

  function BypassesFor(tolerance: real, drift: real): nat
    requires tolerance > 0.0 && drift > 0.0
  {
    assert tolerance / drift > 0.0;
    (tolerance / drift).Floor + 1
  }

  lemma {:induction false} UpIsMultiple(n: nat, step: real)
    ensures Up(0.0, n, step) == n as real * step
  {
    if n > 0 {
      UpIsMultiple(n - 1, step);
    }
  }

  lemma EnoughBypasses(tolerance: real, drift: real)
    requires tolerance > 0.0 && drift > 0.0
    ensures Up(0.0, BypassesFor(tolerance, drift), drift) > tolerance
  {
    var n := BypassesFor(tolerance, drift);
    UpIsMultiple(n, drift);
    Scaled(drift, tolerance / drift, tolerance / drift, n as real);
    assert drift * (tolerance / drift) == tolerance;
    assert (n as real - tolerance / drift) * drift > 0.0;
  }

  lemma DriftDrifts(speed: real, shift: real, tolerance: real, low: real, high: real)
    requires speed >= 0.05 && shift >= 0.2 && tolerance >= 0.02 && 0.0 < low <= high
    requires !Recoverable(speed, shift, tolerance, low, high)
    ensures var drift := DriftOf(speed, tolerance, low, high);
            && 0.0 < drift <= speed * (high - low)
            && drift < speed * high - 2.0 * tolerance && shift > tolerance
  {
    assert speed * (high - low) > 0.0;
  }

  /** A configuration with such sideways parameters, and its overshooting run. */
  function DriftingRig(speed: real, shift: real, tolerance: real, low: real, high: real): Config
    requires speed >= 0.05 && shift >= 0.2 && tolerance >= 0.02 && 0.0 < low <= high
    requires !Recoverable(speed, shift, tolerance, low, high)
  {
    DriftDrifts(speed, shift, tolerance, low, high);
    Rig(speed, shift, tolerance, PassingSpeed(low), PassingSpeed(low) * high,
        BypassesFor(tolerance, DriftOf(speed, tolerance, low, high)))
  }

  /** From tick `k`, its first usable one, a run of the closed loop with these tick lengths makes `n - k` ticks. */
  ghost predicate LoopRun(cfg: Config, events: seq<Event>, k: nat, n: nat, time: Timing, low: real, high: real) {
    && UnitYaws(events) && Follows(cfg, events, k, time) && time.dtMin == low && time.dtMax == high
    && k < n <= |events| && FirstUsable(events, k)
  }

  lemma LostBeats(cfg: Config, low: real, high: real, drive: real, drift: real, ticks: nat) returns (beats: seq<Beat>)
    requires Rigged(cfg, low, high, drive) && Drifts(cfg, low, high, drift)
    requires Up(0.0, cfg.maxBypassAttempts, drift) > cfg.rejoinTolerance
    ensures Paced(beats, low, high) && |beats| > ticks + 1
    ensures Lost(cfg, Final(cfg, beats), Up(0.0, ticks + 1, cfg.lateralSpeed * high))
  {
    hide Ticked, Evaluating, Lost, Up, Ahead;
    FirstBeat(cfg, low, high, drive);
    OneMoreBeat(cfg, [], Beat(CLOSE, low));
    assert [] + [Beat(CLOSE, low)] == [Beat(CLOSE, low)];
    beats := AllBypasses(cfg, low, high, drive, drift, [Beat(CLOSE, low)], 0, 0.0, 0.0);
    LostHasBegun(cfg, beats);
    beats := StaysLost(cfg, low, high, drive, cfg.lateralSpeed * high, beats, ticks + 1);
  }

  lemma LostHasBegun(cfg: Config, beats: seq<Beat>)
    requires Lost(cfg, Final(cfg, beats), 0.0)
    ensures beats != []
  {
  }

  lemma DriftingRigDrifts(speed: real, shift: real, tolerance: real, low: real, high: real)
    requires speed >= 0.05 && shift >= 0.2 && tolerance >= 0.02 && 0.0 < low <= high
    requires !Recoverable(speed, shift, tolerance, low, high)
    ensures var cfg, drift := DriftingRig(speed, shift, tolerance, low, high), DriftOf(speed, tolerance, low, high);
            && Rigged(cfg, low, high, PassingSpeed(low) * high) && Drifts(cfg, low, high, drift)
            && Up(0.0, cfg.maxBypassAttempts, drift) > cfg.rejoinTolerance
            && Sideways(cfg, speed, shift, tolerance)
  {
    hide Up, Ahead, DriftOf, PassingSpeed, BypassesFor;
    var drift := DriftOf(speed, tolerance, low, high);
    DriftDrifts(speed, shift, tolerance, low, high);
    RigIsRigged(speed, shift, tolerance, low, high, BypassesFor(tolerance, drift));
    EnoughBypasses(tolerance, drift);
  }

  lemma LostRun(cfg: Config, low: real, high: real, drive: real, drift: real, step: real, ticks: nat)
      returns (events: seq<Event>, time: Timing)
    requires Rigged(cfg, low, high, drive) && Drifts(cfg, low, high, drift) && step == cfg.lateralSpeed * high
    requires Up(0.0, cfg.maxBypassAttempts, drift) > cfg.rejoinTolerance
    ensures LoopRun(cfg, events, 0, |events|, time, low, high) && |events| > ticks + 1
    ensures UsableAt(events, |events| - 1) && Overshot(cfg, StateAt(cfg, events, |events|))
    ensures StateAt(cfg, events, |events|).route.lateral <= -Up(0.0, ticks + 1, step)
  {
    var beats := LostBeats(cfg, low, high, drive, drift, ticks);
    hide Ticked, Update, Drifts, Up, Lost, Overshot;
    events, time := EventsOf(cfg, beats), TimingOf(beats, low, high);
    BeatsFollow(cfg, beats, low, high);
    BeatsAreARun(cfg, beats, |beats|);
    BeatIsUsable(cfg, beats, low, high, |beats| - 1);
    LostIsOvershot(cfg, Final(cfg, beats), Up(0.0, ticks + 1, step));
  }

  /**
   A run that overshoots and goes on for as many ticks as you like: with steps longer than the
   band, uneven ticks and a shift longer than the tolerance there is one, from its first sample on.
   Each further tick takes the robot a whole step farther from its route.
   */
  lemma OvershootIsReached(speed: real, shift: real, tolerance: real, low: real, high: real, ticks: nat)
      returns (events: seq<Event>, time: Timing)
    requires speed >= 0.05 && shift >= 0.2 && tolerance >= 0.02 && 0.0 < low <= high
    requires !Recoverable(speed, shift, tolerance, low, high)
    ensures var cfg := DriftingRig(speed, shift, tolerance, low, high);
            && Usual(cfg) && Sideways(cfg, speed, shift, tolerance)
            && LoopRun(cfg, events, 0, |events|, time, low, high) && |events| > ticks + 1
            && UsableAt(events, |events| - 1) && Overshot(cfg, StateAt(cfg, events, |events|))
            && StateAt(cfg, events, |events|).route.lateral <= -Up(0.0, ticks + 1, speed * high)
  {
    hide DriftingRig, Drifts, DriftOf, PassingSpeed, Up, Overshot, LoopRun, StateAt, UsableAt;
    var cfg, drift := DriftingRig(speed, shift, tolerance, low, high), DriftOf(speed, tolerance, low, high);
    DriftingRigDrifts(speed, shift, tolerance, low, high);
    assert cfg.lateralSpeed == speed;
    assert cfg.lateralSpeed * high == speed * high;
    events, time := LostRun(cfg, low, high, PassingSpeed(low) * high, drift, speed * high, ticks);
  }

  lemma LostIsOvershot(cfg: Config, l: Loop, far: real)
    requires Lost(cfg, l, far)
    ensures Overshot(cfg, l.planner) && l.planner.route.lateral <= -far
  {
  }

  /** Whatever the rest of the configuration, a run of the loop never leaves the robot beyond the band. */
  ghost predicate NeverOvershoots(cfg: Config, low: real, high: real) {
    forall events: seq<Event>, k: nat, n: nat, time: Timing | LoopRun(cfg, events, k, n, time, low, high) ::
      !Overshot(cfg, StateAt(cfg, events, n))
  }

  ghost predicate EndsWithin(cfg: Config, low: real, high: real, bound: nat) {
    forall events: seq<Event>, k: nat, n: nat, time: Timing |
      LoopRun(cfg, events, k, n, time, low, high) && n - k >= bound ::
      Terminal(StateAt(cfg, events, n).state)
  }

  ghost predicate Ends(cfg: Config, low: real, high: real) {
    exists bound: nat :: EndsWithin(cfg, low, high, bound)
  }

  lemma RecoverableEnds(cfg: Config, low: real, high: real)
    requires Usual(cfg) && 0.0 < low <= high
    requires Recoverable(cfg.lateralSpeed, cfg.lateralShift, cfg.rejoinTolerance, low, high)
    ensures Ends(cfg, low, high)
  {
    hide Update, TickBound;
    var bound := TickBound(cfg, Timing([], low, high));
    forall events: seq<Event>, k: nat, n: nat, time: Timing |
      LoopRun(cfg, events, k, n, time, low, high) && n - k >= bound
      ensures Terminal(StateAt(cfg, events, n).state)
    {
      SameBound(cfg, time, Timing([], low, high));
      ClosedLoopTerminates(cfg, events, k, n, time);
    }
    assert EndsWithin(cfg, low, high, bound);
  }

  lemma RecoverableNeverOvershoots(cfg: Config, low: real, high: real)
    requires Usual(cfg) && 0.0 < low <= high
    requires Recoverable(cfg.lateralSpeed, cfg.lateralShift, cfg.rejoinTolerance, low, high)
    ensures NeverOvershoots(cfg, low, high)
  {
    hide Update;
    forall events: seq<Event>, k: nat, n: nat, time: Timing | LoopRun(cfg, events, k, n, time, low, high)
      ensures !Overshot(cfg, StateAt(cfg, events, n))
    {
      StaysInBand(cfg, events, k, n, time);
    }
  }

  /**
   Termination, exactly. Given the sideways speed, shift and tolerance and the shortest and the
   longest tick, every configuration with them has a bound on the ticks of its closed loop if and
   only if no step is longer than the band around the route, or all ticks are alike, or the shift
   is no longer than the tolerance.
   */
  lemma LoopEndsExactly(speed: real, shift: real, tolerance: real, low: real, high: real)
    requires speed >= 0.05 && shift >= 0.2 && tolerance >= 0.02 && 0.0 < low <= high
    ensures (forall cfg: Config | Usual(cfg) && Sideways(cfg, speed, shift, tolerance) :: Ends(cfg, low, high))
        <==> Recoverable(speed, shift, tolerance, low, high)
  {
    if Recoverable(speed, shift, tolerance, low, high) {
      forall cfg: Config | Usual(cfg) && Sideways(cfg, speed, shift, tolerance)
        ensures Ends(cfg, low, high)
      {
        RecoverableEnds(cfg, low, high);
      }
    } else {
      var cfg := DriftingRig(speed, shift, tolerance, low, high);
      hide DriftingRig, Recoverable;
      forall bound: nat
        ensures !EndsWithin(cfg, low, high, bound)
      {
        var events, time := OvershootIsReached(speed, shift, tolerance, low, high, bound);
      }
      var events, time := OvershootIsReached(speed, shift, tolerance, low, high, 0);
      assert !Ends(cfg, low, high);
    }
  }

  /** On the same condition, and on no other, no run of these configurations ever oversteps the band. */
  lemma NeverOvershootsExactly(speed: real, shift: real, tolerance: real, low: real, high: real)
    requires speed >= 0.05 && shift >= 0.2 && tolerance >= 0.02 && 0.0 < low <= high
    ensures (forall cfg: Config | Usual(cfg) && Sideways(cfg, speed, shift, tolerance) ::
               NeverOvershoots(cfg, low, high))
        <==> Recoverable(speed, shift, tolerance, low, high)
  {
    if Recoverable(speed, shift, tolerance, low, high) {
      forall cfg: Config | Usual(cfg) && Sideways(cfg, speed, shift, tolerance)
        ensures NeverOvershoots(cfg, low, high)
      {
        RecoverableNeverOvershoots(cfg, low, high);
      }
    } else {
      var cfg := DriftingRig(speed, shift, tolerance, low, high);
      hide DriftingRig, Recoverable;
      var events, time := OvershootIsReached(speed, shift, tolerance, low, high, 0);
      assert !NeverOvershoots(cfg, low, high);
    }
  }

  /** Tick `n - 1` of a run is one of those before its end, or the one that ends it. */
  predicate NotOver(cfg: Config, events: seq<Event>, k: nat, n: nat)
    requires k < n <= |events|
  {
    UsableAt(events, n - 1) && (n - 1 == k || !Terminal(StateAt(cfg, events, n - 1).state))
  }

  /** Until it ends, a run of the loop leaves the robot within `bound` of its route. */
  ghost predicate OffsetWithin(cfg: Config, low: real, high: real, bound: real) {
    forall events: seq<Event>, k: nat, n: nat, time: Timing |
      LoopRun(cfg, events, k, n, time, low, high) && NotOver(cfg, events, k, n) ::
      -bound <= StateAt(cfg, events, n).route.lateral <= bound
  }

  ghost predicate OffsetBounded(cfg: Config, low: real, high: real) {
    exists bound: real :: OffsetWithin(cfg, low, high, bound)
  }

  function PaceFor(cfg: Config, low: real, high: real): Pace {
    PaceOf(cfg, Timing([], low, high))
  }

  lemma RecoverableOffset(cfg: Config, low: real, high: real)
    requires Usual(cfg) && 0.0 < low <= high
    requires Recoverable(cfg.lateralSpeed, cfg.lateralShift, cfg.rejoinTolerance, low, high)
    ensures OffsetWithin(cfg, low, high, OffsetBound(cfg, PaceFor(cfg, low, high)))
  {
    hide Update, OffsetBound;
    forall events: seq<Event>, k: nat, n: nat, time: Timing |
      LoopRun(cfg, events, k, n, time, low, high) && NotOver(cfg, events, k, n)
      ensures -OffsetBound(cfg, PaceFor(cfg, low, high)) <= StateAt(cfg, events, n).route.lateral
           <= OffsetBound(cfg, PaceFor(cfg, low, high))
    {
      assert PaceOf(cfg, time) == PaceFor(cfg, low, high);
      OffsetStaysBounded(cfg, events, k, n - 1, time);
    }
  }

  lemma StepsExceed(bound: real, step: real) returns (ticks: nat)
    requires step > 0.0
    ensures Up(0.0, ticks + 1, step) > bound
  {
    ticks := 0;
    if bound > 0.0 {
      Positive(bound, step);
      ticks := (bound / step).Floor;
      Multiplied(ticks + 1, bound / step, step);
    }
    UpIsMultiple(ticks + 1, step);
  }

  lemma Multiplied(n: int, q: real, step: real)
    requires step > 0.0 && n as real > q
    ensures n as real * step > q * step
  {
  }

  lemma Positive(bound: real, step: real)
    requires step > 0.0 && bound > 0.0
    ensures bound / step > 0.0
  {
  }

  // The last tick of an overshooting run is not its end.
  lemma OvershotIsNotOver(cfg: Config, events: seq<Event>, time: Timing, low: real, high: real)
    requires Usual(cfg) && LoopRun(cfg, events, 0, |events|, time, low, high) && |events| > 1
    requires Overshot(cfg, StateAt(cfg, events, |events|)) && UsableAt(events, |events| - 1)
    ensures NotOver(cfg, events, 0, |events|)
  {
    hide Update;
    StartedAfterFirst(cfg, events, 0, |events| - 1);
    if Terminal(StateAt(cfg, events, |events| - 1).state) {
      TerminalForever(cfg, events, |events| - 1, |events|);
    }
  }

  /**
   And on the same condition, and on no other, is the robot's distance from its route bounded, by
   `OffsetBound`: beyond it there is no bound at all.
   */
  lemma OffsetBoundedExactly(speed: real, shift: real, tolerance: real, low: real, high: real)
    requires speed >= 0.05 && shift >= 0.2 && tolerance >= 0.02 && 0.0 < low <= high
    ensures (forall cfg: Config | Usual(cfg) && Sideways(cfg, speed, shift, tolerance) :: OffsetBounded(cfg, low, high))
        <==> Recoverable(speed, shift, tolerance, low, high)
    ensures Recoverable(speed, shift, tolerance, low, high) ==>
              forall cfg: Config | Usual(cfg) && Sideways(cfg, speed, shift, tolerance) ::
                OffsetWithin(cfg, low, high, OffsetBound(cfg, PaceFor(cfg, low, high)))
  {
    if Recoverable(speed, shift, tolerance, low, high) {
      forall cfg: Config | Usual(cfg) && Sideways(cfg, speed, shift, tolerance)
        ensures OffsetWithin(cfg, low, high, OffsetBound(cfg, PaceFor(cfg, low, high)))
        ensures OffsetBounded(cfg, low, high)
      {
        RecoverableOffset(cfg, low, high);
      }
    } else {
      var cfg := DriftingRig(speed, shift, tolerance, low, high);
      Scaled(speed, 0.0, high, high);
      assert speed * high > 0.0;
      hide DriftingRig, Recoverable, Up, Overshot;
      forall bound: real
        ensures !OffsetWithin(cfg, low, high, bound)
      {
        var ticks := StepsExceed(bound, speed * high);
        var events, time := OvershootIsReached(speed, shift, tolerance, low, high, ticks);
        OvershotIsNotOver(cfg, events, time, low, high);
      }
      var events, time := OvershootIsReached(speed, shift, tolerance, low, high, 0);
      assert !OffsetBounded(cfg, low, high);
    }
  }
}
