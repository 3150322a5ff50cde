/**
 The motion stall watchdog: how long the planner can keep commanding motion without odometry
 progress, told from the sensor samples and commands alone.
 */
module PlannerWatchdog {
  import opened PlannerModel
  import opened PlannerRuns
  import opened PlannerSafety

  /** The last call before `n` commanded motion. */
  predicate CommandMoving(cfg: Config, events: seq<Event>, n: nat)
    requires n <= |events|
  {
    n > 0 && Moving(cfg, events, n - 1)
  }

  /**
   The last usable tick before `n` that followed a stop, or found the robot at least the progress
   epsilon away from where the previous such tick found it; -1 if there is none.
   */
  function LastRestart(cfg: Config, events: seq<Event>, n: nat): (r: int)
    requires n <= |events|
    ensures -1 <= r < n
    ensures r >= 0 ==> UsableAt(events, r)
  {
    if n == 0 then -1 else
    var r := LastRestart(cfg, events, n - 1);
    if UsableAt(events, n - 1)
       && (r < 0
           || !CommandMoving(cfg, events, n - 1)
           || AtLeast(Displacement(SampleAt(events, r).at, SampleAt(events, n - 1).at),
                      cfg.motionProgressEpsilon))
    then n - 1 else r
  }

  lemma {:induction false} DecisionKeepsAnchor(cfg: Config, p: Planner, s: Sample)
    ensures Decide(cfg, p, s).next.watch.anchor == p.watch.anchor
    ensures Decide(cfg, p, s).next.watch.lastProgress == p.watch.lastProgress
    decreases FallsLeft(p.state)
  {
    match Act(cfg, p, s)
    case End(_) =>
    case FallTo(q) => DecisionKeepsAnchor(cfg, q, s);
  }

  /** What one call does to the watchdog's anchor and clock. */
  lemma WatchStep(cfg: Config, p: Planner, e: Event)
    requires Usual(cfg) && Valid(cfg, p)
    ensures var q := After(cfg, p, e);
            if e.Sense? && Usable(e.input)
               && (!p.initialized || !p.watch.moving || Progressed(cfg, p.watch, Sampled(e.input)))
            then q.watch.anchor == Sampled(e.input).at && q.watch.lastProgress == Sampled(e.input).now
            else q.watch.anchor == p.watch.anchor && q.watch.lastProgress == p.watch.lastProgress
    ensures e.Failure? ==> !After(cfg, p, e).watch.moving
  {
    if e.Sense? && Reaches(cfg, p, e.input) {
      DecisionKeepsAnchor(cfg, Handed(cfg, p, e.input), Sampled(e.input));
    }
  }

  /** The planner's watchdog fields say exactly what the samples and commands say. */
  lemma {:induction false} WatchdogMirrorsRun(cfg: Config, events: seq<Event>, n: nat)
    requires Usual(cfg) && n <= |events|
    ensures StateAt(cfg, events, n).watch.moving <==> CommandMoving(cfg, events, n)
    ensures StateAt(cfg, events, n).initialized <==> LastRestart(cfg, events, n) >= 0
    ensures var p, r := StateAt(cfg, events, n), LastRestart(cfg, events, n);
            r >= 0 ==>
              p.watch.anchor == SampleAt(events, r).at && p.watch.lastProgress == SampleAt(events, r).now
  {
    hide Update;
    if n > 0 {
      var p := StateAt(cfg, events, n - 1);
      WatchdogMirrorsRun(cfg, events, n - 1);
      AlwaysValid(cfg, events, n - 1);
      WatchStep(cfg, p, events[n - 1]);
      EventKeepsValid(cfg, p, events[n - 1]);
      RouteStep(cfg, p, events[n - 1]);
      if events[n - 1].Sense? {
        TerminalFlag(cfg, p, events[n - 1].input);
      }
    }
  }

  lemma MovingIsNotStalled(cfg: Config, p: Planner, input: PlannerInput)
    requires Usual(cfg) && Valid(cfg, p)
    requires !Update(cfg, p, input).out.terminal && Usable(input)
    ensures var w := Update(cfg, p, input).next.watch;
            w.lastProgress == Sampled(input).now || Sampled(input).now - w.lastProgress < cfg.motionStallTimeout
  {
    WatchStep(cfg, p, Sense(input));
  }

  /**
   Every tick that commands motion comes less than the stall timeout after the last tick that
   followed a stop or showed odometry progress.
   */
  lemma StallWatchdog(cfg: Config, events: seq<Event>, i: nat)
    requires Usual(cfg) && i < |events| && Moving(cfg, events, i)
    ensures UsableAt(events, i) && LastRestart(cfg, events, i + 1) >= 0
    ensures SampleAt(events, i).now - SampleAt(events, LastRestart(cfg, events, i + 1)).now
          < cfg.motionStallTimeout
  {
    hide Update;
    var p := StateAt(cfg, events, i);
    AlwaysValid(cfg, events, i);
    CommandSafety(cfg, p, events[i].input);
    TerminalFlag(cfg, p, events[i].input);
    MovingIsNotStalled(cfg, p, events[i].input);
    WatchdogMirrorsRun(cfg, events, i + 1);
    EventKeepsValid(cfg, p, events[i]);
  }

  // ----- a robot that does not move -----

  /** From the call `k` on, up to `n`, every sample is good, shows the robot at `at`, and comes within `gap`. */
  ghost predicate Frozen(events: seq<Event>, k: nat, n: nat, at: Vec, gap: real) {
    && k <= n <= |events|
    && (forall i | k <= i < n :: UsableAt(events, i) && SampleAt(events, i).at == at)
    && (forall i | k < i < n ::
          SampleAt(events, i - 1).now <= SampleAt(events, i).now <= SampleAt(events, i - 1).now + gap)
  }

  /** States from which a robot that does not move cannot get back to Forward. */
  predicate Cornered(p: Planner) {
    || p.state.Evaluate?
    || p.state.ShiftOut?
    || (p.state.PassObstacle? && p.bypass.start == p.route.forward)
    || (p.state.ShiftBack? && p.bypass.completeAfterRejoin)
  }

  lemma {:induction false} DecisionInACorner(cfg: Config, p: Planner, s: Sample)
    requires Usual(cfg) && Valid(cfg, p) && p.initialized && Cornered(p)
    ensures var q := Decide(cfg, p, s).next;
            Terminal(q.state) || (Cornered(q) && !q.state.Evaluate? && q.watch.moving)
    decreases FallsLeft(p.state)
  {
    ActKeepsValid(cfg, p, s);
    match Act(cfg, p, s)
    case End(_) =>
    case FallTo(q) => DecisionInACorner(cfg, q, s);
  }

  lemma {:induction false} DecisionMovesOrStops(cfg: Config, p: Planner, s: Sample)
    requires Usual(cfg) && Valid(cfg, p) && p.initialized
    ensures var q := Decide(cfg, p, s).next;
            Terminal(q.state) || (q.state.Evaluate? && !q.watch.moving) || q.watch.moving
    decreases FallsLeft(p.state)
  {
    ActKeepsValid(cfg, p, s);
    match Act(cfg, p, s)
    case End(_) =>
    case FallTo(q) => DecisionMovesOrStops(cfg, q, s);
  }

  /** A planner that has seen the robot at `at`, without progress since its anchor. */
  ghost predicate Pinned(cfg: Config, p: Planner, at: Vec) {
    && p.initialized && !Terminal(p.state)
    && (p.watch.moving || p.state.Evaluate?)
    && Located(p.route, at) == p.route
    && !AtLeast(Displacement(p.watch.anchor, at), cfg.motionProgressEpsilon)
  }

  lemma PositiveSquare(v: real)
    requires v > 0.0
    ensures Square(v) > 0.0
  {
    calc {
      Square(v);
      v * v;
    > { assert v * v > 0.0; }
      0.0;
    }
  }

  lemma ZeroIsShort(bound: real)
    requires bound > 0.0
    ensures !AtLeast(Vec(0.0, 0.0), bound)
  {
    hide Square;
    PositiveSquare(bound);
    NoSquare();
  }

  lemma NoSquare()
    ensures Square(0.0) == 0.0
  {
  }

  lemma StandingStill(cfg: Config, at: Vec)
    requires cfg.motionProgressEpsilon > 0.0
    ensures !AtLeast(Displacement(at, at), cfg.motionProgressEpsilon)
  {
    hide AtLeast;
    ZeroIsShort(cfg.motionProgressEpsilon);
    assert Displacement(at, at) == Vec(0.0, 0.0);
  }

  lemma FirstPinnedTick(cfg: Config, p: Planner, input: PlannerInput)
    requires Usual(cfg) && cfg.motionProgressEpsilon > 0.0
    requires Valid(cfg, p) && p.initialized && Usable(input)
    requires !Terminal(Update(cfg, p, input).next.state)
    ensures var q := Update(cfg, p, input).next;
            && Pinned(cfg, q, Sampled(input).at)
            && (q.watch.lastProgress == p.watch.lastProgress || q.watch.lastProgress == Sampled(input).now)
  {
    hide Along, Across, AtLeast, Decide;
    var s := Sampled(input);
    EventKeepsValid(cfg, p, Sense(input));
    var r := Handed(cfg, p, input);
    DecisionMovesOrStops(cfg, r, s);
    DecisionKeepsRoute(cfg, r, s);
    DecisionKeepsAnchor(cfg, r, s);
    StandingStill(cfg, s.at);
    LocatedTwice(p.route, s.at);
  }

  lemma LocatedTwice(route: Route, at: Vec)
    ensures Located(Located(route, at), at) == Located(route, at)
  {
  }

  // A pinned planner that commands motion: the watchdog is counting from its last progress.
  lemma PinnedTick(cfg: Config, p: Planner, input: PlannerInput)
    requires Usual(cfg) && Valid(cfg, p) && Usable(input)
    requires Pinned(cfg, p, Sampled(input).at) && p.watch.moving
    requires !Terminal(Update(cfg, p, input).next.state)
    ensures var q := Update(cfg, p, input).next;
            && Pinned(cfg, q, Sampled(input).at)
            && q.watch.lastProgress == p.watch.lastProgress
            && Sampled(input).now - p.watch.lastProgress < cfg.motionStallTimeout
            && (Cornered(p) ==> Cornered(q) && !q.state.Evaluate?)
  {
    hide Along, Across, AtLeast, Decide;
    var s := Sampled(input);
    EventKeepsValid(cfg, p, Sense(input));
    var r := Handed(cfg, p, input);
    assert r == p;
    DecisionMovesOrStops(cfg, r, s);
    DecisionKeepsRoute(cfg, r, s);
    DecisionKeepsAnchor(cfg, r, s);
    if Cornered(p) {
      DecisionInACorner(cfg, r, s);
    }
  }

  // A pinned planner that has stopped to evaluate: the watchdog starts again, for the last time.
  lemma EvaluatingTick(cfg: Config, p: Planner, input: PlannerInput)
    requires Usual(cfg) && cfg.motionProgressEpsilon > 0.0
    requires Valid(cfg, p) && Usable(input)
    requires Pinned(cfg, p, Sampled(input).at) && !p.watch.moving
    requires !Terminal(Update(cfg, p, input).next.state)
    ensures var q := Update(cfg, p, input).next;
            && Pinned(cfg, q, Sampled(input).at)
            && q.watch.lastProgress == Sampled(input).now
            && Cornered(q) && !q.state.Evaluate?
  {
    hide Along, Across, AtLeast, Decide;
    var s := Sampled(input);
    EventKeepsValid(cfg, p, Sense(input));
    var r := Handed(cfg, p, input);
    DecisionInACorner(cfg, r, s);
    DecisionKeepsRoute(cfg, r, s);
    DecisionKeepsAnchor(cfg, r, s);
    StandingStill(cfg, s.at);
  }

  /** How far a frozen run that has not ended can have come, `elapsed` after its first sample. */
  ghost predicate FrozenSoFar(cfg: Config, p: Planner, at: Vec, gap: real, start: real, now: real) {
    && Pinned(cfg, p, at)
    && (|| (p.watch.lastProgress <= start && now - start < cfg.motionStallTimeout)
        || (&& Cornered(p) && !p.state.Evaluate?
            && p.watch.lastProgress < start + cfg.motionStallTimeout + gap
            && now - p.watch.lastProgress < cfg.motionStallTimeout))
  }

  lemma FrozenStep(cfg: Config, p: Planner, input: PlannerInput, gap: real, start: real, before: real)
    requires Usual(cfg) && cfg.motionProgressEpsilon > 0.0 && Valid(cfg, p) && Usable(input)
    requires FrozenSoFar(cfg, p, Sampled(input).at, gap, start, before)
    requires start <= before <= Sampled(input).now <= before + gap
    requires !Terminal(Update(cfg, p, input).next.state)
    ensures FrozenSoFar(cfg, Update(cfg, p, input).next, Sampled(input).at, gap, start, Sampled(input).now)
  {
    hide Update;
    if p.watch.moving {
      PinnedTick(cfg, p, input);
    } else {
      EvaluatingTick(cfg, p, input);
    }
  }

  lemma {:induction false} FrozenRun(cfg: Config, events: seq<Event>, k: nat, n: nat, at: Vec, gap: real)
    requires Usual(cfg) && cfg.motionProgressEpsilon > 0.0
    requires k < n && Frozen(events, k, n, at, gap)
    requires StateAt(cfg, events, k).initialized
    requires StateAt(cfg, events, k).watch.lastProgress <= SampleAt(events, k).now
    requires !Terminal(StateAt(cfg, events, n).state)
    ensures SampleAt(events, k).now <= SampleAt(events, n - 1).now
    ensures FrozenSoFar(cfg, StateAt(cfg, events, n), at, gap, SampleAt(events, k).now,
                        SampleAt(events, n - 1).now)
    decreases n
  {
    hide Update;
    var p := StateAt(cfg, events, n - 1);
    AlwaysValid(cfg, events, n - 1);
    if n == k + 1 {
      FirstPinnedTick(cfg, p, events[k].input);
    } else {
      StillGoing(cfg, events, k, n - 1);
      FrozenRun(cfg, events, k, n - 1, at, gap);
      assert UsableAt(events, n - 1) && SampleAt(events, n - 1).at == at;
      FrozenStep(cfg, p, events[n - 1].input, gap, SampleAt(events, k).now, SampleAt(events, n - 2).now);
    }
  }

  // A run that has not ended after one more call had not ended before it.
  lemma StillGoing(cfg: Config, events: seq<Event>, k: nat, m: nat)
    requires Usual(cfg) && k <= m < |events|
    requires StateAt(cfg, events, k).initialized
    requires !Terminal(StateAt(cfg, events, m + 1).state)
    ensures !Terminal(StateAt(cfg, events, m).state)
  {
    hide Update;
    StaysStarted(cfg, events, k, m);
    if Terminal(StateAt(cfg, events, m).state) {
      TerminalStep(cfg, StateAt(cfg, events, m), events[m]);
    }
  }

  lemma {:induction false} StaysStarted(cfg: Config, events: seq<Event>, k: nat, m: nat)
    requires Usual(cfg) && k <= m <= |events|
    requires StateAt(cfg, events, k).initialized
    ensures StateAt(cfg, events, m).initialized
  {
    hide Update;
    if k < m {
      StaysStarted(cfg, events, k, m - 1);
      AlwaysValid(cfg, events, m - 1);
      EventKeepsValid(cfg, StateAt(cfg, events, m - 1), events[m - 1]);
    }
  }

  ghost predicate MonotoneClock(events: seq<Event>) {
    forall i, j | 0 <= i <= j < |events| && UsableAt(events, i) && UsableAt(events, j) ::
      SampleAt(events, i).now <= SampleAt(events, j).now
  }

  /**
   A robot whose pose is frozen from call `k` on is stopped for good, whatever the ranges: while
   the planner has not ended, less than two stall timeouts and one sample gap have passed.
   */
  lemma FrozenRobotIsStopped(cfg: Config, events: seq<Event>, k: nat, n: nat, at: Vec, gap: real)
    requires Usual(cfg) && cfg.motionProgressEpsilon > 0.0
    requires MonotoneClock(events)
    requires k < n && Frozen(events, k, n, at, gap) && gap >= 0.0
    requires StateAt(cfg, events, k).initialized
    requires SampleAt(events, n - 1).now - SampleAt(events, k).now >= 2.0 * cfg.motionStallTimeout + gap
    ensures Terminal(StateAt(cfg, events, n).state)
  {
    hide Update;
    if !Terminal(StateAt(cfg, events, n).state) {
      WatchdogMirrorsRun(cfg, events, k);
      FrozenRun(cfg, events, k, n, at, gap);
    }
  }

  // While no tick stops to evaluate, the watchdog counts from before the robot froze.
  lemma {:induction false} FrozenWithoutEvaluating(cfg: Config, events: seq<Event>, k: nat, n: nat, at: Vec, gap: real)
    requires Usual(cfg) && cfg.motionProgressEpsilon > 0.0
    requires k < n && Frozen(events, k, n, at, gap)
    requires StateAt(cfg, events, k).initialized
    requires StateAt(cfg, events, k).watch.lastProgress <= SampleAt(events, k).now
    requires forall m | k < m < n :: !StateAt(cfg, events, m).state.Evaluate?
    requires !Terminal(StateAt(cfg, events, n).state)
    ensures Pinned(cfg, StateAt(cfg, events, n), at)
    ensures StateAt(cfg, events, n).watch.lastProgress <= SampleAt(events, k).now <= SampleAt(events, n - 1).now
    ensures SampleAt(events, n - 1).now - SampleAt(events, k).now < cfg.motionStallTimeout
    decreases n
  {
    hide Update, Pinned;
    var p := StateAt(cfg, events, n - 1);
    AlwaysValid(cfg, events, n - 1);
    assert UsableAt(events, n - 1) && SampleAt(events, n - 1).at == at;
    if n == k + 1 {
      FirstPinnedTick(cfg, p, events[k].input);
    } else {
      StillGoing(cfg, events, k, n - 1);
      FrozenWithoutEvaluating(cfg, events, k, n - 1, at, gap);
      PinnedMoves(cfg, p, at);
      PinnedTick(cfg, p, events[n - 1].input);
    }
  }

  lemma PinnedMoves(cfg: Config, p: Planner, at: Vec)
    requires Pinned(cfg, p, at) && !p.state.Evaluate?
    ensures p.watch.moving
  {
    hide Located, AtLeast;
  }

  /** A frozen robot that does not stop to evaluate is stopped by the first tick past one stall timeout. */
  lemma FrozenRobotIsStoppedAtOnce(cfg: Config, events: seq<Event>, k: nat, n: nat, at: Vec, gap: real)
    requires Usual(cfg) && cfg.motionProgressEpsilon > 0.0
    requires MonotoneClock(events)
    requires k < n && Frozen(events, k, n, at, gap)
    requires StateAt(cfg, events, k).initialized
    requires forall m | k < m < n :: !StateAt(cfg, events, m).state.Evaluate?
    requires SampleAt(events, n - 1).now - SampleAt(events, k).now >= cfg.motionStallTimeout
    ensures Terminal(StateAt(cfg, events, n).state)
  {
    hide Update;
    if !Terminal(StateAt(cfg, events, n).state) {
      WatchdogMirrorsRun(cfg, events, k);
      FrozenWithoutEvaluating(cfg, events, k, n, at, gap);
    }
  }
}
