/**
 What the planner's commands mean for the robot, over whole runs: no move toward a side that is
 too close, a bounded number of ticks toward an obstacle, and no completion short of the target.
 */
module PlannerSafety {
  import opened PlannerModel
  import opened PlannerRuns

  // ----- single commands -----

  /** The command of a tick from state `from` respects the ranges of the sample it was decided on. */
  ghost predicate Safe(cfg: Config, s: Sample, from: NavigationState, count: nat, t: Tick) {
    && t.out.yawRate == 0.0
    && (t.out.vx == 0.0 || (t.out.vx == cfg.forwardSpeed && t.out.vy == 0.0))
    && (t.out.vy == 0.0 || t.out.vy == cfg.lateralSpeed || t.out.vy == -cfg.lateralSpeed)
    && (t.out.vy > 0.0 ==> s.left >= cfg.sideStopDistance)
    && (t.out.vy < 0.0 ==> s.right >= cfg.sideStopDistance)
    && (t.out.vx > 0.0 && s.front <= cfg.stopDistance ==>
          from.Forward? && t.next.state.Forward? && t.next.blockedCount == count + 1)
  }

  lemma {:induction false} DecisionIsSafe(cfg: Config, p: Planner, s: Sample)
    requires Usual(cfg) && Valid(cfg, p) && p.initialized
    ensures Safe(cfg, s, p.state, p.blockedCount, Decide(cfg, p, s))
    decreases FallsLeft(p.state)
  {
    ActKeepsValid(cfg, p, s);
    match Act(cfg, p, s)
    case End(_) =>
    case FallTo(q) => DecisionIsSafe(cfg, q, s);
  }

  /** The command of tick `i` moves the robot. */
  predicate Moving(cfg: Config, events: seq<Event>, i: nat)
    requires i < |events|
  {
    events[i].Sense? && !TickAt(cfg, events, i).out.stop
  }

  /**
   A tick moves the robot only on a fresh, valid sample; it never turns it; it moves along one
   axis at the configured speed; a sideways move is toward a side with at least the side stop
   distance; and only Forward ever advances with the front range at the stop distance or closer.
   */
  lemma CommandSafety(cfg: Config, p: Planner, input: PlannerInput)
    requires Usual(cfg) && Valid(cfg, p)
    ensures var t := Update(cfg, p, input);
            if Usable(input)
            then Safe(cfg, Sampled(input), if p.initialized then p.state else Forward, p.blockedCount, t)
            else t.out.stop && t.out.vx == 0.0 && t.out.vy == 0.0 && t.out.yawRate == 0.0
  {
    if Reaches(cfg, p, input) {
      DecisionIsSafe(cfg, Handed(cfg, p, input), Sampled(input));
    }
  }

  // ----- obstacle debounce -----

  /** Tick `i` advances although the front range is at the stop distance or closer. */
  predicate CloseAdvance(cfg: Config, events: seq<Event>, i: nat)
    requires i < |events|
  {
    && UsableAt(events, i)
    && TickAt(cfg, events, i).out.vx > 0.0
    && SampleAt(events, i).front <= cfg.stopDistance
  }

  lemma CloseAdvanceCounts(cfg: Config, events: seq<Event>, i: nat)
    requires Usual(cfg) && i < |events| && CloseAdvance(cfg, events, i)
    ensures StateAt(cfg, events, i + 1).blockedCount == StateAt(cfg, events, i).blockedCount + 1
    ensures StateAt(cfg, events, i + 1).state.Forward?
    ensures StateAt(cfg, events, i).initialized ==> StateAt(cfg, events, i).state.Forward?
  {
    hide Update;
    AlwaysValid(cfg, events, i);
    CommandSafety(cfg, StateAt(cfg, events, i), events[i].input);
  }

  lemma {:induction false} CloseAdvancesAreCounted(cfg: Config, events: seq<Event>, i: nat, n: nat)
    requires Usual(cfg) && i <= n <= |events|
    requires forall k | i <= k < n :: CloseAdvance(cfg, events, k)
    ensures StateAt(cfg, events, n).blockedCount >= n - i
  {
    hide Update;
    if i < n {
      CloseAdvancesAreCounted(cfg, events, i, n - 1);
      CloseAdvanceCounts(cfg, events, n - 1);
    }
  }

  /** In every run, fewer than `blockedFrames` ticks in a row advance toward a close obstacle. */
  lemma ObstacleDebounce(cfg: Config, events: seq<Event>, i: nat, n: nat)
    requires Usual(cfg) && i <= n <= |events|
    requires forall k | i <= k < n :: CloseAdvance(cfg, events, k)
    ensures n - i < cfg.blockedFrames
  {
    hide Update;
    CloseAdvancesAreCounted(cfg, events, i, n);
    AlwaysValid(cfg, events, n);
  }

  // ----- leaving PassObstacle -----

  /** What PassObstacle remembers: where it was entered, and for how many frames the front was clear. */
  lemma {:induction false} PassActs(cfg: Config, p: Planner, s: Sample)
    requires Usual(cfg) && Valid(cfg, p) && p.initialized
    ensures var t := Decide(cfg, p, s);
            t.next.state.PassObstacle? ==>
              && t.next.bypass.clearCount
                   == (if s.front >= cfg.resumeDistance
                       then (if p.state.PassObstacle? then p.bypass.clearCount else 0) + 1 else 0)
              && t.next.bypass.start == (if p.state.PassObstacle? then p.bypass.start else p.route.forward)
              && t.next.route == p.route
              && (p.state.PassObstacle? <==> PassObstacle !in t.path)
    ensures var t := Decide(cfg, p, s);
            p.state.PassObstacle? && ShiftBack in t.path && p.route.forward < cfg.targetDistance ==>
              && s.front >= cfg.resumeDistance
              && p.bypass.clearCount + 1 >= cfg.clearFrames
              && p.route.forward - p.bypass.start >= cfg.bypassForwardDistance
    decreases FallsLeft(p.state)
  {
    ActKeepsValid(cfg, p, s);
    match Act(cfg, p, s)
    case End(_) =>
    case FallTo(q) => PassActs(cfg, q, s);
  }

  lemma PassStep(cfg: Config, p: Planner, e: Event)
    requires Usual(cfg) && Valid(cfg, p)
    requires After(cfg, p, e).state.PassObstacle?
    ensures e.Sense? && Usable(e.input)
    ensures var q, front := After(cfg, p, e), Sampled(e.input).front;
            && q.bypass.clearCount
                 == (if front >= cfg.resumeDistance
                     then (if p.state.PassObstacle? then p.bypass.clearCount else 0) + 1 else 0)
            && q.bypass.start == (if p.state.PassObstacle? then p.bypass.start else q.route.forward)
            && (p.state.PassObstacle? <==> PassObstacle !in Update(cfg, p, e.input).path)
  {
    if e.Sense? && Reaches(cfg, p, e.input) {
      PassActs(cfg, Handed(cfg, p, e.input), Sampled(e.input));
    }
  }

  /**
   A planner in PassObstacle entered it at some tick `k`, whose progress it remembers, and the
   frames it has counted as clear are the last ones, all since then.
   */
  lemma {:induction false} PassHistory(cfg: Config, events: seq<Event>, n: nat) returns (k: nat)
    requires Usual(cfg) && n <= |events|
    requires StateAt(cfg, events, n).state.PassObstacle?
    ensures k < n && UsableAt(events, k) && PassObstacle in TickAt(cfg, events, k).path
    ensures StateAt(cfg, events, n).bypass.start == StateAt(cfg, events, k + 1).route.forward
    ensures StateAt(cfg, events, n).bypass.clearCount <= n - k
    ensures forall m | n - StateAt(cfg, events, n).bypass.clearCount <= m < n ::
              UsableAt(events, m) && SampleAt(events, m).front >= cfg.resumeDistance
  {
    hide Update;
    var p := StateAt(cfg, events, n - 1);
    AlwaysValid(cfg, events, n - 1);
    PassStep(cfg, p, events[n - 1]);
    if p.state.PassObstacle? {
      k := PassHistory(cfg, events, n - 1);
    } else {
      k := n - 1;
    }
  }

  /** Short of the target no tick passes through PassObstacle: what has just been entered is not left at once. */
  lemma {:induction false} PassTakesATick(cfg: Config, p: Planner, s: Sample)
    requires Usual(cfg) && Valid(cfg, p) && p.initialized
    requires p.route.forward < cfg.targetDistance && ShiftBack in Decide(cfg, p, s).path
    ensures p.state.PassObstacle?
    decreases FallsLeft(p.state)
  {
    ActKeepsValid(cfg, p, s);
    match Act(cfg, p, s)
    case End(_) =>
    case FallTo(q) =>
      if !p.state.PassObstacle? {
        PassTakesATick(cfg, q, s);
      }
  }

  lemma PassExitFrom(cfg: Config, p: Planner, input: PlannerInput)
    requires Usual(cfg) && Valid(cfg, p) && ShiftBack in Update(cfg, p, input).path
    requires Update(cfg, p, input).next.route.forward < cfg.targetDistance
    ensures p.state.PassObstacle?
  {
    if Reaches(cfg, p, input) {
      DecisionKeepsRoute(cfg, Handed(cfg, p, input), Sampled(input));
      PassTakesATick(cfg, Handed(cfg, p, input), Sampled(input));
    }
  }

  lemma PassExitStep(cfg: Config, p: Planner, input: PlannerInput)
    requires Usual(cfg) && Valid(cfg, p)
    requires p.state.PassObstacle? && ShiftBack in Update(cfg, p, input).path
    requires Update(cfg, p, input).next.route.forward < cfg.targetDistance
    ensures Usable(input) && Sampled(input).front >= cfg.resumeDistance
    ensures p.bypass.clearCount + 1 >= cfg.clearFrames
    ensures Update(cfg, p, input).next.route.forward - p.bypass.start >= cfg.bypassForwardDistance
  {
    if Reaches(cfg, p, input) {
      PassActs(cfg, Handed(cfg, p, input), Sampled(input));
      DecisionKeepsRoute(cfg, Handed(cfg, p, input), Sampled(input));
    }
  }

  /**
   Short of the target, PassObstacle turns back to the route only after `clearFrames` clear
   frames in a row, the last one now, and only once the robot has advanced by the bypass
   distance since the tick `k` that reached the lateral clearance.
   */
  lemma PassExit(cfg: Config, events: seq<Event>, i: nat) returns (k: nat)
    requires Usual(cfg) && i < |events| && events[i].Sense?
    requires ShiftBack in TickAt(cfg, events, i).path
    requires StateAt(cfg, events, i + 1).route.forward < cfg.targetDistance
    ensures StateAt(cfg, events, i).state.PassObstacle?
    ensures k < i && UsableAt(events, k) && PassObstacle in TickAt(cfg, events, k).path
    ensures StateAt(cfg, events, i + 1).route.forward - StateAt(cfg, events, k + 1).route.forward
         >= cfg.bypassForwardDistance
    ensures k + cfg.clearFrames <= i + 1
    ensures forall m | i + 1 - cfg.clearFrames <= m <= i ::
              UsableAt(events, m) && SampleAt(events, m).front >= cfg.resumeDistance
  {
    hide Update;
    AlwaysValid(cfg, events, i);
    PassExitFrom(cfg, StateAt(cfg, events, i), events[i].input);
    PassExitStep(cfg, StateAt(cfg, events, i), events[i].input);
    k := PassHistory(cfg, events, i);
  }

  // ----- the route and its end -----

  lemma {:induction false} DecisionKeepsRoute(cfg: Config, p: Planner, s: Sample)
    ensures Decide(cfg, p, s).next.route == p.route
    decreases FallsLeft(p.state)
  {
    match Act(cfg, p, s)
    case End(_) =>
    case FallTo(q) => DecisionKeepsRoute(cfg, q, s);
  }

  /** A usable tick locates the robot on a route whose origin and heading never change again. */
  lemma RouteStep(cfg: Config, p: Planner, e: Event)
    ensures e.Sense? && Usable(e.input) ==>
              var s := Sampled(e.input);
              After(cfg, p, e).route == Located(if p.initialized then p.route else Started(p, s).route, s.at)
    ensures !(e.Sense? && Usable(e.input)) ==>
              After(cfg, p, e).route == p.route && After(cfg, p, e).initialized == p.initialized
  {
    if e.Sense? && Reaches(cfg, p, e.input) {
      DecisionKeepsRoute(cfg, Handed(cfg, p, e.input), Sampled(e.input));
    }
  }

  predicate FirstUsable(events: seq<Event>, o: nat)
    requires o < |events|
  {
    UsableAt(events, o) && forall m | 0 <= m < o :: !UsableAt(events, m)
  }

  lemma {:induction false} UnstartedSawNothing(cfg: Config, events: seq<Event>, n: nat)
    requires Usual(cfg) && n <= |events|
    requires !StateAt(cfg, events, n).initialized
    ensures forall m | 0 <= m < n :: !UsableAt(events, m)
  {
    hide Update;
    if n > 0 {
      AlwaysValid(cfg, events, n - 1);
      EventKeepsValid(cfg, StateAt(cfg, events, n - 1), events[n - 1]);
      UnstartedSawNothing(cfg, events, n - 1);
    }
  }

  /** The route starts at the first usable sample: its position is the origin, its yaw the heading. */
  lemma {:induction false} OriginIsFirstFix(cfg: Config, events: seq<Event>, n: nat) returns (o: nat)
    requires Usual(cfg) && n <= |events|
    requires StateAt(cfg, events, n).initialized
    ensures o < n && FirstUsable(events, o)
    ensures StateAt(cfg, events, n).route.origin == SampleAt(events, o).at
    ensures StateAt(cfg, events, n).route.heading == SampleAt(events, o).heading
  {
    hide Update;
    var p := StateAt(cfg, events, n - 1);
    RouteStep(cfg, p, events[n - 1]);
    if p.initialized {
      o := OriginIsFirstFix(cfg, events, n - 1);
    } else {
      o := n - 1;
      UnstartedSawNothing(cfg, events, n - 1);
    }
  }

  /** The route transform is an isometry. */
  lemma Isometry(h: Heading, d: Vec)
    requires IsUnit(h)
    ensures Square(Along(h, d)) + Square(Across(h, d)) == SquaredLength(d)
  {
    var c, s := h.cos, h.sin;
    calc {
      Square(Along(h, d)) + Square(Across(h, d));
      (d.x * c + d.y * s) * (d.x * c + d.y * s) + (-d.x * s + d.y * c) * (-d.x * s + d.y * c);
      (d.x * d.x) * (c * c) + (d.y * d.y) * (s * s) + (d.x * d.x) * (s * s) + (d.y * d.y) * (c * c);
      (d.x * d.x) * (c * c + s * s) + (d.y * d.y) * (c * c + s * s);
      SquaredLength(d);
    }
  }

  lemma {:induction false} DecisionCompletes(cfg: Config, p: Planner, s: Sample)
    requires Usual(cfg) && Valid(cfg, p) && p.initialized
    ensures var q := Decide(cfg, p, s).next;
            && (q.state.Complete? && !p.state.Complete? ==>
                  p.route.forward >= cfg.targetDistance || p.bypass.completeAfterRejoin)
            && (q.state.Complete? && !p.state.Forward? && !p.state.Complete? ==> OnRoute(cfg, p.route.lateral))
            && (q.bypass.completeAfterRejoin ==>
                  p.bypass.completeAfterRejoin || p.route.forward >= cfg.targetDistance)
    decreases FallsLeft(p.state)
  {
    ActKeepsValid(cfg, p, s);
    match Act(cfg, p, s)
    case End(_) =>
    case FallTo(q) => DecisionCompletes(cfg, q, s);
  }

  /** The run's target has been seen: the planner is Complete or will be after rejoining. */
  predicate Arrived(p: Planner) {
    p.state.Complete? || p.bypass.completeAfterRejoin
  }

  lemma ArrivalStep(cfg: Config, p: Planner, e: Event)
    requires Usual(cfg) && Valid(cfg, p)
    requires Arrived(After(cfg, p, e)) && !Arrived(p)
    ensures e.Sense? && Usable(e.input) && After(cfg, p, e).route.forward >= cfg.targetDistance
  {
    if e.Sense? && Reaches(cfg, p, e.input) {
      DecisionCompletes(cfg, Handed(cfg, p, e.input), Sampled(e.input));
      DecisionKeepsRoute(cfg, Handed(cfg, p, e.input), Sampled(e.input));
    }
  }

  lemma {:induction false} ArrivalSeen(cfg: Config, events: seq<Event>, n: nat) returns (j: nat)
    requires Usual(cfg) && n <= |events|
    requires Arrived(StateAt(cfg, events, n))
    ensures j < n && UsableAt(events, j)
    ensures StateAt(cfg, events, j + 1).route.forward >= cfg.targetDistance
  {
    hide Update;
    AlwaysValid(cfg, events, n - 1);
    if Arrived(StateAt(cfg, events, n - 1)) {
      j := ArrivalSeen(cfg, events, n - 1);
    } else {
      ArrivalStep(cfg, StateAt(cfg, events, n - 1), events[n - 1]);
      j := n - 1;
    }
  }

  ghost predicate UnitYaws(events: seq<Event>) {
    forall i | 0 <= i < |events| && UsableAt(events, i) :: IsUnit(SampleAt(events, i).heading)
  }

  /**
   A Complete planner was, at some tick `j`, at least the target distance away from where its
   route started: the position of the first usable sample, tick `o`.
   */
  lemma HonestCompletion(cfg: Config, events: seq<Event>, n: nat) returns (o: nat, j: nat)
    requires Usual(cfg) && UnitYaws(events) && n <= |events|
    requires StateAt(cfg, events, n).state.Complete?
    ensures o <= j < n && FirstUsable(events, o) && UsableAt(events, j)
    ensures SquaredLength(Displacement(SampleAt(events, o).at, SampleAt(events, j).at))
         >= Square(cfg.targetDistance)
  {
    hide Update;
    j := ArrivalSeen(cfg, events, n);
    RouteStep(cfg, StateAt(cfg, events, j), events[j]);
    AlwaysValid(cfg, events, j);
    EventKeepsValid(cfg, StateAt(cfg, events, j), events[j]);
    o := OriginIsFirstFix(cfg, events, j + 1);
    FarEnough(SampleAt(events, o).heading, Displacement(SampleAt(events, o).at, SampleAt(events, j).at),
              cfg.targetDistance);
  }

  lemma FarEnough(h: Heading, d: Vec, target: real)
    requires IsUnit(h) && Along(h, d) >= target > 0.0
    ensures SquaredLength(d) >= Square(target)
  {
    Isometry(h, d);
    var f, l := Along(h, d), Across(h, d);
    assert f * f >= target * target by {
      assert f * f - target * target == (f - target) * (f + target);
      assert (f - target) * (f + target) >= 0.0;
    }
    assert l * l >= 0.0;
  }

  /**
   A tick that completes from any state but Forward, and so from a bypass, even one that it has
   only just begun, leaves the robot back on its route.
   */
  lemma CompletesOnRoute(cfg: Config, p: Planner, input: PlannerInput)
    requires Usual(cfg) && Valid(cfg, p) && p.initialized
    requires !p.state.Forward? && !p.state.Complete? && Update(cfg, p, input).next.state.Complete?
    ensures OnRoute(cfg, Update(cfg, p, input).next.route.lateral)
  {
    if Reaches(cfg, p, input) {
      DecisionCompletes(cfg, Handed(cfg, p, input), Sampled(input));
      DecisionKeepsRoute(cfg, Handed(cfg, p, input), Sampled(input));
    }
  }
}
