/**
 The closed loop on a route without obstacles: the planner completes it, and on time. The
 watchdog and the debounce never get in the way of a robot that does move.
 */
module PlannerClearRoute {
  import opened PlannerModel
  import opened PlannerRuns
  import opened PlannerSafety
  import opened PlannerWatchdog
  import opened PlannerClosedLoop
  import opened Rounding

  function NowAt(events: seq<Event>, i: nat): real
    requires i < |events| && UsableAt(events, i)
  {
    SampleAt(events, i).now
  }

  /** The clock of sample `i + 1` is the loop's time after that of sample `i`. */
  predicate InTime(events: seq<Event>, time: Timing, i: nat)
    requires i < |events| - 1 && |time.dts| == |events|
    requires UsableAt(events, i) && UsableAt(events, i + 1)
  {
    NowAt(events, i + 1) == NowAt(events, i) + time.dts[i]
  }

  /** From tick `k` on, every sample is good, in time with the loop, and shows no obstacle ahead. */
  ghost predicate ClearRoute(cfg: Config, events: seq<Event>, k: nat, time: Timing) {
    && |time.dts| == |events|
    && (forall i | k <= i < |events| ::
          UsableAt(events, i) && SampleAt(events, i).front > cfg.stopDistance)
    && (forall i | k <= i < |events| - 1 :: InTime(events, time, i))
  }

  lemma ClearAt(cfg: Config, events: seq<Event>, k: nat, time: Timing, i: nat)
    requires ClearRoute(cfg, events, k, time) && k <= i < |events|
    ensures UsableAt(events, i) && SampleAt(events, i).front > cfg.stopDistance
    ensures events[i].Sense? && Usable(events[i].input) && Sampled(events[i].input).front > cfg.stopDistance
  {
  }

  /** How far the robot drives ahead in a given time. */
  function Drive(cfg: Config, elapsed: real): real {
    cfg.forwardSpeed * elapsed
  }

  lemma DriveAdds(cfg: Config, a: real, b: real)
    ensures Drive(cfg, a + b) == Drive(cfg, a) + Drive(cfg, b)
    ensures Drive(cfg, 0.0) == 0.0
  {
  }

  lemma DriveGrows(cfg: Config, a: real, b: real)
    requires Usual(cfg) && a <= b
    ensures Drive(cfg, a) <= Drive(cfg, b)
  {
  }

  lemma ClearTick(cfg: Config, p: Planner, input: PlannerInput)
    requires Usual(cfg) && Valid(cfg, p)
    requires Reaches(cfg, p, input) && Sampled(input).front > cfg.stopDistance
    requires p.initialized ==> p.state.Forward?
    ensures var t := Update(cfg, p, input);
            if t.next.route.forward >= cfg.targetDistance then t.next.state.Complete?
            else t.next.state.Forward? && t.out.vx == cfg.forwardSpeed && t.out.vy == 0.0
  {
    hide Located;
  }

  lemma AlongDisplacement(route: Route, a: Vec, b: Vec)
    ensures Along(route.heading, Displacement(a, b)) == Located(route, b).forward - Located(route, a).forward
  {
    var c, s, o := route.heading.cos, route.heading.sin, route.origin;
    calc {
      Located(route, b).forward - Located(route, a).forward;
      (b.x - o.x) * c + (b.y - o.y) * s - ((a.x - o.x) * c + (a.y - o.y) * s);
      { assert (b.x - o.x) * c - (a.x - o.x) * c == (b.x - a.x) * c;
        assert (b.y - o.y) * s - (a.y - o.y) * s == (b.y - a.y) * s; }
      (b.x - a.x) * c + (b.y - a.y) * s;
    }
  }

  /** A robot that has driven for the stall timeout has moved by the progress epsilon. */
  lemma DrivingIsProgress(cfg: Config, route: Route, a: Vec, b: Vec, elapsed: real)
    requires Usual(cfg) && IsUnit(route.heading)
    requires cfg.motionProgressEpsilon <= Drive(cfg, cfg.motionStallTimeout)
    requires Located(route, b).forward - Located(route, a).forward == Drive(cfg, elapsed)
    requires elapsed >= cfg.motionStallTimeout
    ensures AtLeast(Displacement(a, b), cfg.motionProgressEpsilon)
  {
    hide Along, Square, Located, Drive;
    if cfg.motionProgressEpsilon > 0.0 {
      AlongDisplacement(route, a, b);
      DriveGrows(cfg, cfg.motionStallTimeout, elapsed);
      FarEnough(route.heading, Displacement(a, b), cfg.motionProgressEpsilon);
    }
  }

  /** On a clear route the robot is where its speed and the clock put it, until the route is complete. */
  ghost predicate OnSchedule(cfg: Config, events: seq<Event>, k: nat, i: nat)
    requires k <= i < |events| && UsableAt(events, k) && UsableAt(events, i)
  {
    var p := StateAt(cfg, events, i + 1);
    && (p.state.Forward? || p.state.Complete?)
    && (p.state.Forward? ==>
          && p.route.forward == Drive(cfg, NowAt(events, i) - NowAt(events, k))
          && p.route.forward < cfg.targetDistance
          && TickAt(cfg, events, i).out.vx == cfg.forwardSpeed)
  }

  lemma FirstClearTick(cfg: Config, events: seq<Event>, k: nat)
    requires Usual(cfg) && k < |events| && FirstUsable(events, k)
    requires SampleAt(events, k).front > cfg.stopDistance
    ensures OnSchedule(cfg, events, k, k)
  {
    StartsAtFirstUsable(cfg, events, k);
    AlwaysValid(cfg, events, k);
    var p, input := StateAt(cfg, events, k), events[k].input;
    DriveAdds(cfg, 0.0, 0.0);
    hide Located, Decide, Drive;
    assert !Prepared(p, Sampled(input)).watch.moving;
    ClearTick(cfg, p, input);
    AtOrigin(p, Sampled(input));
    LeftLocated(cfg, events, k);
  }

  lemma StepAhead(cfg: Config, events: seq<Event>, k: nat, i: nat, time: Timing)
    requires Usual(cfg) && UnitYaws(events) && Follows(cfg, events, k, time)
    requires k <= i < |events| - 1 && UsableAt(events, i) && UsableAt(events, i + 1)
    requires TickAt(cfg, events, i).out.vx == cfg.forwardSpeed
    ensures HandedAt(cfg, events, i + 1).route.forward
         == StateAt(cfg, events, i + 1).route.forward + Drive(cfg, time.dts[i])
  {
    hide Update, Located, Handed;
    LoopMoves(cfg, events, k, i, time);
  }

  // The time from tick `k`, which a robot on schedule has spent driving.
  lemma NextOnSchedule(cfg: Config, events: seq<Event>, k: nat, i: nat, time: Timing)
    requires Usual(cfg) && UnitYaws(events) && Follows(cfg, events, k, time)
    requires ClearRoute(cfg, events, k, time)
    requires k <= i < |events| - 1 && OnSchedule(cfg, events, k, i) && StateAt(cfg, events, i + 1).state.Forward?
    ensures HandedAt(cfg, events, i + 1).route.forward
         == Drive(cfg, NowAt(events, i + 1) - NowAt(events, k))
  {
    hide Update, Located, Handed, Drive;
    assert UsableAt(events, i) && UsableAt(events, i + 1) && UsableAt(events, k);
    StepAhead(cfg, events, k, i, time);
    assert InTime(events, time, i);
    DriveAdds(cfg, NowAt(events, i) - NowAt(events, k), time.dts[i]);
  }

  // Between two ticks on schedule the robot has driven for the time between them.
  lemma DrivenBetween(cfg: Config, events: seq<Event>, k: nat, r: nat, i: nat, time: Timing)
    requires Usual(cfg) && UnitYaws(events) && Follows(cfg, events, k, time)
    requires ClearRoute(cfg, events, k, time)
    requires k <= r <= i < |events| - 1
    requires UsableAt(events, k) && UsableAt(events, r) && UsableAt(events, i) && UsableAt(events, i + 1)
    requires OnSchedule(cfg, events, k, r) && StateAt(cfg, events, r + 1).state.Forward?
    requires OnSchedule(cfg, events, k, i) && StateAt(cfg, events, i + 1).state.Forward?
    ensures Located(StateAt(cfg, events, i + 1).route, SampleAt(events, i + 1).at).forward
          - Located(StateAt(cfg, events, i + 1).route, SampleAt(events, r).at).forward
         == Drive(cfg, NowAt(events, i + 1) - NowAt(events, r))
  {
    NextOnSchedule(cfg, events, k, i, time);
    hide Update, Along, Across, Drive, Follows, ClearRoute, UnitYaws;
    LeftLocated(cfg, events, i);
    LeftLocated(cfg, events, r);
    SameRoute(cfg, events, r, i);
    LocatedAlike(StateAt(cfg, events, i + 1).route, StateAt(cfg, events, r + 1).route, SampleAt(events, r).at);
    DriveAdds(cfg, NowAt(events, r) - NowAt(events, k), NowAt(events, i + 1) - NowAt(events, r));
  }

  // What the watchdog needs to see to let a tick through.
  lemma NotStalled(cfg: Config, p: Planner, input: PlannerInput, at: Vec, now: real)
    requires p.initialized && Usable(input)
    requires p.watch.anchor == at && p.watch.lastProgress == now
    requires Sampled(input).now - now >= cfg.motionStallTimeout ==>
               AtLeast(Displacement(at, Sampled(input).at), cfg.motionProgressEpsilon)
    ensures Reaches(cfg, p, input)
  {
    hide Located, AtLeast;
  }

  // The watchdog does not stop it: either it has moved far enough, or not for long enough.
  lemma NotStalledOnSchedule(cfg: Config, events: seq<Event>, k: nat, r: nat, i: nat, time: Timing)
    requires Usual(cfg) && UnitYaws(events) && Follows(cfg, events, k, time)
    requires cfg.motionProgressEpsilon <= Drive(cfg, cfg.motionStallTimeout)
    requires ClearRoute(cfg, events, k, time)
    requires k <= r <= i < |events| - 1
    requires UsableAt(events, k) && UsableAt(events, r) && UsableAt(events, i) && UsableAt(events, i + 1)
    requires OnSchedule(cfg, events, k, r) && StateAt(cfg, events, r + 1).state.Forward?
    requires OnSchedule(cfg, events, k, i) && StateAt(cfg, events, i + 1).state.Forward?
    requires r == LastRestart(cfg, events, i + 1)
    ensures Reaches(cfg, StateAt(cfg, events, i + 1), events[i + 1].input)
  {
    hide StateAt, Update, Drive, ClearRoute, Follows, UnitYaws, OnSchedule, LastRestart, Located, AtLeast;
    hide Reaches, Displacement, Usual;
    DrivenBetween(cfg, events, k, r, i, time);
    WatchdogMirrorsRun(cfg, events, i + 1);
    SameRoute(cfg, events, r, i);
    HeadingIsUnit(cfg, events, i + 1);
    var elapsed := NowAt(events, i + 1) - NowAt(events, r);
    if elapsed >= cfg.motionStallTimeout {
      DrivingIsProgress(cfg, StateAt(cfg, events, i + 1).route, SampleAt(events, r).at,
                        SampleAt(events, i + 1).at, elapsed);
    }
    NotStalled(cfg, StateAt(cfg, events, i + 1), events[i + 1].input, SampleAt(events, r).at, NowAt(events, r));
  }

  lemma LocatedAlike(a: Route, b: Route, at: Vec)
    requires a.origin == b.origin && a.heading == b.heading
    ensures Located(a, at) == Located(b, at)
  {
    hide Along, Across;
  }

  lemma {:induction false} SameRoute(cfg: Config, events: seq<Event>, r: nat, i: nat)
    requires Usual(cfg) && r <= i < |events| && UsableAt(events, r)
    ensures StateAt(cfg, events, i + 1).route.origin == StateAt(cfg, events, r + 1).route.origin
    ensures StateAt(cfg, events, i + 1).route.heading == StateAt(cfg, events, r + 1).route.heading
    ensures StateAt(cfg, events, i + 1).initialized
  {
    hide Update;
    AlwaysValid(cfg, events, i);
    EventKeepsValid(cfg, StateAt(cfg, events, i), events[i]);
    if r < i {
      SameRoute(cfg, events, r, i - 1);
      RouteStep(cfg, StateAt(cfg, events, i), events[i]);
    }
  }

  lemma CompleteStays(cfg: Config, p: Planner, input: PlannerInput)
    requires Usual(cfg) && Valid(cfg, p) && p.initialized && p.state.Complete?
    requires Usable(input)
    ensures Update(cfg, p, input).next.state.Complete?
  {
  }

  lemma NextState(cfg: Config, events: seq<Event>, i: nat)
    requires i < |events| && events[i].Sense?
    ensures StateAt(cfg, events, i + 1) == Update(cfg, StateAt(cfg, events, i), events[i].input).next
  {
    hide Update;
  }

  lemma ScheduleMet(cfg: Config, events: seq<Event>, k: nat, i: nat)
    requires k <= i < |events| && UsableAt(events, k) && UsableAt(events, i) && events[i].Sense?
    requires var t := Update(cfg, StateAt(cfg, events, i), events[i].input);
             || t.next.state.Complete?
             || (&& t.next.state.Forward? && t.out.vx == cfg.forwardSpeed
                 && t.next.route.forward == Drive(cfg, NowAt(events, i) - NowAt(events, k))
                 && t.next.route.forward < cfg.targetDistance)
    ensures OnSchedule(cfg, events, k, i)
  {
    hide Update, Drive;
  }

  // From one tick on schedule to the next, when the watchdog lets it through.
  lemma ScheduleStep(cfg: Config, events: seq<Event>, k: nat, i: nat, time: Timing)
    requires Usual(cfg) && UnitYaws(events) && Follows(cfg, events, k, time)
    requires ClearRoute(cfg, events, k, time)
    requires k <= i < |events| - 1
    requires UsableAt(events, k) && UsableAt(events, i) && UsableAt(events, i + 1)
    requires OnSchedule(cfg, events, k, i) && StateAt(cfg, events, i + 1).initialized
    requires StateAt(cfg, events, i + 1).state.Forward? || StateAt(cfg, events, i + 1).state.Complete?
    requires StateAt(cfg, events, i + 1).state.Forward? ==>
               Reaches(cfg, StateAt(cfg, events, i + 1), events[i + 1].input)
    ensures OnSchedule(cfg, events, k, i + 1)
  {
    hide *;
    var p := StateAt(cfg, events, i + 1);
    AlwaysValid(cfg, events, i + 1);
    ClearAt(cfg, events, k, time, i + 1);
    NextState(cfg, events, i + 1);
    if p.state.Forward? {
      NextOnSchedule(cfg, events, k, i, time);
      LeftLocated(cfg, events, i + 1);
      ClearTick(cfg, p, events[i + 1].input);
    } else {
      CompleteStays(cfg, p, events[i + 1].input);
    }
    ScheduleMet(cfg, events, k, i + 1);
  }

  lemma OnScheduleState(cfg: Config, events: seq<Event>, k: nat, i: nat)
    requires k <= i < |events| && UsableAt(events, k) && UsableAt(events, i)
    requires OnSchedule(cfg, events, k, i)
    ensures StateAt(cfg, events, i + 1).state.Forward? || StateAt(cfg, events, i + 1).state.Complete?
    ensures StateAt(cfg, events, i + 1).state.Forward? ==>
              && StateAt(cfg, events, i + 1).route.forward < cfg.targetDistance
              && StateAt(cfg, events, i + 1).route.forward == Drive(cfg, NowAt(events, i) - NowAt(events, k))
  {
    hide Update, Drive;
  }

  lemma {:induction false} StaysOnSchedule(cfg: Config, events: seq<Event>, k: nat, i: nat, time: Timing)
    requires Usual(cfg) && UnitYaws(events) && Follows(cfg, events, k, time)
    requires cfg.motionProgressEpsilon <= Drive(cfg, cfg.motionStallTimeout)
    requires ClearRoute(cfg, events, k, time)
    requires k <= i < |events| && FirstUsable(events, k) && UsableAt(events, i)
    ensures OnSchedule(cfg, events, k, i)
    decreases i, 1
  {
    hide *;
    ClearAt(cfg, events, k, time, k);
    if i == k {
      FirstClearTick(cfg, events, k);
    } else {
      ClearAt(cfg, events, k, time, i - 1);
      StaysOnSchedule(cfg, events, k, i - 1, time);
      StartedAfterFirst(cfg, events, k, i);
      if StateAt(cfg, events, i).state.Forward? {
        RestartOnSchedule(cfg, events, k, i - 1, time);
      }
      OnScheduleState(cfg, events, k, i - 1);
      ScheduleStep(cfg, events, k, i - 1, time);
    }
  }

  lemma OnlyForward(cfg: Config, events: seq<Event>, k: nat, r: nat, i: nat)
    requires Usual(cfg) && k <= r <= i < |events|
    requires UsableAt(events, k) && UsableAt(events, r) && OnSchedule(cfg, events, k, r)
    requires StateAt(cfg, events, i + 1).state.Forward?
    ensures StateAt(cfg, events, r + 1).state.Forward?
  {
    hide Update;
    if StateAt(cfg, events, r + 1).state.Complete? {
      StartedAfterFirst(cfg, events, k, r + 1);
      TerminalForever(cfg, events, r + 1, i + 1);
    }
  }

  // The tick that last restarted the watchdog was on schedule too, so the next one is not stalled.
  lemma RestartOnSchedule(cfg: Config, events: seq<Event>, k: nat, i: nat, time: Timing)
    requires Usual(cfg) && UnitYaws(events) && Follows(cfg, events, k, time)
    requires cfg.motionProgressEpsilon <= Drive(cfg, cfg.motionStallTimeout)
    requires ClearRoute(cfg, events, k, time)
    requires k <= i < |events| - 1 && FirstUsable(events, k)
    requires UsableAt(events, i) && UsableAt(events, i + 1)
    requires OnSchedule(cfg, events, k, i) && StateAt(cfg, events, i + 1).state.Forward?
    ensures Reaches(cfg, StateAt(cfg, events, i + 1), events[i + 1].input)
    decreases i, 2
  {
    var r := LastRestart(cfg, events, i + 1);
    assert UsableAt(events, k) && forall m | 0 <= m < k :: !UsableAt(events, m);
    hide *;
    StartedAfterFirst(cfg, events, k, i + 1);
    WatchdogMirrorsRun(cfg, events, i + 1);
    assert UsableAt(events, r);
    StaysOnSchedule(cfg, events, k, r, time);
    OnlyForward(cfg, events, k, r, i);
    NotStalledOnSchedule(cfg, events, k, r, i, time);
  }

  lemma {:induction false} ElapsedTime(cfg: Config, events: seq<Event>, k: nat, i: nat, time: Timing)
    requires Follows(cfg, events, k, time) && ClearRoute(cfg, events, k, time)
    requires k <= i < |events| && UsableAt(events, k) && UsableAt(events, i)
    ensures NowAt(events, i) - NowAt(events, k) >= (i - k) as real * time.dtMin
    decreases i
  {
    hide StateAt, Update;
    if k < i {
      ClearAt(cfg, events, k, time, i - 1);
      ElapsedTime(cfg, events, k, i - 1, time);
      assert InTime(events, time, i - 1);
      assert time.dtMin <= time.dts[i - 1];
      assert (i - 1 - k) as real * time.dtMin + time.dtMin == (i - k) as real * time.dtMin;
    }
  }

  lemma StepsCover(j: nat, x: real, d: real)
    requires d > 0.0 && j as real * d < x
    ensures j < Steps(x, d)
  {
    assert x / d > j as real;
  }

  /**
   A clear route is completed: with no obstacle ahead and a progress epsilon the robot covers
   within the stall timeout, the planner is Complete after the ticks it takes to cover the target
   distance at the shortest tick, and one more. It is never stopped before.
   */
  lemma ClearRouteCompletes(cfg: Config, events: seq<Event>, k: nat, n: nat, time: Timing)
    requires Usual(cfg) && UnitYaws(events) && Follows(cfg, events, k, time)
    requires cfg.motionProgressEpsilon <= Drive(cfg, cfg.motionStallTimeout)
    requires ClearRoute(cfg, events, k, time)
    requires k < n <= |events| && FirstUsable(events, k) && time.dtMin > 0.0
    ensures StateAt(cfg, events, n).state.Forward? || StateAt(cfg, events, n).state.Complete?
    ensures Drive(cfg, time.dtMin) > 0.0
    ensures n - k > Steps(cfg.targetDistance, Drive(cfg, time.dtMin)) ==> StateAt(cfg, events, n).state.Complete?
  {
    hide *;
    PositivePace(cfg, time);
    ClearAt(cfg, events, k, time, n - 1);
    ClearAt(cfg, events, k, time, k);
    StaysOnSchedule(cfg, events, k, n - 1, time);
    OnScheduleState(cfg, events, k, n - 1);
    if StateAt(cfg, events, n).state.Forward? {
      ElapsedTime(cfg, events, k, n - 1, time);
      ShortOfTarget(cfg, n - 1 - k, NowAt(events, n - 1) - NowAt(events, k), time.dtMin);
    }
  }

  lemma PositivePace(cfg: Config, time: Timing)
    requires Usual(cfg)
    ensures time.dtMin > 0.0 ==> Drive(cfg, time.dtMin) > 0.0
  {
  }

  lemma ShortOfTarget(cfg: Config, j: nat, elapsed: real, dt: real)
    requires Usual(cfg) && dt > 0.0 && Drive(cfg, dt) > 0.0
    requires elapsed >= j as real * dt && Drive(cfg, elapsed) < cfg.targetDistance
    ensures j < Steps(cfg.targetDistance, Drive(cfg, dt))
  {
    assert j as real * Drive(cfg, dt) < cfg.targetDistance by {
      DriveGrows(cfg, j as real * dt, elapsed);
      assert Drive(cfg, j as real * dt) == j as real * Drive(cfg, dt);
    }
    StepsCover(j, cfg.targetDistance, Drive(cfg, dt));
  }
}
