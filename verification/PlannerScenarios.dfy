/**
 What the closed loop does in particular surroundings: how far from its route it goes, what
 becomes of a robot beyond the band it has to rejoin, and a shift beside a wall.
 */
module PlannerScenarios {
  import opened PlannerModel
  import opened PlannerRuns
  import opened PlannerSafety
  import opened PlannerClosedLoop

  /** Until it ends, the robot stays within the offset bound of its route. */
  lemma OffsetStaysBounded(cfg: Config, events: seq<Event>, k: nat, i: nat, time: Timing)
    requires Usual(cfg) && UnitYaws(events) && Follows(cfg, events, k, time) && ComesBack(cfg, time)
    requires k <= i < |events| && FirstUsable(events, k) && UsableAt(events, i)
    requires i == k || !Terminal(StateAt(cfg, events, i).state)
    ensures var bound := OffsetBound(cfg, PaceOf(cfg, time));
            -bound <= StateAt(cfg, events, i + 1).route.lateral <= bound
  {
    hide Update, Located, PaceOf, Decide;
    LeftLocated(cfg, events, i);
    if i == k {
      LoopStart(cfg, events, k, time);
    } else {
      StartedAfterFirst(cfg, events, k, i);
      AlwaysValid(cfg, events, i);
      LoopRank(cfg, events, k, i, time);
    }
  }

  // ----- steps that are too long -----

  /** The planner is returning to the route but the robot is already beyond it. */
  predicate Overshot(cfg: Config, p: Planner) {
    p.state.ShiftBack? && Signed(p.bypass.side, p.route.lateral) < -cfg.rejoinTolerance
  }

  lemma ActContains(cfg: Config, pace: Pace, p: Planner, s: Sample)
    requires Usual(cfg) && Valid(cfg, p) && p.initialized
    requires Contained(cfg, pace, p.state, p.bypass.side, p.route.lateral)
    ensures match Act(cfg, p, s)
            case End(t) => Contained(cfg, pace, t.next.state, t.next.bypass.side, t.next.route.lateral)
            case FallTo(q) => Contained(cfg, pace, q.state, q.bypass.side, q.route.lateral)
  {
  }

  lemma {:induction false} DecisionContains(cfg: Config, pace: Pace, p: Planner, s: Sample)
    requires Usual(cfg) && Valid(cfg, p) && p.initialized
    requires Contained(cfg, pace, p.state, p.bypass.side, p.route.lateral)
    ensures var q := Decide(cfg, p, s).next; Contained(cfg, pace, q.state, q.bypass.side, q.route.lateral)
    decreases FallsLeft(p.state)
  {
    hide Contained;
    ActKeepsValid(cfg, p, s);
    ActContains(cfg, pace, p, s);
    match Act(cfg, p, s)
    case End(_) =>
    case FallTo(q) => DecisionContains(cfg, pace, q, s);
  }

  lemma UpdateContains(cfg: Config, pace: Pace, p: Planner, input: PlannerInput)
    requires Usual(cfg) && Valid(cfg, p) && Usable(input)
    requires var r := Handed(cfg, p, input); Contained(cfg, pace, r.state, r.bypass.side, r.route.lateral)
    ensures var q := Update(cfg, p, input).next;
            Terminal(q.state) || Contained(cfg, pace, q.state, q.bypass.side, q.route.lateral)
  {
    hide Decide, Contained, Along, Across, Usual;
    if Reaches(cfg, p, input) {
      HandedIsValid(cfg, p, input);
      DecisionContains(cfg, pace, Handed(cfg, p, input), Sampled(input));
    }
  }

  /** Where shifts come back, no tick of the loop finds the robot beyond the band it is to rejoin. */
  lemma StaysInBand(cfg: Config, events: seq<Event>, k: nat, n: nat, time: Timing)
    requires Usual(cfg) && UnitYaws(events) && Follows(cfg, events, k, time) && ComesBack(cfg, time)
    requires k < n <= |events| && FirstUsable(events, k)
    ensures !Overshot(cfg, StateAt(cfg, events, n))
  {
    hide Update, PaceOf, Usual, Handed;
    if StateAt(cfg, events, n).state.ShiftBack? {
      StillRunning(cfg, events, k, n - 1);
      LoopRank(cfg, events, k, n - 1, time);
      AlwaysValid(cfg, events, n - 1);
      UpdateContains(cfg, PaceOf(cfg, time), StateAt(cfg, events, n - 1), events[n - 1].input);
    }
  }

  lemma OvershotTick(cfg: Config, p: Planner, s: Sample)
    requires Usual(cfg) && Valid(cfg, p) && p.initialized && Overshot(cfg, p)
    ensures var t := Decide(cfg, p, s);
            || t.next.state.Blocked?
            || (Overshot(cfg, t.next) && t.next.bypass.side == p.bypass.side
                && Signed(p.bypass.side, t.out.vy) == -cfg.lateralSpeed)
  {
  }

  lemma OvershotUpdate(cfg: Config, p: Planner, input: PlannerInput)
    requires Usual(cfg) && Valid(cfg, p) && p.initialized
    requires Usable(input) ==> Overshot(cfg, Handed(cfg, p, input))
    ensures var t := Update(cfg, p, input);
            && t.next.initialized
            && (|| t.next.state.Blocked? || t.next.state.SensorFault?
                || (&& Usable(input) && Overshot(cfg, t.next) && t.next.bypass.side == p.bypass.side
                    && Signed(p.bypass.side, t.out.vy) == -cfg.lateralSpeed))
  {
    hide Located;
    EventKeepsValid(cfg, p, Sense(input));
    if Reaches(cfg, p, input) {
      HandedIsValid(cfg, p, input);
      OvershotTick(cfg, Handed(cfg, p, input), Sampled(input));
    }
  }

  /**
   Once past the band, the robot never rejoins: each step back takes it farther away, until the
   ranges, the watchdog or the sensors stop it. `StaysInBand` says when that cannot happen.
   */
  lemma {:induction false} OvershootNeverRejoins(cfg: Config, events: seq<Event>, k: nat, i: nat, j: nat, time: Timing)
    requires Usual(cfg) && UnitYaws(events) && Follows(cfg, events, k, time)
    requires k <= i <= j < |events| && UsableAt(events, i)
    requires StateAt(cfg, events, i).initialized && Overshot(cfg, HandedAt(cfg, events, i))
    ensures var p := StateAt(cfg, events, j + 1);
            && p.initialized
            && (|| p.state.Blocked? || p.state.SensorFault?
                || (&& UsableAt(events, j) && Overshot(cfg, p)
                    && Signed(p.bypass.side, TickAt(cfg, events, j).out.vy) == -cfg.lateralSpeed))
  {
    hide Update, Located;
    AlwaysValid(cfg, events, j);
    var p := StateAt(cfg, events, j);
    if i == j {
      OvershotUpdate(cfg, p, events[j].input);
    } else {
      OvershootNeverRejoins(cfg, events, k, i, j - 1, time);
      if Terminal(p.state) {
        StaysBlocked(cfg, p, events[j]);
      } else {
        if UsableAt(events, j) {
          StepsFarther(cfg, events, k, j, time);
        }
        OvershotUpdate(cfg, p, events[j].input);
      }
    }
  }

  lemma StaysBlocked(cfg: Config, p: Planner, e: Event)
    requires p.initialized && (p.state.Blocked? || p.state.SensorFault?)
    ensures var q := After(cfg, p, e); q.initialized && (q.state.Blocked? || q.state.SensorFault?)
  {
  }

  lemma StepsFarther(cfg: Config, events: seq<Event>, k: nat, j: nat, time: Timing)
    requires Usual(cfg) && UnitYaws(events) && Follows(cfg, events, k, time)
    requires k < j < |events| && UsableAt(events, j - 1) && UsableAt(events, j)
    requires StateAt(cfg, events, j).initialized && Overshot(cfg, StateAt(cfg, events, j))
    requires Signed(StateAt(cfg, events, j).bypass.side, TickAt(cfg, events, j - 1).out.vy) == -cfg.lateralSpeed
    ensures Overshot(cfg, HandedAt(cfg, events, j))
  {
    hide Update, Located;
    LoopMoves(cfg, events, k, j - 1, time);
    var side, vy, dt := StateAt(cfg, events, j).bypass.side, TickAt(cfg, events, j - 1).out.vy, time.dts[j - 1];
    assert cfg.lateralSpeed * dt > 0.0;
    assert vy == cfg.lateralSpeed || vy == -cfg.lateralSpeed;
    assert -cfg.lateralSpeed * dt == -(cfg.lateralSpeed * dt);
  }

  // ----- beside a wall -----

  function RangeOn(side: Side, s: Sample): real {
    if side.Left? then s.left else s.right
  }

  /** Unless it was so before, a planner is stopped by its selected side only when that side is too close. */
  lemma {:induction false} SideUnsafeMeansClose(cfg: Config, p: Planner, s: Sample)
    requires Usual(cfg) && Valid(cfg, p) && p.initialized && !Terminal(p.state)
    ensures var q := Decide(cfg, p, s).next;
            q.state.Blocked? && q.reason.SideUnsafe? ==>
              RangeOn(q.bypass.side, s) < cfg.sideStopDistance
              && (p.state.ShiftOut? ==> q.bypass.side == p.bypass.side)
    decreases FallsLeft(p.state)
  {
    ActKeepsValid(cfg, p, s);
    match Act(cfg, p, s)
    case End(_) =>
    case FallTo(q) => SideUnsafeMeansClose(cfg, q, s);
  }

  lemma {:induction false} ShiftOutStep(cfg: Config, p: Planner, s: Sample)
    requires Usual(cfg) && Valid(cfg, p) && p.initialized
    ensures var t := Decide(cfg, p, s);
            t.next.state.ShiftOut? ==>
              && Signed(t.next.bypass.side, p.route.lateral) < cfg.lateralShift - cfg.rejoinTolerance
              && Signed(t.next.bypass.side, t.out.vy) == cfg.lateralSpeed
              && (p.state.ShiftOut? ==> t.next.bypass.side == p.bypass.side)
    decreases FallsLeft(p.state)
  {
    ActKeepsValid(cfg, p, s);
    match Act(cfg, p, s)
    case End(_) =>
    case FallTo(q) => ShiftOutStep(cfg, q, s);
  }

  lemma {:induction false} SideIsKept(cfg: Config, p: Planner, s: Sample)
    requires Usual(cfg) && Valid(cfg, p) && p.initialized && Bypassing(p.state)
    ensures var q := Decide(cfg, p, s).next;
            q.bypass.side == p.bypass.side || q.state.Forward? || q.state.Complete?
    decreases FallsLeft(p.state)
  {
    ActKeepsValid(cfg, p, s);
    match Act(cfg, p, s)
    case End(_) =>
    case FallTo(q) => SideIsKept(cfg, q, s);
  }

  /** A side is selected for its clearance, however far the tick goes on from there. */
  lemma SelectionHasRoom(cfg: Config, p: Planner, s: Sample)
    requires Usual(cfg) && Valid(cfg, p) && p.initialized && p.state.Evaluate?
    ensures var q := Decide(cfg, p, s).next;
            q.state.ShiftOut? || (q.state.Blocked? && q.reason.SideUnsafe?) ==>
              RangeOn(q.bypass.side, s) >= cfg.minSideClearance
  {
    ActKeepsValid(cfg, p, s);
    match Act(cfg, p, s)
    case End(_) =>
    case FallTo(q) => SideIsKept(cfg, q, s);
  }

  // The same, for a whole tick.
  lemma ShiftOutUpdate(cfg: Config, p: Planner, input: PlannerInput)
    requires Usual(cfg) && Valid(cfg, p) && p.initialized && Usable(input)
    requires p.state.Evaluate? || p.state.ShiftOut?
    ensures var t, s := Update(cfg, p, input), Sampled(input);
            var side := t.next.bypass.side;
            && (t.next.state.ShiftOut? ==>
                  && Signed(side, t.next.route.lateral) < cfg.lateralShift - cfg.rejoinTolerance
                  && Signed(side, t.out.vy) == cfg.lateralSpeed
                  && (p.state.ShiftOut? ==> side == p.bypass.side)
                  && (p.state.Evaluate? ==> RangeOn(side, s) >= cfg.minSideClearance))
            && (t.next.state.Blocked? && t.next.reason.SideUnsafe? ==>
                  p.state.ShiftOut? && side == p.bypass.side && RangeOn(side, s) < cfg.sideStopDistance)
  {
    hide Decide, Located;
    if Reaches(cfg, p, input) {
      var r, s := Handed(cfg, p, input), Sampled(input);
      HandedIsValid(cfg, p, input);
      ShiftOutStep(cfg, r, s);
      SideUnsafeMeansClose(cfg, r, s);
      DecisionKeepsRoute(cfg, r, s);
      if p.state.Evaluate? {
        SelectionHasRoom(cfg, r, s);
      }
    }
  }

  /** Ticks `i` to `n - 1` evaluate and then shift out, all on good samples. */
  ghost predicate ShiftingOut(cfg: Config, events: seq<Event>, i: nat, n: nat) {
    && i < n <= |events|
    && StateAt(cfg, events, i).initialized && StateAt(cfg, events, i).state.Evaluate?
    && (forall m | i <= m < n :: UsableAt(events, m))
    && (forall m | i < m < n :: StateAt(cfg, events, m).state.ShiftOut?)
  }

  function OffsetAt(cfg: Config, events: seq<Event>, side: Side, m: nat): real
    requires m < |events|
  {
    Signed(side, StateAt(cfg, events, m + 1).route.lateral)
  }

  lemma StartedAll(cfg: Config, events: seq<Event>, i: nat, m: nat)
    requires Usual(cfg) && i <= m <= |events| && StateAt(cfg, events, i).initialized
    ensures StateAt(cfg, events, m).initialized
    decreases m
  {
    hide Update;
    if i < m {
      StartedAll(cfg, events, i, m - 1);
      AlwaysValid(cfg, events, m - 1);
      EventKeepsValid(cfg, StateAt(cfg, events, m - 1), events[m - 1]);
    }
  }

  // One tick that leaves the planner shifting out, and the step of the robot that follows it.
  lemma ShiftOutTick(cfg: Config, events: seq<Event>, k: nat, m: nat, time: Timing)
    requires Usual(cfg) && UnitYaws(events) && Follows(cfg, events, k, time)
    requires k < m < |events| && UsableAt(events, m - 1) && UsableAt(events, m)
    requires StateAt(cfg, events, m - 1).initialized
    requires StateAt(cfg, events, m - 1).state.Evaluate? || StateAt(cfg, events, m - 1).state.ShiftOut?
    requires StateAt(cfg, events, m).state.ShiftOut?
    ensures OffsetAt(cfg, events, StateAt(cfg, events, m).bypass.side, m)
         <= cfg.lateralShift - cfg.rejoinTolerance + cfg.lateralSpeed * time.dtMax
  {
    hide Update, Located, Handed, Driven, Usual;
    AlwaysValid(cfg, events, m - 1);
    ShiftOutUpdate(cfg, StateAt(cfg, events, m - 1), events[m - 1].input);
    LeftLocated(cfg, events, m);
    LoopMoves(cfg, events, k, m - 1, time);
    var here, there := StateAt(cfg, events, m).route.lateral, StateAt(cfg, events, m + 1).route.lateral;
    SignedStep(cfg, StateAt(cfg, events, m).bypass.side, TickAt(cfg, events, m - 1).out.vy,
               here, there, time.dts[m - 1], time.dtMax);
  }

  lemma SignedStep(cfg: Config, side: Side, v: real, here: real, there: real, dt: real, dtMax: real)
    requires Usual(cfg) && 0.0 < dt <= dtMax
    requires Signed(side, v) == cfg.lateralSpeed && there == here + v * dt
    ensures Signed(side, there) <= Signed(side, here) + cfg.lateralSpeed * dtMax
  {
    Scaled(cfg.lateralSpeed, dt, dt, dtMax);
    assert -v * dt == -(v * dt);
  }

  /** While it shifts out, the selected side stays the one that had the clearance. */
  lemma {:induction false} SideWhileShiftingOut(cfg: Config, events: seq<Event>, i: nat, m: nat)
    requires Usual(cfg) && ShiftingOut(cfg, events, i, m) && StateAt(cfg, events, m).state.ShiftOut?
    ensures StateAt(cfg, events, m).bypass.side == StateAt(cfg, events, i + 1).bypass.side
    ensures RangeOn(StateAt(cfg, events, m).bypass.side, SampleAt(events, i)) >= cfg.minSideClearance
    decreases m
  {
    hide Update, Usual;
    assert UsableAt(events, m - 1);
    StartedAll(cfg, events, i, m - 1);
    AlwaysValid(cfg, events, m - 1);
    ShiftOutUpdate(cfg, StateAt(cfg, events, m - 1), events[m - 1].input);
    if i < m - 1 {
      SideWhileShiftingOut(cfg, events, i, m - 1);
    }
  }

  /** The selected side's range, as a wall at `wall` from the route gives it, on ticks `i` to `n - 1`. */
  ghost predicate BesideWall(cfg: Config, events: seq<Event>, i: nat, n: nat, side: Side, wall: real)
    requires n <= |events|
  {
    forall m | i <= m < n :: UsableAt(events, m) &&
      RangeOn(side, SampleAt(events, m)) == wall - OffsetAt(cfg, events, side, m)
  }

  // Shifting out beside the wall, the selected side keeps the side stop distance.
  lemma RoomBesideWall(cfg: Config, events: seq<Event>, k: nat, i: nat, m: nat, side: Side, wall: real, time: Timing)
    requires Usual(cfg) && UnitYaws(events) && Follows(cfg, events, k, time)
    requires k <= i < m && ShiftingOut(cfg, events, i, m + 1)
    requires side == StateAt(cfg, events, i + 1).bypass.side && BesideWall(cfg, events, i, m + 1, side, wall)
    requires cfg.lateralSpeed * time.dtMax <= cfg.rejoinTolerance + OffsetAt(cfg, events, side, i)
    ensures UsableAt(events, m) && RangeOn(side, SampleAt(events, m)) >= cfg.sideStopDistance
    ensures StateAt(cfg, events, m).bypass.side == side
  {
    hide Update, Located, Signed, RangeOn, OffsetAt, Follows, UnitYaws;
    assert UsableAt(events, m - 1) && UsableAt(events, i) && UsableAt(events, m);
    StartedAll(cfg, events, i, m - 1);
    ShiftOutTick(cfg, events, k, m, time);
    SideWhileShiftingOut(cfg, events, i, m);
  }

  // What it takes to be stopped by the selected side.
  lemma StoppedBySide(cfg: Config, p: Planner, input: PlannerInput)
    requires Usual(cfg) && Valid(cfg, p) && p.initialized && Usable(input)
    requires p.state.Evaluate? || p.state.ShiftOut?
    requires p.state.ShiftOut? ==> RangeOn(p.bypass.side, Sampled(input)) >= cfg.sideStopDistance
    ensures var q := Update(cfg, p, input).next; !(q.state.Blocked? && q.reason.SideUnsafe?)
  {
    hide Update, RangeOn;
    ShiftOutUpdate(cfg, p, input);
  }

  /**
   A shift-out begun beside a wall, `wall` away from the route on the selected side, never ends
   because that side became unsafe, if one step fits in the tolerance plus the offset it began
   with: the clearance that selected the side is enough for the whole shift.
   */
  lemma ShiftOutBesideWall(cfg: Config, events: seq<Event>, k: nat, i: nat, n: nat, side: Side, wall: real,
                           time: Timing)
    requires Usual(cfg) && UnitYaws(events) && Follows(cfg, events, k, time)
    requires k <= i && ShiftingOut(cfg, events, i, n)
    requires side == StateAt(cfg, events, i + 1).bypass.side && BesideWall(cfg, events, i, n, side, wall)
    requires cfg.lateralSpeed * time.dtMax <= cfg.rejoinTolerance + OffsetAt(cfg, events, side, i)
    ensures !(StateAt(cfg, events, n).state.Blocked? && StateAt(cfg, events, n).reason.SideUnsafe?)
  {
    hide Update, Valid, Follows, UnitYaws, OffsetAt, RangeOn, Usual;
    var m := n - 1;
    assert UsableAt(events, m);
    StartedAll(cfg, events, i, m);
    AlwaysValid(cfg, events, m);
    if i < m {
      RoomBesideWall(cfg, events, k, i, m, side, wall, time);
    }
    StoppedBySide(cfg, StateAt(cfg, events, m), events[m].input);
  }
}
