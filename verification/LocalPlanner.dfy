/**
 The planner object of the Go2 helper: fields that one `Update` call changes as it falls
 through from state to state. `Update` is proved to compute the tick function.
 */
module LocalPlanners {
  import opened PlannerModel

  class LocalPlanner {
    const config: Config
    var state: NavigationState
    var reason: Reason
    var initialized: bool
    var route: Route
    var watch: Watch
    var blockedCount: nat
    var bypass: Bypass

    ghost function Snapshot(): Planner
      reads this
    {
      Planner(state, reason, initialized, route, watch, blockedCount, bypass)
    }

    constructor (given: Config)
      ensures config == Clamped(given)
      ensures Snapshot() == INITIAL && state.Waiting? && reason.AwaitingSensors? && !initialized
    {
      var c := given;
      c := c.(targetDistance := Max(0.1, c.targetDistance));
      c := c.(forwardSpeed := Max(0.05, c.forwardSpeed));
      c := c.(lateralSpeed := Max(0.05, c.lateralSpeed));
      c := c.(stopDistance := Max(0.20, c.stopDistance));
      c := c.(resumeDistance := Max(c.stopDistance + 0.10, c.resumeDistance));
      c := c.(minSideClearance := Max(0.20, c.minSideClearance));
      c := c.(sideStopDistance := Max(0.10, c.sideStopDistance));
      c := c.(lateralShift := Max(0.20, c.lateralShift));
      c := c.(minSideClearance := Max(c.minSideClearance, c.lateralShift + c.sideStopDistance));
      c := c.(bypassForwardDistance := Max(0.30, c.bypassForwardDistance));
      c := c.(rejoinTolerance := Max(0.02, c.rejoinTolerance));
      c := c.(motionStallTimeout := Max(0.5, c.motionStallTimeout));
      c := c.(blockedFrames := MaxInt(1, c.blockedFrames));
      c := c.(clearFrames := MaxInt(1, c.clearFrames));
      c := c.(maxBypassAttempts := MaxInt(0, c.maxBypassAttempts));
      config := c;
      state := Waiting;
      reason := AwaitingSensors;
      initialized := false;
      route := Route(ORIGIN, EAST, 0.0, 0.0);
      watch := Watch(false, ORIGIN, 0.0);
      blockedCount := 0;
      bypass := Bypass(Center, 0.0, 0.0, 0, 0, false);
    }

    method Fail(why: Reason, sensorFault: bool) returns (ghost path: seq<NavigationState>)
      modifies this
      ensures Snapshot() == Failed(old(Snapshot()), why, sensorFault)
      ensures path == [if sensorFault then SensorFault else Blocked]
    {
      state := if sensorFault then SensorFault else Blocked;
      reason := why;
      watch := watch.(moving := false);
      path := [state];
    }

    method Command(vx: real, vy: real, terminal: bool) returns (result: Output)
      modifies this
      ensures var t := Emit(old(Snapshot()), vx, vy, terminal); Snapshot() == t.next && result == t.out
    {
      var stop := vx == 0.0 && vy == 0.0;
      result := Output(vx, vy, 0.0, stop, terminal, state, route.forward, route.lateral,
                       bypass.attempts, reason);
      watch := watch.(moving := !stop);
    }

    method UpdateRouteCoordinates(at: Vec)
      modifies this
      ensures Snapshot() == Placed(old(Snapshot()), at)
    {
      var dx, dy := at.x - route.origin.x, at.y - route.origin.y;
      var cosYaw, sinYaw := route.heading.cos, route.heading.sin;
      route := route.(forward := dx * cosYaw + dy * sinYaw,
                      lateral := -dx * sinYaw + dy * cosYaw);
    }

    method Start(at: Vec, heading: Heading, now: real) returns (ghost path: seq<NavigationState>)
      modifies this
      ensures forall s: Sample | s.at == at && s.heading == heading && s.now == now ::
                Snapshot() == Started(old(Snapshot()), s)
      ensures path == [Forward]
    {
      initialized := true;
      route := route.(origin := at, heading := heading);
      watch := watch.(anchor := at, lastProgress := now);
      state := Forward;
      reason := SensorsReady;
      path := [Forward];
    }

    method Update(input: PlannerInput) returns (out: Output, ghost path: seq<NavigationState>)
      modifies this
      ensures Did(PlannerModel.Update(config, old(Snapshot()), input), out, path)
    {
      path := [];
      if !input.rangeFresh || !input.poseFresh || !ValuesValid(input) {
        if initialized {
          path := Fail(SensorsStale, true);
        }
        out := Command(0.0, 0.0, initialized);
        return;
      }
      var s := Sampled(input);
      if !initialized {
        path := Start(s.at, s.heading, s.now);
      }
      UpdateRouteCoordinates(s.at);
      ghost var rest;
      out, rest := Navigate(s);
      path := path + rest;
    }

    // The part of a tick that follows `update_route_coordinates`.
    method Navigate(s: Sample) returns (out: Output, ghost path: seq<NavigationState>)
      modifies this
      ensures Did(Supervise(config, old(Snapshot()), s), out, path)
    {
      path := [];
      if watch.moving {
        if AtLeast(Displacement(watch.anchor, s.at), config.motionProgressEpsilon) {
          watch := watch.(anchor := s.at, lastProgress := s.now);
        } else if s.now - watch.lastProgress >= config.motionStallTimeout {
          path := Fail(NoOdometryProgress, false);
          out := Command(0.0, 0.0, true);
          return;
        }
      } else {
        watch := watch.(anchor := s.at, lastProgress := s.now);
      }
      out, path := ActOnState(s);
    }

    /** The planner is where `t` leaves it, with `t`'s command and path. */
    ghost predicate Did(t: Tick, out: Output, path: seq<NavigationState>)
      reads this
    {
      Snapshot() == t.next && out == t.out && path == t.path
    }

    /** Either the action ended the tick, or the planner is in the state that acts next. */
    ghost predicate Acted(a: Action, ended: bool, out: Output, path: seq<NavigationState>)
      reads this
    {
      if ended then a.End? && Did(a.tick, out, path)
      else a.FallTo? && Snapshot() == a.next && path == [state]
    }

    // The states of a tick in the order the code tries them; each may fall through to the next.
    method ActOnState(s: Sample) returns (out: Output, ghost path: seq<NavigationState>)
      modifies this
      ensures Did(Decide(config, old(Snapshot()), s), out, path)
    {
      path := [];
      if state == Blocked || state == SensorFault || state == Complete {
        out := Command(0.0, 0.0, true);
        return;
      }
      if state == Forward {
        out, path := FollowRoute(s);
        return;
      }
      if state == Evaluate {
        var ended;
        ended, out, path := ChooseSide(s);
        if ended { return; }
      }
      ghost var rest;
      out, rest := ActOnBypass(s);
      path := path + rest;
    }

    method ActOnBypass(s: Sample) returns (out: Output, ghost path: seq<NavigationState>)
      requires state.ShiftOut? || state.PassObstacle? || state.ShiftBack? || state.Waiting?
      modifies this
      ensures Did(Decide(config, old(Snapshot()), s), out, path)
    {
      path := [];
      if state == ShiftOut {
        var ended;
        ended, out, path := MoveAside(s);
        if ended { return; }
      }
      ghost var rest;
      out, rest := ActOnReturn(s);
      path := path + rest;
    }

    method ActOnReturn(s: Sample) returns (out: Output, ghost path: seq<NavigationState>)
      requires state.PassObstacle? || state.ShiftBack? || state.Waiting?
      modifies this
      ensures Did(Decide(config, old(Snapshot()), s), out, path)
    {
      path := [];
      if state == PassObstacle {
        var ended;
        ended, out, path := PassBy(s);
        if ended { return; }
      }
      ghost var rest;
      if state == ShiftBack {
        out, rest := Rejoin(s);
      } else {
        rest := Fail(InvalidState, false);
        out := Command(0.0, 0.0, true);
      }
      path := path + rest;
    }

    method FollowRoute(s: Sample) returns (out: Output, ghost path: seq<NavigationState>)
      requires state == Forward
      modifies this
      ensures Acted(PlannerModel.FollowRoute(config, old(Snapshot()), s), true, out, path)
    {
      path := [];
      if route.forward >= config.targetDistance {
        state := Complete;
        path := [state];
        reason := TargetReached;
        out := Command(0.0, 0.0, true);
        return;
      }
      if s.front <= config.stopDistance {
        blockedCount := blockedCount + 1;
      } else {
        blockedCount := 0;
      }
      if blockedCount >= config.blockedFrames {
        state := Evaluate;
        path := [state];
        reason := ObstacleConfirmed;
        blockedCount := 0;
        out := Command(0.0, 0.0, false);
        return;
      }
      reason := FollowingRoute;
      out := Command(config.forwardSpeed, 0.0, false);
    }

    method ChooseSide(s: Sample) returns (ended: bool, out: Output, ghost path: seq<NavigationState>)
      requires state == Evaluate
      modifies this
      ensures Acted(PlannerModel.ChooseSide(config, old(Snapshot()), s), ended, out, path)
    {
      ended, path := true, [];
      if bypass.attempts >= config.maxBypassAttempts {
        path := Fail(AttemptsExhausted, false);
        out := Command(0.0, 0.0, true);
        return;
      }
      var bestClearance := Max(s.left, s.right);
      if bestClearance < config.minSideClearance {
        path := Fail(NoSideClearance, false);
        out := Command(0.0, 0.0, true);
        return;
      }
      bypass := bypass.(side := if s.left >= s.right then Left else Right);
      bypass := bypass.(goal := Signed(bypass.side, config.lateralShift));
      bypass := bypass.(attempts := bypass.attempts + 1);
      state := ShiftOut;
      path := [state];
      reason := if bypass.side.Left? then BypassingLeft else BypassingRight;
      ended, out := false, *;
    }

    method MoveAside(s: Sample) returns (ended: bool, out: Output, ghost path: seq<NavigationState>)
      requires state == ShiftOut
      modifies this
      ensures Acted(PlannerModel.MoveAside(config, old(Snapshot()), s), ended, out, path)
    {
      ended, path := true, [];
      if !SideIsClear(config, s, bypass.side) {
        path := Fail(SideUnsafe, false);
        out := Command(0.0, 0.0, true);
        return;
      }
      var reached := if bypass.side.Left?
        then route.lateral >= bypass.goal - config.rejoinTolerance
        else route.lateral <= bypass.goal + config.rejoinTolerance;
      if !reached {
        out := Command(0.0, Signed(bypass.side, config.lateralSpeed), false);
        return;
      }
      bypass := bypass.(start := route.forward);
      bypass := bypass.(clearCount := 0);
      state := PassObstacle;
      path := [state];
      reason := ClearanceReached;
      ended, out := false, *;
    }

    method PassBy(s: Sample) returns (ended: bool, out: Output, ghost path: seq<NavigationState>)
      requires state == PassObstacle
      modifies this
      ensures Acted(PlannerModel.PassBy(config, old(Snapshot()), s), ended, out, path)
    {
      ended, path := true, [];
      if s.front <= config.stopDistance {
        path := Fail(CorridorBlocked, false);
        out := Command(0.0, 0.0, true);
        return;
      }
      if s.front >= config.resumeDistance {
        bypass := bypass.(clearCount := bypass.clearCount + 1);
      } else {
        bypass := bypass.(clearCount := 0);
      }
      var passedDistance := route.forward - bypass.start >= config.bypassForwardDistance;
      if route.forward >= config.targetDistance {
        bypass := bypass.(completeAfterRejoin := true);
        state := ShiftBack;
        path := [state];
        reason := TargetReachedOffRoute;
      } else if passedDistance && bypass.clearCount >= config.clearFrames {
        state := ShiftBack;
        path := [state];
        reason := ObstaclePassed;
      } else {
        out := Command(config.forwardSpeed, 0.0, false);
        return;
      }
      ended, out := false, *;
    }

    method Rejoin(s: Sample) returns (out: Output, ghost path: seq<NavigationState>)
      requires state == ShiftBack
      modifies this
      ensures Acted(PlannerModel.Rejoin(config, old(Snapshot()), s), true, out, path)
    {
      path := [];
      var returnSide := Opposite(bypass.side);
      if !SideIsClear(config, s, returnSide) {
        path := Fail(ReturnUnsafe, false);
        out := Command(0.0, 0.0, true);
        return;
      }
      if s.front <= config.stopDistance {
        path := Fail(ObstacleOnReturn, false);
        out := Command(0.0, 0.0, true);
        return;
      }
      var rejoined := -config.rejoinTolerance <= route.lateral <= config.rejoinTolerance;
      if !rejoined {
        out := Command(0.0, Signed(returnSide, config.lateralSpeed), false);
        return;
      }
      bypass := bypass.(side := Center);
      if bypass.completeAfterRejoin || route.forward >= config.targetDistance {
        state := Complete;
        path := [state];
        reason := TargetReachedOnCenter;
        out := Command(0.0, 0.0, true);
        return;
      }
      state := Forward;
      path := [state];
      reason := RouteRestored;
      blockedCount := 0;
      bypass := bypass.(clearCount := 0);
      out := Command(config.forwardSpeed, 0.0, false);
    }
  }
}
