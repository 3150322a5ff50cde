/**
 One call of `update`, told at once: for every outcome of a tick, exactly which readings, position
 and counters lead to it, whatever states the tick falls through on the way. The rules name none of
 the functions that a tick is made of.
 */
module PlannerTicks {
  import opened PlannerModel
  import opened PlannerRuns
  import opened PlannerSafety
  import opened PlannerWatchdog

  // ----- what a tick starts from -----

  /** The state that acts first; the first usable sample makes it Forward. */
  function From(p: Planner): NavigationState {
    if p.initialized then p.state else Forward
  }

  /** The tick begins in this state or falls through to it. */
  predicate ComesTo(p: Planner, t: Tick, state: NavigationState) {
    From(p) == state || state in t.path
  }

  /** The side the tick has to do with: a tick from Evaluate takes the one with more room, the left one on a tie. */
  function SideOf(p: Planner, s: Sample): Side {
    if !From(p).Evaluate? then p.bypass.side else if s.left >= s.right then Left else Right
  }

  function RoomOn(side: Side, s: Sample): real {
    match side
    case Left => s.left
    case Right => s.right
    case Center => 0.0
  }

  function OtherSide(side: Side): Side {
    match side
    case Left => Right
    case Right => Left
    case Center => Center
  }

  /** How far the robot is on this side of its route. */
  function Aside(side: Side, lateral: real): real {
    if side.Left? then lateral else -lateral
  }

  // ----- the outcomes -----

  predicate StopsAtObstacle(reason: Reason) {
    match reason
    case AttemptsExhausted => true
    case NoSideClearance => true
    case SideUnsafe => true
    case CorridorBlocked => true
    case ReturnUnsafe => true
    case ObstacleOnReturn => true
    case _ => false
  }

  /** A tick that is blocked, and why. */
  ghost predicate StopsExactly(cfg: Config, p: Planner, s: Sample, t: Tick) {
    var side := SideOf(p, s);
    && ((t.next.state.Blocked? && t.next.reason.AttemptsExhausted?)
        <==> From(p).Evaluate? && p.bypass.attempts >= cfg.maxBypassAttempts)
    && ((t.next.state.Blocked? && t.next.reason.NoSideClearance?)
        <==> && From(p).Evaluate? && p.bypass.attempts < cfg.maxBypassAttempts
             && s.left < cfg.minSideClearance && s.right < cfg.minSideClearance)
    && ((t.next.state.Blocked? && t.next.reason.SideUnsafe?)
        <==> ComesTo(p, t, ShiftOut) && RoomOn(side, s) < cfg.sideStopDistance)
    && ((t.next.state.Blocked? && t.next.reason.CorridorBlocked?)
        <==> ComesTo(p, t, PassObstacle) && s.front <= cfg.stopDistance)
    && ((t.next.state.Blocked? && t.next.reason.ReturnUnsafe?)
        <==> ComesTo(p, t, ShiftBack) && RoomOn(OtherSide(side), s) < cfg.sideStopDistance)
    && ((t.next.state.Blocked? && t.next.reason.ObstacleOnReturn?)
        <==> && ComesTo(p, t, ShiftBack) && RoomOn(OtherSide(side), s) >= cfg.sideStopDistance
             && s.front <= cfg.stopDistance)
    && !t.next.state.SensorFault?
    && (t.next.state.Blocked? ==> StopsAtObstacle(t.next.reason))
  }

  /** Nothing is in the way of a return to the route. */
  predicate ReturnIsFree(cfg: Config, p: Planner, s: Sample) {
    RoomOn(OtherSide(SideOf(p, s)), s) >= cfg.sideStopDistance && s.front > cfg.stopDistance
  }

  predicate AtTarget(cfg: Config, t: Tick) {
    t.next.route.forward >= cfg.targetDistance
  }

  predicate NearRoute(cfg: Config, t: Tick) {
    -cfg.rejoinTolerance <= t.next.route.lateral <= cfg.rejoinTolerance
  }

  /** The states a tick goes on to. */
  ghost predicate AdvancesExactly(cfg: Config, p: Planner, s: Sample, t: Tick) {
    var side := SideOf(p, s);
    && ComesTo(p, t, t.next.state)
    && (Evaluate in t.path
        <==> && From(p).Forward? && !AtTarget(cfg, t)
             && s.front <= cfg.stopDistance && p.blockedCount + 1 >= cfg.blockedFrames)
    && (ShiftOut in t.path
        <==> && From(p).Evaluate? && p.bypass.attempts < cfg.maxBypassAttempts
             && (s.left >= cfg.minSideClearance || s.right >= cfg.minSideClearance))
    && (PassObstacle in t.path
        <==> && ComesTo(p, t, ShiftOut) && RoomOn(side, s) >= cfg.sideStopDistance
             && Aside(side, t.next.route.lateral) >= cfg.lateralShift - cfg.rejoinTolerance)
    && (ShiftBack in t.path
        <==> && ComesTo(p, t, PassObstacle) && s.front > cfg.stopDistance
             && (|| AtTarget(cfg, t)
                 || (&& From(p).PassObstacle? && t.next.route.forward - p.bypass.start >= cfg.bypassForwardDistance
                     && s.front >= cfg.resumeDistance && p.bypass.clearCount + 1 >= cfg.clearFrames)))
    && (!p.initialized ==> Forward in t.path)
    && (p.initialized ==>
          (Forward in t.path
           <==> && ComesTo(p, t, ShiftBack) && ReturnIsFree(cfg, p, s) && NearRoute(cfg, t)
                && !AtTarget(cfg, t) && !p.bypass.completeAfterRejoin))
    && (Complete in t.path
        <==> || (From(p).Forward? && AtTarget(cfg, t))
             || (&& ComesTo(p, t, ShiftBack) && ReturnIsFree(cfg, p, s) && NearRoute(cfg, t)
                 && (AtTarget(cfg, t) || p.bypass.completeAfterRejoin)))
  }

  /** The reason a tick gives for the state it leaves. */
  function ReasonFor(p: Planner, side: Side, t: Tick): Reason {
    match t.next.state
    case Forward => if From(p).Forward? then FollowingRoute else RouteRestored
    case Evaluate => ObstacleConfirmed
    case ShiftOut =>
      if From(p).ShiftOut? then p.reason else if side.Left? then BypassingLeft else BypassingRight
    case PassObstacle => if From(p).PassObstacle? then p.reason else ClearanceReached
    case ShiftBack =>
      if From(p).ShiftBack? then p.reason
      else if t.next.bypass.completeAfterRejoin then TargetReachedOffRoute else ObstaclePassed
    case Complete => if From(p).Forward? then TargetReached else TargetReachedOnCenter
    case _ => t.next.reason
  }

  /** The command goes with the state left: ahead, toward the side, back from it, or none. */
  ghost predicate CommandsExactly(cfg: Config, p: Planner, s: Sample, t: Tick) {
    var side, state := SideOf(p, s), t.next.state;
    && t.out.vx == (if state.Forward? || state.PassObstacle? then cfg.forwardSpeed else 0.0)
    && (state.ShiftOut? || state.ShiftBack? ==> !side.Center?)
    && t.out.vy == (if (state.ShiftOut? && side.Left?) || (state.ShiftBack? && side.Right?) then cfg.lateralSpeed
                    else if state.ShiftOut? || state.ShiftBack? then -cfg.lateralSpeed
                    else 0.0)
    && t.out.yawRate == 0.0 && (t.out.stop <==> t.out.vx == t.out.vy == 0.0)
    && t.out.state == t.next.state && t.out.forward == t.next.route.forward && t.out.lateral == t.next.route.lateral
    && t.out.attempts == t.next.bypass.attempts && t.out.reason == t.next.reason == ReasonFor(p, side, t)
  }

  /** What a tick remembers for the next ones. */
  ghost predicate RemembersExactly(cfg: Config, p: Planner, s: Sample, t: Tick) {
    var side, q := SideOf(p, s), t.next;
    && q.bypass.attempts == p.bypass.attempts + (if ShiftOut in t.path then 1 else 0)
    && (q.state.Forward? ==>
          q.blockedCount == if From(p).Forward? && s.front <= cfg.stopDistance then p.blockedCount + 1 else 0)
    && q.bypass.side == (if q.state.Forward? || q.state.Complete? then Center
                         else if From(p).Evaluate? && ShiftOut !in t.path then p.bypass.side else side)
    && (q.state.ShiftBack? ==>
          (q.bypass.completeAfterRejoin <==>
             p.bypass.completeAfterRejoin || (ShiftBack in t.path && AtTarget(cfg, t))))
    && (q.state.PassObstacle? ==>
          && q.bypass.start == (if From(p).PassObstacle? then p.bypass.start else q.route.forward)
          && q.bypass.clearCount
               == (if s.front < cfg.resumeDistance then 0
                   else if From(p).PassObstacle? then p.bypass.clearCount + 1 else 1))
  }

  /** Where the robot is: along the heading of its route and across it, from where the route began. */
  predicate LocatesExactly(p: Planner, s: Sample, t: Tick) {
    var began := if p.initialized then p.route.origin else s.at;
    var h := if p.initialized then p.route.heading else s.heading;
    var dx, dy := s.at.x - began.x, s.at.y - began.y;
    && t.next.route.origin == began && t.next.route.heading == h
    && t.next.route.forward == dx * h.cos + dy * h.sin
    && t.next.route.lateral == dy * h.cos - dx * h.sin
  }

  // ----- the proofs, down the fall-through -----

  /** All of these at once. */
  ghost predicate Told(cfg: Config, p: Planner, s: Sample, t: Tick) {
    && StopsExactly(cfg, p, s, t) && AdvancesExactly(cfg, p, s, t)
    && CommandsExactly(cfg, p, s, t) && RemembersExactly(cfg, p, s, t)
  }

  lemma ForwardEnds(cfg: Config, p: Planner, s: Sample)
    requires Usual(cfg) && Valid(cfg, p) && p.initialized && p.state.Forward? && FollowRoute(cfg, p, s).End?
    ensures Told(cfg, p, s, FollowRoute(cfg, p, s).tick)
  {
  }

  lemma EvaluateEnds(cfg: Config, p: Planner, s: Sample)
    requires Usual(cfg) && Valid(cfg, p) && p.initialized && p.state.Evaluate? && ChooseSide(cfg, p, s).End?
    ensures Told(cfg, p, s, ChooseSide(cfg, p, s).tick)
  {
  }

  lemma ShiftOutEnds(cfg: Config, p: Planner, s: Sample)
    requires Usual(cfg) && Valid(cfg, p) && p.initialized && p.state.ShiftOut? && MoveAside(cfg, p, s).End?
    ensures Told(cfg, p, s, MoveAside(cfg, p, s).tick)
  {
  }

  lemma PassObstacleEnds(cfg: Config, p: Planner, s: Sample)
    requires Usual(cfg) && Valid(cfg, p) && p.initialized && p.state.PassObstacle? && PassBy(cfg, p, s).End?
    ensures Told(cfg, p, s, PassBy(cfg, p, s).tick)
  {
  }

  lemma ShiftBackStops(cfg: Config, p: Planner, s: Sample)
    requires Usual(cfg) && Valid(cfg, p) && p.initialized && p.state.ShiftBack? && Rejoin(cfg, p, s).End?
    ensures StopsExactly(cfg, p, s, Rejoin(cfg, p, s).tick) && AdvancesExactly(cfg, p, s, Rejoin(cfg, p, s).tick)
  {
  }

  lemma ShiftBackEnds(cfg: Config, p: Planner, s: Sample)
    requires Usual(cfg) && Valid(cfg, p) && p.initialized && p.state.ShiftBack? && Rejoin(cfg, p, s).End?
    ensures Told(cfg, p, s, Rejoin(cfg, p, s).tick)
  {
    hide StopsExactly, AdvancesExactly;
    ShiftBackStops(cfg, p, s);
  }

  lemma EvaluateFallsThrough(cfg: Config, p: Planner, q: Planner, s: Sample, t: Tick)
    requires Usual(cfg) && Valid(cfg, p) && p.initialized && p.state.Evaluate? && ChooseSide(cfg, p, s) == FallTo(q)
    requires t.next.route == q.route && Told(cfg, q, s, t)
    ensures Told(cfg, p, s, Entering(ShiftOut, t))
  {
  }

  lemma ShiftOutFallsThrough(cfg: Config, p: Planner, q: Planner, s: Sample, t: Tick)
    requires Usual(cfg) && Valid(cfg, p) && p.initialized && p.state.ShiftOut? && MoveAside(cfg, p, s) == FallTo(q)
    requires t.next.route == q.route && Told(cfg, q, s, t)
    ensures Told(cfg, p, s, Entering(PassObstacle, t))
  {
  }

  lemma PassObstacleFallsThrough(cfg: Config, p: Planner, q: Planner, s: Sample, t: Tick)
    requires Usual(cfg) && Valid(cfg, p) && p.initialized && p.state.PassObstacle? && PassBy(cfg, p, s) == FallTo(q)
    requires t.next.route == q.route && Told(cfg, q, s, t)
    ensures Told(cfg, p, s, Entering(ShiftBack, t))
  {
  }

  lemma EndTold(cfg: Config, p: Planner, s: Sample)
    requires Usual(cfg) && Valid(cfg, p) && p.initialized && !Terminal(p.state) && Act(cfg, p, s).End?
    ensures Told(cfg, p, s, Act(cfg, p, s).tick)
  {
    hide Told, FollowRoute, ChooseSide, MoveAside, PassBy, Rejoin, Usual;
    match p.state
    case Forward => ForwardEnds(cfg, p, s);
    case Evaluate => EvaluateEnds(cfg, p, s);
    case ShiftOut => ShiftOutEnds(cfg, p, s);
    case PassObstacle => PassObstacleEnds(cfg, p, s);
    case ShiftBack => ShiftBackEnds(cfg, p, s);
  }

  lemma FallTold(cfg: Config, p: Planner, q: Planner, s: Sample, t: Tick)
    requires Usual(cfg) && Valid(cfg, p) && p.initialized && Act(cfg, p, s) == FallTo(q)
    requires t.next.route == q.route && Told(cfg, q, s, t)
    ensures Told(cfg, p, s, Entering(q.state, t)) && q.route == p.route && !Terminal(q.state)
  {
    hide Told, Usual, Entering;
    match p.state
    case Evaluate => EvaluateFallsThrough(cfg, p, q, s, t);
    case ShiftOut => ShiftOutFallsThrough(cfg, p, q, s, t);
    case PassObstacle => PassObstacleFallsThrough(cfg, p, q, s, t);
  }

  lemma {:induction false} DecisionTold(cfg: Config, p: Planner, s: Sample)
    requires Usual(cfg) && Valid(cfg, p) && p.initialized && !Terminal(p.state)
    ensures Told(cfg, p, s, Decide(cfg, p, s))
    decreases FallsLeft(p.state)
  {
    ActKeepsValid(cfg, p, s);
    hide Told, Usual, Valid;
    match Act(cfg, p, s)
    case End(_) => EndTold(cfg, p, s);
    case FallTo(q) =>
      DecisionKeepsRoute(cfg, q, s);
      DecisionTold(cfg, q, s);
      FallTold(cfg, p, q, s, Decide(cfg, q, s));
  }

  // ----- whole ticks -----

  /** The robot has been told to move, and has for the stall timeout stayed nearer to the anchor than the epsilon. */
  predicate Stuck(cfg: Config, p: Planner, s: Sample) {
    var dx, dy := s.at.x - p.watch.anchor.x, s.at.y - p.watch.anchor.y;
    && p.initialized && p.watch.moving && s.now - p.watch.lastProgress >= cfg.motionStallTimeout
    && cfg.motionProgressEpsilon > 0.0
    && dx * dx + dy * dy < cfg.motionProgressEpsilon * cfg.motionProgressEpsilon
  }

  lemma StuckIsStalled(cfg: Config, p: Planner, s: Sample)
    requires Valid(cfg, p)
    ensures Stalled(cfg, Prepared(p, s).watch, s) <==> Stuck(cfg, p, s)
  {
    hide Located;
  }

  /**
   A tick on good readings, exactly: how it is stopped, where it goes, what it commands, what it
   remembers and where it sees the robot, unless the planner has ended before or the robot is stuck.
   */
  lemma TickExactly(cfg: Config, p: Planner, input: PlannerInput)
    requires Usual(cfg) && Valid(cfg, p) && !Terminal(From(p)) && Usable(input) && !Stuck(cfg, p, Sampled(input))
    ensures var r, pose, t := input.range, input.pose, Update(cfg, p, input);
            var s := Sample(r.front.value, r.left.value, r.right.value, Vec(pose.x.value, pose.y.value),
                            pose.yaw.heading, input.now);
            && StopsExactly(cfg, p, s, t) && AdvancesExactly(cfg, p, s, t)
            && CommandsExactly(cfg, p, s, t) && RemembersExactly(cfg, p, s, t) && LocatesExactly(p, s, t)
  {
    LocatedByTick(cfg, p, input);
    var s, q := Sampled(input), Handed(cfg, p, input);
    StuckIsStalled(cfg, p, s);
    HandedOver(cfg, p, input);
    DecisionTold(cfg, q, s);
    hide Decide, Usual, Valid;
    var t := Decide(cfg, q, s);
    StopsHandedOver(cfg, p, q, s, t);
    MovesHandedOver(cfg, p, q, s, t);
  }

  lemma LocatedByTick(cfg: Config, p: Planner, input: PlannerInput)
    requires Usable(input)
    ensures LocatesExactly(p, Sampled(input), Update(cfg, p, input))
  {
    RouteStep(cfg, p, Sense(input));
    hide Update;
  }

  /** The planner that the states of a tick get differs from the one before in its route and watchdog only. */
  predicate HandsOver(p: Planner, q: Planner) {
    && From(q) == From(p) && q.initialized && q.bypass == p.bypass && q.blockedCount == p.blockedCount
    && (if p.initialized then q.reason == p.reason else From(p).Forward?)
  }

  lemma HandedOver(cfg: Config, p: Planner, input: PlannerInput)
    requires Usual(cfg) && Valid(cfg, p) && Usable(input)
    ensures HandsOver(p, Handed(cfg, p, input)) && Valid(cfg, Handed(cfg, p, input))
  {
  }

  function AsOf(p: Planner, t: Tick): Tick {
    if p.initialized then t else Entering(Forward, t)
  }

  lemma StopsHandedOver(cfg: Config, p: Planner, q: Planner, s: Sample, t: Tick)
    requires HandsOver(p, q) && Told(cfg, q, s, t) && !Terminal(From(p))
    ensures StopsExactly(cfg, p, s, AsOf(p, t)) && AdvancesExactly(cfg, p, s, AsOf(p, t))
  {
    hide CommandsExactly, RemembersExactly;
  }

  lemma MovesHandedOver(cfg: Config, p: Planner, q: Planner, s: Sample, t: Tick)
    requires HandsOver(p, q) && Told(cfg, q, s, t) && !Terminal(From(p))
    ensures CommandsExactly(cfg, p, s, AsOf(p, t)) && RemembersExactly(cfg, p, s, AsOf(p, t))
  {
    hide StopsExactly;
  }

  // ----- the sensors -----

  /**
   A started planner that has not ended reports a sensor fault if and only if a reading is not
   fresh, not valid, not finite, or a range is not positive; and without all of these no planner moves.
   */
  lemma SensorFaultExactly(cfg: Config, p: Planner, input: PlannerInput)
    requires Usual(cfg) && Valid(cfg, p)
    ensures var t, r, pose := Update(cfg, p, input), input.range, input.pose;
            var good := && input.rangeFresh && input.poseFresh && r.valid && pose.valid
                        && r.front.Finite? && r.left.Finite? && r.right.Finite?
                        && r.front.value > 0.0 && r.left.value > 0.0 && r.right.value > 0.0
                        && pose.x.Finite? && pose.y.Finite? && pose.yaw.Yaw?;
            && (p.initialized && !p.state.SensorFault? ==>
                  (t.next.state.SensorFault? <==> !good)
                  && (!good ==> t.next.reason.SensorsStale? && t.out.terminal))
            && (!p.initialized ==> if good then t.next.initialized else t.next == p && !t.out.terminal)
            && (!good ==> t.out.vx == t.out.vy == t.out.yawRate == 0.0 && t.out.stop)
            && (good && p.initialized && Terminal(p.state) ==>
                  t.next.state == p.state && t.next.reason == p.reason)
  {
    hide Decide;
    if Usable(input) {
      EventKeepsValid(cfg, p, Sense(input));
      if !Terminal(From(p)) {
        if Stuck(cfg, p, Sampled(input)) {
          StuckIsStalled(cfg, p, Sampled(input));
        } else {
          TickExactly(cfg, p, input);
        }
      } else {
        TerminalTick(cfg, p, Sampled(input));
      }
    }
  }

  lemma TerminalTick(cfg: Config, p: Planner, s: Sample)
    requires Valid(cfg, p) && p.initialized && Terminal(p.state)
    ensures var q := Supervise(cfg, Prepared(p, s), s).next; q.state == p.state && q.reason == p.reason
  {
    hide Located;
  }

  // ----- the side of a bypass -----

  /**
   The side with more room: a tick that begins a shift does so from Evaluate and to the side whose
   range is at least the other one's, the left one if they are equal, and its command goes there.
   */
  lemma SideWithMoreRoom(cfg: Config, events: seq<Event>, i: nat)
    requires Usual(cfg) && i < |events| && UsableAt(events, i) && ShiftOut in TickAt(cfg, events, i).path
    ensures StateAt(cfg, events, i).state.Evaluate?
    ensures var t, r := TickAt(cfg, events, i), events[i].input.range;
            && (t.next.bypass.side.Left? ==> r.left.value >= r.right.value)
            && (t.next.bypass.side.Right? ==> r.right.value > r.left.value)
            && (t.next.bypass.side.Center? ==> t.next.state.Forward? || t.next.state.Complete?)
            && (t.next.state.ShiftOut? ==>
                  if r.left.value >= r.right.value
                  then t.out.vy == cfg.lateralSpeed && t.next.bypass.goal == cfg.lateralShift
                       && t.next.reason.BypassingLeft?
                  else t.out.vy == -cfg.lateralSpeed && t.next.bypass.goal == -cfg.lateralShift
                       && t.next.reason.BypassingRight?)
  {
    hide Update;
    var p, input := StateAt(cfg, events, i), events[i].input;
    AlwaysValid(cfg, events, i);
    EventKeepsValid(cfg, p, events[i]);
    BeginsShift(cfg, p, input);
    TickExactly(cfg, p, input);
  }

  // A tick that ends early does not shift.
  lemma BeginsShift(cfg: Config, p: Planner, input: PlannerInput)
    requires Usual(cfg) && Valid(cfg, p) && Usable(input) && ShiftOut in Update(cfg, p, input).path
    ensures !Terminal(From(p)) && !Stuck(cfg, p, Sampled(input))
  {
    StuckIsStalled(cfg, p, Sampled(input));
  }

  // ----- over a run -----

  /**
   The stall watchdog, exactly: of a started run that has not ended, a good sample is stopped for
   want of progress if and only if the call before commanded motion and since the last restart of
   the watchdog the timeout has passed and the robot has stayed nearer than the epsilon.
   */
  lemma StallExactly(cfg: Config, events: seq<Event>, i: nat)
    requires Usual(cfg) && i < |events| && UsableAt(events, i)
    requires StateAt(cfg, events, i).initialized && !Terminal(StateAt(cfg, events, i).state)
    ensures LastRestart(cfg, events, i) >= 0
    ensures var q, s := TickAt(cfg, events, i).next, SampleAt(events, i);
            var since := SampleAt(events, LastRestart(cfg, events, i));
            var dx, dy := s.at.x - since.at.x, s.at.y - since.at.y;
            q.state.Blocked? && q.reason.NoOdometryProgress?
            <==> && i > 0 && Moving(cfg, events, i - 1) && s.now - since.now >= cfg.motionStallTimeout
                 && cfg.motionProgressEpsilon > 0.0
                 && dx * dx + dy * dy < cfg.motionProgressEpsilon * cfg.motionProgressEpsilon
  {
    hide Update;
    AlwaysValid(cfg, events, i);
    WatchdogMirrorsRun(cfg, events, i);
    StoppedWhenStuck(cfg, StateAt(cfg, events, i), events[i].input);
  }

  lemma StoppedWhenStuck(cfg: Config, p: Planner, input: PlannerInput)
    requires Usual(cfg) && Valid(cfg, p) && Usable(input) && p.initialized && !Terminal(p.state)
    ensures var q := Update(cfg, p, input).next;
            q.state.Blocked? && q.reason.NoOdometryProgress? <==> Stuck(cfg, p, Sampled(input))
  {
    StuckIsStalled(cfg, p, Sampled(input));
    if !Stuck(cfg, p, Sampled(input)) {
      TickExactly(cfg, p, input);
      hide Update;
    }
  }

  /** Call `i` is a good sample with the front at the stop distance or closer, and finds the planner in Forward. */
  predicate CloseInForward(cfg: Config, events: seq<Event>, i: nat)
    requires i < |events|
  {
    UsableAt(events, i) && SampleAt(events, i).front <= cfg.stopDistance && From(StateAt(cfg, events, i)).Forward?
  }

  lemma ForwardCounts(cfg: Config, events: seq<Event>, i: nat)
    requires Usual(cfg) && i < |events| && From(StateAt(cfg, events, i + 1)).Forward?
    ensures StateAt(cfg, events, i + 1).blockedCount
         == if CloseInForward(cfg, events, i) then StateAt(cfg, events, i).blockedCount + 1 else 0
    ensures CloseInForward(cfg, events, i) ==> From(StateAt(cfg, events, i)).Forward?
  {
    hide Update;
    var p := StateAt(cfg, events, i);
    AlwaysValid(cfg, events, i);
    AlwaysValid(cfg, events, i + 1);
    EventKeepsValid(cfg, p, events[i]);
    if UsableAt(events, i) && StateAt(cfg, events, i + 1).state.Forward? {
      GoesForward(cfg, p, events[i].input);
      TickExactly(cfg, p, events[i].input);
    } else {
      UnusableEvent(cfg, p, events[i]);
    }
  }

  lemma GoesForward(cfg: Config, p: Planner, input: PlannerInput)
    requires Usual(cfg) && Valid(cfg, p) && Usable(input) && Update(cfg, p, input).next.state.Forward?
    ensures !Terminal(From(p)) && !Stuck(cfg, p, Sampled(input))
  {
    StuckIsStalled(cfg, p, Sampled(input));
  }

  lemma UnusableEvent(cfg: Config, p: Planner, e: Event)
    requires Usual(cfg) && Valid(cfg, p) && !(e.Sense? && Usable(e.input)) && From(After(cfg, p, e)).Forward?
    ensures !p.initialized && After(cfg, p, e).blockedCount == 0
  {
  }

  /** The debounce counter of a planner in Forward is the length of the latest row of such calls. */
  lemma {:induction false} CountIsRow(cfg: Config, events: seq<Event>, n: nat)
    requires Usual(cfg) && n <= |events| && From(StateAt(cfg, events, n)).Forward?
    ensures var c := StateAt(cfg, events, n).blockedCount;
            && c <= n && (forall m | n - c <= m < n :: CloseInForward(cfg, events, m))
            && (c < n ==> !CloseInForward(cfg, events, n - c - 1))
  {
    hide Update, CloseInForward;
    if n > 0 {
      ForwardCounts(cfg, events, n - 1);
      if CloseInForward(cfg, events, n - 1) {
        CountIsRow(cfg, events, n - 1);
      }
    }
  }

  /**
   The debounce, exactly: of a run that is short of its target and not stuck, a call stops to evaluate if
   and only if it and those just before it make `blockedFrames` close good samples in Forward in a row.
   */
  lemma ObstacleConfirmedExactly(cfg: Config, events: seq<Event>, i: nat)
    requires Usual(cfg) && i < |events| && UsableAt(events, i)
    requires !Stuck(cfg, StateAt(cfg, events, i), SampleAt(events, i))
    requires StateAt(cfg, events, i + 1).route.forward < cfg.targetDistance
    requires !Terminal(From(StateAt(cfg, events, i)))
    ensures Evaluate in TickAt(cfg, events, i).path
        <==> i + 1 >= cfg.blockedFrames
             && forall m | i + 1 - cfg.blockedFrames <= m <= i :: CloseInForward(cfg, events, m)
  {
    hide Update, Stuck, StopsExactly, CommandsExactly, RemembersExactly;
    var p, frames := StateAt(cfg, events, i), cfg.blockedFrames;
    AlwaysValid(cfg, events, i);
    TickExactly(cfg, p, events[i].input);
    if From(p).Forward? {
      CountIsRow(cfg, events, i);
      assert CloseInForward(cfg, events, i) <==> SampleAt(events, i).front <= cfg.stopDistance;
      if p.blockedCount + 1 < frames <= i + 1 {
        assert !CloseInForward(cfg, events, i - p.blockedCount - 1);
      }
    } else {
      assert !CloseInForward(cfg, events, i);
    }
  }
}
