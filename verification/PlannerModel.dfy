/**
 The Go2 local planner as values: its configuration, its inputs and outputs, the
 state kept between two control ticks, and one control tick as a function.

 Floats are reals. A reading that may be NaN or infinite is a `Reading`. The yaw angle
 enters the planner only through its cosine and sine, so a finite yaw is a unit vector.
 */
module PlannerModel {

  datatype NavigationState =
    | Waiting
    | Forward
    | Evaluate
    | ShiftOut
    | PassObstacle
    | ShiftBack
    | Complete
    | Blocked
    | SensorFault

  predicate Terminal(state: NavigationState) {
    state.Complete? || state.Blocked? || state.SensorFault?
  }

  // One constructor for each message the planner or its control loop can report.
  datatype Reason =
    | AwaitingSensors
    | SensorsReady
    | SensorsStale
    | NoOdometryProgress
    | TargetReached
    | ObstacleConfirmed
    | FollowingRoute
    | AttemptsExhausted
    | NoSideClearance
    | BypassingLeft
    | BypassingRight
    | SideUnsafe
    | ClearanceReached
    | CorridorBlocked
    | TargetReachedOffRoute
    | ObstaclePassed
    | ReturnUnsafe
    | ObstacleOnReturn
    | TargetReachedOnCenter
    | RouteRestored
    | InvalidState
    | RuntimeExceeded
    | MoveFailures

  // ----- configuration -----

  datatype Config = Config(
    targetDistance: real,
    forwardSpeed: real,
    lateralSpeed: real,
    stopDistance: real,
    resumeDistance: real,
    minSideClearance: real,
    sideStopDistance: real,
    lateralShift: real,
    bypassForwardDistance: real,
    rejoinTolerance: real,
    motionProgressEpsilon: real,
    motionStallTimeout: real,
    blockedFrames: int,
    clearFrames: int,
    maxBypassAttempts: int)

  function Max(a: real, b: real): real {
    if a < b then b else a
  }

  function MaxInt(a: int, b: int): int {
    if a < b then b else a
  }

  /** The configuration the planner works with: what its constructor makes of the one it is given. */
  function Clamped(c: Config): Config {
    var stop := Max(0.20, c.stopDistance);
    var sideStop := Max(0.10, c.sideStopDistance);
    var shift := Max(0.20, c.lateralShift);
    Config(
      Max(0.1, c.targetDistance),
      Max(0.05, c.forwardSpeed),
      Max(0.05, c.lateralSpeed),
      stop,
      Max(stop + 0.10, c.resumeDistance),
      Max(Max(0.20, c.minSideClearance), shift + sideStop),
      sideStop,
      shift,
      Max(0.30, c.bypassForwardDistance),
      Max(0.02, c.rejoinTolerance),
      c.motionProgressEpsilon,
      Max(0.5, c.motionStallTimeout),
      MaxInt(1, c.blockedFrames),
      MaxInt(1, c.clearFrames),
      MaxInt(0, c.maxBypassAttempts))
  }

  /** The bounds every planner can rely on. */
  predicate Usual(c: Config) {
    && c.targetDistance >= 0.1
    && c.forwardSpeed >= 0.05
    && c.lateralSpeed >= 0.05
    && c.stopDistance >= 0.20
    && c.resumeDistance >= c.stopDistance + 0.10
    && c.sideStopDistance >= 0.10
    && c.lateralShift >= 0.20
    && c.minSideClearance >= c.lateralShift + c.sideStopDistance
    && c.bypassForwardDistance >= 0.30
    && c.rejoinTolerance >= 0.02
    && c.motionStallTimeout >= 0.5
    && c.blockedFrames >= 1
    && c.clearFrames >= 1
    && c.maxBypassAttempts >= 0
  }

  // ----- inputs -----

  datatype Reading = Finite(value: real) | NotFinite

  predicate FinitePositive(r: Reading) {
    r.Finite? && r.value > 0.0
  }

  datatype Vec = Vec(x: real, y: real)

  datatype Heading = Heading(cos: real, sin: real)

  predicate IsUnit(h: Heading) {
    h.cos * h.cos + h.sin * h.sin == 1.0
  }

  datatype Yaw = Yaw(heading: Heading) | YawNotFinite

  datatype RangeSample = RangeSample(front: Reading, left: Reading, right: Reading, valid: bool)

  datatype PoseSample = PoseSample(x: Reading, y: Reading, yaw: Yaw, valid: bool)

  datatype PlannerInput = PlannerInput(
    range: RangeSample,
    pose: PoseSample,
    now: real,
    rangeFresh: bool,
    poseFresh: bool)

  predicate ValuesValid(input: PlannerInput) {
    && input.range.valid && input.pose.valid
    && FinitePositive(input.range.front)
    && FinitePositive(input.range.left)
    && FinitePositive(input.range.right)
    && input.pose.x.Finite? && input.pose.y.Finite? && input.pose.yaw.Yaw?
  }

  predicate Usable(input: PlannerInput) {
    input.rangeFresh && input.poseFresh && ValuesValid(input)
  }

  /** What a tick reads from a usable input. */
  datatype Sample = Sample(
    front: real,
    left: real,
    right: real,
    at: Vec,
    heading: Heading,
    now: real)

  function Sampled(input: PlannerInput): Sample
    requires Usable(input)
  {
    Sample(
      input.range.front.value, input.range.left.value, input.range.right.value,
      Vec(input.pose.x.value, input.pose.y.value), input.pose.yaw.heading, input.now)
  }

  // ----- state -----

  datatype Side = Left | Center | Right

  function Opposite(side: Side): Side {
    match side
    case Left => Right
    case Center => Center
    case Right => Left
  }

  /** `v` times the sign of the side: left is positive. */
  function Signed(side: Side, v: real): real {
    match side
    case Left => v
    case Center => 0.0
    case Right => -v
  }

  datatype Route = Route(origin: Vec, heading: Heading, forward: real, lateral: real)

  datatype Watch = Watch(moving: bool, anchor: Vec, lastProgress: real)

  datatype Bypass = Bypass(
    side: Side,
    goal: real,
    start: real,
    clearCount: nat,
    attempts: nat,
    completeAfterRejoin: bool)

  datatype Planner = Planner(
    state: NavigationState,
    reason: Reason,
    initialized: bool,
    route: Route,
    watch: Watch,
    blockedCount: nat,
    bypass: Bypass)

  const ORIGIN := Vec(0.0, 0.0)

  const EAST := Heading(1.0, 0.0)

  /** The planner as constructed. */
  const INITIAL := Planner(
    Waiting, AwaitingSensors, false,
    Route(ORIGIN, EAST, 0.0, 0.0),
    Watch(false, ORIGIN, 0.0),
    0,
    Bypass(Center, 0.0, 0.0, 0, 0, false))

  datatype Output = Output(
    vx: real,
    vy: real,
    yawRate: real,
    stop: bool,
    terminal: bool,
    state: NavigationState,
    forward: real,
    lateral: real,
    attempts: nat,
    reason: Reason)

  // ----- one control tick -----

  /** The planner after a tick, its command, and the states it was set to, in order. */
  datatype Tick = Tick(next: Planner, out: Output, path: seq<NavigationState>)

  function Emit(p: Planner, vx: real, vy: real, terminal: bool): Tick {
    var stop := vx == 0.0 && vy == 0.0;
    Tick(
      p.(watch := p.watch.(moving := !stop)),
      Output(vx, vy, 0.0, stop, terminal, p.state, p.route.forward, p.route.lateral,
             p.bypass.attempts, p.reason),
      [])
  }

  function Entering(state: NavigationState, t: Tick): Tick {
    t.(path := [state] + t.path)
  }

  function Failed(p: Planner, reason: Reason, sensorFault: bool): Planner {
    p.(state := if sensorFault then SensorFault else Blocked,
       reason := reason,
       watch := p.watch.(moving := false))
  }

  function Halt(p: Planner, reason: Reason, sensorFault: bool): Tick {
    var failed := Failed(p, reason, sensorFault);
    Entering(failed.state, Emit(failed, 0.0, 0.0, true))
  }

  function Displacement(from: Vec, to: Vec): Vec {
    Vec(to.x - from.x, to.y - from.y)
  }

  function Square(r: real): real {
    r * r
  }

  function SquaredLength(v: Vec): real {
    Square(v.x) + Square(v.y)
  }

  /** `sqrt(dx^2 + dy^2) >= bound`, without the root. */
  predicate AtLeast(v: Vec, bound: real) {
    bound <= 0.0 || SquaredLength(v) >= Square(bound)
  }

  function Along(h: Heading, d: Vec): real {
    d.x * h.cos + d.y * h.sin
  }

  function Across(h: Heading, d: Vec): real {
    -d.x * h.sin + d.y * h.cos
  }

  function Located(route: Route, at: Vec): Route {
    var d := Displacement(route.origin, at);
    route.(forward := Along(route.heading, d), lateral := Across(route.heading, d))
  }

  function Started(p: Planner, s: Sample): Planner {
    p.(initialized := true,
       state := Forward,
       reason := SensorsReady,
       route := p.route.(origin := s.at, heading := s.heading),
       watch := p.watch.(anchor := s.at, lastProgress := s.now))
  }

  predicate Progressed(cfg: Config, w: Watch, s: Sample) {
    AtLeast(Displacement(w.anchor, s.at), cfg.motionProgressEpsilon)
  }

  predicate Stalled(cfg: Config, w: Watch, s: Sample) {
    && w.moving
    && !Progressed(cfg, w, s)
    && s.now - w.lastProgress >= cfg.motionStallTimeout
  }

  function Watched(cfg: Config, w: Watch, s: Sample): Watch {
    if !w.moving || Progressed(cfg, w, s) then w.(anchor := s.at, lastProgress := s.now) else w
  }

  predicate SideIsClear(cfg: Config, s: Sample, side: Side) {
    (if side.Left? then s.left else s.right) >= cfg.sideStopDistance
  }

  /**
   What one state does with a sample: end the tick, or change to a later state that still has
   to act in the same tick.
   */
  datatype Action = End(tick: Tick) | FallTo(next: Planner)

  function FollowRoute(cfg: Config, p: Planner, s: Sample): Action {
    var blocked := if s.front <= cfg.stopDistance then p.blockedCount + 1 else 0;
    if p.route.forward >= cfg.targetDistance then
      End(Entering(Complete, Emit(p.(state := Complete, reason := TargetReached), 0.0, 0.0, true)))
    else if blocked >= cfg.blockedFrames then
      End(Entering(Evaluate, Emit(
        p.(state := Evaluate, reason := ObstacleConfirmed, blockedCount := 0), 0.0, 0.0, false)))
    else
      End(Emit(p.(reason := FollowingRoute, blockedCount := blocked), cfg.forwardSpeed, 0.0, false))
  }

  /** The planner once it has chosen the side with more room. */
  function Selected(cfg: Config, p: Planner, s: Sample): Planner {
    var side := if s.left >= s.right then Left else Right;
    p.(state := ShiftOut,
       reason := if side.Left? then BypassingLeft else BypassingRight,
       bypass := p.bypass.(side := side, goal := Signed(side, cfg.lateralShift),
                           attempts := p.bypass.attempts + 1))
  }

  function ChooseSide(cfg: Config, p: Planner, s: Sample): Action {
    if p.bypass.attempts >= cfg.maxBypassAttempts then
      End(Halt(p, AttemptsExhausted, false))
    else if Max(s.left, s.right) < cfg.minSideClearance then
      End(Halt(p, NoSideClearance, false))
    else
      FallTo(Selected(cfg, p, s))
  }

  predicate ShiftReached(cfg: Config, p: Planner) {
    if p.bypass.side.Left? then p.route.lateral >= p.bypass.goal - cfg.rejoinTolerance
    else p.route.lateral <= p.bypass.goal + cfg.rejoinTolerance
  }

  function MoveAside(cfg: Config, p: Planner, s: Sample): Action {
    if !SideIsClear(cfg, s, p.bypass.side) then
      End(Halt(p, SideUnsafe, false))
    else if !ShiftReached(cfg, p) then
      End(Emit(p, 0.0, Signed(p.bypass.side, cfg.lateralSpeed), false))
    else
      FallTo(p.(state := PassObstacle, reason := ClearanceReached,
                bypass := p.bypass.(start := p.route.forward, clearCount := 0)))
  }

  function ClearFrames(cfg: Config, p: Planner, s: Sample): nat {
    if s.front >= cfg.resumeDistance then p.bypass.clearCount + 1 else 0
  }

  function PassBy(cfg: Config, p: Planner, s: Sample): Action {
    var b := p.bypass.(clearCount := ClearFrames(cfg, p, s));
    if s.front <= cfg.stopDistance then
      End(Halt(p, CorridorBlocked, false))
    else if p.route.forward >= cfg.targetDistance then
      FallTo(p.(state := ShiftBack, reason := TargetReachedOffRoute,
                bypass := b.(completeAfterRejoin := true)))
    else if p.route.forward - b.start >= cfg.bypassForwardDistance && b.clearCount >= cfg.clearFrames then
      FallTo(p.(state := ShiftBack, reason := ObstaclePassed, bypass := b))
    else
      End(Emit(p.(bypass := b), cfg.forwardSpeed, 0.0, false))
  }

  predicate OnRoute(cfg: Config, lateral: real) {
    -cfg.rejoinTolerance <= lateral <= cfg.rejoinTolerance
  }

  function Rejoin(cfg: Config, p: Planner, s: Sample): Action {
    var back := Opposite(p.bypass.side);
    if !SideIsClear(cfg, s, back) then
      End(Halt(p, ReturnUnsafe, false))
    else if s.front <= cfg.stopDistance then
      End(Halt(p, ObstacleOnReturn, false))
    else if !OnRoute(cfg, p.route.lateral) then
      End(Emit(p, 0.0, Signed(back, cfg.lateralSpeed), false))
    else if p.bypass.completeAfterRejoin || p.route.forward >= cfg.targetDistance then
      End(Entering(Complete, Emit(
        p.(state := Complete, reason := TargetReachedOnCenter,
           bypass := p.bypass.(side := Center)), 0.0, 0.0, true)))
    else
      End(Entering(Forward, Emit(
        p.(state := Forward, reason := RouteRestored, blockedCount := 0,
           bypass := p.bypass.(side := Center, clearCount := 0)), cfg.forwardSpeed, 0.0, false)))
  }

  function Act(cfg: Config, p: Planner, s: Sample): Action {
    match p.state
    case Complete => End(Emit(p, 0.0, 0.0, true))
    case Blocked => End(Emit(p, 0.0, 0.0, true))
    case SensorFault => End(Emit(p, 0.0, 0.0, true))
    case Forward => FollowRoute(cfg, p, s)
    case Evaluate => ChooseSide(cfg, p, s)
    case ShiftOut => MoveAside(cfg, p, s)
    case PassObstacle => PassBy(cfg, p, s)
    case ShiftBack => Rejoin(cfg, p, s)
    case Waiting => End(Halt(p, InvalidState, false))
  }

  /** How many states may still act after this one in the same tick. */
  function FallsLeft(state: NavigationState): nat {
    match state
    case Evaluate => 3
    case ShiftOut => 2
    case PassObstacle => 1
    case _ => 0
  }

  /** The decision of a tick, once the pose is known and the watchdog has been served. */
  function Decide(cfg: Config, p: Planner, s: Sample): Tick
    decreases FallsLeft(p.state)
  {
    match Act(cfg, p, s)
    case End(tick) => tick
    case FallTo(next) => Entering(next.state, Decide(cfg, next, s))
  }

  function Placed(p: Planner, at: Vec): Planner {
    p.(route := Located(p.route, at))
  }

  /** The planner with the pose of a good sample; the first one starts the route. */
  function Prepared(p: Planner, s: Sample): Planner {
    Placed(if p.initialized then p else Started(p, s), s.at)
  }

  /** The planner with its watchdog served. */
  function Served(cfg: Config, p: Planner, s: Sample): Planner {
    p.(watch := Watched(cfg, p.watch, s))
  }

  function Supervise(cfg: Config, p: Planner, s: Sample): Tick {
    if Stalled(cfg, p.watch, s) then Halt(p, NoOdometryProgress, false)
    else Decide(cfg, Served(cfg, p, s), s)
  }

  /** One call of `update`. */
  function Update(cfg: Config, p: Planner, input: PlannerInput): Tick {
    if !Usable(input) then
      if p.initialized then Halt(p, SensorsStale, true) else Emit(p, 0.0, 0.0, false)
    else
      var s := Sampled(input);
      var t := Supervise(cfg, Prepared(p, s), s);
      if p.initialized then t else Entering(Forward, t)
  }

  /** The planner a tick hands to its states; none when the sensors or the watchdog end it before. */
  predicate Reaches(cfg: Config, p: Planner, input: PlannerInput) {
    Usable(input) && !Stalled(cfg, Prepared(p, Sampled(input)).watch, Sampled(input))
  }

  function Handed(cfg: Config, p: Planner, input: PlannerInput): Planner
    requires Usable(input)
  {
    Served(cfg, Prepared(p, Sampled(input)), Sampled(input))
  }
}
