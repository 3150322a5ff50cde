# Verified model of the ROC robot adapter runtime and its Go2 adapter

This project models the parts of the repository that decide whether a robot moves, and proves
what they guarantee. `dafny verify dfyconfig.toml` checks all of it.

## What is modelled

**The Go2 local planner** (`PlannerModel`, `LocalPlanner`). A class whose `Update` falls through
nine navigation states, with debounce counters, a bypass budget, a stall watchdog, a rotated route
frame and a clamped configuration. Every method is proved to compute the tick function
`PlannerModel.Update`, and that function carries the theorems:

- over any run of `update` and `fail` calls with any sensor stream: the state invariant, closed
  terminal states, counted selections, a bound on state changes, side and front safety, the pass
  and completion rules, the stall watchdog (`PlannerRuns`, `PlannerBypassing`, `PlannerSafety`,
  `PlannerWatchdog`), and for every outcome of a tick exactly what leads to it (`PlannerTicks`);
- in a closed loop with a robot that follows its commands, whatever the ranges: termination within
  an explicit number of ticks and a bound on the distance from the route (`PlannerClosedLoop`,
  `PlannerScenarios`), with the exact condition for both (`PlannerOvershoot`), and completion on a
  clear route (`PlannerClearRoute`).

**The LiDAR navigator** (`Navigator`). The control loop around the planner: deadline, sensor
freshness, Move failures, exit code, and every velocity the program sends.

**The job runtime** (`Jobs`, `JobProtocol`, `JobRuntime`, `JobProperties`, `JobEvents`, `JobEnds`,
`JobTraces`, `JobStories`). One run against an adapter that may answer, refuse or raise at every
request, with a state file and an outbox that may fail at every write. The `JobRuntime` class holds
the job, the manifest, the state file, the events and the requests sent, and is proved to do what the
protocol functions say, exception paths included; the theorems are about those functions, up to the
exact requests, events, record and return of a run from the adapter's answers.

**The adapter channel and the outbox** (`AdapterChannel`, `EventOutbox`, `OutboxFile`), **the Go2
adapter** (`Go2Adapter`), **the bridge's linear motions** (`BridgeMotion`, `BridgeHandles`,
interleaved steps of request threads and workers), **the patrol helper** (`PatrolHelper`, with what
the robot's answers decide in `PatrolAnswers`) and **the camera probe's JPEG header walker**
(`CameraProbe`, `CameraParse`).

Outside behaviour is an arbitrary input: sensor samples, RPC codes, adapter and bridge answers,
deliveries, failing and torn writes, the clock and stop requests.

## Where the code falls short of the rule one expects

Each of these is a proved fact about the model, with the exact condition where there is one.

- A `fail`, the navigator's runtime deadline or its limit on failing Move calls is forgotten before
  the first usable sample: a stopped planner stays stopped at the next usable sample if and only if
  it had been started (`PlannerRuns.StaysStoppedJustWhenStarted`, `Navigator.DeadlineEndsLoop`,
  `Navigator.FourFailuresEndLoop`).
- A shift comes back to the route, the closed loop ends and the robot stays near its route, for
  every fixed tick. With uneven ticks that holds for every configuration if and only if no sideways
  step is longer than the band of twice the rejoin tolerance or the shift is no longer than the
  tolerance (`PlannerOvershoot.LoopEndsExactly`, `PlannerOvershoot.NeverOvershootsExactly`,
  `PlannerOvershoot.OffsetBoundedExactly`). Otherwise a run exists that drifts over the band and is
  sent a step farther from the route at each tick for as long as nothing stops it
  (`PlannerOvershoot.OvershootIsReached`). The navigator's own speeds rule this out
  (`Navigator.ConfiguredIsUsual`).
- The outbox can deliver an event twice: a flush posts before it rewrites the file, so one that
  meets an unreadable line, a delivery that raises or a failing rewrite forgets what was accepted.
  When exactly is `EventOutboxes.AcceptedAgainExactly`; runs from an empty outbox are
  `EventOutboxes.RewriteLostDeliversTwice` and `EventOutboxes.CutUpDeliversTwice`. The latter needs
  no failure: a text with U+2028 in it is written as it is and cut up on reading, and no flush
  completes again (`EventOutboxes.UnreadableForever`). After an append torn inside a character none
  even attempts a delivery (`EventOutboxes.UndecodableForever`).
- A job started once is started again by the same request if and only if the last write of its
  state file failed (`JobEvents.StartsAgainJustWhenUnwritten`; a block with two starts is
  `JobEvents.StartedTwice`). The file remembers one key only: after a run under way that writes its
  end, it is settled for that run's key and no other (`JobEvents.OnlyTheLastKeyIsSettled`), so with
  one in between the first request starts again (`JobEvents.AnotherKeyStartsAgain`), as it does in
  `JobEvents.StartedTwiceAround`.
- When a bridge worker gives up on a helper that does not die, its pending flag and handle are
  cleared and a second helper can run beside it (`BridgeMotion.SecondHelperBesideAbandoned`,
  `BridgeMotion.TwoHelpersAlive`); otherwise at most one is alive (`BridgeMotion.OneLinearHelper`).
- A stop request is forgotten when a linear motion is requested, even one that is then refused, or a
  patrol begins (`BridgeHandles.CancelledExactly`); a worker queued before it can then launch its
  helper (`BridgeHandles.StopIsForgotten`).
- Fill bytes before a marker, which section B.1.1.2 of ITU-T T.81 allows, hide the dimensions of an
  image: in one of less than 48 KiB from the first of them on, always
  (`CameraProbe.FillBytesHideFrame`); in a larger one, unless the walker lands on a frame
  header (`CameraProbe.FillBytesJump`).
- A patrol segment whose Move call fails returns at once: no zero and no stop is sent, and the robot
  keeps the velocity it last accepted. For which answers of the robot a patrol leaves it moving is
  `PatrolAnswers.LeftMovingExactly`, carried to the program by `PatrolHelper.RunPatrol`; an error at
  the second command is enough (`PatrolAnswers.SecondMoveFails`).
- A run leaves its lock file in place if and only if it gets as far as its adapter process and
  closing that raises (`JobProperties.LockStaysExactly`; `JobProperties.LockLeftBehind` is such a
  run).

Where documentation and code differ, the model follows the code. `ADAPTER-CONTRACT.md:97-101` makes the
live handshake part of the choice of an adapter; the code chooses by manifest alone and fails the
job if the handshake then misses a capability. `ADAPTER-CONTRACT.md:94` lists four states an adapter
returns; the code also accepts `TIMED_OUT` and `REJECTED` from it. `ADAPTER-CONTRACT.md:115` asks an adapter to
stop active hardware when its process terminates; the Go2 adapter does so when its input ends.

## Model

| member | source | states |
|---|---|---|
| LocalPlanners.LocalPlanner.constructor | adapters/go2/go2_helper/go2_local_planner.cpp:32-52 | the configuration is the clamped one, side clearance included, and the fields start as declared |
| LocalPlanners.LocalPlanner.Fail | adapters/go2/go2_helper/go2_local_planner.cpp:54-58 | state, reason and the moving flag change; nothing else does |
| LocalPlanners.LocalPlanner.UpdateRouteCoordinates | adapters/go2/go2_helper/go2_local_planner.cpp:60-67 | the robot is located along and across the route; nothing else changes |
| LocalPlanners.LocalPlanner.Command | adapters/go2/go2_helper/go2_local_planner.cpp:74-87 | the command and the moving flag the watchdog reads at the next tick |
| LocalPlanners.LocalPlanner.Start | adapters/go2/go2_helper/go2_local_planner.cpp:101-109 | the first usable sample fixes origin, heading and watchdog anchor and enters Forward |
| LocalPlanners.LocalPlanner.Update | adapters/go2/go2_helper/go2_local_planner.cpp:89-254 | new fields, command and the states passed through are those of the tick function, for every input |
| LocalPlanners.LocalPlanner.Navigate | adapters/go2/go2_helper/go2_local_planner.cpp:117-133 | the watchdog stops a moving robot without progress past the stall timeout, or re-anchors, before any state acts |
| LocalPlanners.LocalPlanner.ActOnState | adapters/go2/go2_helper/go2_local_planner.cpp:135-254 | terminal states stay; the others act in the order of the code, each possibly falling through to the next |
| LocalPlanners.LocalPlanner.ActOnBypass | adapters/go2/go2_helper/go2_local_planner.cpp:181-254 | the fall-through from ShiftOut on |
| LocalPlanners.LocalPlanner.ActOnReturn | adapters/go2/go2_helper/go2_local_planner.cpp:199-254 | the fall-through from PassObstacle on, with the invalid-state failure at its end |
| LocalPlanners.LocalPlanner.FollowRoute | adapters/go2/go2_helper/go2_local_planner.cpp:141-160 | completion before the debounce count, and the count before the advance |
| LocalPlanners.LocalPlanner.ChooseSide | adapters/go2/go2_helper/go2_local_planner.cpp:162-180 | budget, then clearance, then the side with more room (left on a tie), its goal and the attempt count |
| LocalPlanners.LocalPlanner.MoveAside | adapters/go2/go2_helper/go2_local_planner.cpp:181-197 | an unsafe side blocks; short of the goal the robot keeps moving; otherwise pass bookkeeping is reset |
| LocalPlanners.LocalPlanner.PassBy | adapters/go2/go2_helper/go2_local_planner.cpp:199-221 | a close front blocks; the clear count is kept; target, or distance with enough clear frames, turns back |
| LocalPlanners.LocalPlanner.Rejoin | adapters/go2/go2_helper/go2_local_planner.cpp:223-250 | return side, then front, then band; on the route it completes or resumes and clears the bypass |
| PlannerRuns.ClampedConfigIsUsual | adapters/go2/go2_helper/go2_local_planner.cpp:32-52 | clamping gives every bound the planner relies on, is idempotent, and changes nothing exactly when they already hold |
| PlannerRuns.ClampedConfigIsLeast | adapters/go2/go2_helper/go2_local_planner.cpp:32-52 | the clamps change no more than they have to: theirs is the least configuration with these bounds at or above the given one |
| PlannerRuns.EventKeepsValid | adapters/go2/go2_helper/go2_local_planner.cpp:89-254 | every update and every fail keeps the invariant: a side is selected exactly while bypassing, the goal is the signed shift, attempts are within budget, the counters belong to their states |
| PlannerRuns.AlwaysValid | adapters/go2/go2_helper/go2_local_planner.cpp:32-254 | the invariant holds after every call of every run |
| PlannerRuns.InvalidStateUnreachable | adapters/go2/go2_helper/go2_local_planner.cpp:252-253 | no run reaches the invalid-state failure |
| PlannerRuns.TerminalStep | adapters/go2/go2_helper/go2_local_planner.cpp:110-139 | of a started planner the terminal states are closed under update and fail, with zero terminal commands |
| PlannerRuns.TerminalForever | adapters/go2/go2_helper/go2_local_planner.cpp:110-139 | a started planner that is terminal after one call of a run is terminal after every later one |
| PlannerRuns.TerminalCommandsAreZero | adapters/go2/go2_helper/go2_local_planner.cpp:110-139 | all its later commands are zero and terminal |
| PlannerRuns.FailureBeforeFirstSampleIsForgotten | adapters/go2/go2_helper/go2_local_planner.cpp:97-109 | a fail before the first usable sample has no effect on the tick of that sample |
| PlannerRuns.StaysStoppedJustWhenStarted | adapters/go2/go2_helper/go2_local_planner.cpp:97-139 | a stopped planner stays stopped at a usable sample if and only if an earlier one had started it |
| PlannerRuns.TerminalFlag | adapters/go2/go2_helper/go2_local_planner.cpp:74-87 | a command is terminal exactly when it leaves a started planner in a terminal state; the moving flag is exactly "not stopped" |
| PlannerTicks.TickExactly | adapters/go2/go2_helper/go2_local_planner.cpp:89-254 | for every good sample, state and fall-through: exactly when each reason stops the robot, when each state is entered, what is commanded and reported, what is remembered, and where the robot is seen |
| PlannerTicks.SensorFaultExactly | adapters/go2/go2_helper/go2_local_planner.cpp:89-115 | a started planner reports a sensor fault if and only if some reading is stale, invalid, not finite or a range not positive; without all of them good no planner moves |
| PlannerTicks.SideWithMoreRoom | adapters/go2/go2_helper/go2_local_planner.cpp:162-197 | a shift begins only from Evaluate and to the side whose range is at least the other one, left on a tie, with goal, reason and command to match |
| PlannerTicks.StallExactly | adapters/go2/go2_helper/go2_local_planner.cpp:117-133 | over a run, a good sample is stopped for want of progress if and only if the call before commanded motion and the robot stayed nearer than the epsilon to its place at the last restart, for the timeout |
| PlannerTicks.CountIsRow | adapters/go2/go2_helper/go2_local_planner.cpp:147-159 | the debounce counter is the length of the latest row of close samples in Forward |
| PlannerTicks.ObstacleConfirmedExactly | adapters/go2/go2_helper/go2_local_planner.cpp:147-159 | short of the target a call stops to evaluate if and only if it ends a row of blocked_frames close samples in Forward |
| PlannerBypassing.DecideAccounts | adapters/go2/go2_helper/go2_local_planner.cpp:135-254 | a tick walks along legal edges only, counts each selection, and pays for each change of state from a budget |
| PlannerBypassing.WalkGrows | adapters/go2/go2_helper/go2_local_planner.cpp:89-254 | what one call adds to the selections and changes of the whole run |
| PlannerBypassing.SelectionsAreCounted | adapters/go2/go2_helper/go2_local_planner.cpp:162-180 | in every run all changes of state are legal edges, and the attempt counter is the number of Evaluate-to-ShiftOut changes, never above the maximum |
| PlannerBypassing.ChangesAreBounded | adapters/go2/go2_helper/go2_local_planner.cpp:89-254 | a run of updates changes state at most 5 times per allowed bypass, and 4 times more |
| PlannerSafety.CommandSafety | adapters/go2/go2_helper/go2_local_planner.cpp:69-254 | motion only on a fresh valid sample, never a turn, along one axis at the configured speed, sideways only toward a side at the side stop distance or farther, toward a close front only from Forward while debouncing |
| PlannerSafety.ObstacleDebounce | adapters/go2/go2_helper/go2_local_planner.cpp:147-159 | in every run fewer than blocked_frames updates in a row advance with the front at the stop distance or closer |
| PlannerSafety.PassHistory | adapters/go2/go2_helper/go2_local_planner.cpp:189-208 | PassObstacle remembers the progress of the tick that entered it, and its clear count is a row of the last frames, all clear |
| PlannerSafety.PassExitFrom | adapters/go2/go2_helper/go2_local_planner.cpp:181-221 | below the target a tick that turns back starts in PassObstacle: none enters and leaves it at once |
| PlannerSafety.PassExit | adapters/go2/go2_helper/go2_local_planner.cpp:199-221 | below the target every turn back, whatever state its tick starts in, comes after clear_frames clear frames in a row and the bypass distance driven since clearance was reached |
| PlannerSafety.OriginIsFirstFix | adapters/go2/go2_helper/go2_local_planner.cpp:97-109 | origin and heading of the route are those of the first usable sample, for ever |
| PlannerSafety.Isometry | adapters/go2/go2_helper/go2_local_planner.cpp:60-67 | forward squared plus lateral squared is the squared displacement |
| PlannerSafety.HonestCompletion | adapters/go2/go2_helper/go2_local_planner.cpp:142-146 | a Complete planner was at some usable tick at least the target distance away from the first usable position |
| PlannerSafety.CompletesOnRoute | adapters/go2/go2_helper/go2_local_planner.cpp:233-244 | a started planner that completes from any state but Forward, falling through a whole bypass included, is within the rejoin tolerance of its route |
| PlannerWatchdog.WatchdogMirrorsRun | adapters/go2/go2_helper/go2_local_planner.cpp:117-133 | anchor and clock of the watchdog are those of the last tick that followed a stop or showed progress, told from samples and commands alone |
| PlannerWatchdog.StallWatchdog | adapters/go2/go2_helper/go2_local_planner.cpp:117-133 | every tick that commands motion comes less than the stall timeout after that tick |
| PlannerWatchdog.FrozenRobotIsStopped | adapters/go2/go2_helper/go2_local_planner.cpp:117-128 | a robot with frozen pose has been stopped for good two stall timeouts and one sample gap later, whatever the ranges |
| PlannerWatchdog.FrozenRobotIsStoppedAtOnce | adapters/go2/go2_helper/go2_local_planner.cpp:117-128 | and by the first tick past one stall timeout when it does not stop to evaluate |
| PlannerClosedLoop.DrivenOnRoute | adapters/go2/go2_helper/go2_local_planner_test.cpp:59-66 | driving with a velocity in the route frame changes progress by vx dt and offset by vy dt |
| PlannerClosedLoop.DecisionDescends | adapters/go2/go2_helper/go2_local_planner.cpp:141-250 | every tick of an obeying robot ends the run or lowers a rank and keeps the robot contained |
| PlannerClosedLoop.LoopMoves | adapters/go2/go2_helper/go2_local_planner_test.cpp:28-33 | between two usable samples the loop moves the robot along its route by the command |
| PlannerClosedLoop.LoopRank | adapters/go2/go2_helper/go2_local_planner.cpp:141-250 | while the run has not ended, the robot is within reach of its route and the ticks made and the rank left stay within the bound |
| PlannerClosedLoop.ClosedLoopTerminates | adapters/go2/go2_helper/go2_local_planner.cpp:141-250 | for any ranges, clock and later sensor failures, and for every fixed tick, the closed loop has ended after ceil(target/(forward speed dt)) + attempts (2 ceil(shift/(lateral speed dt)) + 1) + 2 ticks; for uneven ticks, where a lateral step fits in the band or there is no shift to make |
| PlannerScenarios.OffsetStaysBounded | adapters/go2/go2_helper/go2_local_planner.cpp:181-250 | until it ends, under the same conditions, the robot stays within max(tolerance, shift - tolerance + one lateral step) of its route |
| PlannerScenarios.StaysInBand | adapters/go2/go2_helper/go2_local_planner.cpp:223-237 | under the same conditions no tick of a run finds the robot beyond the band it is to rejoin |
| PlannerOvershoot.OvershootIsReached | adapters/go2/go2_helper/go2_local_planner.cpp:223-237 | otherwise there is a run of the loop, from its first usable sample, that steps over the band and goes on for any number of ticks, a whole step farther from the route at each |
| PlannerOvershoot.LoopEndsExactly | adapters/go2/go2_helper/go2_local_planner.cpp:141-250 | given sideways speed, shift, tolerance and the shortest and longest tick, every configuration with them has a tick bound if and only if no step is longer than the band, or all ticks are alike, or the shift is no longer than the tolerance |
| PlannerOvershoot.NeverOvershootsExactly | adapters/go2/go2_helper/go2_local_planner.cpp:223-237 | and if and only if that holds does no run of such a configuration overstep the band |
| PlannerOvershoot.OffsetBoundedExactly | adapters/go2/go2_helper/go2_local_planner.cpp:181-250 | and if and only if that holds has every such configuration a bound on the distance from the route before the end, which is then the one of OffsetStaysBounded |
| PlannerOvershoot.OneBypass | adapters/go2/go2_helper/go2_local_planner.cpp:162-250 | with uneven ticks a bypass can end a little beside where it began, or beyond the band |
| PlannerScenarios.OvershootNeverRejoins | adapters/go2/go2_helper/go2_local_planner.cpp:223-237 | once past the band a closed loop stays past it, commanding the same direction, until it is blocked or loses its sensors; OvershootIsReached shows that this happens |
| PlannerScenarios.SideUnsafeMeansClose | adapters/go2/go2_helper/go2_local_planner.cpp:181-185 | a shift is stopped for its side only by a range below the side stop distance on the selected side |
| PlannerScenarios.SelectionHasRoom | adapters/go2/go2_helper/go2_local_planner.cpp:167-174 | the selected side had the required clearance, however far the tick goes on |
| PlannerScenarios.ShiftOutBesideWall | adapters/go2/go2_helper/go2_local_planner.cpp:42-44 | beside a static wall a shift-out whose step fits in the tolerance plus the starting offset is never stopped because its side became unsafe |
| PlannerClearRoute.DrivingIsProgress | adapters/go2/go2_helper/go2_local_planner.cpp:117-128 | a robot that has driven for the stall timeout has moved by the progress epsilon |
| PlannerClearRoute.StaysOnSchedule | adapters/go2/go2_helper/go2_local_planner_test.cpp:21-35 | on a clear route the progress is the speed times the time, until completion |
| PlannerClearRoute.ClearRouteCompletes | adapters/go2/go2_helper/go2_local_planner_test.cpp:21-35 | on a clear route the planner is never stopped and is Complete after ceil(target/(forward speed dt)) + 1 ticks, for every configuration whose epsilon it can cover |
| Navigator.Control | adapters/go2/go2_helper/go2_lidar_navigator.cpp:212-254 | the loop ends only by the stop flag, a terminal command or a throw, and has sent exactly the commands of the planner it drives |
| Navigator.Drive | adapters/go2/go2_helper/go2_lidar_navigator.cpp:213-238 | one pass: deadline failure first, then the update on freshness-checked samples |
| Navigator.CountReply | adapters/go2/go2_helper/go2_lidar_navigator.cpp:238-243 | the failure counter resets on success and stops the planner at four |
| Navigator.DeadlineEndsLoop | adapters/go2/go2_helper/go2_lidar_navigator.cpp:213-216 | a pass at or past the deadline commands zero and ends the loop if and only if the planner has been started |
| Navigator.NotExceededBefore | adapters/go2/go2_helper/go2_lidar_navigator.cpp:213-216 | the runtime is never reported exceeded before a pass at or past the deadline |
| Navigator.StaleSensorsEndLoop | adapters/go2/go2_helper/go2_lidar_navigator.cpp:223-250 | samples that are missing or more than 0.50 s old never move the robot; they end the loop of a started planner with zero, a sensor fault and exit code 7, or 130 if a stop is requested |
| Navigator.CurrentSensorsAreUsed | adapters/go2/go2_helper/go2_lidar_navigator.cpp:223-227 | good samples of at most 0.50 s are no sensor fault |
| Navigator.CommandIsPlanned | adapters/go2/go2_helper/go2_lidar_navigator.cpp:213-227 | the command of a pass is the planner command for exactly the latest samples, after a failure at the deadline |
| Navigator.FailuresAreCounted | adapters/go2/go2_helper/go2_lidar_navigator.cpp:238-243 | the counter is the length of the latest row of failed Move calls |
| Navigator.FourFailuresEndLoop | adapters/go2/go2_helper/go2_lidar_navigator.cpp:238-250 | the pass after four failed Move calls in a row commands zero and ends the loop if and only if the planner has been started |
| Navigator.FourthFailureStops | adapters/go2/go2_helper/go2_lidar_navigator.cpp:238-243 | a pass leaves the planner stopped for Move failures if and only if its call and the three before it have failed |
| Navigator.NavIsARun | adapters/go2/go2_helper/go2_lidar_navigator.cpp:212-254 | the planner in the loop makes a planner run, fed with the latest samples as they are, so every run theorem applies to it |
| Navigator.ExitZeroIsHonest | adapters/go2/go2_helper/go2_lidar_navigator.cpp:245-259 | exit code 0 means that the last command was Complete, no stop was requested, and two usable samples are the target distance apart |
| Navigator.ExitCodeTells | adapters/go2/go2_helper/go2_lidar_navigator.cpp:245-263 | each exit code belongs to one way the loop ends: 9 for a throw, 130 for a stop, then 0, 7 or 6 for Complete, SensorFault or Blocked |
| Navigator.RetryBusy | adapters/go2/go2_helper/go2_lidar_navigator.cpp:97-108 | one to six calls, all but the last busy, six if that is busy too; the last answer is returned, and a call that throws ends it |
| Navigator.ClaimControl | adapters/go2/go2_helper/go2_lidar_navigator.cpp:192-200 | obstacle avoidance first, remote control only if that is granted; control is claimed if and only if both are, each after nothing but busy answers |
| Navigator.SendZeros | adapters/go2/go2_helper/go2_lidar_navigator.cpp:110-114 | the zero velocities are sent up to the first call that throws, which ends the program |
| Navigator.StopAndRelease | adapters/go2/go2_helper/go2_lidar_navigator.cpp:110-119 | zeros and then the retried release, which follows exactly when control was claimed and no zero threw; it returns if and only if none of these calls throws |
| Navigator.Navigate | adapters/go2/go2_helper/go2_lidar_navigator.cpp:155-275 | a velocity other than zero is only ever a planner command, sent after both claims were granted; after the loop come eight zero velocities and the retried release; all exit codes, and exactly when an exception outside the loop ends the program instead |
| Navigator.ConfiguredIsUsual | adapters/go2/go2_helper/go2_lidar_navigator.cpp:130-144 | every argument list gives a planner that works with its target and speed, and whose steps fit in the rejoin band at the control period |
| Navigator.ArgumentsAreBounded | adapters/go2/go2_helper/go2_lidar_navigator.cpp:130-144 | every argument is brought into its range, and the side clearance leaves room for the shift |
| Navigator.OtherParametersAreFixed | adapters/go2/go2_helper/go2_local_planner.hpp:35-51 | the other parameters have their fixed values, and the resume distance follows from the stop distance |
| Navigator.RuntimeLimitIsBounded | adapters/go2/go2_helper/go2_lidar_navigator.cpp:204-208 | the limit is four times the time of the route and 120 s, brought between 180 s and 1200 s |
| Navigator.LimitIsOutOfReach | adapters/go2/go2_helper/go2_lidar_navigator.cpp:204-216 | for every argument list, ranges and Move answers: with passes one period apart, the first usable sample within 30 s and an obeying robot, every pass the loop makes is before the deadline and the loop is short of the tick bound |
| Jobs.NormalizedIsNormal | roc_adapter_runtime.py:415-425 | an accepted job has trimmed, non-empty texts, an upper-case type and distinct capabilities |
| Jobs.NormalIsAccepted | roc_adapter_runtime.py:377-425 | a normal job is accepted and left as it is |
| Jobs.ValidationIsIdempotent | roc_adapter_runtime.py:377-425 | validation reaches a normal form, and validating that again changes nothing |
| Jobs.StripIsCore | roc_adapter_runtime.py:415-425 | stripping takes the white space around a text and nothing else |
| Jobs.ValidateExactly | roc_adapter_runtime.py:377-425 | which documents are accepted, and what becomes of identifier, key, type and capabilities, the latter once each in the order of their first mention |
| Jobs.SelectAdapter | roc_adapter_runtime.py:428-446 | the loop computes the selection |
| Jobs.SelectionIsFirstCapable | roc_adapter_runtime.py:428-446 | the selected manifest is the first allowed one that declares the type and every capability; none is selected if and only if there is none |
| JobRuntimes.JobRuntime.Transition | roc_adapter_runtime.py:515-538 | state file first, then the event; either may raise and leaves the other as stated |
| JobRuntimes.JobRuntime.CancelOnSignal | roc_adapter_runtime.py:583-592 | cancel on a stop signal, with the state the adapter reports if it is terminal |
| JobRuntimes.JobRuntime.CancelOnTimeout | roc_adapter_runtime.py:593-601 | the timeout is recorded whether or not the cancel succeeds |
| JobRuntimes.JobRuntime.PollStatus | roc_adapter_runtime.py:605-611 | a changed state is recorded; a state the runtime does not know raises |
| JobRuntimes.JobRuntime.PollLoop | roc_adapter_runtime.py:582-611 | the loop, with its signal checks and deadline, is the recursive specification, and ends |
| JobRuntimes.JobRuntime.LaunchJob | roc_adapter_runtime.py:575-611 | from job.start on |
| JobRuntimes.JobRuntime.ShakeHands | roc_adapter_runtime.py:563-611 | the live handshake must cover the required capabilities before a start is recorded and attempted |
| JobRuntimes.JobRuntime.Guard | roc_adapter_runtime.py:560-612 | the whole guarded part, with the adapter its handler will know |
| JobRuntimes.JobRuntime.Recover | roc_adapter_runtime.py:613-638 | a safety cancel if the job may be running, then the recorded failure with the truth about that cancel |
| JobRuntimes.JobRuntime.RunJob | roc_adapter_runtime.py:540-646 | result, state file, events, requests and lock of a run are those of the protocol function, for every surrounding |
| JobProperties.PollRequests | roc_adapter_runtime.py:582-611 | the loop asks at most ceil(time left/interval) times, and leaves a non-terminal state only by raising |
| JobProperties.LaunchRequests | roc_adapter_runtime.py:575-611 | a start is followed by status requests and at most one cancel inside the guarded part |
| JobProperties.GuardedRequests | roc_adapter_runtime.py:560-611 | nothing, the handshake alone, or handshake, start and what follows, with the adapter selected and the handshake covering the job |
| JobProperties.SafetyCancel | roc_adapter_runtime.py:575-630 | for every adapter and every failure: a run that attempts job.start ends with a cancel unless its last answer reported a terminal state; at most ceil(timeout/max(0.05, poll)) status requests; the manifest and the handshake covered the job |
| JobTraces.PollLeaves | roc_adapter_runtime.py:582-611 | the loop polls while the job runs and neither signal nor deadline has come, and leaves for the first of these |
| JobTraces.RunTraceExactly | roc_adapter_runtime.py:556-638 | job.start is attempted if and only if an adapter is selected, three states are recorded and the handshake covers the capabilities; status requests and cancels then have their causes, and with working writes the answers, the signal and the clock determine every request |
| JobEnds.RunEndsAsSaid | roc_adapter_runtime.py:575-646 | whatever fails, the last state write records the end that the last answer and request say (the reported state, or the one of a signal, timeout or failure cancel), a run that returns returns it, and with working writes it is the last event; then also exactly when a run returns |
| JobStories.EventsExactly | roc_adapter_runtime.py:515-638 | with working writes the requests determine all events, each with its job, adapter and detail |
| JobProperties.LockStaysExactly | roc_adapter_runtime.py:556-646 | the lock file stays behind if and only if the run gets as far as its adapter process, and closing that raises |
| JobProperties.LockLeftBehind | roc_adapter_runtime.py:640-646 | where all goes well but the close, every job with an adapter raises and leaves the lock file |
| JobEvents.TransitTells | roc_adapter_runtime.py:515-538 | each transition extends the chain of events, and the state file is its last one |
| JobEvents.RecoveredTells | roc_adapter_runtime.py:613-638 | the handler ends the chain in a terminal state, and its report of the safety cancel is true |
| JobEvents.EventsTellTheRun | roc_adapter_runtime.py:556-646 | with working writes a run emits a legal chain from RECEIVED with exactly one terminal state, last, equal to the state file and to what is returned |
| JobEvents.NotUnderway | roc_adapter_runtime.py:548-556 | an invalid, settled or locked-out call sends, emits and changes nothing; it returns, the stored record, if and only if its document is valid and the file can be read and settles it |
| JobEvents.SettledJustWhenWritten | roc_adapter_runtime.py:515-646 | whatever else fails, events included, a run under way leaves the file settled for its request if and only if its last write of it succeeded |
| JobEvents.OnlyTheLastKeyIsSettled | roc_adapter_runtime.py:549-555 | after a run under way whose last write succeeded the file is settled for that run's key and no other |
| JobEvents.SettledBlock | roc_adapter_runtime.py:548-556 | after a settled run of a key, every later run of the block sends and emits nothing, leaves the file, and returns the stored record if its document is valid and the file can be read |
| JobEvents.AtMostOneStart | roc_adapter_runtime.py:548-576 | in a block of runs of one key none after a start whose last state write succeeded attempts job.start, whatever becomes of events |
| JobEvents.UnsettledStarts | roc_adapter_runtime.py:548-576 | without a settled record an able adapter is started |
| JobEvents.StartsAgainJustWhenUnwritten | roc_adapter_runtime.py:548-646 | after a run that attempted job.start, the same request with an able adapter starts again if and only if that run's last state write failed |
| JobEvents.StartedTwice | roc_adapter_runtime.py:548-646 | a block of one request, from an empty state file and with a working outbox, that starts its job twice |
| JobEvents.AnotherKeyStartsAgain | roc_adapter_runtime.py:548-556 | after any run under way of another key whose last state write succeeded, a request with an able adapter starts, whatever was settled before |
| JobEvents.StartedTwiceAround | roc_adapter_runtime.py:548-646 | with nothing failing at all, the requests A, B and A again start A twice |
| AdapterChannel.AdapterProcess.Request | roc_adapter_runtime.py:254-292 | the loop takes from the queue exactly what the specification takes, skipping answers to other requests |
| AdapterChannel.ReceiveStops | roc_adapter_runtime.py:272-292 | a request ends at the first item that is not another request's answer, if the time reaches it |
| AdapterChannel.RequestEndsExactly | roc_adapter_runtime.py:271-292 | with any adapter, the first item reached that is no answer to another request decides, and each outcome belongs to one kind of item |
| AdapterChannel.QueueHoldsLateAnswers | roc_adapter_runtime.py:235-292 | before each request the queue holds late answers to earlier requests only, in order |
| AdapterChannel.RequestEnds | roc_adapter_runtime.py:271-292 | a request ends at its own answer or times out, and which of the two |
| AdapterChannel.ResponseCorrelation | roc_adapter_runtime.py:254-292 | over any timeouts a request that returns returns exactly its own answer; it times out if and only if that has not come or cannot be reached in time |
| EventOutboxes.EventOutbox.Emit | roc_adapter_runtime.py:325-331 | delivery first, which may raise, then the append, which may fail, tear the record at any place or write one that cannot be read back |
| EventOutboxes.EventOutbox.AppendRecord | roc_adapter_runtime.py:330-331 | the file after an append: a record after a line without an end makes one unreadable line with it, which cannot be decoded if the tear is inside a character |
| OutboxFile.FileIsRead | roc_adapter_runtime.py:325-368 | after any operations and failures the lines are those of the text written: a record alone on its line is an entry, anything torn, cut up or run together is not |
| OutboxFile.ReportCounts | roc_adapter_runtime.py:369-374 | the report of a completed flush counts the lines of the file and those still to be delivered |
| EventOutboxes.EventOutbox.Flush | roc_adapter_runtime.py:346-374 | file, attempts and report: a file that cannot be decoded raises before any attempt; otherwise the attempts come first, and an unreadable line, a delivery that raises or a failing rewrite leaves the file as it was |
| EventOutboxes.CountDelivered | roc_adapter_runtime.py:369 | the number of delivered records |
| EventOutboxes.FlushCompletes | roc_adapter_runtime.py:352-368 | a flush completes if and only if every line can be decoded and read, no delivery raises and the file can be rewritten |
| EventOutboxes.FlushKeepsLines | roc_adapter_runtime.py:346-368 | a flush keeps every line in its place and every identifier; a completed one marks exactly the events delivered before or accepted now |
| EventOutboxes.FlushAccepts | roc_adapter_runtime.py:361-363 | a flush has an event accepted once if it is pending, reached and taken, and never otherwise |
| EventOutboxes.FlushPostsPending | roc_adapter_runtime.py:352-363 | the attempts of a flush are the pending events, once each, in order |
| EventOutboxes.AlwaysOrdered | roc_adapter_runtime.py:325-374 | after any operations and failures the entries of the file are in the order of their emission |
| EventOutboxes.OutboxConserves | roc_adapter_runtime.py:325-374 | after any operations and failures each event of the file has been accepted exactly as often as its mark says, plus its deliveries by flushes that did not complete; so delivered means accepted |
| EventOutboxes.WholeFileConserved | roc_adapter_runtime.py:325-374 | while appends are all or nothing, the file holds exactly the events appended, in order, whatever flushes do |
| EventOutboxes.LineStays | roc_adapter_runtime.py:325-374 | over any operations and failures a line with an end is there for good, with its identifier, and a delivered mark is never taken back |
| EventOutboxes.DeliveredForever | roc_adapter_runtime.py:361-363 | an event whose mark is in the file is not sent successfully again |
| EventOutboxes.UnreadableForever | roc_adapter_runtime.py:353-360 | with one unreadable line in the file no flush ever completes again |
| EventOutboxes.UndecodableForever | roc_adapter_runtime.py:353 | and with one torn inside a character none ever attempts a delivery again |
| EventOutboxes.AcceptedAgainExactly | roc_adapter_runtime.py:352-368 | an accepted event of the file can be accepted again by the next flush if and only if some flush had it accepted and did not complete, none has marked it, the file can be decoded and the lines before it can be read |
| EventOutboxes.AcceptedOnce | roc_adapter_runtime.py:352-368 | without such a flush an event of the file is accepted at most once, and marked delivered if and only if it is |
| EventOutboxes.RewriteLostDeliversTwice | roc_adapter_runtime.py:364-368 | from an empty outbox: one event, a flush whose rewrite fails and another deliver it twice |
| EventOutboxes.CutUpDeliversTwice | roc_adapter_runtime.py:352-360 | from an empty outbox and without any failure: a record with a line separator in a text makes flushes deliver the event before it twice |
| Go2Adapters.Go2Adapter.HandleRequest | adapters/go2/runtime_adapter.py:94-200 | current job, bridge contacts and response of every request |
| Go2Adapters.Go2Adapter.StartJob | adapters/go2/runtime_adapter.py:133-177 | the refusals in order, then one bridge call, then the new job |
| Go2Adapters.Go2Adapter.StopActiveJob | adapters/go2/runtime_adapter.py:75-80 | a running job is cancelled; a failure leaves it |
| Go2Adapters.Go2Adapter.Serve | adapters/go2/runtime_adapter.py:203-221 | one response for each line, and the whole trace of the session, its shutdown included |
| Go2Adapters.HandleKeepsDiscipline | adapters/go2/runtime_adapter.py:94-200 | each request keeps the discipline: the robot is busy only while a job runs |
| Go2Adapters.AlwaysDisciplined | adapters/go2/runtime_adapter.py:94-221 | the discipline holds after any requests |
| Go2Adapters.SessionIsDisciplined | adapters/go2/runtime_adapter.py:75-221 | between two accepted actions the bridge itself has said that it failed, is done or idle, or accepted a cancel; all parameters are in bounds, the last action is followed by such a release or a cancel attempt, and the end of input cancels a running job |
| Go2Adapters.ActionsAreAskedFor | adapters/go2/runtime_adapter.py:133-177 | every action of a session is what one of its start requests asks for, with its parameters or their defaults brought into range |
| Go2Adapters.StartExactly | adapters/go2/runtime_adapter.py:133-177 | which starts reach the bridge, with which call, and what is answered and remembered |
| Go2Adapters.StatusExactly | adapters/go2/runtime_adapter.py:83-91 | a status request of the running job is answered and remembered by what the bridge says; other states are repeated without asking |
| Go2Adapters.CancelExactly | adapters/go2/runtime_adapter.py:192-199 | a cancel of the current job posts once, whatever its state, and succeeds if and only if that is accepted |
| Go2Adapters.ShutdownExactly | adapters/go2/runtime_adapter.py:75-80 | at the end a running job is cancelled with one post, and any other left alone |
| Go2Adapters.BoundedIsNearest | adapters/go2/runtime_adapter.py:65-72 | a parameter becomes the nearest point of its range, and is refused exactly when it is not a finite number |
| Go2Adapters.ReadOnlyRequests | adapters/go2/runtime_adapter.py:94-200 | only start and cancel requests post, only an allowed start asks for an action, and what the other requests read and answer |
| CameraProbe.JpegDimensions | adapters/go2/go2_helper/go2_camera_probe.cpp:32-62 | the loop ends on every buffer, reads inside it, and computes the walk |
| CameraParse.ImageIsRead | adapters/go2/go2_helper/go2_camera_probe.cpp:11-62 | every image of the grammar is read with the dimensions of its frame header |
| CameraParse.WalkerRecognizes | adapters/go2/go2_helper/go2_camera_probe.cpp:11-62 | dimensions are found in a buffer if and only if it is a start of image, any stray bytes, lone markers and skippable segments, and a frame header with these dimensions, neither zero |
| CameraProbe.WalkFilled | adapters/go2/go2_helper/go2_camera_probe.cpp:35-60 | from any place in an image the walk skips the segments and reads the frame header behind them, or comes to the first fill byte and takes it for a marker |
| CameraProbe.HeaderRoundTrip | adapters/go2/go2_helper/go2_camera_probe.cpp:32-62 | an image encoded with any skippable segments and a frame header gives back exactly its samples per line and lines |
| CameraProbe.WalkIsSound | adapters/go2/go2_helper/go2_camera_probe.cpp:35-60 | every size found stands in a frame header inside the buffer |
| CameraProbe.FillBytesJump | adapters/go2/go2_helper/go2_camera_probe.cpp:32-62 | in an image of any size the walker jumps from the first fill byte by the length it takes from behind it, and finds what it finds there, or nothing past the end |
| CameraProbe.FillBytesHideFrame | adapters/go2/go2_helper/go2_camera_probe.cpp:32-62 | with any numbers of fill bytes before segments and frame header, and less than 48 KiB from the first of them on, the dimensions come back if and only if there is no fill byte |
| PatrolHelper.CallWithRetry | adapters/go2/go2_helper/go2_action_helper.cpp:37-47 | one to three calls, three if all time out |
| PatrolHelper.HoldStill | adapters/go2/go2_helper/go2_action_helper.cpp:49-59 | one to ten zero commands and nothing else; code 0 means that one was accepted, any other that the last one failed with it |
| PatrolAnswers.DrivenExactly | adapters/go2/go2_helper/go2_action_helper.cpp:61-81 | a segment is cut short if and only if a fatal answer (an error, or a time-out after three) comes before its commands are all accepted, and then at the first such answer |
| PatrolAnswers.HeldExactly | adapters/go2/go2_helper/go2_action_helper.cpp:49-59 | a zero is accepted if and only if the first of the ten answers that is no time-out is zero; the code is 0 if and only if one is accepted and none is an error |
| PatrolAnswers.LegExactly | adapters/go2/go2_helper/go2_action_helper.cpp:61-82 | exactly for which answers a segment leaves the robot moving, and for which it succeeds and where the next one begins |
| PatrolAnswers.CodeExactly | adapters/go2/go2_helper/go2_action_helper.cpp:99-122 | the code of a patrol, exactly: which part fails for which answers, and 0 or 13 as the robot is held still after the stop |
| PatrolAnswers.LeftMovingExactly | adapters/go2/go2_helper/go2_action_helper.cpp:84-122 | a patrol leaves the robot with a velocity of motion accepted last if and only if its answers strand it in one segment and let those before succeed |
| PatrolAnswers.SecondMoveFails | adapters/go2/go2_helper/go2_action_helper.cpp:99-109 | answers that do: everything is accepted but the second command, and the patrol ends with code 10 |
| PatrolHelper.SendVelocity | adapters/go2/go2_helper/go2_action_helper.cpp:65-78 | the loop accepts the velocity as often as the answers say, all of it if and only if its code is 0, and otherwise ends with the Move that failed |
| PatrolHelper.RunVelocitySegment | adapters/go2/go2_helper/go2_action_helper.cpp:61-82 | the robot accepts at most ceil(duration/20) commands and exactly that many before any zero; fewer if and only if a fatal answer comes before; a segment cut short sends nothing but its own velocity and ends with the Move that failed; at most three Move calls more than commands and zeros |
| PatrolHelper.PrepareMotion | adapters/go2/go2_helper/go2_action_helper.cpp:84-97 | no velocity is sent |
| PatrolHelper.RunSegments | adapters/go2/go2_helper/go2_action_helper.cpp:107-114 | the accepted velocities are a prefix of the patrol, no phase begun before the last is complete, up to the segment that failed |
| PatrolHelper.StopPatrol | adapters/go2/go2_helper/go2_action_helper.cpp:116-121 | the stop, retried, and then zeros whatever became of it; the code is theirs |
| PatrolHelper.RunPatrol | adapters/go2/go2_helper/go2_action_helper.cpp:99-122 | whatever the robot answers, what it accepted is forward, still, turn, still, forward, still in order, as many of each as the answers say; with code 0 all of it, and at 0.30 m/s, 0.80 rad/s and 20 ms a command it makes the distance ordered to within 6 mm and the turn to within 20 ms; a patrol that fails in a segment sends no stop and ends with a failed Move; the robot is left moving if and only if its answers meet the condition of LeftMovingExactly |
| PatrolHelper.WholePlanCovers | adapters/go2/go2_helper/go2_action_helper.cpp:100-108 | the commands of a whole plan make the distance and the turn, from the literal speeds and the command time |
| BridgeMotion.StepKeepsOwner | adapters/go2/go2_bridge.py:348-411 | every step of every thread keeps one owner and a pending flag that says so |
| BridgeMotion.LinearMotionExclusion | adapters/go2/go2_bridge.py:348-411 | in every interleaving at most one linear motion is queued or has a worker alive, and the pending flag is set exactly then |
| BridgeMotion.HandleIsNeverStale | adapters/go2/go2_bridge.py:278-295 | in every interleaving the handle of the active process belongs to a thread that will still take it back |
| BridgeHandles.ActiveExactly | adapters/go2/go2_bridge.py:278-323 | the active process is the last one registered, until the thread that did so takes its handle back |
| BridgeHandles.AcceptedExactly | adapters/go2/go2_bridge.py:348-354 | a linear motion is accepted if and only if no thread holds one and the process last registered and not let go has ended |
| BridgeHandles.CancelledExactly | adapters/go2/go2_bridge.py:348-349 | the cancel event is set if and only if a stop was requested after the last linear request came in and the last patrol began |
| BridgeHandles.CancelledForCause | adapters/go2/go2_bridge.py:367-373 | a worker gives up before its helper only because of a stop still in force |
| BridgeHandles.StopIsForgotten | adapters/go2/go2_bridge.py:348-373 | an interleaving in which a refused request clears the stop before the queued worker has looked |
| BridgeHandles.ThreadsEnd | adapters/go2/go2_bridge.py:278-411 | in every interleaving a worker takes at most five steps of its own |
| BridgeHandles.NeverStuck | adapters/go2/go2_bridge.py:278-411 | and a thread that has not ended always has one to take |
| BridgeMotion.OneLinearHelper | adapters/go2/go2_bridge.py:300-326 | unless a worker has given up on its helper, at most one linear helper is alive |
| BridgeMotion.GivingUpFrees | adapters/go2/go2_bridge.py:315-411 | giving up on a live helper clears its handle and the pending flag |
| BridgeMotion.SecondHelperBesideAbandoned | adapters/go2/go2_bridge.py:315-354 | from any point of any interleaving where a worker gives up on a live helper, a new request gets its own helper beside it |
| BridgeMotion.TwoHelpersAlive | adapters/go2/go2_bridge.py:315-354 | an interleaving from the first step of the bridge on with two linear helpers alive |

## Left out

- Floating point: quantities are reals, so rounding, overflow and NaN configuration values are not modelled; sensor readings may be non-finite. `int` counters do not overflow.
- Trigonometry: a yaw is a cosine and a sine; that they make a unit vector is assumed where it matters (`UnitYaws`, `UnitHeadings`).
- LocalPlanners.LocalPlanner.Update: the 18 flat fields are grouped in three records (`route`, `watch`, `bypass`), and a reason is an enumeration value, not a string.
- PlannerOvershoot.LoopEndsExactly: the condition is on the sideways parameters and the tick lengths; a configuration that violates it but allows few bypasses, or none before its target, may still always come back.
- PlannerWatchdog.FrozenRobotIsStopped: the bound is two stall timeouts plus the longest gap between two samples, because the second interval starts at the tick that evaluates.
- Navigator.Navigate: the wait for the first sensors only delays, and what is read after it is the flag `ready`; parsing, log lines and sleeping are not modelled.
- JobRuntimes.JobRuntime.RunJob: one object serves one run; the lock file's own protocol is the flag `lockFree`, records carry no process id, time or payload, and signal handlers only appear as the stop signal. Waits that return early without a signal are excluded (`FairClock`), as the loop would otherwise have no bound.
- JobEvents.SettledBlock: runs follow one another; concurrent processes are not covered, because the stored record is read before the lock is taken.
- Jobs.ValidationIsIdempotent: stripping and upper-casing treat ASCII only; parameters and safety policy are only checked for their kind, and error messages are not told apart.
- AdapterChannel.ResponseCorrelation: request identifiers are numbered instead of random; a blank line of the adapter never reaches the queue.
- EventOutboxes.OutboxConserves: event identifiers are numbered, the file starts empty and only the outbox writes it; a flush that dies while it writes its temporary file leaves that file behind, which is not modelled.
- Go2Adapters.Go2Adapter.Serve: a bridge call that raises is taken to have had no effect; telemetry and incident payloads are not modelled.
- BridgeMotion.LinearMotionExclusion: says nothing about exclusion between a patrol and other motions, which the code does not guarantee. That a stop terminates the active helper is the step in which a process ends; the bridge's state text and its HTTP interface are not modelled.
- PatrolHelper.RunPatrol: answers only; that a call which timed out may still have reached the robot is not modelled. Named actions and the single-velocity mode of the helper are left out, as they would only add easy members.
- CameraProbe.FillBytesHideFrame: behind 48 KiB of image the walker may land on other bytes after a fill byte, and what it then finds depends on them; FillBytesJump is the result for every size. Fetching and storing the image is not modelled.
- Manifest discovery, the command line, TPM signing, the installer and the mock wheel adapter.
