/**
 The patrol of the action helper: velocity segments sent command by command to a client whose
 every answer is arbitrary, each followed by standing still.
 */
module PatrolHelper {
  import opened PatrolAnswers

  datatype Velocity = Velocity(vx: real, vy: real, yawRate: real)

  const STILL := Velocity(0.0, 0.0, 0.0)

  const FORWARD := Velocity(0.30, 0.0, 0.0)

  const TURN := Velocity(0.0, 0.0, 0.80)

  datatype Call = Move(velocity: Velocity) | BalanceStand | SwitchGait | StopMove

  /** A call the robot has answered. */
  datatype Sent = Sent(call: Call, code: int)

  function Repeated(v: Velocity, n: nat): (r: seq<Velocity>)
    ensures |r| == n && forall i | 0 <= i < n :: r[i] == v
  {
    if n == 0 then [] else Repeated(v, n - 1) + [v]
  }

  lemma OneMore(v: Velocity, n: nat)
    ensures Repeated(v, n) + [v] == Repeated(v, n + 1)
  {
  }

  /** The velocities the robot has accepted. */
  function Accepted(sent: seq<Sent>): seq<Velocity> {
    if sent == [] then []
    else
      var last := sent[|sent| - 1];
      if last.call.Move? && last.code == 0 then Accepted(sent[..|sent| - 1]) + [last.call.velocity]
      else Accepted(sent[..|sent| - 1])
  }

  function Moves(sent: seq<Sent>): nat {
    if sent == [] then 0
    else Moves(sent[..|sent| - 1]) + (if sent[|sent| - 1].call.Move? then 1 else 0)
  }

  /** From call `n` on, only Move calls have been made, whatever came of them. */
  predicate OnlyMoves(sent: seq<Sent>, n: nat) {
    forall i | n <= i < |sent| :: sent[i].call.Move?
  }

  /** From call `n` on, this call has been made and no other. */
  predicate OnlyCalls(sent: seq<Sent>, n: nat, call: Call) {
    forall i | n <= i < |sent| :: sent[i].call == call
  }

  predicate NeverStopped(sent: seq<Sent>) {
    forall i | 0 <= i < |sent| :: sent[i].call != StopMove
  }

  /** The last call made is a Move that failed with this code. */
  predicate EndsInFailure(sent: seq<Sent>, code: int) {
    sent != [] && sent[|sent| - 1].call.Move? && sent[|sent| - 1].code == code != 0
  }

  /** How many 20 ms commands a duration takes. */
  function Commands(duration: int): nat {
    if duration <= 0 then 0 else (duration + 19) / 20
  }

  class SportClient {
    const codes: nat -> int
    ghost var sent: seq<Sent>
    var calls: nat

    ghost predicate Valid()
      reads this
    {
      calls == |sent|
    }

    constructor (answers: nat -> int)
      ensures Valid() && sent == [] && codes == answers
    {
      codes := answers;
      sent := [];
      calls := 0;
    }

    method Invoke(call: Call) returns (code: int)
      requires Valid()
      modifies this
      ensures Valid() && sent == old(sent) + [Sent(call, code)] && code == codes(|old(sent)|)
      ensures Accepted(sent) == Accepted(old(sent)) + (if call.Move? && code == 0 then [call.velocity] else [])
      ensures Moves(sent) == Moves(old(sent)) + (if call.Move? then 1 else 0)
    {
      code := codes(calls);
      calls := calls + 1;
      sent := sent + [Sent(call, code)];
      assert sent[..|sent| - 1] == old(sent);
    }
  }

  /** Retries a call up to three times while it times out. */
  method CallWithRetry(client: SportClient, call: Call) returns (code: int)
    requires client.Valid() && !call.Move?
    modifies client
    ensures client.Valid() && Accepted(client.sent) == old(Accepted(client.sent))
    ensures Moves(client.sent) == old(Moves(client.sent))
    ensures |old(client.sent)| < |client.sent| <= |old(client.sent)| + 3
    ensures client.sent[|client.sent| - 1] == Sent(call, code)
    ensures old(client.sent) <= client.sent && OnlyCalls(client.sent, |old(client.sent)|, call)
    ensures code == TIMEOUT ==> |client.sent| == |old(client.sent)| + 3
    ensures Tried(client.codes, |old(client.sent)|, TRIES) == Phase(0, |client.sent|, code)
  {
    code := client.Invoke(call);
    var attempt := 1;
    while code == TIMEOUT && attempt < 3
      invariant Tried(client.codes, |old(client.sent)|, TRIES)
             == if code == TIMEOUT && attempt < 3 then Tried(client.codes, |client.sent|, TRIES - attempt)
                else Phase(0, |client.sent|, code)
      invariant 1 <= attempt <= 3 && client.Valid() && |client.sent| == |old(client.sent)| + attempt
      invariant Accepted(client.sent) == old(Accepted(client.sent)) && Moves(client.sent) == old(Moves(client.sent))
      invariant client.sent[|client.sent| - 1] == Sent(call, code)
      invariant old(client.sent) <= client.sent && OnlyCalls(client.sent, |old(client.sent)|, call)
    {
      code := client.Invoke(call);
      attempt := attempt + 1;
    }
  }

  /** Ten zero commands; it succeeds if one of them is accepted and none fails but by timing out. */
  method HoldStill(client: SportClient) returns (code: int, ghost still: nat)
    requires client.Valid()
    modifies client
    ensures client.Valid()
    ensures Accepted(client.sent) == old(Accepted(client.sent)) + Repeated(STILL, still)
    ensures code == 0 ==> still > 0
    ensures old(client.sent) < client.sent && OnlyCalls(client.sent, |old(client.sent)|, Move(STILL))
    ensures code != 0 ==> EndsInFailure(client.sent, code)
    ensures old(Moves(client.sent)) < Moves(client.sent) <= old(Moves(client.sent)) + 10
    ensures Held(client.codes, |old(client.sent)|, ZEROS, false) == Phase(still, |client.sent|, code)
  {
    hide Accepted, Moves, Repeated, Held;
    code := 0;
    still := 0;
    var accepted := false;
    assert Repeated(STILL, 0) == [];
    for i := 0 to 10
      invariant client.Valid()
      invariant Accepted(client.sent) == old(Accepted(client.sent)) + Repeated(STILL, still)
      invariant accepted <==> still > 0
      invariant Held(client.codes, |old(client.sent)|, ZEROS, false)
             == Plus(still, Held(client.codes, |client.sent|, ZEROS - i, accepted))
      invariant old(client.sent) <= client.sent && |client.sent| == |old(client.sent)| + i
      invariant OnlyCalls(client.sent, |old(client.sent)|, Move(STILL))
      invariant Moves(client.sent) == old(Moves(client.sent)) + i
      invariant i > 0 && !accepted ==> code == TIMEOUT && EndsInFailure(client.sent, code)
    {
      OneHeld(client.codes, |client.sent|, ZEROS - i, accepted);
      code := client.Invoke(Move(STILL));
      if code != 0 && code != TIMEOUT { return; }
      if code == 0 {
        accepted := true;
        OneMore(STILL, still);
        still := still + 1;
      }
    }
    OneHeld(client.codes, |client.sent|, 0, accepted);
    code := if accepted then 0 else code;
  }

  // The loop of a segment: it ends with the duration, or with the Move that fails.
  method SendVelocity(client: SportClient, v: Velocity, duration: int) returns (code: int, ghost moving: nat)
    requires client.Valid()
    modifies client
    ensures client.Valid()
    ensures Accepted(client.sent) == old(Accepted(client.sent)) + Repeated(v, moving)
    ensures moving <= Commands(duration) && (code == 0 <==> moving == Commands(duration))
    ensures old(client.sent) <= client.sent && OnlyCalls(client.sent, |old(client.sent)|, Move(v))
    ensures code != 0 ==> old(client.sent) < client.sent && EndsInFailure(client.sent, code)
    ensures Moves(client.sent) <= old(Moves(client.sent)) + Commands(duration) + 3
    ensures Driven(client.codes, |old(client.sent)|, Commands(duration), 0) == Phase(moving, |client.sent|, code)
  {
    hide Accepted, Moves, Repeated;
    code := 0;
    moving := 0;
    assert Repeated(v, 0) == [];
    var retries, movedMs := 0, 0;
    while movedMs < duration
      invariant client.Valid() && 0 <= retries <= 3 && movedMs == 20 * moving
      invariant code == 0 || movedMs < duration
      invariant moving <= Commands(duration)
      invariant Accepted(client.sent) == old(Accepted(client.sent)) + Repeated(v, moving)
      invariant Moves(client.sent) == old(Moves(client.sent)) + moving + retries
      invariant old(client.sent) <= client.sent && OnlyCalls(client.sent, |old(client.sent)|, Move(v))
      invariant Driven(client.codes, |old(client.sent)|, Commands(duration), 0)
             == Plus(moving, Driven(client.codes, |client.sent|, Commands(duration) - moving, retries))
      decreases 3 - retries, duration - movedMs
    {
      code := client.Invoke(Move(v));
      if code == TIMEOUT && retries < 3 {
        retries := retries + 1;
        continue;
      }
      if code != 0 {
        break;
      }
      movedMs := movedMs + 20;
      OneMore(v, moving);
      moving := moving + 1;
    }
  }

  /**
   Sends a velocity until commands for the whole duration have been accepted, then stands still.
   Three time-outs are forgiven. What the robot has accepted is never more than the duration takes.
   A segment cut short ends with the Move that failed: nothing else is sent, no zero and no stop.
   It is cut short if and only if a fatal answer comes before its commands have all been accepted.
   */
  method RunVelocitySegment(client: SportClient, v: Velocity, duration: int)
      returns (code: int, ghost moving: nat, ghost still: nat)
    requires client.Valid()
    modifies client
    ensures client.Valid()
    ensures Accepted(client.sent) == old(Accepted(client.sent)) + Repeated(v, moving) + Repeated(STILL, still)
    ensures moving <= Commands(duration)
    ensures code == 0 ==> moving == Commands(duration) && still > 0
    ensures still > 0 ==> moving == Commands(duration)
    ensures old(client.sent) <= client.sent && OnlyMoves(client.sent, |old(client.sent)|)
    ensures code != 0 ==> EndsInFailure(client.sent, code)
    ensures moving < Commands(duration) ==>
              && code != 0 && old(client.sent) < client.sent
              && OnlyCalls(client.sent, |old(client.sent)|, Move(v))
    ensures Moves(client.sent)
         <= old(Moves(client.sent)) + Commands(duration) + 3 + (if moving == Commands(duration) then 10 else 0)
    ensures moving < Commands(duration) <==> CutShort(client.codes, |old(client.sent)|, Commands(duration))
    ensures LegOf(client.codes, |old(client.sent)|, Commands(duration)) == Leg(moving, still, |client.sent|, code)
  {
    hide CutShort, Fatal, Zeros, Held, Driven, Accepted, Moves, Repeated, Commands;
    ghost var m := DrivenExactly(client.codes, |client.sent|, Commands(duration));
    still := 0;
    NoneOf(STILL);
    code, moving := SendVelocity(client, v, duration);
    if code != 0 { return; }
    code, still := HoldStill(client);
  }

  lemma NoneOf(v: Velocity)
    ensures Repeated(v, 0) == []
  {
  }

  method PrepareMotion(client: SportClient) returns (code: int)
    requires client.Valid()
    modifies client
    ensures client.Valid() && Accepted(client.sent) == old(Accepted(client.sent))
    ensures Moves(client.sent) == old(Moves(client.sent))
    ensures NeverStopped(old(client.sent)) ==> NeverStopped(client.sent)
    ensures PreparedTo(client.codes, |old(client.sent)|) == Phase(0, |client.sent|, code)
  {
    code := CallWithRetry(client, BalanceStand);
    if code != 0 { return; }
    code := CallWithRetry(client, SwitchGait);
  }

  /** The velocities of a patrol, from what was accepted in each of its six phases. */
  function Velocities(p: Plan): seq<Velocity> {
    Repeated(FORWARD, p.out) + Repeated(STILL, p.still1) + Repeated(TURN, p.turn)
    + Repeated(STILL, p.still2) + Repeated(FORWARD, p.back) + Repeated(STILL, p.still3)
  }

  /** Each phase only after the ones before it are complete, and none longer than planned. */
  predicate InOrder(p: Plan, forward: nat, turn: nat) {
    && p.out <= forward && p.turn <= turn && p.back <= forward
    && (p.still1 + p.turn + p.still2 + p.back + p.still3 > 0 ==> p.out == forward)
    && (p.turn + p.still2 + p.back + p.still3 > 0 ==> p.still1 > 0)
    && (p.still2 + p.back + p.still3 > 0 ==> p.turn == turn)
    && (p.back + p.still3 > 0 ==> p.still2 > 0)
    && (p.still3 > 0 ==> p.back == forward)
  }

  /** The last velocity is one of motion. */
  predicate EndsMoving(velocities: seq<Velocity>) {
    velocities != [] && velocities[|velocities| - 1] != STILL
  }

  lemma LastOfPlan(p: Plan)
    ensures EndsMoving(Velocities(p)) <==> LeftMoving(p)
  {
  }

  function ForwardMs(distance: real): int {
    (distance / 0.30 * 1000.0).Floor
  }

  function TurnMs(seconds: real): int {
    (seconds * 1000.0).Floor
  }

  lemma RepeatedJoins(v: Velocity, a: nat, b: nat)
    ensures Repeated(v, a) + Repeated(v, b) == Repeated(v, a + b)
  {
  }

  lemma FirstLeg(p: Plan, moving: nat, still: nat)
    requires p == Plan(0, 0, 0, 0, 0, 0)
    ensures Velocities(p) == []
    ensures Velocities(p.(out := moving, still1 := still))
         == Velocities(p) + Repeated(FORWARD, moving) + Repeated(STILL, still)
  {
  }

  lemma TurnLeg(p: Plan, moving: nat, still: nat)
    requires p.turn == p.still2 == p.back == p.still3 == 0
    ensures Velocities(p.(turn := moving, still2 := still))
         == Velocities(p) + Repeated(TURN, moving) + Repeated(STILL, still)
  {
  }

  lemma LastLeg(p: Plan, moving: nat, still: nat)
    requires p.back == p.still3 == 0
    ensures Velocities(p.(back := moving, still3 := still))
         == Velocities(p) + Repeated(FORWARD, moving) + Repeated(STILL, still)
  {
  }

  lemma LongerStill(p: Plan, still: nat)
    ensures Velocities(p.(still3 := p.still3 + still)) == Velocities(p) + Repeated(STILL, still)
  {
    RepeatedJoins(STILL, p.still3, still);
  }

  /** From call `at` on, after three successful segments: the stop and the last zeros. */
  function Stopping(codes: nat -> int, at: nat, done: Plan): Outcome {
    var h := Held(codes, Tried(codes, at, TRIES).end, ZEROS, false);
    Outcome(done.(still3 := done.still3 + h.accepted), if h.code == 0 then 0 else 13)
  }

  /** The three segments of a patrol, up to the first that fails; its position is reported. */
  method RunSegments(client: SportClient, forwardMs: int, turnMs: int) returns (failed: nat, ghost done: Plan)
    requires client.Valid() && Accepted(client.sent) == []
    modifies client
    ensures client.Valid() && failed <= 3
    ensures Accepted(client.sent) == Velocities(done)
    ensures InOrder(done, Commands(forwardMs), Commands(turnMs))
    ensures NeverStopped(old(client.sent)) ==> NeverStopped(client.sent)
    ensures failed != 0 ==> exists code :: EndsInFailure(client.sent, code)
    ensures failed == 0 ==> done.back == Commands(forwardMs) && done.still3 > 0
    ensures failed == 1 ==> done.turn == done.still2 == done.back == done.still3 == 0
    ensures failed == 2 ==> done.back == done.still3 == 0
    ensures LegsFrom(client.codes, |old(client.sent)|, Commands(forwardMs), Commands(turnMs))
         == if failed != 0 then Outcome(done, 9 + failed) else Stopping(client.codes, |client.sent|, done)
  {
    hide Repeated, Velocities, Accepted, Moves, Commands, OnlyCalls, EndsInFailure, LegOf, CutShort, Tried, Held;
    done := Plan(0, 0, 0, 0, 0, 0);
    var code;
    ghost var moving, still;
    code, moving, still := RunVelocitySegment(client, FORWARD, forwardMs);
    FirstLeg(done, moving, still);
    done := done.(out := moving, still1 := still);
    if code != 0 { return 1, done; }
    code, moving, still := RunVelocitySegment(client, TURN, turnMs);
    TurnLeg(done, moving, still);
    done := done.(turn := moving, still2 := still);
    if code != 0 { return 2, done; }
    code, moving, still := RunVelocitySegment(client, FORWARD, forwardMs);
    LastLeg(done, moving, still);
    done := done.(back := moving, still3 := still);
    failed := if code != 0 then 3 else 0;
  }

  // The end of a patrol: whatever becomes of the stop, zeros follow, and their code counts.
  method StopPatrol(client: SportClient, ghost forward: nat, ghost turn: nat, ghost done: Plan)
      returns (code: int, ghost longer: Plan)
    requires client.Valid() && Accepted(client.sent) == Velocities(done)
    requires InOrder(done, forward, turn) && done.back == forward && done.still3 > 0
    modifies client
    ensures client.Valid() && Accepted(client.sent) == Velocities(longer)
    ensures Outcome(longer, code) == Stopping(client.codes, |old(client.sent)|, done)
    ensures InOrder(longer, forward, turn) && longer.back == forward && longer.still3 > 0 && EndsStill(longer)
  {
    hide Velocities, Repeated, Tried, Held, Moves;
    var stopCode := CallWithRetry(client, StopMove);
    var zeroCode;
    ghost var still;
    zeroCode, still := HoldStill(client);
    LongerStill(done, still);
    longer := done.(still3 := done.still3 + still);
    code := if zeroCode == 0 then 0 else 13;
  }

  /**
   Whatever the robot answers, what it has accepted is a patrol in order: forward, still, turn,
   still, forward, still, with no phase begun before the last one is complete. With code 0 all of
   it has been accepted, to the last zero, and it makes the distance and the turn. The patrol leaves
   the robot with a velocity of motion accepted last if and only if the robot's answers are such.
   */
  method RunPatrol(client: SportClient, distance: real, seconds: real) returns (code: int, ghost done: Plan)
    requires client.Valid() && client.sent == []
    modifies client
    ensures Accepted(client.sent) == Velocities(done)
    ensures InOrder(done, Commands(ForwardMs(distance)), Commands(TurnMs(seconds)))
    ensures code == 0 ==> done.back == Commands(ForwardMs(distance)) && done.still3 > 0
    ensures code == 0 && distance >= 0.0 && seconds >= 0.0 ==> Covers(Accepted(client.sent), distance, seconds)
    ensures Outcome(done, code)
         == PatrolOf(client.codes, Commands(ForwardMs(distance)), Commands(TurnMs(seconds)))
    ensures EndsMoving(Accepted(client.sent))
        <==> LeavesMoving(client.codes, Commands(ForwardMs(distance)), Commands(TurnMs(seconds)))
    ensures code == 0 || code == 13 ==> EndsStill(done)
    ensures code in {10, 11, 12} ==>
              NeverStopped(client.sent) && exists failure :: EndsInFailure(client.sent, failure)
    ensures code in {0, 4, 10, 11, 12, 13} && (code == 4 ==> done == NOTHING)
    ensures code == 10 ==> done.turn == done.still2 == done.back == done.still3 == 0
    ensures code == 11 ==> done.back == done.still3 == 0
  {
    done := NOTHING;
    FirstLeg(done, 0, 0);
    hide Repeated, Velocities, Moves, Commands, ForwardMs, TurnMs, LeavesMoving, LegsFrom, Tried, Held, PreparedTo,
      Covers, EndsMoving, LeftMoving, EndsStill, EndsInFailure, InOrder;
    LeftMovingExactly(client.codes, Commands(ForwardMs(distance)), Commands(TurnMs(seconds)));
    code := PrepareMotion(client);
    if code != 0 {
      LastOfPlan(done);
      return 4, done;
    }
    var failed;
    failed, done := RunSegments(client, ForwardMs(distance), TurnMs(seconds));
    LastOfPlan(done);
    if failed != 0 { return 9 + failed, done; }
    code, done := StopPatrol(client, Commands(ForwardMs(distance)), Commands(TurnMs(seconds)), done);
    LastOfPlan(done);
    if code == 0 && distance >= 0.0 && seconds >= 0.0 {
      WholePlanCovers(done, distance, seconds);
    }
  }

  /**
   These velocities, 20 ms each, make a patrol of this distance and turn: 0.30 m/s ahead, still, 0.80 rad/s,
   still, 0.30 m/s ahead again, still, to within one command and what is cut off below a millisecond.
   */
  ghost predicate Covers(velocities: seq<Velocity>, distance: real, seconds: real) {
    exists n: nat, m: nat, a: nat, b: nat, c: nat ::
      && a > 0 && b > 0 && c > 0
      && velocities
           == Repeated(Velocity(0.30, 0.0, 0.0), n) + Repeated(Velocity(0.0, 0.0, 0.0), a)
              + Repeated(Velocity(0.0, 0.0, 0.80), m) + Repeated(Velocity(0.0, 0.0, 0.0), b)
              + Repeated(Velocity(0.30, 0.0, 0.0), n) + Repeated(Velocity(0.0, 0.0, 0.0), c)
      && distance - 0.0003 < 0.30 * 0.02 * n as real < distance + 0.006
      && seconds - 0.001 < 0.02 * m as real < seconds + 0.02
  }

  lemma ForwardCommandsCover(distance: real)
    requires distance >= 0.0
    ensures distance - 0.0003 < 0.30 * 0.02 * Commands(ForwardMs(distance)) as real < distance + 0.006
  {
    var ms, n := ForwardMs(distance), Commands(ForwardMs(distance));
    assert ms <= 20 * n < ms + 20;
    assert distance / 0.30 * 1000.0 - 1.0 < ms as real <= distance / 0.30 * 1000.0;
  }

  lemma TurnCommandsCover(seconds: real)
    requires seconds >= 0.0
    ensures seconds - 0.001 < 0.02 * Commands(TurnMs(seconds)) as real < seconds + 0.02
  {
    var ms, n := TurnMs(seconds), Commands(TurnMs(seconds));
    assert ms <= 20 * n < ms + 20;
  }

  /** A plan that has been carried out to its last zero covers the distance and the turn. */
  lemma WholePlanCovers(p: Plan, distance: real, seconds: real)
    requires distance >= 0.0 && seconds >= 0.0
    requires InOrder(p, Commands(ForwardMs(distance)), Commands(TurnMs(seconds)))
    requires p.back == Commands(ForwardMs(distance)) && p.still3 > 0
    ensures Covers(Velocities(p), distance, seconds)
  {
    hide Repeated, Commands, ForwardMs, TurnMs;
    ForwardCommandsCover(distance);
    TurnCommandsCover(seconds);
  }
}
