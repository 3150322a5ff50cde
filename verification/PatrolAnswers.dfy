/**
 What the robot's answers decide: `codes(i)` is the answer to the i-th call of a patrol. The phases
 of a patrol as functions of the answers, and the exact conditions on the answers under which a
 segment is cut short and a patrol leaves the robot moving.
 */
module PatrolAnswers {

  const TIMEOUT := 3104

  // ----- the phases -----

  /** How a phase ends: the commands accepted in it, the calls made by then, and its code. */
  datatype Phase = Phase(accepted: nat, end: nat, code: int)

  function Plus(n: nat, p: Phase): Phase {
    p.(accepted := n + p.accepted)
  }

  /** From call `at` on: a velocity until `left` more commands are accepted, three time-outs in all forgiven. */
  function Driven(codes: nat -> int, at: nat, left: nat, retries: nat): Phase
    requires retries <= 3
    decreases left, 3 - retries
  {
    if left == 0 then Phase(0, at, 0)
    else if codes(at) == TIMEOUT && retries < 3 then Driven(codes, at + 1, left, retries + 1)
    else if codes(at) != 0 then Phase(0, at + 1, codes(at))
    else Plus(1, Driven(codes, at + 1, left - 1, retries))
  }

  /** From call `at` on: `left` more zero commands; `still` says whether one has been accepted before. */
  function Held(codes: nat -> int, at: nat, left: nat, still: bool): Phase
    decreases left
  {
    if left == 0 then Phase(0, at, if still then 0 else TIMEOUT)
    else if codes(at) == 0 then Plus(1, Held(codes, at + 1, left - 1, true))
    else if codes(at) == TIMEOUT then Held(codes, at + 1, left - 1, still)
    else Phase(0, at + 1, codes(at))
  }

  lemma OneHeld(codes: nat -> int, at: nat, left: nat, still: bool)
    ensures Held(codes, at, 0, still) == Phase(0, at, if still then 0 else TIMEOUT)
    ensures left > 0 ==>
              Held(codes, at, left, still)
                == if codes(at) == 0 then Plus(1, Held(codes, at + 1, left - 1, true))
                   else if codes(at) == TIMEOUT then Held(codes, at + 1, left - 1, still)
                   else Phase(0, at + 1, codes(at))
  {
  }

  const ZEROS := 10

  /** A segment: how much of it was accepted, how many zeros after it, the calls made by then, and its code. */
  datatype Leg = Leg(moving: nat, still: nat, end: nat, code: int)

  function LegOf(codes: nat -> int, base: nat, commands: nat): Leg {
    var d := Driven(codes, base, commands, 0);
    if d.code != 0 then Leg(d.accepted, 0, d.end, d.code)
    else
      var h := Held(codes, d.end, ZEROS, false);
      Leg(d.accepted, h.accepted, h.end, h.code)
  }

  /** A call that is made again, up to `left` times in all, while it times out. */
  function Tried(codes: nat -> int, at: nat, left: nat): Phase
    requires left > 0
    decreases left
  {
    if codes(at) == TIMEOUT && left > 1 then Tried(codes, at + 1, left - 1) else Phase(0, at + 1, codes(at))
  }

  const TRIES := 3

  function PreparedTo(codes: nat -> int, at: nat): Phase {
    var stand := Tried(codes, at, TRIES);
    if stand.code != 0 then stand else Tried(codes, stand.end, TRIES)
  }

  // ----- conditions on the answers -----

  // 3104 is the code of a call that has timed out. Ten zeros end a phase, and a call is tried three times.

  /** How many of the first `n` answers from `base` on are zero. */
  function Zeros(codes: nat -> int, base: nat, n: nat): nat {
    if n == 0 then 0 else Zeros(codes, base, n - 1) + (if codes(base + n - 1) == 0 then 1 else 0)
  }

  function Timeouts(codes: nat -> int, base: nat, n: nat): nat {
    if n == 0 then 0 else Timeouts(codes, base, n - 1) + (if codes(base + n - 1) == 3104 then 1 else 0)
  }

  /** Answer `j` from `base` on is one a segment does not survive: an error, or a time-out after three others. */
  predicate Fatal(codes: nat -> int, base: nat, j: nat) {
    codes(base + j) != 0 && (codes(base + j) != 3104 || Timeouts(codes, base, j) >= 3)
  }

  predicate FirstFatal(codes: nat -> int, base: nat, j: nat) {
    Fatal(codes, base, j) && forall i: nat | i < j :: !Fatal(codes, base, i)
  }

  /** A fatal answer comes before the commands of the segment have all been accepted. */
  ghost predicate CutShort(codes: nat -> int, base: nat, commands: nat) {
    exists j: nat :: Fatal(codes, base, j) && Zeros(codes, base, j) < commands
  }

  /** The first `m` answers from `base` on accept all commands, the last of them with the last answer. */
  predicate DrivesThrough(codes: nat -> int, base: nat, commands: nat, m: nat) {
    && Zeros(codes, base, m) == commands && (m > 0 ==> codes(base + m - 1) == 0)
    && forall j: nat | j < m :: !Fatal(codes, base, j)
  }

  /** Answer `i` is zero, and all before it from `at` on are time-outs. */
  predicate AcceptsAfterTimeouts(codes: nat -> int, at: nat, i: nat) {
    codes(i) == 0 && forall k | at <= k < i :: codes(k) == 3104
  }

  predicate SomeZero(codes: nat -> int, at: nat, end: nat) {
    exists i | at <= i < end :: codes(i) == 0
  }

  predicate NoError(codes: nat -> int, at: nat, end: nat) {
    forall i | at <= i < end :: codes(i) == 0 || codes(i) == 3104
  }

  /** Of the ten zero commands from `at` on, the first that does not time out is accepted. */
  predicate Stands(codes: nat -> int, at: nat) {
    exists i | at <= i < at + 10 :: AcceptsAfterTimeouts(codes, at, i)
  }

  /** One of the ten zero commands is accepted, and none fails but by timing out. */
  predicate HeldStill(codes: nat -> int, at: nat) {
    SomeZero(codes, at, at + 10) && NoError(codes, at, at + 10)
  }

  // ----- the driving phase -----

  lemma {:induction false} ZerosGrow(codes: nat -> int, base: nat, i: nat, j: nat)
    requires i <= j
    ensures Zeros(codes, base, i) <= Zeros(codes, base, j)
  {
    if i < j {
      ZerosGrow(codes, base, i, j - 1);
    }
  }

  /** From answer `i` on the driving phase goes on to answer `m`, which is fatal, or the first one it does not need. */
  lemma {:induction false} DrivesOn(codes: nat -> int, base: nat, commands: nat, i: nat) returns (m: nat)
    requires Zeros(codes, base, i) <= commands && Timeouts(codes, base, i) <= 3
    requires i > 0 && Zeros(codes, base, i) == commands ==> codes(base + i - 1) == 0
    requires forall j: nat | j < i :: !Fatal(codes, base, j)
    ensures forall j: nat | j < m :: !Fatal(codes, base, j)
    ensures var d := Driven(codes, base + i, commands - Zeros(codes, base, i), Timeouts(codes, base, i));
            && Zeros(codes, base, i) + d.accepted == Zeros(codes, base, m)
            && (if d.code == 0 then DrivesThrough(codes, base, commands, m) && d.end == base + m
                else Fatal(codes, base, m) && Zeros(codes, base, m) < commands && d.end == base + m + 1
                     && d.code == codes(base + m))
    decreases commands - Zeros(codes, base, i), 3 - Timeouts(codes, base, i)
  {
    if Zeros(codes, base, i) == commands || Fatal(codes, base, i) {
      m := i;
    } else {
      assert codes(base + (i + 1) - 1) == codes(base + i);
      m := DrivesOn(codes, base, commands, i + 1);
    }
  }

  /**
   A segment is cut short if and only if a fatal answer comes too early, and then at the first such
   answer; otherwise it drives through.
   */
  lemma DrivenExactly(codes: nat -> int, base: nat, commands: nat) returns (m: nat)
    ensures var d := Driven(codes, base, commands, 0);
            && (d.code != 0 <==> CutShort(codes, base, commands))
            && (d.code != 0 <==> d.accepted < commands)
            && (if d.code == 0 then DrivesThrough(codes, base, commands, m) && d.end == base + m
                else FirstFatal(codes, base, m) && d.end == base + m + 1)
            && d.accepted == Zeros(codes, base, m)
  {
    m := DrivesOn(codes, base, commands, 0);
    if j: nat :| Fatal(codes, base, j) && Zeros(codes, base, j) < commands {
      if m <= j {
        ZerosGrow(codes, base, m, j);
      }
    }
  }

  /** There is one way to drive through, and none when a fatal answer comes first. */
  lemma OneWayThrough(codes: nat -> int, base: nat, commands: nat, m: nat)
    requires DrivesThrough(codes, base, commands, m)
    ensures Driven(codes, base, commands, 0) == Phase(commands, base + m, 0)
  {
    var n := DrivenExactly(codes, base, commands);
    if Driven(codes, base, commands, 0).code != 0 {
      if n < m {
      } else {
        ZerosGrow(codes, base, m, n);
      }
    } else if m < n {
      ZerosGrow(codes, base, m, n - 1);
    } else if n < m {
      ZerosGrow(codes, base, n, m - 1);
    }
  }

  /** The first fatal answer is the one that cuts the segment short. */
  lemma OneWayToFail(codes: nat -> int, base: nat, commands: nat, j: nat)
    requires FirstFatal(codes, base, j) && Zeros(codes, base, j) < commands
    ensures Driven(codes, base, commands, 0).code != 0
    ensures Driven(codes, base, commands, 0).accepted == Zeros(codes, base, j)
  {
    var n := DrivenExactly(codes, base, commands);
    assert CutShort(codes, base, commands);
    assert !(n < j) && !(j < n);
  }

  // ----- the zeros -----

  lemma {:induction false} HeldOn(codes: nat -> int, at: nat, left: nat, still: bool)
    ensures Held(codes, at, left, still).accepted > 0
        <==> exists i | at <= i < at + left :: AcceptsAfterTimeouts(codes, at, i)
    ensures Held(codes, at, left, still).code == 0
        <==> (still || SomeZero(codes, at, at + left)) && NoError(codes, at, at + left)
    ensures Held(codes, at, left, still).code == 0 ==> Held(codes, at, left, still).end == at + left
    decreases left
  {
    if left > 0 {
      if codes(at) == 0 {
        assert AcceptsAfterTimeouts(codes, at, at);
        HeldOn(codes, at + 1, left - 1, true);
      } else if codes(at) == TIMEOUT {
        HeldOn(codes, at + 1, left - 1, still);
        if Held(codes, at + 1, left - 1, still).accepted > 0 {
          var i :| at + 1 <= i < at + left && AcceptsAfterTimeouts(codes, at + 1, i);
          assert AcceptsAfterTimeouts(codes, at, i);
        } else if i :| at <= i < at + left && AcceptsAfterTimeouts(codes, at, i) {
          assert AcceptsAfterTimeouts(codes, at + 1, i);
        }
      }
    }
  }

  /** Zeros are accepted if and only if the robot stands, and the phase succeeds if and only if it is held still. */
  lemma HeldExactly(codes: nat -> int, at: nat)
    ensures Held(codes, at, ZEROS, false).accepted > 0 <==> Stands(codes, at)
    ensures Held(codes, at, ZEROS, false).code == 0 <==> HeldStill(codes, at)
    ensures HeldStill(codes, at) ==> Held(codes, at, ZEROS, false).end == at + ZEROS && Stands(codes, at)
  {
    HeldOn(codes, at, ZEROS, false);
    HeldCounts(codes, at, ZEROS, false);
    hide Held;
  }

  lemma {:induction false} HeldCounts(codes: nat -> int, at: nat, left: nat, still: bool)
    ensures Held(codes, at, left, still).code == 0 ==> still || Held(codes, at, left, still).accepted > 0
    decreases left
  {
    if left > 0 && codes(at) == TIMEOUT {
      HeldCounts(codes, at + 1, left - 1, still);
    }
  }

  // ----- the whole patrol -----

  /** What the robot accepts in each of the six phases of a patrol: out, turn and back, each followed by zeros. */
  datatype Plan = Plan(out: nat, still1: nat, turn: nat, still2: nat, back: nat, still3: nat)

  /** A patrol: what was accepted, and its code. */
  datatype Outcome = Outcome(done: Plan, code: int)

  const NOTHING := Plan(0, 0, 0, 0, 0, 0)

  function LegsFrom(codes: nat -> int, base: nat, forward: nat, turn: nat): Outcome {
    var a := LegOf(codes, base, forward);
    if a.code != 0 then Outcome(Plan(a.moving, a.still, 0, 0, 0, 0), 10)
    else
      var b := LegOf(codes, a.end, turn);
      if b.code != 0 then Outcome(Plan(a.moving, a.still, b.moving, b.still, 0, 0), 11)
      else
        var c := LegOf(codes, b.end, forward);
        if c.code != 0 then Outcome(Plan(a.moving, a.still, b.moving, b.still, c.moving, c.still), 12)
        else
          var h := Held(codes, Tried(codes, c.end, TRIES).end, ZEROS, false);
          Outcome(Plan(a.moving, a.still, b.moving, b.still, c.moving, c.still + h.accepted),
                  if h.code == 0 then 0 else 13)
  }

  function PatrolOf(codes: nat -> int, forward: nat, turn: nat): Outcome {
    var ready := PreparedTo(codes, 0);
    if ready.code != 0 then Outcome(NOTHING, 4) else LegsFrom(codes, ready.end, forward, turn)
  }

  /** Standing still is the last thing that the robot has accepted of the plan. */
  predicate EndsStill(p: Plan) {
    if p.still3 > 0 then true
    else if p.back > 0 then false
    else if p.still2 > 0 then true
    else if p.turn > 0 then false
    else p.still1 > 0
  }

  /** The robot has accepted something, and a velocity of motion last. */
  predicate LeftMoving(p: Plan) {
    p != NOTHING && !EndsStill(p)
  }

  /**
   A segment of these many commands from call `base` on leaves the robot moving: its first fatal
   answer comes after some of them are accepted and before all are, or all are and no zero after them is.
   */
  ghost predicate Strands(codes: nat -> int, base: nat, commands: nat) {
    || (exists j: nat :: FirstFatal(codes, base, j) && 0 < Zeros(codes, base, j) < commands)
    || (commands > 0 && exists m: nat :: DrivesThrough(codes, base, commands, m) && !Stands(codes, base + m))
  }

  /** A segment of these many commands from call `base` on succeeds, and the next one begins at call `end`. */
  ghost predicate Succeeds(codes: nat -> int, base: nat, commands: nat, end: nat) {
    exists m: nat ::
      DrivesThrough(codes, base, commands, m) && HeldStill(codes, base + m) && end == base + m + 10
  }

  /** A call is accepted after at most two time-outs, before call `end`. */
  predicate AcceptedBy(codes: nat -> int, at: nat, end: nat) {
    at < end <= at + 3 && AcceptsAfterTimeouts(codes, at, end - 1)
  }

  ghost predicate Prepares(codes: nat -> int, end: nat) {
    exists stood: nat :: AcceptedBy(codes, 0, stood) && AcceptedBy(codes, stood, end)
  }

  /** The robot's answers leave it moving: in the first segment, or in a later one after those before have succeeded. */
  ghost predicate LeavesMoving(codes: nat -> int, forward: nat, turn: nat) {
    || (exists a: nat :: Prepares(codes, a) && Strands(codes, a, forward))
    || (exists a: nat, b: nat ::
          Prepares(codes, a) && Succeeds(codes, a, forward, b) && Strands(codes, b, turn))
    || (exists a: nat, b: nat, c: nat ::
          && Prepares(codes, a) && Succeeds(codes, a, forward, b) && Succeeds(codes, b, turn, c)
          && Strands(codes, c, forward))
  }

  lemma LegExactly(codes: nat -> int, base: nat, commands: nat)
    ensures var l := LegOf(codes, base, commands);
            && (l.moving > 0 && l.still == 0 <==> Strands(codes, base, commands))
            && (l.code == 0 ==> l.still > 0)
    ensures forall end: nat :: Succeeds(codes, base, commands, end)
              <==> LegOf(codes, base, commands).code == 0 && end == LegOf(codes, base, commands).end
  {
    LegStrands(codes, base, commands);
    LegSucceeds(codes, base, commands);
  }

  lemma LegStrands(codes: nat -> int, base: nat, commands: nat)
    ensures var l := LegOf(codes, base, commands);
            && (l.moving > 0 && l.still == 0 <==> Strands(codes, base, commands))
            && (l.code == 0 ==> l.still > 0)
  {
    hide Driven, Held, Stands, HeldStill, Fatal;
    var m := DrivenExactly(codes, base, commands);
    var d, l := Driven(codes, base, commands, 0), LegOf(codes, base, commands);
    HeldExactly(codes, d.end);
    if j: nat :| FirstFatal(codes, base, j) && 0 < Zeros(codes, base, j) < commands {
      OneWayToFail(codes, base, commands, j);
    }
    if commands > 0 {
      if n: nat :| DrivesThrough(codes, base, commands, n) && !Stands(codes, base + n) {
        OneWayThrough(codes, base, commands, n);
      }
    }
  }

  lemma LegSucceeds(codes: nat -> int, base: nat, commands: nat)
    ensures forall end: nat :: Succeeds(codes, base, commands, end)
              <==> LegOf(codes, base, commands).code == 0 && end == LegOf(codes, base, commands).end
  {
    hide Driven, Held, Stands, HeldStill, Fatal;
    var m := DrivenExactly(codes, base, commands);
    var d := Driven(codes, base, commands, 0);
    HeldExactly(codes, d.end);
    forall end: nat
      ensures Succeeds(codes, base, commands, end)
          <==> LegOf(codes, base, commands).code == 0 && end == LegOf(codes, base, commands).end
    {
      if n: nat :| DrivesThrough(codes, base, commands, n) && HeldStill(codes, base + n) && end == base + n + ZEROS {
        OneWayThrough(codes, base, commands, n);
      }
    }
  }

  lemma TriedExactly(codes: nat -> int, at: nat)
    ensures forall end: nat :: AcceptedBy(codes, at, end)
              <==> Tried(codes, at, TRIES).code == 0 && end == Tried(codes, at, TRIES).end
  {
    assert Tried(codes, at, 3) == if codes(at) == TIMEOUT then Tried(codes, at + 1, 2) else Phase(0, at + 1, codes(at));
    assert Tried(codes, at + 1, 2)
        == if codes(at + 1) == TIMEOUT then Tried(codes, at + 2, 1) else Phase(0, at + 2, codes(at + 1));
    assert Tried(codes, at + 2, 1) == Phase(0, at + 3, codes(at + 2));
  }

  lemma PreparedExactly(codes: nat -> int)
    ensures forall end: nat :: Prepares(codes, end)
              <==> PreparedTo(codes, 0).code == 0 && end == PreparedTo(codes, 0).end
  {
    hide Tried, AcceptedBy;
    var stand := Tried(codes, 0, TRIES);
    TriedExactly(codes, 0);
    TriedExactly(codes, stand.end);
    if PreparedTo(codes, 0).code == 0 {
      assert AcceptedBy(codes, 0, stand.end) && AcceptedBy(codes, stand.end, PreparedTo(codes, 0).end);
    }
  }

  /** A patrol leaves the robot moving if and only if the robot's answers say so. */
  lemma LeftMovingExactly(codes: nat -> int, forward: nat, turn: nat)
    ensures LeftMoving(PatrolOf(codes, forward, turn).done) <==> LeavesMoving(codes, forward, turn)
  {
    hide PreparedTo, Prepares, Succeeds, Strands, LegOf, Tried, Held;
    PreparedExactly(codes);
    var start := PreparedTo(codes, 0).end;
    LegExactly(codes, start, forward);
    var a := LegOf(codes, start, forward);
    LegExactly(codes, a.end, turn);
    var b := LegOf(codes, a.end, turn);
    LegExactly(codes, b.end, forward);
    if PreparedTo(codes, 0).code == 0 {
      assert Prepares(codes, start);
      if a.code == 0 {
        assert Succeeds(codes, start, forward, a.end);
        if b.code == 0 {
          assert Succeeds(codes, a.end, turn, b.end);
        }
      }
    }
  }

  // ----- the code -----

  /** How many commands segment `n` takes: out, turn, back. */
  function SegmentOf(forward: nat, turn: nat, n: nat): nat {
    if n == 2 then turn else forward
  }

  /** The preparation and the first `n` segments succeed, and the next one begins at call `at`. */
  ghost predicate SucceedsTo(codes: nat -> int, forward: nat, turn: nat, n: nat, at: nat) {
    if n == 0 then Prepares(codes, at)
    else
      exists before: nat ::
        SucceedsTo(codes, forward, turn, n - 1, before) && Succeeds(codes, before, SegmentOf(forward, turn, n), at)
  }

  ghost predicate Gets(codes: nat -> int, forward: nat, turn: nat, n: nat) {
    exists at: nat :: SucceedsTo(codes, forward, turn, n, at)
  }

  /** The stop is made again while it times out, three times in all, and call `end` is the first one after it. */
  predicate StopsBy(codes: nat -> int, at: nat, end: nat) {
    && at < end <= at + 3 && (forall k | at <= k < end - 1 :: codes(k) == 3104)
    && (end < at + 3 ==> codes(end - 1) != 3104)
  }

  /** After all segments, whatever becomes of the stop, the robot is held still. */
  ghost predicate EndsHeld(codes: nat -> int, forward: nat, turn: nat) {
    exists at: nat, end: nat ::
      SucceedsTo(codes, forward, turn, 3, at) && StopsBy(codes, at, end) && HeldStill(codes, end)
  }

  lemma StopsExactly(codes: nat -> int, at: nat)
    ensures forall end: nat :: StopsBy(codes, at, end) <==> end == Tried(codes, at, TRIES).end
  {
    assert Tried(codes, at, 3) == if codes(at) == TIMEOUT then Tried(codes, at + 1, 2) else Phase(0, at + 1, codes(at));
    assert Tried(codes, at + 1, 2)
        == if codes(at + 1) == TIMEOUT then Tried(codes, at + 2, 1) else Phase(0, at + 2, codes(at + 1));
    assert Tried(codes, at + 2, 1) == Phase(0, at + 3, codes(at + 2));
  }

  /** Where the segments of a patrol begin. */
  lemma SegmentsBegin(codes: nat -> int, forward: nat, turn: nat)
    ensures var start := PreparedTo(codes, 0);
            var a := LegOf(codes, start.end, forward);
            var b := LegOf(codes, a.end, turn);
            var c := LegOf(codes, b.end, forward);
            && (forall at: nat :: SucceedsTo(codes, forward, turn, 0, at) <==> start.code == 0 && at == start.end)
            && (forall at: nat :: SucceedsTo(codes, forward, turn, 1, at)
                  <==> start.code == 0 && a.code == 0 && at == a.end)
            && (forall at: nat :: SucceedsTo(codes, forward, turn, 2, at)
                  <==> start.code == 0 && a.code == 0 && b.code == 0 && at == b.end)
            && (forall at: nat :: SucceedsTo(codes, forward, turn, 3, at)
                  <==> start.code == 0 && a.code == 0 && b.code == 0 && c.code == 0 && at == c.end)
  {
    hide PreparedTo, Prepares, Succeeds, LegOf;
    PreparedExactly(codes);
    var start := PreparedTo(codes, 0);
    assert forall at: nat :: SucceedsTo(codes, forward, turn, 0, at) <==> start.code == 0 && at == start.end;
    hide SucceedsTo;
    var a := LegOf(codes, start.end, forward);
    NextBegins(codes, forward, turn, 0, 1, start.code == 0, start.end);
    var b := LegOf(codes, a.end, turn);
    NextBegins(codes, forward, turn, 1, 2, start.code == 0 && a.code == 0, a.end);
    NextBegins(codes, forward, turn, 2, 3, start.code == 0 && a.code == 0 && b.code == 0, b.end);
  }

  lemma NextBegins(codes: nat -> int, forward: nat, turn: nat, k: nat, n: nat, done: bool, end: nat)
    requires n == k + 1 && forall at: nat :: SucceedsTo(codes, forward, turn, k, at) <==> done && at == end
    ensures forall at: nat :: SucceedsTo(codes, forward, turn, n, at)
              <==> done && LegOf(codes, end, SegmentOf(forward, turn, n)).code == 0
                   && at == LegOf(codes, end, SegmentOf(forward, turn, n)).end
  {
    LegExactly(codes, end, SegmentOf(forward, turn, n));
    hide LegOf, Succeeds, SegmentOf, Strands;
    var leg := LegOf(codes, end, SegmentOf(forward, turn, n));
    assert done ==> SucceedsTo(codes, forward, turn, k, end);
    assert leg.code == 0 ==> Succeeds(codes, end, SegmentOf(forward, turn, n), leg.end);
  }

  /**
   The code of a patrol, exactly: 4 when it cannot be prepared, 10 to 12 for the segment that fails
   after those before it have succeeded, and after all of them 0 or 13, as the robot is held still or not.
   */
  lemma CodeExactly(codes: nat -> int, forward: nat, turn: nat)
    ensures var code := PatrolOf(codes, forward, turn).code;
            && (code == 4 <==> !Gets(codes, forward, turn, 0))
            && (code == 10 <==> Gets(codes, forward, turn, 0) && !Gets(codes, forward, turn, 1))
            && (code == 11 <==> Gets(codes, forward, turn, 1) && !Gets(codes, forward, turn, 2))
            && (code == 12 <==> Gets(codes, forward, turn, 2) && !Gets(codes, forward, turn, 3))
            && (code == 13 <==> Gets(codes, forward, turn, 3) && !EndsHeld(codes, forward, turn))
            && (code == 0 <==> EndsHeld(codes, forward, turn))
  {
    hide PreparedTo, SucceedsTo, LegOf, Tried, Held, HeldStill, StopsBy;
    SegmentsBegin(codes, forward, turn);
    var start := PreparedTo(codes, 0);
    var a := LegOf(codes, start.end, forward);
    var b := LegOf(codes, a.end, turn);
    var c := LegOf(codes, b.end, forward);
    assert SucceedsTo(codes, forward, turn, 0, start.end) <==> start.code == 0;
    assert SucceedsTo(codes, forward, turn, 1, a.end) <==> start.code == 0 && a.code == 0;
    assert SucceedsTo(codes, forward, turn, 2, b.end) <==> start.code == 0 && a.code == 0 && b.code == 0;
    assert SucceedsTo(codes, forward, turn, 3, c.end)
      <==> start.code == 0 && a.code == 0 && b.code == 0 && c.code == 0;
    StopsExactly(codes, c.end);
    var end := Tried(codes, c.end, TRIES).end;
    assert StopsBy(codes, c.end, end);
    HeldExactly(codes, end);
  }

  // ----- a robot left moving -----

  /** Everything is accepted but the second command of the first segment, which is an error. */
  const SECOND_FAILS: nat -> int := i => if i == 3 then 1 else 0

  /** Such answers leave the robot moving, in every patrol of two or more commands. */
  lemma SecondMoveFails(forward: nat, turn: nat)
    requires forward >= 2
    ensures PatrolOf(SECOND_FAILS, forward, turn) == Outcome(Plan(1, 0, 0, 0, 0, 0), 10)
    ensures LeavesMoving(SECOND_FAILS, forward, turn)
  {
    var codes := SECOND_FAILS;
    assert codes(0) == 0 && codes(1) == 0 && codes(2) == 0 && codes(3) == 1;
    assert Tried(codes, 0, TRIES) == Phase(0, 1, 0) && Tried(codes, 1, TRIES) == Phase(0, 2, 0);
    assert Driven(codes, 3, forward - 1, 0) == Phase(0, 4, 1);
    assert Driven(codes, 2, forward, 0) == Phase(1, 4, 1);
    assert LegOf(codes, 2, forward) == Leg(1, 0, 4, 1);
    LeftMovingExactly(codes, forward, turn);
  }
}
