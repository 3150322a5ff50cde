/**
 What the bridge's fields mean, told from the steps taken alone: whose process is the active one, when
 the cancel event is set, and which requests for a linear motion are accepted.
 */
module BridgeHandles {
  import opened Jobs
  import opened BridgeMotion

  /** Step `m` of the interleaving is taken, not one that does nothing. */
  predicate Taken(steps: seq<Step>, m: nat)
    requires m < |steps|
  {
    Enabled(BridgeAt(steps, m), steps[m])
  }

  /** The process that a thread has at its place in the code. */
  function ProcessOf(phase: Phase): Option<nat> {
    match phase
    case Launched(pid) => Some(pid)
    case Registered(pid) => Some(pid)
    case Unregistering(pid) => Some(pid)
    case OtherLaunched(pid) => Some(pid)
    case OtherRegistered(pid) => Some(pid)
    case _ => None
  }

  /** The process that step `m` makes the active one. */
  function Registers(steps: seq<Step>, m: nat): Option<nat>
    requires m < |steps|
  {
    match steps[m]
    case Register(t) => if Taken(steps, m) then ProcessOf(BridgeAt(steps, m).threads[t]) else None
    case OtherRegister(t) => if Taken(steps, m) then ProcessOf(BridgeAt(steps, m).threads[t]) else None
    case _ => None
  }

  /** The process whose handle step `m` takes back, if it is still the active one. */
  function LetsGo(steps: seq<Step>, m: nat): Option<nat>
    requires m < |steps|
  {
    match steps[m]
    case Unregister(t) => if Taken(steps, m) then ProcessOf(BridgeAt(steps, m).threads[t]) else None
    case OtherUnregister(t) => if Taken(steps, m) then ProcessOf(BridgeAt(steps, m).threads[t]) else None
    case _ => None
  }

  lemma ActiveStep(steps: seq<Step>, m: nat)
    requires m < |steps|
    ensures BridgeAt(steps, m + 1).active
         == if Registers(steps, m).Some? then Registers(steps, m)
            else if BridgeAt(steps, m).active.Some? && LetsGo(steps, m) == BridgeAt(steps, m).active then None
            else BridgeAt(steps, m).active
  {
  }

  /** Step `m` registers the process, and since then no other has been registered nor this one let go. */
  predicate RegisteredSince(steps: seq<Step>, m: nat, n: nat, pid: nat)
    requires m < n <= |steps|
  {
    && Registers(steps, m) == Some(pid)
    && forall k | m < k < n :: Registers(steps, k) == None && LetsGo(steps, k) != Some(pid)
  }

  /** The active process is the last one that was registered, until the thread that did so takes its handle back. */
  lemma {:induction false} ActiveExactly(steps: seq<Step>, n: nat, pid: nat)
    requires n <= |steps|
    ensures BridgeAt(steps, n).active == Some(pid) <==> exists m | 0 <= m < n :: RegisteredSince(steps, m, n, pid)
  {
    hide BridgeAt, Registers, LetsGo;
    if n == 0 {
      NoHandleAtFirst(steps);
    } else {
      ActiveExactly(steps, n - 1, pid);
      ActiveStep(steps, n - 1);
      if BridgeAt(steps, n).active == Some(pid) {
        if Registers(steps, n - 1).Some? {
          assert RegisteredSince(steps, n - 1, n, pid);
        } else {
          var m :| 0 <= m < n - 1 && RegisteredSince(steps, m, n - 1, pid);
          assert RegisteredSince(steps, m, n, pid);
        }
      } else if m :| 0 <= m < n && RegisteredSince(steps, m, n, pid) {
        assert m < n - 1 ==> RegisteredSince(steps, m, n - 1, pid);
      }
    }
  }

  lemma NoHandleAtFirst(steps: seq<Step>)
    ensures BridgeAt(steps, 0).active == None && !BridgeAt(steps, 0).cancelled
  {
  }

  // ----- the cancel event -----

  /** Step `m` clears the cancel event: a request for a linear motion comes in, or a patrol begins. */
  predicate Clears(steps: seq<Step>, m: nat)
    requires m < |steps|
  {
    (steps[m].ClearCancel? || steps[m].PatrolBegins?) && Taken(steps, m)
  }

  /** Step `m` is a stop request, and since then nothing has cleared the event. */
  predicate StoppedSince(steps: seq<Step>, m: nat, n: nat)
    requires m < n <= |steps|
  {
    steps[m].StopRequested? && forall k | m < k < n :: !Clears(steps, k)
  }

  lemma CancelStep(steps: seq<Step>, m: nat)
    requires m < |steps|
    ensures BridgeAt(steps, m + 1).cancelled
        <==> steps[m].StopRequested? || (BridgeAt(steps, m).cancelled && !Clears(steps, m))
  {
  }

  /**
   The cancel event is set if and only if a stop was requested after the last request for a linear
   motion came in and the last patrol began: either makes the bridge forget an earlier stop.
   */
  lemma {:induction false} CancelledExactly(steps: seq<Step>, n: nat)
    requires n <= |steps|
    ensures BridgeAt(steps, n).cancelled <==> exists m | 0 <= m < n :: StoppedSince(steps, m, n)
  {
    hide BridgeAt, Taken, Clears;
    if n == 0 {
      NoHandleAtFirst(steps);
    } else {
      CancelledExactly(steps, n - 1);
      CancelStep(steps, n - 1);
      if BridgeAt(steps, n).cancelled {
        if steps[n - 1].StopRequested? {
          assert StoppedSince(steps, n - 1, n);
        } else {
          var m :| 0 <= m < n - 1 && StoppedSince(steps, m, n - 1);
          assert StoppedSince(steps, m, n);
        }
      } else if m :| 0 <= m < n && StoppedSince(steps, m, n) {
        assert m < n - 1 ==> StoppedSince(steps, m, n - 1);
      }
    }
  }

  /** A motion is queued and its worker started; a stop is requested; another motion is asked for, and refused. */
  const FORGETFUL: seq<Step> :=
    [Request(0), ClearCancel(0), Check(0)] + [StartWorker(0, 1), StopRequested] + [Request(2), ClearCancel(2), Check(2)]

  const QUEUED_AND_STOPPED := QUEUED.(threads := map[0 := Ended, 1 := Working], cancelled := true)

  lemma QueuedAndStopped()
    ensures Then(Then(QUEUED, StartWorker(0, 1)), StopRequested) == QUEUED_AND_STOPPED
  {
    assert Then(QUEUED, StartWorker(0, 1)).threads == map[0 := Ended, 1 := Working];
  }

  lemma RefusedButForgotten()
    ensures Then(Then(Then(QUEUED_AND_STOPPED, Request(2)), ClearCancel(2)), Check(2))
         == QUEUED.(threads := map[0 := Ended, 1 := Working, 2 := Ended])
  {
    var entered := Then(QUEUED_AND_STOPPED, Request(2));
    assert entered.threads == map[0 := Ended, 1 := Working, 2 := Entering];
    var checking := Then(entered, ClearCancel(2));
    assert checking == QUEUED.(threads := map[0 := Ended, 1 := Working, 2 := Checking]);
  }

  /** A stop can be forgotten: the refused request has cleared it before the worker has looked, which goes on. */
  lemma StopIsForgotten()
    ensures var b := After(FORGETFUL);
            && b.threads == map[0 := Ended, 1 := Working, 2 := Ended] && !b.cancelled
            && !Enabled(b, WorkerCancelled(1)) && Enabled(b, Launch(1, 0))
  {
    FirstIsQueued();
    QueuedAndStopped();
    RefusedButForgotten();
    hide Then;
    ThreeMoreSteps([], Request(0), ClearCancel(0), Check(0));
    var queued := [Request(0), ClearCancel(0), Check(0)];
    assert [] + queued == queued;
    TwoMoreSteps(queued, StartWorker(0, 1), StopRequested);
    var stopped := queued + [StartWorker(0, 1), StopRequested];
    ThreeMoreSteps(stopped, Request(2), ClearCancel(2), Check(2));
    assert stopped + [Request(2), ClearCancel(2), Check(2)] == FORGETFUL;
  }

  // ----- accepting a linear motion -----

  /** The process last registered and not let go is alive. */
  ghost predicate ActiveIsAlive(steps: seq<Step>, n: nat)
    requires n <= |steps|
  {
    exists m, pid | 0 <= m < n :: RegisteredSince(steps, m, n, pid) && pid in BridgeAt(steps, n).live
  }

  /**
   A request for a linear motion is accepted at its check if and only if no thread holds one and the
   process last registered and not let go, if any, has ended; it then holds the motion, and otherwise ends.
   */
  lemma AcceptedExactly(steps: seq<Step>, n: nat, t: nat)
    requires n < |steps| && steps[n] == Check(t) && Taken(steps, n)
    ensures OwnsThread(BridgeAt(steps, n + 1), t)
        <==> (forall u: nat :: !OwnsThread(BridgeAt(steps, n), u)) && !ActiveIsAlive(steps, n)
    ensures !OwnsThread(BridgeAt(steps, n + 1), t) ==>
              BridgeAt(steps, n + 1).threads == BridgeAt(steps, n).threads[t := Ended]
  {
    var owner := AlwaysOwned(steps, n);
    var b := BridgeAt(steps, n);
    CheckStep(steps, n, t);
    hide BridgeAt, Taken;
    if owner.Some? {
      assert OwnsThread(b, owner.value);
    }
    if b.active.Some? {
      ActiveExactly(steps, n, b.active.value);
    }
    if m, pid :| 0 <= m < n && RegisteredSince(steps, m, n, pid) && pid in b.live {
      ActiveExactly(steps, n, pid);
    }
  }

  lemma CheckStep(steps: seq<Step>, n: nat, t: nat)
    requires n < |steps| && steps[n] == Check(t) && Taken(steps, n)
    ensures var b, a := BridgeAt(steps, n), BridgeAt(steps, n + 1);
            if b.pending || (b.active.Some? && b.active.value in b.live)
            then a.threads == b.threads[t := Ended] && !OwnsThread(a, t)
            else OwnsThread(a, t)
  {
  }

  /** A worker gives up before launching its helper only because of a stop request that is still in force. */
  lemma CancelledForCause(steps: seq<Step>, n: nat, t: nat)
    requires n < |steps| && steps[n] == WorkerCancelled(t) && Taken(steps, n)
    ensures exists m | 0 <= m < n :: StoppedSince(steps, m, n)
  {
    CancelledExactly(steps, n);
    hide BridgeAt;
  }

  // ----- every motion comes to its end -----

  /** How many steps of its own a thread has before it at most. */
  function StepsLeft(phase: Phase): nat {
    match phase
    case Entering => 4
    case Checking => 3
    case Spawning => 2
    case Undoing => 1
    case Working => 5
    case Launched(_) => 4
    case Registered(_) => 3
    case Unregistering(_) => 2
    case Finishing => 1
    case PatrolStarting => 3
    case OtherLaunched(_) => 2
    case OtherRegistered(_) => 1
    case Ended => 0
  }

  /** The step is one of this thread, which is there already. */
  predicate IsOf(s: Step, t: nat) {
    match s
    case Request(_) => false
    case OtherMotion(_, _) => false
    case PatrolBegins(_) => false
    case ProcessExits(_) => false
    case StopRequested => false
    case _ => s.thread == t
  }

  lemma StepMovesOn(b: Bridge, s: Step, t: nat)
    requires Enabled(b, s) && t in b.threads && IsOf(s, t)
    ensures t in Apply(b, s).threads && StepsLeft(Apply(b, s).threads[t]) < StepsLeft(b.threads[t])
  {
  }

  lemma StepLeavesOthers(b: Bridge, s: Step, t: nat)
    requires Enabled(b, s) && t in b.threads && !IsOf(s, t)
    ensures t in Apply(b, s).threads && Apply(b, s).threads[t] == b.threads[t]
  {
  }

  /** The steps that thread `t` takes between `m` and `n`. */
  function OwnSteps(steps: seq<Step>, m: nat, n: nat, t: nat): nat
    requires m <= n <= |steps|
    decreases n
  {
    if m == n then 0 else OwnSteps(steps, m, n - 1, t) + (if Taken(steps, n - 1) && IsOf(steps[n - 1], t) then 1 else 0)
  }

  /** In every interleaving a thread takes at most as many steps as it has before it: at most five for a worker. */
  lemma {:induction false} ThreadsEnd(steps: seq<Step>, m: nat, n: nat, t: nat)
    requires m <= n <= |steps| && t in BridgeAt(steps, m).threads
    ensures t in BridgeAt(steps, n).threads
    ensures OwnSteps(steps, m, n, t) + StepsLeft(BridgeAt(steps, n).threads[t])
         <= StepsLeft(BridgeAt(steps, m).threads[t])
    decreases n
  {
    hide Enabled, Apply;
    if m < n {
      ThreadsEnd(steps, m, n - 1, t);
      if Taken(steps, n - 1) {
        if IsOf(steps[n - 1], t) {
          StepMovesOn(BridgeAt(steps, n - 1), steps[n - 1], t);
        } else {
          StepLeavesOthers(BridgeAt(steps, n - 1), steps[n - 1], t);
        }
      }
    }
  }

  /** And it is never stuck: a thread that has not ended has a step of its own to take, whatever the others do. */
  lemma NeverStuck(b: Bridge, t: nat, w: nat, pid: nat) returns (s: Step)
    requires t in b.threads && !b.threads[t].Ended? && w !in b.threads && pid !in b.launched
    ensures Enabled(b, s) && IsOf(s, t)
  {
    match b.threads[t]
    case Entering => s := ClearCancel(t);
    case Checking => s := Check(t);
    case Spawning => s := StartWorker(t, w);
    case Undoing => s := UndoPending(t);
    case Working => s := Launch(t, pid);
    case Launched(_) => s := Register(t);
    case Registered(p) => s := if p in b.live then HelperAbandoned(t) else HelperReaped(t);
    case Unregistering(_) => s := Unregister(t);
    case Finishing => s := Finish(t);
    case PatrolStarting => s := PatrolFails(t);
    case OtherLaunched(_) => s := OtherRegister(t);
    case OtherRegistered(_) => s := OtherUnregister(t);
  }
}
