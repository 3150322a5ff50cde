/**
 Motion in the Go2 bridge, where request threads, the worker of a linear motion and other motions
 run interleaved. Each step is one section of the code that no other thread can interrupt: a section
 under the motion lock, or a single call outside it.
 */
module BridgeMotion {
  import opened Jobs

  // ----- threads -----

  /** Where a thread stands. */
  datatype Phase =
    // a request for a linear motion
    | Entering
    | Checking
    | Spawning
    | Undoing
    // the worker of a linear motion
    | Working
    | Launched(pid: nat)
    | Registered(pid: nat)
    | Unregistering(pid: nat)
    | Finishing
    // a patrol or another motion outside the exclusion; a single zero velocity is never registered
    | PatrolStarting
    | OtherLaunched(pid: nat)
    | OtherRegistered(pid: nat)
    | Ended

  /**
   The bridge: its threads, the pending flag, the cancel event, the handle of the active process,
   the helper processes that are alive, all that were ever launched, those launched for linear
   motions, and those their worker has given up on.
   */
  datatype Bridge = Bridge(
    threads: map<nat, Phase>,
    pending: bool,
    cancelled: bool,
    active: Option<nat>,
    live: set<nat>,
    launched: set<nat>,
    linear: set<nat>,
    abandoned: set<nat>)

  const INITIAL := Bridge(map[], false, false, None, {}, {}, {}, {})

  // ----- steps -----

  datatype Step =
    | Request(thread: nat)
    | ClearCancel(thread: nat)
    | Check(thread: nat)
    | StartWorker(thread: nat, worker: nat)
    | StartFails(thread: nat)
    | UndoPending(thread: nat)
    | WorkerCancelled(thread: nat)
    | LaunchFails(thread: nat)
    | Launch(thread: nat, pid: nat)
    | Register(thread: nat)
    | HelperReaped(thread: nat)
    | HelperAbandoned(thread: nat)
    | Unregister(thread: nat)
    | Finish(thread: nat)
    | PatrolBegins(thread: nat)
    | PatrolFails(thread: nat)
    | PatrolLaunches(thread: nat, pid: nat)
    | OtherMotion(thread: nat, pid: nat)
    | OtherRegister(thread: nat)
    | OtherUnregister(thread: nat)
    | OtherEnds(thread: nat)
    | ProcessExits(pid: nat)
    | StopRequested

  predicate At(b: Bridge, thread: nat, phase: Phase) {
    thread in b.threads && b.threads[thread] == phase
  }

  predicate ProcessIsActive(b: Bridge) {
    b.active.Some? && b.active.value in b.live
  }

  predicate Enabled(b: Bridge, s: Step) {
    match s
    case Request(t) => t !in b.threads
    case ClearCancel(t) => At(b, t, Entering)
    case Check(t) => At(b, t, Checking)
    case StartWorker(t, w) => At(b, t, Spawning) && w !in b.threads
    case StartFails(t) => At(b, t, Spawning)
    case UndoPending(t) => At(b, t, Undoing)
    case WorkerCancelled(t) => At(b, t, Working) && b.cancelled
    case LaunchFails(t) => At(b, t, Working)
    case Launch(t, pid) => At(b, t, Working) && pid !in b.launched
    case Register(t) => t in b.threads && b.threads[t].Launched?
    case HelperReaped(t) => t in b.threads && b.threads[t].Registered? && b.threads[t].pid !in b.live
    case HelperAbandoned(t) => t in b.threads && b.threads[t].Registered? && b.threads[t].pid in b.live
    case Unregister(t) => t in b.threads && b.threads[t].Unregistering?
    case Finish(t) => At(b, t, Finishing)
    case PatrolBegins(t) => t !in b.threads
    case PatrolFails(t) => At(b, t, PatrolStarting)
    case PatrolLaunches(t, pid) => At(b, t, PatrolStarting) && pid !in b.launched
    case OtherMotion(t, pid) => t !in b.threads && pid !in b.launched
    case OtherRegister(t) => t in b.threads && b.threads[t].OtherLaunched?
    case OtherUnregister(t) => t in b.threads && b.threads[t].OtherRegistered?
    case OtherEnds(t) => t in b.threads && b.threads[t].OtherLaunched?
    case ProcessExits(pid) => pid in b.live
    case StopRequested => true
  }

  function Goes(b: Bridge, thread: nat, phase: Phase): Bridge {
    b.(threads := b.threads[thread := phase])
  }

  function Born(b: Bridge, pid: nat): Bridge {
    b.(live := b.live + {pid}, launched := b.launched + {pid})
  }

  function Released(b: Bridge, pid: nat): Bridge {
    b.(active := if b.active == Some(pid) then None else b.active)
  }

  function Apply(b: Bridge, s: Step): Bridge
    requires Enabled(b, s)
  {
    match s
    case Request(t) => Goes(b, t, Entering)
    case ClearCancel(t) => Goes(b.(cancelled := false), t, Checking)
    case Check(t) =>
      if b.pending || ProcessIsActive(b) then Goes(b, t, Ended) else Goes(b.(pending := true), t, Spawning)
    case StartWorker(t, w) => Goes(Goes(b, t, Ended), w, Working)
    case StartFails(t) => Goes(b, t, Undoing)
    case UndoPending(t) => Goes(b.(pending := false), t, Ended)
    case WorkerCancelled(t) => Goes(b, t, Finishing)
    case LaunchFails(t) => Goes(b, t, Finishing)
    case Launch(t, pid) => Goes(Born(b, pid).(linear := b.linear + {pid}), t, Launched(pid))
    case Register(t) => Goes(b.(active := Some(b.threads[t].pid)), t, Registered(b.threads[t].pid))
    case HelperReaped(t) => Goes(b, t, Unregistering(b.threads[t].pid))
    case HelperAbandoned(t) =>
      Goes(b.(abandoned := b.abandoned + {b.threads[t].pid}), t, Unregistering(b.threads[t].pid))
    case Unregister(t) => Goes(Released(b, b.threads[t].pid), t, Finishing)
    case Finish(t) => Goes(b.(pending := false), t, Ended)
    case PatrolBegins(t) => Goes(b.(cancelled := false), t, PatrolStarting)
    case PatrolFails(t) => Goes(b, t, Ended)
    case PatrolLaunches(t, pid) => Goes(Born(b, pid), t, OtherLaunched(pid))
    case OtherMotion(t, pid) => Goes(Born(b, pid), t, OtherLaunched(pid))
    case OtherRegister(t) => Goes(b.(active := Some(b.threads[t].pid)), t, OtherRegistered(b.threads[t].pid))
    case OtherUnregister(t) => Goes(Released(b, b.threads[t].pid), t, Ended)
    case OtherEnds(t) => Goes(b, t, Ended)
    case ProcessExits(pid) => b.(live := b.live - {pid})
    case StopRequested => b.(cancelled := true)
  }

  /** The bridge after the first `n` steps of an interleaving; steps that are not enabled do nothing. */
  function BridgeAt(steps: seq<Step>, n: nat): Bridge
    requires n <= |steps|
  {
    if n == 0 then INITIAL
    else
      var b := BridgeAt(steps, n - 1);
      if Enabled(b, steps[n - 1]) then Apply(b, steps[n - 1]) else b
  }

  // ----- exclusion -----

  /** The thread holds the linear motion: queued, or its worker is alive. */
  predicate Owns(p: Phase) {
    match p
    case Spawning => true
    case Undoing => true
    case Working => true
    case Launched(_) => true
    case Registered(_) => true
    case Unregistering(_) => true
    case Finishing => true
    case _ => false
  }

  predicate HasProcess(p: Phase) {
    p.Launched? || p.Registered? || p.Unregistering? || p.OtherLaunched? || p.OtherRegistered?
  }

  predicate OwnsThread(b: Bridge, t: nat) {
    t in b.threads && Owns(b.threads[t])
  }

  /** `owner` is the only thread that holds the linear motion, and the pending flag says that there is one. */
  ghost predicate OwnedBy(b: Bridge, owner: Option<nat>) {
    && (forall t: nat :: OwnsThread(b, t) <==> owner == Some(t))
    && (b.pending <==> owner.Some?)
  }

  /** Who holds the linear motion after a step. */
  function NextOwner(b: Bridge, owner: Option<nat>, s: Step): Option<nat> {
    match s
    case Check(t) => if b.pending || ProcessIsActive(b) then owner else Some(t)
    case StartWorker(_, w) => Some(w)
    case UndoPending(_) => None
    case Finish(_) => None
    case _ => owner
  }

  lemma StepKeepsOwner(b: Bridge, owner: Option<nat>, s: Step)
    requires OwnedBy(b, owner) && Enabled(b, s)
    ensures OwnedBy(Apply(b, s), NextOwner(b, owner, s))
  {
    if s.UndoPending? || s.Finish? || s.StartWorker? {
      assert OwnsThread(b, s.thread);
    }
    var a, next := Apply(b, s), NextOwner(b, owner, s);
    forall t: nat
      ensures OwnsThread(a, t) <==> next == Some(t)
    {
      assert OwnsThread(b, t) <==> owner == Some(t);
    }
  }

  lemma {:induction false} AlwaysOwned(steps: seq<Step>, n: nat) returns (owner: Option<nat>)
    requires n <= |steps|
    ensures OwnedBy(BridgeAt(steps, n), owner)
  {
    hide Apply, Enabled;
    if n == 0 {
      owner := None;
    } else {
      owner := AlwaysOwned(steps, n - 1);
      var b := BridgeAt(steps, n - 1);
      if Enabled(b, steps[n - 1]) {
        StepKeepsOwner(b, owner, steps[n - 1]);
        owner := NextOwner(b, owner, steps[n - 1]);
      }
    }
  }

  /** The worker of a linear motion, from its first step to its last. */
  predicate IsWorker(p: Phase) {
    p.Working? || p.Launched? || p.Registered? || p.Unregistering? || p.Finishing?
  }

  /**
   Linear-motion exclusion. In every interleaving, at most one linear motion is queued or has a
   worker alive; the pending flag is set exactly while there is one, so it is clear again once its
   worker has ended, however that came about.
   */
  lemma LinearMotionExclusion(steps: seq<Step>, n: nat, t: nat, u: nat)
    requires n <= |steps|
    ensures var b := BridgeAt(steps, n);
            && (OwnsThread(b, t) && OwnsThread(b, u) ==> t == u)
            && (t in b.threads && IsWorker(b.threads[t]) && u in b.threads && IsWorker(b.threads[u]) ==> t == u)
            && (OwnsThread(b, t) ==> b.pending)
            && (b.pending ==> exists o :: OwnsThread(b, o))
  {
    var owner := AlwaysOwned(steps, n);
    hide BridgeAt;
    var b := BridgeAt(steps, n);
    assert t in b.threads && IsWorker(b.threads[t]) ==> OwnsThread(b, t);
    assert u in b.threads && IsWorker(b.threads[u]) ==> OwnsThread(b, u);
    if b.pending {
      assert OwnsThread(b, owner.value);
    }
  }

  // ----- processes and their handle -----

  predicate Holds(b: Bridge, t: nat, pid: nat) {
    t in b.threads && HasProcess(b.threads[t]) && b.threads[t].pid == pid
  }

  /** A thread that registered the process and has not yet taken its handle back. */
  predicate HoldsHandle(b: Bridge, t: nat, pid: nat) {
    Holds(b, t, pid) && !b.threads[t].Launched? && !b.threads[t].OtherLaunched?
  }

  /** Every process belongs to one thread, which for a linear motion is the one that holds it. */
  ghost predicate Processes(b: Bridge) {
    && b.live <= b.launched && b.linear <= b.launched && b.abandoned <= b.linear
    && (forall t: nat, pid: nat | Holds(b, t, pid) :: pid in b.launched)
    && (forall t: nat, u: nat, pid: nat | Holds(b, t, pid) && Holds(b, u, pid) :: t == u)
    && (forall t: nat, pid: nat | Holds(b, t, pid) :: pid in b.linear <==> Owns(b.threads[t]))
  }

  /** The handle of the active process belongs to a thread that will take it back. */
  ghost predicate HandleIsHeld(b: Bridge) {
    b.active.Some? ==> exists t :: HoldsHandle(b, t, b.active.value)
  }

  /** A linear helper is alive only in the hands of a thread, unless that has given up on it. */
  ghost predicate NoStrays(b: Bridge) {
    && (forall pid | pid in b.linear && pid in b.live && pid !in b.abandoned :: exists t :: Holds(b, t, pid))
    && (forall t | t in b.threads && b.threads[t].Unregistering? ::
          b.threads[t].pid !in b.live || b.threads[t].pid in b.abandoned)
  }

  /** The process a step launches, for the thread it is launched in. */
  predicate Launches(s: Step, t: nat, pid: nat) {
    s == Launch(t, pid) || s == OtherMotion(t, pid) || s == PatrolLaunches(t, pid)
  }

  // A thread has a process after a step only if it had it before, or the step launched it.
  lemma WhereProcessesComeFrom(b: Bridge, s: Step, t: nat, pid: nat)
    requires Enabled(b, s)
    ensures Holds(Apply(b, s), t, pid) ==> Holds(b, t, pid) || Launches(s, t, pid)
    ensures Holds(Apply(b, s), t, pid) && Holds(b, t, pid) ==> Owns(Apply(b, s).threads[t]) == Owns(b.threads[t])
    ensures Launches(s, t, pid) ==>
              && pid !in b.launched && Holds(Apply(b, s), t, pid)
              && Owns(Apply(b, s).threads[t]) == s.Launch?
  {
  }

  lemma StepKeepsProcesses(b: Bridge, s: Step)
    requires Processes(b) && Enabled(b, s)
    ensures Processes(Apply(b, s))
  {
    var a := Apply(b, s);
    assert a.live <= a.launched && a.linear <= a.launched && a.abandoned <= a.linear by {
      if s.HelperAbandoned? {
        assert Holds(b, s.thread, b.threads[s.thread].pid);
      }
    }
    GrowingSets(b, s);
    hide Apply, Enabled;
    forall t: nat, pid: nat | Holds(a, t, pid)
      ensures pid in a.launched
      ensures pid in a.linear <==> Owns(a.threads[t])
    {
      WhereProcessesComeFrom(b, s, t, pid);
    }
    forall t: nat, u: nat, pid: nat | Holds(a, t, pid) && Holds(a, u, pid)
      ensures t == u
    {
      WhereProcessesComeFrom(b, s, t, pid);
      WhereProcessesComeFrom(b, s, u, pid);
    }
  }

  lemma GrowingSets(b: Bridge, s: Step)
    requires Enabled(b, s)
    ensures b.launched <= Apply(b, s).launched
    ensures forall t: nat, pid: nat | Launches(s, t, pid) :: pid in Apply(b, s).launched
    ensures forall pid | pid in b.launched :: pid in Apply(b, s).linear <==> pid in b.linear
    ensures forall t: nat, pid: nat | Launches(s, t, pid) && pid !in b.linear ::
              pid in Apply(b, s).linear <==> s.Launch?
  {
  }

  lemma StepKeepsHandle(b: Bridge, s: Step)
    requires Processes(b) && HandleIsHeld(b) && Enabled(b, s)
    ensures HandleIsHeld(Apply(b, s))
  {
    var a := Apply(b, s);
    if s.Register? || s.OtherRegister? {
      assert HoldsHandle(a, s.thread, a.active.value);
    } else if a.active.Some? {
      var t :| HoldsHandle(b, t, b.active.value);
      assert HoldsHandle(a, t, a.active.value);
    }
  }

  lemma StepKeepsNoStrays(b: Bridge, s: Step)
    requires Processes(b) && NoStrays(b) && Enabled(b, s)
    ensures NoStrays(Apply(b, s))
  {
    var a := Apply(b, s);
    forall pid | pid in a.linear && pid in a.live && pid !in a.abandoned
      ensures exists t :: Holds(a, t, pid)
    {
      if s.Launch? && s.pid == pid {
        assert Holds(a, s.thread, pid);
      } else {
        assert pid in b.linear && pid in b.live && pid !in b.abandoned by {
          NothingReborn(b, s, pid);
        }
        var t :| Holds(b, t, pid);
        assert Holds(a, t, pid);
      }
    }
    assert forall t | t in b.threads && b.threads[t].Unregistering? :: Holds(b, t, b.threads[t].pid);
  }

  // Only its launch makes a process live or linear.
  lemma NothingReborn(b: Bridge, s: Step, pid: nat)
    requires Processes(b) && Enabled(b, s) && !(s.Launch? && s.pid == pid)
    requires pid in Apply(b, s).linear && pid in Apply(b, s).live
    ensures pid in b.linear && pid in b.live
  {
  }

  ghost predicate Kept(b: Bridge) {
    Processes(b) && HandleIsHeld(b) && NoStrays(b)
  }

  lemma {:induction false} AlwaysKept(steps: seq<Step>, n: nat)
    requires n <= |steps|
    ensures Kept(BridgeAt(steps, n))
  {
    hide Apply, Enabled, Processes, HandleIsHeld, NoStrays;
    InitialIsKept();
    if n > 0 {
      AlwaysKept(steps, n - 1);
      var b := BridgeAt(steps, n - 1);
      if Enabled(b, steps[n - 1]) {
        StepKeepsProcesses(b, steps[n - 1]);
        StepKeepsHandle(b, steps[n - 1]);
        StepKeepsNoStrays(b, steps[n - 1]);
      }
    }
  }

  lemma InitialIsKept()
    ensures Kept(INITIAL)
  {
  }

  /**
   The handle of the active process is never left behind: in every interleaving it is the process
   of a thread that has registered it and will still take it back.
   */
  lemma HandleIsNeverStale(steps: seq<Step>, n: nat)
    requires n <= |steps| && BridgeAt(steps, n).active.Some?
    ensures exists t :: HoldsHandle(BridgeAt(steps, n), t, BridgeAt(steps, n).active.value)
  {
    AlwaysKept(steps, n);
    hide BridgeAt;
  }

  /** Unless some worker has given up on its helper, at most one linear helper process is alive. */
  lemma OneLinearHelper(steps: seq<Step>, n: nat, p: nat, q: nat)
    requires n <= |steps|
    requires var b := BridgeAt(steps, n);
             p in b.linear && p in b.live && p !in b.abandoned && q in b.linear && q in b.live && q !in b.abandoned
    ensures p == q
  {
    AlwaysKept(steps, n);
    var owner := AlwaysOwned(steps, n);
    hide BridgeAt;
    var b := BridgeAt(steps, n);
    var t :| Holds(b, t, p);
    var u :| Holds(b, u, q);
    assert OwnsThread(b, t) && OwnsThread(b, u);
  }

  function Then(b: Bridge, s: Step): Bridge {
    if Enabled(b, s) then Apply(b, s) else b
  }

  // Giving up, taking the handle back and finishing leave the bridge open for the next request.
  lemma GivingUpFrees(b: Bridge, owner: Option<nat>, t: nat)
    requires OwnedBy(b, owner)
    requires t in b.threads && b.threads[t].Registered? && b.threads[t].pid in b.live
    requires b.active == Some(b.threads[t].pid)
    ensures Then(Then(Then(b, HelperAbandoned(t)), Unregister(t)), Finish(t))
         == b.(threads := b.threads[t := Ended], pending := false, active := None,
               abandoned := b.abandoned + {b.threads[t].pid})
  {
    var abandoned := Then(b, HelperAbandoned(t));
    assert abandoned.threads[t] == Unregistering(b.threads[t].pid);
    var unregistered := Then(abandoned, Unregister(t));
    assert unregistered.threads[t] == Finishing && unregistered.active == None;
    assert b.threads[t := Unregistering(b.threads[t].pid)][t := Finishing][t := Ended] == b.threads[t := Ended];
  }

  lemma NextRequestLaunches(b: Bridge, u: nat, w: nat, q: nat)
    requires !b.pending && b.active == None
    requires u !in b.threads && w !in b.threads && u != w && q !in b.launched
    ensures var queued := Then(Then(Then(b, Request(u)), ClearCancel(u)), Check(u));
            var after := Then(Then(queued, StartWorker(u, w)), Launch(w, q));
            after.linear == b.linear + {q} && after.live == b.live + {q}
  {
    var queued := Then(Then(Then(b, Request(u)), ClearCancel(u)), Check(u));
    assert At(queued, u, Spawning) && w !in queued.threads && queued.launched == b.launched;
    var working := Then(queued, StartWorker(u, w));
    assert At(working, w, Working) && working.launched == b.launched;
  }

  function After(steps: seq<Step>): Bridge {
    BridgeAt(steps, |steps|)
  }

  lemma {:induction false} SameSteps(a: seq<Step>, b: seq<Step>, n: nat)
    requires n <= |a| && n <= |b| && forall i | 0 <= i < n :: a[i] == b[i]
    ensures BridgeAt(a, n) == BridgeAt(b, n)
  {
    hide Apply, Enabled;
    if n > 0 {
      SameSteps(a, b, n - 1);
    }
  }

  lemma OneMoreStep(steps: seq<Step>, s: Step)
    ensures After(steps + [s]) == Then(After(steps), s)
  {
    hide Apply, Enabled;
    SameSteps(steps, steps + [s], |steps|);
  }

  lemma ThreeMoreSteps(steps: seq<Step>, a: Step, b: Step, c: Step)
    ensures After(steps + [a, b, c]) == Then(Then(Then(After(steps), a), b), c)
  {
    hide Then, BridgeAt;
    OneMoreStep(steps, a);
    OneMoreStep(steps + [a], b);
    OneMoreStep(steps + [a] + [b], c);
    assert steps + [a] + [b] + [c] == steps + [a, b, c];
  }

  lemma TwoMoreSteps(steps: seq<Step>, a: Step, b: Step)
    ensures After(steps + [a, b]) == Then(Then(After(steps), a), b)
  {
    hide Then, BridgeAt;
    OneMoreStep(steps, a);
    OneMoreStep(steps + [a], b);
    assert steps + [a] + [b] == steps + [a, b];
  }

  /** Worker `t` gives up on its helper; then thread `u` requests a motion, and its worker `w` launches `q`. */
  function GivingUpAndGoingOn(t: nat, u: nat, w: nat, q: nat): seq<Step> {
    [HelperAbandoned(t), Unregister(t), Finish(t)] + [Request(u), ClearCancel(u), Check(u)]
    + [StartWorker(u, w), Launch(w, q)]
  }

  lemma HelperIsLinear(steps: seq<Step>, t: nat) returns (owner: Option<nat>)
    requires t in After(steps).threads && After(steps).threads[t].Registered?
    ensures OwnedBy(After(steps), owner)
    ensures After(steps).threads[t].pid in After(steps).linear && After(steps).threads[t].pid in After(steps).launched
  {
    AlwaysKept(steps, |steps|);
    owner := AlwaysOwned(steps, |steps|);
    hide BridgeAt, OwnedBy;
    assert Holds(After(steps), t, After(steps).threads[t].pid);
  }

  /**
   And when a worker does give up, nothing else prevents a second one: from any point of any
   interleaving where a worker has a helper alive and its handle, a new request can have its own
   helper alive beside the abandoned one.
   */
  lemma SecondHelperBesideAbandoned(steps: seq<Step>, t: nat, u: nat, w: nat, q: nat)
    requires var b := After(steps);
             && t in b.threads && b.threads[t].Registered? && b.threads[t].pid in b.live
             && b.active == Some(b.threads[t].pid)
             && u !in b.threads && w !in b.threads && u != w && q !in b.launched
    ensures var p, after := After(steps).threads[t].pid, After(steps + GivingUpAndGoingOn(t, u, w, q));
            p != q && p in after.linear && p in after.live && q in after.linear && q in after.live
  {
    var b := After(steps);
    var owner := HelperIsLinear(steps, t);
    hide BridgeAt, Apply, Enabled, Kept, OwnedBy;
    GivingUpFrees(b, owner, t);
    var freed := steps + [HelperAbandoned(t), Unregister(t), Finish(t)];
    var queued := freed + [Request(u), ClearCancel(u), Check(u)];
    ThreeMoreSteps(steps, HelperAbandoned(t), Unregister(t), Finish(t));
    ThreeMoreSteps(freed, Request(u), ClearCancel(u), Check(u));
    TwoMoreSteps(queued, StartWorker(u, w), Launch(w, q));
    hide Then;
    NextRequestLaunches(After(freed), u, w, q);
    assert queued + [StartWorker(u, w), Launch(w, q)] == steps + GivingUpAndGoingOn(t, u, w, q);
  }

  /** The first request and its worker, up to the registration of its helper `p`. */
  function FirstMotion(p: nat): seq<Step> {
    [Request(0), ClearCancel(0), Check(0)] + [StartWorker(0, 1), Launch(1, p), Register(1)]
  }

  const QUEUED := INITIAL.(threads := map[0 := Spawning], pending := true)

  function RunningOne(p: nat): Bridge {
    Bridge(map[0 := Ended, 1 := Registered(p)], true, false, Some(p), {p}, {p}, {p}, {})
  }

  lemma FirstIsQueued()
    ensures Then(Then(Then(INITIAL, Request(0)), ClearCancel(0)), Check(0)) == QUEUED
  {
    var entered := Then(INITIAL, Request(0));
    assert entered == INITIAL.(threads := map[0 := Entering]);
    var checking := Then(entered, ClearCancel(0));
    assert checking == INITIAL.(threads := map[0 := Checking]);
  }

  lemma FirstRuns(p: nat)
    ensures Then(Then(Then(QUEUED, StartWorker(0, 1)), Launch(1, p)), Register(1)) == RunningOne(p)
  {
    var working := Then(QUEUED, StartWorker(0, 1));
    assert working == QUEUED.(threads := map[0 := Ended, 1 := Working]);
    var launched := Then(working, Launch(1, p));
    assert launched
        == Bridge(map[0 := Ended, 1 := Launched(p)], true, false, None, {p}, {p}, {p}, {});
  }

  lemma FirstMotionRuns(p: nat)
    ensures After(FirstMotion(p)) == RunningOne(p)
  {
    hide Then;
    FirstIsQueued();
    FirstRuns(p);
    ThreeMoreSteps([], Request(0), ClearCancel(0), Check(0));
    var queued := [Request(0), ClearCancel(0), Check(0)];
    assert [] + queued == queued;
    ThreeMoreSteps(queued, StartWorker(0, 1), Launch(1, p), Register(1));
  }

  /** Two linear helpers alive at once, from the very first step of the bridge. */
  lemma TwoHelpersAlive(p: nat, q: nat)
    requires p != q
    ensures var b := After(FirstMotion(p) + GivingUpAndGoingOn(1, 2, 3, q));
            p in b.linear && p in b.live && q in b.linear && q in b.live
  {
    FirstMotionRuns(p);
    hide BridgeAt, FirstMotion, GivingUpAndGoingOn;
    SecondHelperBesideAbandoned(FirstMotion(p), 1, 2, 3, q);
  }
}
