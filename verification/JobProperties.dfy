/** What every run of the job runtime keeps, whatever the adapter and the surroundings do. */
module JobProperties {
  import opened Jobs
  import opened Rounding
  import opened JobProtocol

  // ----- requests -----

  function Statuses(n: nat): (r: seq<Request>)
    ensures |r| == n && forall i | 0 <= i < n :: r[i] == Status
  {
    if n == 0 then [] else Statuses(n - 1) + [Status]
  }

  /** The answer to request `i` reports a terminal state of the job. */
  predicate ReportsTerminal(w: World, i: nat) {
    w.answers(i).Reply? && IsTerminal(StateOr(w.answers(i), Running))
  }

  predicate LastReportsTerminal(w: World, r: seq<Request>) {
    r != [] && ReportsTerminal(w, |r| - 1)
  }

  /** `polls` status requests, then `tail`. */
  ghost predicate Asks(before: seq<Request>, polls: nat, tail: seq<Request>, after: seq<Request>) {
    after == before + Statuses(polls) + tail
  }

  /** How the loop leaves a job: with a terminal state the adapter reported or a cancel preceded, or by raising. */
  ghost predicate LeftLoop(w: World, polls: nat, tail: seq<Request>, f: Flow) {
    && f.started
    && (tail == [] || tail == [Cancel(RuntimeSignal)] || tail == [Cancel(RuntimeTimeout)])
    && (IsTerminal(f.last) || (f.last.Running? && f.raised))
    && (tail == [Cancel(RuntimeTimeout)] ==> IsTerminal(f.last))
    && (tail == [] && IsTerminal(f.last) ==> polls > 0 && LastReportsTerminal(w, f.log.requests))
  }

  lemma TransitsAskNothing(w: World, c: Context)
    ensures forall log, state, detail :: Transit(w, c, log, state, detail).0.requests == log.requests
  {
  }

  /** What one pass of the loop has asked: at most one status, and a cancel only if it leaves the loop. */
  ghost predicate PassAsked(w: World, before: seq<Request>, polls: nat, tail: seq<Request>, step: Step) {
    match step
    case Done(f) => Asks(before, polls, tail, f.log.requests) && LeftLoop(w, polls, tail, f)
    case Again(next) => tail == [] && next.requests == before + Statuses(polls)
  }

  lemma PassRequests(w: World, c: Context, log: Log, k: nat, deadline: real) returns (polls: nat, tail: seq<Request>)
    ensures polls <= 1 && PassAsked(w, log.requests, polls, tail, Pass(w, c, log, k, deadline))
    ensures Pass(w, c, log, k, deadline).Again? || polls > 0 ==> w.clock(k) < deadline
  {
    hide Transit;
    TransitsAskNothing(w, c);
    polls, tail := 0, [];
    if Signalled(w, 2 * k) {
      if CancelOnSignal(w, c, log).log.requests != log.requests {
        tail := [Cancel(RuntimeSignal)];
      }
    } else if w.clock(k) >= deadline {
      tail := [Cancel(RuntimeTimeout)];
    } else if !Signalled(w, 2 * k + 1) {
      polls := 1;
      assert Statuses(1) == [Status];
    }
  }

  /**
   The polling loop asks for the status at most as often as poll intervals fit in the time left,
   and leaves a non-terminal state only by raising; a terminal one was reported by the adapter in
   the last status answer, or follows a cancel.
   */
  lemma {:induction false} PollRequests(w: World, c: Context, log: Log, k: nat, deadline: real, interval: real)
      returns (polls: nat, tail: seq<Request>)
    requires interval > 0.0 && FairClock(w, interval)
    ensures var f := Poll(w, c, log, k, deadline, interval);
            Asks(log.requests, polls, tail, f.log.requests) && LeftLoop(w, polls, tail, f)
    ensures polls <= Steps(deadline - w.clock(k), interval)
    decreases Steps(deadline - w.clock(k), interval)
  {
    hide Pass, FairClock;
    polls, tail := PassRequests(w, c, log, k, deadline);
    if polls > 0 {
      TimePasses(w, k, deadline, interval);
    }
    match Pass(w, c, log, k, deadline) {
      case Done(_) =>
      case Again(next) =>
        TimePasses(w, k, deadline, interval);
        var more;
        more, tail := PollRequests(w, c, next, k + 1, deadline, interval);
        StatusesAdd(polls, more);
        polls := polls + more;
    }
  }

  lemma StatusesAdd(a: nat, b: nat)
    ensures Statuses(a) + Statuses(b) == Statuses(a + b)
  {
  }

  /** The requests of a run that has attempted `job.start`: status requests, then cancels. */
  ghost predicate StartedWord(r: seq<Request>, polls: nat, cancels: seq<Request>) {
    && r == [AskCapabilities, Start] + Statuses(polls) + cancels
    && |cancels| <= 2
    && forall i | 0 <= i < |cancels| :: cancels[i].Cancel?
  }

  /** How the guarded part ends once `job.start` has been attempted. */
  ghost predicate LeftSafely(w: World, tail: seq<Request>, f: Flow) {
    && f.started
    && (tail == [] || tail == [Cancel(RuntimeSignal)] || tail == [Cancel(RuntimeTimeout)])
    && (!IsTerminal(f.last) ==> f.raised)
    && (tail == [] && IsTerminal(f.last) ==> LastReportsTerminal(w, f.log.requests))
  }

  lemma LaunchRequests(w: World, c: Context, log: Log, timeout: real, interval: real)
      returns (polls: nat, tail: seq<Request>)
    requires interval > 0.0 && FairClock(w, interval)
    ensures var f := Launch(w, c, log, timeout, interval);
            Asks(log.requests + [Start], polls, tail, f.log.requests) && LeftSafely(w, tail, f)
    ensures polls <= Steps(timeout, interval)
  {
    hide Poll;
    var a, asked := NextAnswer(w, log), Asked(log, Start);
    polls, tail := 0, [];
    if a.Reply? && IsJobState(StateOr(a, Running)) {
      var (done, ok) := Transit(w, c, asked, StateOr(a, Running), AdapterData);
      if ok && !IsTerminal(StateOr(a, Running)) {
        polls, tail := PollRequests(w, c, done, 0, w.began + timeout, interval);
        MoreSteps(w.began + timeout - w.clock(0), timeout, interval);
      }
    }
  }

  /** A run asks nothing, the handshake, or the requests of a job it has started: `most` status requests at most. */
  ghost predicate AsksInOrder(w: World, job: Job, polls: nat, tail: seq<Request>, most: nat, f: Flow) {
    if f.started
    then f.log.requests == [AskCapabilities, Start] + Statuses(polls) + tail && LeftSafely(w, tail, f)
         && polls <= most && HandshakeOk(w.answers(0), job)
    else (f.log.requests == [] || f.log.requests == [AskCapabilities]) && !IsTerminal(f.last) && f.raised
  }

  lemma HandshakeRequests(w: World, c: Context, log: Log, timeout: real, interval: real)
      returns (polls: nat, tail: seq<Request>)
    requires interval > 0.0 && FairClock(w, interval) && log.requests == []
    ensures AsksInOrder(w, c.job, polls, tail, Steps(timeout, interval), Handshake(w, c, log, timeout, interval))
  {
    hide Launch, HandshakeOk, FairClock, Steps;
    polls, tail := 0, [];
    var (validated, ok) := Transit(w, c, log, Validated, NoDetail);
    if ok && HandshakeOk(NextAnswer(w, validated), c.job) {
      var (starting, ok) := Transit(w, c, Asked(validated, AskCapabilities), Starting, NoDetail);
      if ok {
        polls, tail := LaunchRequests(w, c, starting, timeout, interval);
      }
    }
  }

  /** What the guarded part asks: nothing, the handshake, or a started job's requests. */
  lemma GuardedRequests(w: World, job: Job, selected: Option<Manifest>, log: Log, timeout: real, interval: real)
      returns (polls: nat, tail: seq<Request>)
    requires interval > 0.0 && FairClock(w, interval) && log.requests == []
    ensures var f := Guarded(w, job, selected, log, timeout, interval).0;
            AsksInOrder(w, job, polls, tail, Steps(timeout, interval), f) && (f.started ==> selected.Some?)
  {
    hide Handshake, HandshakeOk, FairClock, Steps;
    polls, tail := 0, [];
    var (received, ok) := Transit(w, Context(job, None), log, Received, NoDetail);
    if ok && selected.Some? {
      polls, tail := HandshakeRequests(w, Context(job, selected), received, timeout, interval);
    }
  }

  lemma RecoveredRequests(w: World, c: Context, f: Flow)
    ensures Recovered(w, c, f).requests
         == f.log.requests + (if f.started && !IsTerminal(f.last) then [Cancel(RuntimeFailure)] else [])
  {
  }

  /** The requests of a run, as its safety rules want them. */
  ghost predicate SafeRequests(w: World, job: Job, selected: Option<Manifest>, r: seq<Request>, polls: nat,
                               cancels: seq<Request>)
  {
    if Start in r
    then && StartedWord(r, polls, cancels)
         && (cancels == [] ==> LastReportsTerminal(w, r))
         && selected.Some? && HandshakeOk(w.answers(0), job)
    else r == [] || r == [AskCapabilities]
  }

  lemma PerformedRequests(w: World, job: Job, selected: Option<Manifest>, log: Log, timeout: real, interval: real)
      returns (polls: nat, cancels: seq<Request>)
    requires interval > 0.0 && FairClock(w, interval) && log.requests == []
    ensures SafeRequests(w, job, selected, Performed(w, job, selected, log, timeout, interval).0.requests,
                         polls, cancels)
    ensures Start in Performed(w, job, selected, log, timeout, interval).0.requests ==>
              polls <= Steps(timeout, interval)
  {
    hide Guarded, Recovered, HandshakeOk, FairClock;
    var (f, c) := Guarded(w, job, selected, log, timeout, interval);
    polls, cancels := GuardedRequests(w, job, selected, log, timeout, interval);
    RecoveredRequests(w, c, f);
    if f.started {
      assert f.log.requests[1] == Start;
      if !IsTerminal(f.last) {
        cancels := cancels + [Cancel(RuntimeFailure)];
      }
      assert Performed(w, job, selected, log, timeout, interval).0.requests
          == [AskCapabilities, Start] + Statuses(polls) + cancels;
    }
  }

  /** The run is one that gets past validation, the stored record and the lock. */
  predicate Underway(w: World, file: Option<Record>, raw: RawJob) {
    && Validate(raw).Some?
    && !(file.Some? && !w.previousReadable)
    && !Settled(file, Validate(raw).value)
    && w.lockFree
  }

  /**
   Safety cancel, for every adapter and every failure. A run that has attempted `job.start` asks
   for the status at most as often as poll intervals fit in its timeout; then it ends with one or
   two cancels, unless its last answer reported that the job has ended. It has selected an adapter
   that declares the job, and the live handshake covered the required capabilities. Any other run
   sends at most the handshake.
   */
  lemma SafetyCancel(w: World, file: Option<Record>, raw: RawJob, manifests: seq<Manifest>, wanted: string,
                     timeout: real, poll: real) returns (polls: nat, cancels: seq<Request>)
    requires FairClock(w, Interval(poll))
    ensures var r := Run(w, file, raw, manifests, wanted, timeout, poll).log.requests;
            if Underway(w, file, raw)
            then var job := Validate(raw).value;
                 SafeRequests(w, job, Selection(manifests, job, wanted), r, polls, cancels)
                 && (Start in r ==> polls <= Steps(timeout, Interval(poll)))
            else r == []
  {
    hide Validate, Selection, SafeRequests, Performed;
    polls, cancels := 0, [];
    if Underway(w, file, raw) {
      var job := Validate(raw).value;
      polls, cancels :=
        PerformedRequests(w, job, Selection(manifests, job, wanted), Fresh(file), timeout, Interval(poll));
    }
  }

  // ----- the lock -----

  /** The run gets as far as its first request, which starts the adapter process. */
  predicate ReachesAdapter(w: World, job: Job, selected: Option<Manifest>) {
    selected.Some? && w.writes(0) && w.emits(0) && w.writes(1) && w.emits(1)
  }

  lemma AskedAtAll(w: World, job: Job, selected: Option<Manifest>, log: Log, timeout: real, interval: real)
    requires interval > 0.0 && FairClock(w, interval)
    requires log.requests == [] && log.writes == 0 && log.emits == 0
    ensures Guarded(w, job, selected, log, timeout, interval).0.log.requests != [] <==> ReachesAdapter(w, job, selected)
  {
    hide Launch, HandshakeOk, FairClock;
    var c := Context(job, selected);
    var (received, ok) := Transit(w, Context(job, None), log, Received, NoDetail);
    if ok && selected.Some? {
      var (validated, ok) := Transit(w, c, received, Validated, NoDetail);
      if ok && HandshakeOk(NextAnswer(w, validated), job) {
        var (starting, ok) := Transit(w, c, Asked(validated, AskCapabilities), Starting, NoDetail);
        if ok {
          var polls, tail := LaunchRequests(w, c, starting, timeout, interval);
        }
      }
    }
  }

  /**
   The lock file stays behind if and only if the run gets as far as its adapter process, whose
   closing then raises.
   */
  lemma LockStaysExactly(w: World, file: Option<Record>, raw: RawJob, manifests: seq<Manifest>, wanted: string,
                         timeout: real, poll: real)
    requires FairClock(w, Interval(poll))
    ensures Run(w, file, raw, manifests, wanted, timeout, poll).lockHeld
        <==> Underway(w, file, raw) && !w.closes
             && ReachesAdapter(w, Validate(raw).value, Selection(manifests, Validate(raw).value, wanted))
  {
    hide Validate, Selection, Guarded, ReachesAdapter, FairClock;
    if Underway(w, file, raw) {
      var job := Validate(raw).value;
      var selected := Selection(manifests, job, wanted);
      AskedAtAll(w, job, selected, Fresh(file), timeout, Interval(poll));
      var (f, c) := Guarded(w, job, selected, Fresh(file), timeout, Interval(poll));
      var polls, tail := GuardedRequests(w, job, selected, Fresh(file), timeout, Interval(poll));
      RecoveredRequests(w, c, f);
      hide Recovered;
    }
  }

  /** Surroundings where all goes well until the adapter is closed. */
  const STUCK_WORLD := World(true, true, true, false, _ => Reply(Some(Succeeded), Some({})), _ => true, _ => true,
                             0.0, k => k as real, None)

  /** Then a run that finds an adapter for its job raises and leaves the lock file. */
  lemma LockLeftBehind(raw: RawJob, manifests: seq<Manifest>, wanted: string)
    requires Validate(raw).Some? && Selection(manifests, Validate(raw).value, wanted).Some?
    ensures FairClock(STUCK_WORLD, Interval(1.0))
    ensures var o := Run(STUCK_WORLD, None, raw, manifests, wanted, 1.0, 1.0); o.lockHeld && o.result.Raised?
  {
    LockStaysExactly(STUCK_WORLD, None, raw, manifests, wanted, 1.0, 1.0);
    hide Validate, Selection, Performed;
  }
}
