/**
 One run of the job runtime against an arbitrary adapter, as functions: the requests it sends,
 the events it emits, the state file it leaves and what it returns, for every answer of the
 adapter and every failure of a request, of a write, or of an event.
 */
module JobProtocol {
  import opened Jobs
  import opened Rounding

  // ----- states, requests, answers -----

  datatype JobState =
    | Received
    | Validated
    | Starting
    | Running
    | Cancelling
    | Succeeded
    | Failed
    | Cancelled
    | TimedOut
    | Rejected
    | Unlisted(name: string)

  predicate IsTerminal(s: JobState) {
    s.Succeeded? || s.Failed? || s.Cancelled? || s.TimedOut? || s.Rejected?
  }

  datatype CancelReason = RuntimeSignal | RuntimeTimeout | RuntimeFailure

  datatype Request = AskCapabilities | Start | Status | Cancel(reason: CancelReason)

  /** A request either raises, for whatever reason, or returns the adapter's accepted answer. */
  datatype Answer = Refused | Reply(state: Option<JobState>, capabilities: Option<set<string>>)

  datatype Detail =
    | NoDetail
    | AdapterData
    | SignalDetail
    | TimeoutDetail
    | FailureDetail(cancelAttempted: bool, cancelSucceeded: bool, adapterState: JobState)

  /** A record of the state file, and the event that reports it. */
  datatype Record = Record(key: string, jobId: string, adapter: Option<string>, state: JobState, detail: Detail)

  // ----- the surroundings of a run -----

  /**
   Everything a run meets: the answer to its n-th request, whether its n-th write of the state
   file and its n-th event succeed, the clock at the n-th check of the deadline, and the number of
   checks of the stop signal that come before the signal, if it ever comes.
   */
  datatype World = World(
    lockFree: bool,
    previousReadable: bool,
    finalReadable: bool,
    closes: bool,
    answers: nat -> Answer,
    writes: nat -> bool,
    emits: nat -> bool,
    began: real,
    clock: nat -> real,
    signal: Option<nat>)

  predicate Signalled(w: World, check: nat) {
    w.signal.Some? && check >= w.signal.value
  }

  /** Unsignalled waits last at least as long as they are asked to. */
  ghost predicate FairClock(w: World, interval: real) {
    w.clock(0) >= w.began && forall k: nat :: w.clock(k + 1) >= w.clock(k) + interval
  }

  /** What a run has done so far. */
  datatype Log = Log(file: Option<Record>, events: seq<Record>, requests: seq<Request>, writes: nat, emits: nat)

  /** What stays the same during a run: its job, and its adapter once selected. */
  datatype Context = Context(job: Job, adapter: Option<Manifest>)

  function RecordOf(c: Context, state: JobState, detail: Detail): Record {
    Record(c.job.key, c.job.id, if c.adapter.Some? then Some(c.adapter.value.id) else None, state, detail)
  }

  // ----- the steps of a run -----

  /** Writes the state file, then emits the event; either may raise. */
  function Transit(w: World, c: Context, log: Log, state: JobState, detail: Detail): (r: (Log, bool)) {
    var record := RecordOf(c, state, detail);
    if !w.writes(log.writes) then (log.(writes := log.writes + 1), false)
    else
      var written := log.(file := Some(record), writes := log.writes + 1);
      if !w.emits(log.emits) then (written.(emits := log.emits + 1), false)
      else (written.(events := log.events + [record], emits := log.emits + 1), true)
  }

  function Asked(log: Log, r: Request): Log {
    log.(requests := log.requests + [r])
  }

  /** The answer to the next request. */
  function NextAnswer(w: World, log: Log): Answer {
    w.answers(|log.requests|)
  }

  function StateOr(a: Answer, default: JobState): JobState
    requires a.Reply?
  {
    if a.state.Some? then a.state.value else default
  }

  /** How the guarded part of a run ends: what is done, the last state, and whether it raised. */
  datatype Flow = Flow(log: Log, last: JobState, started: bool, raised: bool)

  predicate IsJobState(s: JobState) {
    IsTerminal(s) || s.Running?
  }

  const MIN_WAIT := 0.05

  function Interval(poll: real): real {
    if MIN_WAIT < poll then poll else MIN_WAIT
  }

  /** A stop signal: cancel at the adapter, and record what it reports. */
  function CancelOnSignal(w: World, c: Context, log: Log): Flow {
    var (cancelling, ok) := Transit(w, c, log, Cancelling, SignalDetail);
    if !ok then Flow(cancelling, Running, true, true)
    else
      var a, asked := NextAnswer(w, cancelling), Asked(cancelling, Cancel(RuntimeSignal));
      if a.Refused? then Flow(asked, Running, true, true)
      else
        var said := StateOr(a, Cancelled);
        var last := if IsTerminal(said) then said else Cancelled;
        var (done, ok) := Transit(w, c, asked, last, AdapterData);
        Flow(done, last, true, !ok)
  }

  /** The deadline: cancel at the adapter; the timeout is recorded whether or not that succeeds. */
  function CancelOnTimeout(w: World, c: Context, log: Log): Flow {
    var a, asked := NextAnswer(w, log), Asked(log, Cancel(RuntimeTimeout));
    var (done, ok) := Transit(w, c, asked, TimedOut, TimeoutDetail);
    Flow(done, TimedOut, true, a.Refused? || !ok)
  }

  /** What one pass of the polling loop does: leave the loop, or go round again. */
  datatype Step = Done(flow: Flow) | Again(log: Log)

  /** Asks for the status; a change is recorded, anything but a job state raises. */
  function AskStatus(w: World, c: Context, log: Log): Step {
    var a, asked := NextAnswer(w, log), Asked(log, Status);
    if a.Refused? then Done(Flow(asked, Running, true, true))
    else
      var state := StateOr(a, Running);
      if state.Running? then Again(asked)
      else if !IsTerminal(state) then Done(Flow(asked, Running, true, true))
      else
        var (done, ok) := Transit(w, c, asked, state, AdapterData);
        Done(Flow(done, state, true, !ok))
  }

  /** The `k`-th pass of the polling loop of a running job. */
  function Pass(w: World, c: Context, log: Log, k: nat, deadline: real): Step {
    if Signalled(w, 2 * k) then Done(CancelOnSignal(w, c, log))
    else if w.clock(k) >= deadline then Done(CancelOnTimeout(w, c, log))
    else if Signalled(w, 2 * k + 1) then Again(log)
    else AskStatus(w, c, log)
  }

  function Poll(w: World, c: Context, log: Log, k: nat, deadline: real, interval: real): Flow
    requires interval > 0.0 && FairClock(w, interval)
    decreases Steps(deadline - w.clock(k), interval)
  {
    match Pass(w, c, log, k, deadline)
    case Done(flow) => flow
    case Again(next) =>
      TimePasses(w, k, deadline, interval);
      Poll(w, c, next, k + 1, deadline, interval)
  }

  lemma TimePasses(w: World, k: nat, deadline: real, interval: real)
    requires interval > 0.0 && FairClock(w, interval) && w.clock(k) < deadline
    ensures Steps(deadline - w.clock(k + 1), interval) < Steps(deadline - w.clock(k), interval)
  {
    OneStep(deadline - w.clock(k), w.clock(k + 1) - w.clock(k), interval);
  }

  /** From `job.start` on. */
  function Launch(w: World, c: Context, log: Log, timeout: real, interval: real): Flow
    requires interval > 0.0 && FairClock(w, interval)
  {
    var a, asked := NextAnswer(w, log), Asked(log, Start);
    if a.Refused? then Flow(asked, Starting, true, true)
    else
      var state := StateOr(a, Running);
      if !IsJobState(state) then Flow(asked, state, true, true)
      else
        var (done, ok) := Transit(w, c, asked, state, AdapterData);
        if !ok || IsTerminal(state) then Flow(done, state, true, !ok)
        else Poll(w, c, done, 0, w.began + timeout, interval)
  }

  /** The live handshake reports every capability the job requires. */
  predicate HandshakeOk(a: Answer, job: Job) {
    a.Reply? && a.capabilities.Some? && forall r | r in job.required :: r in a.capabilities.value
  }

  /** From the selected adapter on: record it, shake hands, record the start. */
  function Handshake(w: World, c: Context, log: Log, timeout: real, interval: real): Flow
    requires interval > 0.0 && FairClock(w, interval)
  {
    var (validated, ok) := Transit(w, c, log, Validated, NoDetail);
    if !ok then Flow(validated, Validated, false, true)
    else
      var a, asked := NextAnswer(w, validated), Asked(validated, AskCapabilities);
      if !HandshakeOk(a, c.job) then Flow(asked, Validated, false, true)
      else
        var (starting, ok) := Transit(w, c, asked, Starting, NoDetail);
        if !ok then Flow(starting, Starting, false, true)
        else Launch(w, c, starting, timeout, interval)
  }

  /**
   The guarded part of a run, and the context it leaves to the handler: the adapter is known there
   once it has been selected.
   */
  function Guarded(w: World, job: Job, selected: Option<Manifest>, log: Log, timeout: real, interval: real)
      : (Flow, Context)
    requires interval > 0.0 && FairClock(w, interval)
  {
    var bare, c := Context(job, None), Context(job, selected);
    var (received, ok) := Transit(w, bare, log, Received, NoDetail);
    if !ok || selected.None? then (Flow(received, Received, false, true), bare)
    else
      var f := Handshake(w, c, received, timeout, interval);
      (f.(raised := f.raised || !w.finalReadable), c)
  }

  /** What the handler of an exception does: cancel at the adapter if it may be running, and record the failure. */
  function Recovered(w: World, c: Context, f: Flow): Log {
    if IsTerminal(f.last) then f.log
    else if f.started then
      var a, asked := NextAnswer(w, f.log), Asked(f.log, Cancel(RuntimeFailure));
      Transit(w, c, asked, Failed,
              FailureDetail(true, a.Reply?, if a.Reply? then StateOr(a, Cancelled) else Failed)).0
    else
      Transit(w, c, f.log, Failed, FailureDetail(false, false, Failed)).0
  }

  /** The guarded part of a run, with what its handler does when it has raised. */
  function Performed(w: World, job: Job, selected: Option<Manifest>, log: Log, timeout: real, interval: real)
      : (r: (Log, bool))
    requires interval > 0.0 && FairClock(w, interval)
  {
    var (f, c) := Guarded(w, job, selected, log, timeout, interval);
    (if f.raised then Recovered(w, c, f) else f.log, f.raised)
  }

  // ----- a run -----

  datatype Result = Returned(record: Record) | Raised

  /** What a run returns, and all it has done. */
  datatype Outcome = Outcome(result: Result, log: Log, lockHeld: bool)

  function Fresh(file: Option<Record>): Log {
    Log(file, [], [], 0, 0)
  }

  /** The state file holds the final record of this very request. */
  predicate Settled(file: Option<Record>, job: Job) {
    file.Some? && file.value.key == job.key && IsTerminal(file.value.state)
  }

  function Run(w: World, file: Option<Record>, raw: RawJob, manifests: seq<Manifest>, wanted: string,
               timeout: real, poll: real): Outcome
    requires FairClock(w, Interval(poll))
  {
    match Validate(raw)
    case None => Outcome(Raised, Fresh(file), false)
    case Some(job) =>
      if file.Some? && !w.previousReadable then Outcome(Raised, Fresh(file), false)
      else if Settled(file, job) then Outcome(Returned(file.value), Fresh(file), false)
      else if !w.lockFree then Outcome(Raised, Fresh(file), false)
      else
        var (log, raised) :=
          Performed(w, job, Selection(manifests, job, wanted), Fresh(file), timeout, Interval(poll));
        // Closing the adapter comes first in the clean-up: if it raises, the lock file stays.
        var stuck := log.requests != [] && !w.closes;
        Outcome(if raised || stuck || log.file.None? then Raised else Returned(log.file.value), log, stuck)
  }
}
