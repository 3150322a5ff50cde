/**
 The story a run of the job runtime tells in its events, when the state file and the outbox can
 be written: a path through the job states that ends in exactly one terminal state, which is also
 what the state file says.
 */
module JobEvents {
  import opened Jobs
  import opened Rounding
  import opened JobProtocol
  import opened JobProperties

  ghost predicate AllWrite(w: World) {
    forall n: nat :: w.writes(n) && w.emits(n)
  }

  /** The changes of state a run can report. */
  predicate Follows(a: JobState, b: JobState) {
    match a
    case Received => b.Validated? || b.Failed?
    case Validated => b.Starting? || b.Failed?
    case Starting => b.Running? || IsTerminal(b)
    case Running => b.Cancelling? || IsTerminal(b)
    case Cancelling => IsTerminal(b)
    case _ => false
  }

  ghost predicate Chain(events: seq<Record>) {
    && events != [] && events[0].state.Received?
    && forall i | 0 <= i < |events| - 1 :: Follows(events[i].state, events[i + 1].state)
  }

  function Last(events: seq<Record>): Record
    requires events != []
  {
    events[|events| - 1]
  }

  /** The events so far make a chain, all of one job, and the state file is the last of them. */
  ghost predicate Tale(job: Job, log: Log) {
    && Chain(log.events)
    && log.file == Some(Last(log.events))
    && forall e | e in log.events :: e.key == job.key && e.jobId == job.id
  }

  /** The run has got to `state`, and has not had to recover from a failure. */
  predicate Reached(log: Log, state: JobState) {
    log.events != [] && Last(log.events).state == state && !Last(log.events).detail.FailureDetail?
  }

  lemma TransitTells(w: World, c: Context, log: Log, state: JobState, detail: Detail)
    requires AllWrite(w)
    requires if log.events == [] then state.Received?
             else Tale(c.job, log) && Follows(Last(log.events).state, state)
    ensures var (next, ok) := Transit(w, c, log, state, detail);
            && ok && Tale(c.job, next) && (detail.FailureDetail? || Reached(next, state))
            && next.requests == log.requests
            && Last(next.events) == RecordOf(c, state, detail)
  {
    assert w.writes(log.writes) && w.emits(log.emits);
    var next := Transit(w, c, log, state, detail).0;
    assert next.events == log.events + [RecordOf(c, state, detail)];
  }

  /** After the guarded part: the last event is the state it ended in, or one that is not terminal. */
  ghost predicate ToldSoFar(job: Job, f: Flow) {
    && Tale(job, f.log) && !Last(f.log.events).detail.FailureDetail?
    && (if IsTerminal(f.last) then Last(f.log.events).state == f.last
        else f.raised && !IsTerminal(Last(f.log.events).state) && !Last(f.log.events).state.Unlisted?)
  }

  lemma PassTells(w: World, c: Context, log: Log, k: nat, deadline: real)
    requires AllWrite(w) && Tale(c.job, log) && Reached(log, Running)
    ensures match Pass(w, c, log, k, deadline)
            case Done(f) => ToldSoFar(c.job, f)
            case Again(next) => Tale(c.job, next) && Reached(next, Running)
  {
    hide Transit, Chain, AllWrite;
    if Signalled(w, 2 * k) {
      TransitTells(w, c, log, Cancelling, SignalDetail);
      var (cancelling, _) := Transit(w, c, log, Cancelling, SignalDetail);
      var a, asked := NextAnswer(w, cancelling), Asked(cancelling, Cancel(RuntimeSignal));
      if a.Reply? {
        var said := StateOr(a, Cancelled);
        TransitTells(w, c, asked, if IsTerminal(said) then said else Cancelled, AdapterData);
      }
    } else if w.clock(k) >= deadline {
      TransitTells(w, c, Asked(log, Cancel(RuntimeTimeout)), TimedOut, TimeoutDetail);
    } else if !Signalled(w, 2 * k + 1) {
      var a, asked := NextAnswer(w, log), Asked(log, Status);
      if a.Reply? && IsTerminal(StateOr(a, Running)) {
        TransitTells(w, c, asked, StateOr(a, Running), AdapterData);
      }
    }
  }

  lemma {:induction false} PollTells(w: World, c: Context, log: Log, k: nat, deadline: real, interval: real)
    requires interval > 0.0 && FairClock(w, interval)
    requires AllWrite(w) && Tale(c.job, log) && Reached(log, Running)
    ensures ToldSoFar(c.job, Poll(w, c, log, k, deadline, interval))
    decreases Steps(deadline - w.clock(k), interval)
  {
    hide Pass, FairClock, AllWrite, Tale, ToldSoFar;
    PassTells(w, c, log, k, deadline);
    match Pass(w, c, log, k, deadline) {
      case Done(_) =>
      case Again(next) =>
        NotYet(w, c, log, k, deadline);
        TimePasses(w, k, deadline, interval);
        PollTells(w, c, next, k + 1, deadline, interval);
    }
  }

  lemma NotYet(w: World, c: Context, log: Log, k: nat, deadline: real)
    requires Pass(w, c, log, k, deadline).Again?
    ensures w.clock(k) < deadline
  {
  }

  lemma LaunchTells(w: World, c: Context, log: Log, timeout: real, interval: real)
    requires interval > 0.0 && FairClock(w, interval)
    requires AllWrite(w) && Tale(c.job, log) && Reached(log, Starting)
    ensures ToldSoFar(c.job, Launch(w, c, log, timeout, interval))
  {
    hide Transit, Poll, Chain, AllWrite, FairClock;
    var a, asked := NextAnswer(w, log), Asked(log, Start);
    if a.Reply? && IsJobState(StateOr(a, Running)) {
      TransitTells(w, c, asked, StateOr(a, Running), AdapterData);
      if StateOr(a, Running).Running? {
        PollTells(w, c, Transit(w, c, asked, Running, AdapterData).0, 0, w.began + timeout, interval);
      }
    }
  }

  lemma GuardedTells(w: World, job: Job, selected: Option<Manifest>, log: Log, timeout: real, interval: real)
    requires interval > 0.0 && FairClock(w, interval) && AllWrite(w) && log.events == []
    ensures var (f, c) := Guarded(w, job, selected, log, timeout, interval);
            c.job == job && ToldSoFar(job, f)
  {
    hide Transit, Launch, Chain, AllWrite, FairClock, HandshakeOk;
    TransitTells(w, Context(job, None), log, Received, NoDetail);
    var (received, _) := Transit(w, Context(job, None), log, Received, NoDetail);
    if selected.Some? {
      var c := Context(job, selected);
      TransitTells(w, c, received, Validated, NoDetail);
      var (validated, _) := Transit(w, c, received, Validated, NoDetail);
      var asked := Asked(validated, AskCapabilities);
      if HandshakeOk(NextAnswer(w, validated), job) {
        TransitTells(w, c, asked, Starting, NoDetail);
        LaunchTells(w, c, Transit(w, c, asked, Starting, NoDetail).0, timeout, interval);
      }
    }
  }

  /** The report of a failure says truly whether a safety cancel was sent, and whether it was answered. */
  ghost predicate Truthful(w: World, r: seq<Request>, detail: Detail) {
    detail.FailureDetail? ==>
      && (detail.cancelAttempted <==> r != [] && r[|r| - 1] == Cancel(RuntimeFailure))
      && (detail.cancelAttempted <==> Start in r)
      && (detail.cancelSucceeded <==> detail.cancelAttempted && w.answers(|r| - 1).Reply?)
  }

  lemma FailureFollows(s: JobState)
    requires !IsTerminal(s) && !s.Unlisted?
    ensures Follows(s, Failed)
  {
  }

  lemma RecoveredTells(w: World, c: Context, f: Flow)
    requires AllWrite(w) && f.raised && ToldSoFar(c.job, f)
    requires if f.started then Start in f.log.requests
             else f.log.requests == [] || f.log.requests == [AskCapabilities]
    ensures var log := Recovered(w, c, f);
            Tale(c.job, log) && IsTerminal(Last(log.events).state)
            && Truthful(w, log.requests, Last(log.events).detail)
  {
    hide Transit, AllWrite, Follows;
    if !IsTerminal(f.last) {
      FailureFollows(Last(f.log.events).state);
      if f.started {
        var a, asked := NextAnswer(w, f.log), Asked(f.log, Cancel(RuntimeFailure));
        TransitTells(w, c, asked, Failed,
                     FailureDetail(true, a.Reply?, if a.Reply? then StateOr(a, Cancelled) else Failed));
      } else {
        TransitTells(w, c, f.log, Failed, FailureDetail(false, false, Failed));
      }
    }
  }

  lemma PerformedTells(w: World, job: Job, selected: Option<Manifest>, log: Log, timeout: real, interval: real)
    requires interval > 0.0 && FairClock(w, interval) && AllWrite(w) && log.events == [] && log.requests == []
    ensures var done := Performed(w, job, selected, log, timeout, interval).0;
            Tale(job, done) && IsTerminal(Last(done.events).state)
            && Truthful(w, done.requests, Last(done.events).detail)
  {
    GuardedTells(w, job, selected, log, timeout, interval);
    var polls, tail := GuardedRequests(w, job, selected, log, timeout, interval);
    hide Guarded, Recovered, Tale, AllWrite, FairClock, HandshakeOk;
    var (f, c) := Guarded(w, job, selected, log, timeout, interval);
    if f.started {
      assert f.log.requests[1] == Start;
    }
    if f.raised {
      RecoveredTells(w, c, f);
    }
  }

  lemma OneTerminal(events: seq<Record>)
    requires Chain(events)
    ensures forall i | 0 <= i < |events| - 1 :: !IsTerminal(events[i].state)
  {
    forall i | 0 <= i < |events| - 1
      ensures !IsTerminal(events[i].state)
    {
      assert Follows(events[i].state, events[i + 1].state);
    }
  }

  /**
   When the state file and the outbox can be written, every run under way emits a chain of events
   with exactly one terminal state, the last; the state file says the same, a run that returns
   returns it, and a reported failure says truly whether a safety cancel was sent and answered.
   */
  lemma EventsTellTheRun(w: World, file: Option<Record>, raw: RawJob, manifests: seq<Manifest>, wanted: string,
                         timeout: real, poll: real)
    requires FairClock(w, Interval(poll)) && AllWrite(w) && Underway(w, file, raw)
    ensures var o := Run(w, file, raw, manifests, wanted, timeout, poll);
            && Tale(Validate(raw).value, o.log)
            && IsTerminal(Last(o.log.events).state)
            && (forall i | 0 <= i < |o.log.events| - 1 :: !IsTerminal(o.log.events[i].state))
            && (o.result.Returned? ==> o.result.record == Last(o.log.events))
            && Truthful(w, o.log.requests, Last(o.log.events).detail)
  {
    var job := Validate(raw).value;
    hide Validate, Selection, Performed, AllWrite, Truthful;
    PerformedTells(w, job, Selection(manifests, job, wanted), Fresh(file), timeout, Interval(poll));
    OneTerminal(Run(w, file, raw, manifests, wanted, timeout, poll).log.events);
  }

  // ----- what the state file is left to say -----

  /** The last write of the state file succeeded. */
  predicate LastWritten(w: World, log: Log) {
    log.writes > 0 && w.writes(log.writes - 1)
  }

  /** The run has made its last write, which has settled the state file exactly if it succeeded. */
  predicate Concluded(w: World, job: Job, log: Log) {
    log.writes > 0 && (Settled(log.file, job) <==> LastWritten(w, log))
  }

  /** After the guarded part: concluded with a terminal state, or raised with nothing settled yet. */
  predicate ConcludedOrRaised(w: World, job: Job, f: Flow) {
    if IsTerminal(f.last) then Concluded(w, job, f.log) else f.raised && !Settled(f.log.file, job)
  }

  lemma TransitConcludes(w: World, c: Context, log: Log, state: JobState, detail: Detail)
    requires !Settled(log.file, c.job)
    ensures var next := Transit(w, c, log, state, detail).0;
            if IsTerminal(state) then Concluded(w, c.job, next) else !Settled(next.file, c.job)
  {
  }

  lemma PassConcludes(w: World, c: Context, log: Log, k: nat, deadline: real)
    requires !Settled(log.file, c.job)
    ensures match Pass(w, c, log, k, deadline)
            case Done(f) => ConcludedOrRaised(w, c.job, f)
            case Again(next) => !Settled(next.file, c.job)
  {
    hide Transit, Settled, Concluded;
    TransitConcludes(w, c, log, Cancelling, SignalDetail);
    var (cancelling, _) := Transit(w, c, log, Cancelling, SignalDetail);
    var a, asked := NextAnswer(w, cancelling), Asked(cancelling, Cancel(RuntimeSignal));
    if a.Reply? {
      var said := StateOr(a, Cancelled);
      TransitConcludes(w, c, asked, if IsTerminal(said) then said else Cancelled, AdapterData);
    }
    TransitConcludes(w, c, Asked(log, Cancel(RuntimeTimeout)), TimedOut, TimeoutDetail);
    var status, polled := NextAnswer(w, log), Asked(log, Status);
    if status.Reply? {
      TransitConcludes(w, c, polled, StateOr(status, Running), AdapterData);
    }
  }

  lemma {:induction false} PollConcludes(w: World, c: Context, log: Log, k: nat, deadline: real, interval: real)
    requires interval > 0.0 && FairClock(w, interval) && !Settled(log.file, c.job)
    ensures ConcludedOrRaised(w, c.job, Poll(w, c, log, k, deadline, interval))
    decreases Steps(deadline - w.clock(k), interval)
  {
    hide Pass, FairClock, Settled, ConcludedOrRaised;
    PassConcludes(w, c, log, k, deadline);
    match Pass(w, c, log, k, deadline) {
      case Done(_) =>
      case Again(next) =>
        NotYet(w, c, log, k, deadline);
        TimePasses(w, k, deadline, interval);
        PollConcludes(w, c, next, k + 1, deadline, interval);
    }
  }

  lemma LaunchConcludes(w: World, c: Context, log: Log, timeout: real, interval: real)
    requires interval > 0.0 && FairClock(w, interval) && !Settled(log.file, c.job)
    ensures ConcludedOrRaised(w, c.job, Launch(w, c, log, timeout, interval))
  {
    hide Transit, Poll, FairClock, Settled, Concluded;
    var a, asked := NextAnswer(w, log), Asked(log, Start);
    if a.Reply? && IsJobState(StateOr(a, Running)) {
      TransitConcludes(w, c, asked, StateOr(a, Running), AdapterData);
      if StateOr(a, Running).Running? {
        PollConcludes(w, c, Transit(w, c, asked, Running, AdapterData).0, 0, w.began + timeout, interval);
      }
    }
  }

  lemma GuardedConcludes(w: World, job: Job, selected: Option<Manifest>, log: Log, timeout: real, interval: real)
    requires interval > 0.0 && FairClock(w, interval) && !Settled(log.file, job)
    ensures var (f, c) := Guarded(w, job, selected, log, timeout, interval);
            c.job == job && ConcludedOrRaised(w, job, f)
  {
    hide Transit, Launch, FairClock, Settled, Concluded, HandshakeOk;
    TransitConcludes(w, Context(job, None), log, Received, NoDetail);
    var (received, _) := Transit(w, Context(job, None), log, Received, NoDetail);
    if selected.Some? {
      var c := Context(job, selected);
      TransitConcludes(w, c, received, Validated, NoDetail);
      var (validated, _) := Transit(w, c, received, Validated, NoDetail);
      var asked := Asked(validated, AskCapabilities);
      TransitConcludes(w, c, asked, Starting, NoDetail);
      LaunchConcludes(w, c, Transit(w, c, asked, Starting, NoDetail).0, timeout, interval);
    }
  }

  lemma PerformedConcludes(w: World, job: Job, selected: Option<Manifest>, log: Log, timeout: real, interval: real)
    requires interval > 0.0 && FairClock(w, interval) && !Settled(log.file, job)
    ensures Concluded(w, job, Performed(w, job, selected, log, timeout, interval).0)
  {
    GuardedConcludes(w, job, selected, log, timeout, interval);
    hide Guarded, Transit, Settled, Concluded, FairClock;
    var (f, c) := Guarded(w, job, selected, log, timeout, interval);
    if f.raised && !IsTerminal(f.last) {
      var a, asked := NextAnswer(w, f.log), Asked(f.log, Cancel(RuntimeFailure));
      TransitConcludes(w, c, asked, Failed,
                       FailureDetail(true, a.Reply?, if a.Reply? then StateOr(a, Cancelled) else Failed));
      TransitConcludes(w, c, f.log, Failed, FailureDetail(false, false, Failed));
    }
  }

  // ----- runs in sequence -----

  datatype Call = Call(w: World, raw: RawJob, manifests: seq<Manifest>, wanted: string, timeout: real, poll: real)

  function Performing(c: Call, file: Option<Record>): Outcome
    requires FairClock(c.w, Interval(c.poll))
  {
    Run(c.w, file, c.raw, c.manifests, c.wanted, c.timeout, c.poll)
  }

  /** Runs one after the other, each finding the state file the previous one left. */
  ghost predicate InSequence(calls: seq<Call>) {
    forall i | 0 <= i < |calls| :: FairClock(calls[i].w, Interval(calls[i].poll))
  }

  ghost function FileBefore(file: Option<Record>, calls: seq<Call>, n: nat): Option<Record>
    requires n <= |calls| && InSequence(calls)
  {
    if n == 0 then file else Performing(calls[n - 1], FileBefore(file, calls, n - 1)).log.file
  }

  ghost function OutcomeOf(file: Option<Record>, calls: seq<Call>, i: nat): Outcome
    requires i < |calls| && InSequence(calls)
  {
    Performing(calls[i], FileBefore(file, calls, i))
  }

  /** All the calls ask for the same request, as far as they ask for a valid one. */
  ghost predicate SameRequest(calls: seq<Call>, key: string) {
    forall i | 0 <= i < |calls| && Validate(calls[i].raw).Some? :: Validate(calls[i].raw).value.key == key
  }

  predicate SettledKey(file: Option<Record>, key: string) {
    file.Some? && file.value.key == key && IsTerminal(file.value.state)
  }

  predicate Starts(o: Outcome) {
    Start in o.log.requests
  }

  /**
   A run that is not under way sends nothing, emits nothing and leaves the state file. It returns, and
   then the stored record, if and only if its document is valid and the file settles the request.
   */
  lemma NotUnderway(c: Call, file: Option<Record>)
    requires FairClock(c.w, Interval(c.poll)) && !Underway(c.w, file, c.raw)
    ensures var o := Performing(c, file); o.log == Fresh(file) && !o.lockHeld
    ensures Performing(c, file).result.Returned?
        <==> Validate(c.raw).Some? && c.w.previousReadable && SettledKey(file, Validate(c.raw).value.key)
    ensures Performing(c, file).result.Returned? ==> Performing(c, file).result.record == file.value
  {
    hide Performed, Validate, Selection;
  }

  /**
   Whatever else fails, a run under way leaves the state file settled for its request if and only
   if its last write of the file succeeded. Its events play no part in it.
   */
  lemma SettledJustWhenWritten(c: Call, file: Option<Record>)
    requires FairClock(c.w, Interval(c.poll)) && Underway(c.w, file, c.raw)
    ensures SettledKey(Performing(c, file).log.file, Validate(c.raw).value.key)
        <==> LastWritten(c.w, Performing(c, file).log)
  {
    var job := Validate(c.raw).value;
    PerformedConcludes(c.w, job, Selection(c.manifests, job, c.wanted), Fresh(file), c.timeout, Interval(c.poll));
    hide Validate, Selection, Performed;
  }

  /**
   The state file remembers one request only: after a run under way whose last write succeeded it is
   settled for that run's key and for no other, so an earlier request with another key would start again.
   */
  lemma OnlyTheLastKeyIsSettled(c: Call, file: Option<Record>, key: string)
    requires FairClock(c.w, Interval(c.poll)) && Underway(c.w, file, c.raw)
    requires LastWritten(c.w, Performing(c, file).log)
    ensures SettledKey(Performing(c, file).log.file, key) <==> key == Validate(c.raw).value.key
  {
    SettledJustWhenWritten(c, file);
    hide Run, Validate;
  }

  /** From a settled state file on, the same request only ever finds it again. */
  lemma {:induction false} SettledStays(file: Option<Record>, calls: seq<Call>, key: string, i: nat, j: nat)
    requires InSequence(calls) && SameRequest(calls, key) && i <= j <= |calls|
    requires SettledKey(FileBefore(file, calls, i), key)
    ensures FileBefore(file, calls, j) == FileBefore(file, calls, i)
    ensures j < |calls| ==> !Underway(calls[j].w, FileBefore(file, calls, j), calls[j].raw)
  {
    hide Run, Validate;
    if i < j {
      SettledStays(file, calls, key, i, j - 1);
      NotUnderway(calls[j - 1], FileBefore(file, calls, j - 1));
    }
  }

  /**
   Sequential idempotency. In a block of runs for the same request, once a run leaves a settled
   state file, every later run sends no request, emits no event, leaves the state file alone and
   returns the stored record if its document is valid and the file can be read: none of them
   attempts `job.start`.
   */
  lemma SettledBlock(file: Option<Record>, calls: seq<Call>, key: string, i: nat, j: nat)
    requires InSequence(calls) && SameRequest(calls, key) && i < j < |calls|
    requires SettledKey(FileBefore(file, calls, i + 1), key)
    ensures !Starts(OutcomeOf(file, calls, j))
    ensures FileBefore(file, calls, j) == FileBefore(file, calls, i + 1)
    ensures OutcomeOf(file, calls, j).log == Fresh(FileBefore(file, calls, j))
    ensures OutcomeOf(file, calls, j).result
         == if Validate(calls[j].raw).Some? && calls[j].w.previousReadable
            then Returned(FileBefore(file, calls, j).value) else Raised
  {
    hide Run, Validate;
    SettledStays(file, calls, key, i + 1, j);
    NotUnderway(calls[j], FileBefore(file, calls, j));
  }

  /** A run that attempts `job.start` and whose last state write succeeds is the last of its block to start the job. */
  lemma AtMostOneStart(file: Option<Record>, calls: seq<Call>, key: string, i: nat, j: nat)
    requires InSequence(calls) && SameRequest(calls, key) && i < j < |calls|
    requires Starts(OutcomeOf(file, calls, i)) && LastWritten(calls[i].w, OutcomeOf(file, calls, i).log)
    ensures !Starts(OutcomeOf(file, calls, j))
  {
    hide Run, Validate;
    var before := FileBefore(file, calls, i);
    if !Underway(calls[i].w, before, calls[i].raw) {
      NotUnderway(calls[i], before);
    }
    SettledJustWhenWritten(calls[i], before);
    SettledBlock(file, calls, key, i, j);
  }

  /** Without a settled state file, nothing else holds a request back: given an able adapter, it starts. */
  lemma UnsettledStarts(c: Call, file: Option<Record>)
    requires FairClock(c.w, Interval(c.poll)) && Underway(c.w, file, c.raw)
    requires c.w.writes(0) && c.w.writes(1) && c.w.writes(2) && c.w.emits(0) && c.w.emits(1) && c.w.emits(2)
    requires Selection(c.manifests, Validate(c.raw).value, c.wanted).Some?
    requires HandshakeOk(c.w.answers(0), Validate(c.raw).value)
    ensures Starts(Performing(c, file))
  {
    var job := Validate(c.raw).value;
    var selected := Selection(c.manifests, job, c.wanted);
    StartedByGuard(c.w, job, selected, Fresh(file), c.timeout, Interval(c.poll));
    var polls, cancels := PerformedRequests(c.w, job, selected, Fresh(file), c.timeout, Interval(c.poll));
    hide Guarded, Recovered, Validate, Selection, HandshakeOk;
    var (f, known) := Guarded(c.w, job, selected, Fresh(file), c.timeout, Interval(c.poll));
    RecoveredRequests(c.w, known, f);
  }

  lemma StartedByGuard(w: World, job: Job, selected: Option<Manifest>, log: Log, timeout: real, interval: real)
    requires interval > 0.0 && FairClock(w, interval)
    requires log.requests == [] && log.writes == 0 && log.emits == 0
    requires w.writes(0) && w.writes(1) && w.writes(2) && w.emits(0) && w.emits(1) && w.emits(2)
    requires selected.Some? && HandshakeOk(w.answers(0), job)
    ensures var f := Guarded(w, job, selected, log, timeout, interval).0; f.started && Start in f.log.requests
  {
    var polls, tail := GuardedRequests(w, job, selected, log, timeout, interval);
    hide Launch, HandshakeOk;
    var f := Guarded(w, job, selected, log, timeout, interval).0;
    var c := Context(job, selected);
    var starting := Transit(w, c, Asked(Transit(w, c, Transit(w, Context(job, None), log, Received, NoDetail).0,
                                                 Validated, NoDetail).0, AskCapabilities), Starting, NoDetail).0;
    var more, rest := LaunchRequests(w, c, starting, timeout, interval);
    assert f.started;
    assert f.log.requests[1] == Start;
  }

  /** Nothing but a settled state file could hold this call back from its adapter. */
  ghost predicate Able(c: Call, file: Option<Record>) {
    && Validate(c.raw).Some? && (file.Some? ==> c.w.previousReadable) && c.w.lockFree
    && c.w.writes(0) && c.w.writes(1) && c.w.writes(2) && c.w.emits(0) && c.w.emits(1) && c.w.emits(2)
    && Selection(c.manifests, Validate(c.raw).value, c.wanted).Some?
    && HandshakeOk(c.w.answers(0), Validate(c.raw).value)
  }

  /**
   Idempotency, exactly. After a run that has attempted `job.start`, the same request, given an
   able adapter, starts the job again if and only if that run's last write of the state file failed.
   */
  lemma StartsAgainJustWhenUnwritten(file: Option<Record>, calls: seq<Call>, key: string, i: nat)
    requires InSequence(calls) && SameRequest(calls, key) && i + 1 < |calls|
    requires Starts(OutcomeOf(file, calls, i)) && Able(calls[i + 1], FileBefore(file, calls, i + 1))
    ensures Starts(OutcomeOf(file, calls, i + 1)) <==> !LastWritten(calls[i].w, OutcomeOf(file, calls, i).log)
  {
    hide Run, Validate, Selection, HandshakeOk;
    var before, now := FileBefore(file, calls, i), FileBefore(file, calls, i + 1);
    if !Underway(calls[i].w, before, calls[i].raw) {
      NotUnderway(calls[i], before);
    }
    SettledJustWhenWritten(calls[i], before);
    if LastWritten(calls[i].w, OutcomeOf(file, calls, i).log) {
      AtMostOneStart(file, calls, key, i, i + 1);
    } else {
      UnsettledStarts(calls[i + 1], now);
    }
  }

  // ----- a block with two starts -----

  /** Every request is granted, with the job's end at once; every event is emitted; the writes from `good` on fail. */
  function Forgetful(good: nat): World {
    World(true, true, true, true, _ => Reply(Some(Succeeded), Some({})), n => n < good, _ => true,
          0.0, k => k as real, None)
  }

  const DELIVERY := RawJob(false, Text(SCHEMA), Text("d"), Missing, Text("T"), NoList, true, true)

  const CARRIER := Manifest("a", {}, {"T"})

  /** The same delivery twice, with an outbox that works: the first run loses its last state write only. */
  const FORGETFUL_CALLS: seq<Call> := [
    Call(Forgetful(3), DELIVERY, [CARRIER], AUTO, 1.0, 1.0),
    Call(Forgetful(4), DELIVERY, [CARRIER], AUTO, 1.0, 1.0)]

  lemma DeliveryIsValid()
    ensures Validate(DELIVERY) == Some(Job("d", "d", "T", []))
  {
    assert Strip("d") == "d";
    assert Strip("T") == "T";
    assert Upper("T") == "T";
  }

  lemma ForgetfulIsFair(good: nat)
    ensures FairClock(Forgetful(good), Interval(1.0))
  {
  }

  /** Not a hypothetical: a block of one request, from an empty state file, that starts its job twice. */
  lemma StartedTwice()
    ensures InSequence(FORGETFUL_CALLS) && SameRequest(FORGETFUL_CALLS, "d")
    ensures Starts(OutcomeOf(None, FORGETFUL_CALLS, 0)) && Starts(OutcomeOf(None, FORGETFUL_CALLS, 1))
  {
    DeliveryIsValid();
    ForgetfulIsFair(3);
    ForgetfulIsFair(4);
    hide Validate, Run, FairClock;
    var first := FORGETFUL_CALLS[0];
    UnsettledStarts(first, None);
    ForgetfulForgets();
    StartsAgainJustWhenUnwritten(None, FORGETFUL_CALLS, "d", 0);
  }

  lemma ForgetfulForgets()
    requires FairClock(Forgetful(3), Interval(1.0))
    ensures !LastWritten(Forgetful(3), Performing(FORGETFUL_CALLS[0], None).log)
  {
    DeliveryIsValid();
    hide Validate, FairClock, Poll;
    var w, job, selected := Forgetful(3), Job("d", "d", "T", []), Some(CARRIER);
    assert Selection([CARRIER], job, AUTO) == selected;
    var log := Fresh(None);
    var c := Context(job, selected);
    var received := Transit(w, Context(job, None), log, Received, NoDetail).0;
    var validated := Transit(w, c, received, Validated, NoDetail).0;
    var starting := Transit(w, c, Asked(validated, AskCapabilities), Starting, NoDetail).0;
    var f := Launch(w, c, starting, 1.0, 1.0);
    assert f.log.writes == 4 && f.raised && f.last == Succeeded;
    assert Guarded(w, job, selected, log, 1.0, 1.0) == (f, c);
  }

  // ----- another key in between -----

  /**
   Any run under way with another key, and with a last write that succeeds, makes the state file
   forget the request before it: given an able adapter, that one starts again.
   */
  lemma AnotherKeyStartsAgain(file: Option<Record>, calls: seq<Call>, i: nat)
    requires InSequence(calls) && i + 1 < |calls|
    requires Underway(calls[i].w, FileBefore(file, calls, i), calls[i].raw)
    requires LastWritten(calls[i].w, OutcomeOf(file, calls, i).log)
    requires Able(calls[i + 1], FileBefore(file, calls, i + 1))
    requires Validate(calls[i + 1].raw).value.key != Validate(calls[i].raw).value.key
    ensures Starts(OutcomeOf(file, calls, i + 1))
  {
    hide Run, Validate, Selection, HandshakeOk;
    OnlyTheLastKeyIsSettled(calls[i], FileBefore(file, calls, i), Validate(calls[i + 1].raw).value.key);
    UnsettledStarts(calls[i + 1], FileBefore(file, calls, i + 1));
  }

  /** Every request is granted, with the job's end at once, and everything can be written. */
  const KIND := World(true, true, true, true, _ => Reply(Some(Succeeded), Some({})), _ => true, _ => true,
                      0.0, k => k as real, None)

  const ERRAND := RawJob(false, Text(SCHEMA), Text("e"), Missing, Text("T"), NoList, true, true)

  function KindCall(raw: RawJob): Call {
    Call(KIND, raw, [CARRIER], AUTO, 1.0, 1.0)
  }

  /** A delivery, an errand, and the same delivery again. */
  const INTERRUPTED_CALLS: seq<Call> := [KindCall(DELIVERY), KindCall(ERRAND), KindCall(DELIVERY)]

  lemma ErrandIsValid()
    ensures Validate(ERRAND) == Some(Job("e", "e", "T", []))
  {
    assert Strip("e") == "e";
    assert Strip("T") == "T";
    assert Upper("T") == "T";
  }

  lemma KindIsFair()
    ensures FairClock(KIND, Interval(1.0)) && AllWrite(KIND)
  {
  }

  // A kind run of a valid job is able, and settles its key.
  lemma KindRunSettles(raw: RawJob, job: Job, file: Option<Record>)
    requires Validate(raw) == Some(job) && job.jobType == "T" && job.required == []
    requires FairClock(KIND, Interval(1.0)) && AllWrite(KIND)
    ensures Able(KindCall(raw), file)
    ensures !Settled(file, job) ==> Underway(KIND, file, raw)
    ensures !Settled(file, job) ==> LastWritten(KIND, Performing(KindCall(raw), file).log)
    ensures !Settled(file, job) ==> SettledKey(Performing(KindCall(raw), file).log.file, job.key)
  {
    hide Validate, Performed, FairClock;
    assert Selection([CARRIER], job, AUTO) == Some(CARRIER);
    assert HandshakeOk(KIND.answers(0), job);
    if !Settled(file, job) {
      PerformedConcludes(KIND, job, Some(CARRIER), Fresh(file), 1.0, Interval(1.0));
      SettledJustWhenWritten(KindCall(raw), file);
    }
  }

  /** With nothing failing at all, a delivery is started twice because an errand came in between. */
  lemma StartedTwiceAround()
    ensures InSequence(INTERRUPTED_CALLS)
    ensures Starts(OutcomeOf(None, INTERRUPTED_CALLS, 0)) && Starts(OutcomeOf(None, INTERRUPTED_CALLS, 2))
    ensures INTERRUPTED_CALLS[0].raw == INTERRUPTED_CALLS[2].raw
    ensures forall i | 0 <= i < 3 :: AllWrite(INTERRUPTED_CALLS[i].w)
  {
    var calls := INTERRUPTED_CALLS;
    DeliveryIsValid();
    ErrandIsValid();
    KindIsFair();
    hide Validate, Run, FairClock, AllWrite, Able, LastWritten;
    KindRunSettles(DELIVERY, Job("d", "d", "T", []), None);
    KindStarts(DELIVERY, None);
    var first := FileBefore(None, calls, 1);
    KindRunSettles(ERRAND, Job("e", "e", "T", []), first);
    var second := FileBefore(None, calls, 2);
    KindRunSettles(DELIVERY, Job("d", "d", "T", []), second);
    AnotherKeyStartsAgain(None, calls, 1);
  }

  lemma KindStarts(raw: RawJob, file: Option<Record>)
    requires FairClock(KIND, Interval(1.0)) && Able(KindCall(raw), file) && Underway(KIND, file, raw)
    ensures Starts(Performing(KindCall(raw), file))
  {
    UnsettledStarts(KindCall(raw), file);
  }
}
