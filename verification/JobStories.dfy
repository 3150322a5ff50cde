/**
 The events of a run, exactly: when the state file and the outbox can be written, its requests and
 the answers to them determine every record it writes and emits.
 */
module JobStories {
  import opened Jobs
  import opened Rounding
  import opened JobProtocol
  import opened JobProperties
  import opened JobEvents
  import opened JobEnds
  import opened JobTraces

  function Given(tells: bool, r: Record): seq<Record> {
    if tells then [r] else []
  }

  predicate SignalLast(r: seq<Request>) {
    r != [] && LastOf(r) == Cancel(RuntimeSignal)
  }

  /** What the loop adds to the events: that it cancels on a signal, and the end of the job. */
  function LoopStory(w: World, c: Context, f: Flow): seq<Record> {
    Given(SignalLast(f.log.requests), RecordOf(c, Cancelling, SignalDetail))
    + Given(IsTerminal(f.last), RecordOf(c, f.last, ConclusionDetail(w, f.log.requests)))
  }

  lemma TransitAdds(w: World, c: Context, log: Log, state: JobState, detail: Detail)
    requires AllWrite(w)
    ensures var (next, ok) := Transit(w, c, log, state, detail);
            ok && next.events == log.events + [RecordOf(c, state, detail)] && next.requests == log.requests
  {
    assert w.writes(log.writes) && w.emits(log.emits);
  }

  lemma PassStory(w: World, c: Context, log: Log, k: nat, deadline: real)
    requires AllWrite(w) && !SignalLast(log.requests)
    ensures match Pass(w, c, log, k, deadline)
            case Done(f) => f.log.events == log.events + LoopStory(w, c, f)
            case Again(next) => next.events == log.events && !SignalLast(next.requests)
  {
    hide Transit, AllWrite;
    if Signalled(w, 2 * k) {
      TransitAdds(w, c, log, Cancelling, SignalDetail);
      var (cancelling, _) := Transit(w, c, log, Cancelling, SignalDetail);
      var a, asked := NextAnswer(w, cancelling), Asked(cancelling, Cancel(RuntimeSignal));
      if a.Reply? {
        var said := StateOr(a, Cancelled);
        TransitAdds(w, c, asked, if IsTerminal(said) then said else Cancelled, AdapterData);
      }
    } else if w.clock(k) >= deadline {
      TransitAdds(w, c, Asked(log, Cancel(RuntimeTimeout)), TimedOut, TimeoutDetail);
    } else if !Signalled(w, 2 * k + 1) {
      var status, polled := NextAnswer(w, log), Asked(log, Status);
      if status.Reply? {
        TransitAdds(w, c, polled, StateOr(status, Running), AdapterData);
      }
    }
  }

  lemma {:induction false} PollStory(w: World, c: Context, log: Log, k: nat, deadline: real, interval: real)
    requires interval > 0.0 && FairClock(w, interval) && AllWrite(w) && !SignalLast(log.requests)
    ensures var f := Poll(w, c, log, k, deadline, interval);
            f.log.events == log.events + LoopStory(w, c, f)
    decreases Steps(deadline - w.clock(k), interval)
  {
    hide Pass, FairClock, AllWrite, LoopStory;
    PassStory(w, c, log, k, deadline);
    match Pass(w, c, log, k, deadline) {
      case Done(_) =>
      case Again(next) =>
        NotYet(w, c, log, k, deadline);
        TimePasses(w, k, deadline, interval);
        PollStory(w, c, next, k + 1, deadline, interval);
    }
  }

  lemma LaunchStory(w: World, c: Context, log: Log, timeout: real, interval: real)
    requires interval > 0.0 && FairClock(w, interval) && AllWrite(w) && |log.requests| == 1
    ensures var f := Launch(w, c, log, timeout, interval);
            f.log.events
            == log.events + Given(StillRunning(w, 1), RecordOf(c, Running, AdapterData)) + LoopStory(w, c, f)
  {
    hide Transit, Poll, FairClock, AllWrite;
    var a, asked := NextAnswer(w, log), Asked(log, Start);
    if a.Reply? && IsJobState(StateOr(a, Running)) {
      TransitAdds(w, c, asked, StateOr(a, Running), AdapterData);
      if StateOr(a, Running).Running? {
        var running := Transit(w, c, asked, Running, AdapterData).0;
        hide LoopStory;
        PollStory(w, c, running, 0, w.began + timeout, interval);
      }
    }
  }

  /** The records before the end of a run with these requests. */
  function Before(w: World, job: Job, selected: Option<Manifest>, r: seq<Request>): seq<Record> {
    var c := Context(job, selected);
    [RecordOf(Context(job, None), Received, NoDetail)]
    + Given(selected.Some?, RecordOf(c, Validated, NoDetail))
    + Given(Start in r, RecordOf(c, Starting, NoDetail))
    + Given(Start in r && StillRunning(w, 1), RecordOf(c, Running, AdapterData))
    + Given(Cancel(RuntimeSignal) in r, RecordOf(c, Cancelling, SignalDetail))
  }

  lemma StartedStory(w: World, job: Job, selected: Option<Manifest>, log: Log, timeout: real, interval: real)
    requires interval > 0.0 && FairClock(w, interval) && AllWrite(w) && CanStart(w, job, selected)
    requires log == Fresh(log.file)
    ensures var f := Guarded(w, job, selected, log, timeout, interval).0;
            var c := Context(job, selected);
            f.log.events
            == [RecordOf(Context(job, None), Received, NoDetail), RecordOf(c, Validated, NoDetail),
                RecordOf(c, Starting, NoDetail)]
               + Given(StillRunning(w, 1), RecordOf(c, Running, AdapterData)) + LoopStory(w, c, f)
  {
    CoversIsHandshake(w.answers(0), job);
    hide Launch, HandshakeOk, Covers, FairClock, AllWrite, LoopStory;
    var c := Context(job, selected);
    var received := Transit(w, Context(job, None), log, Received, NoDetail).0;
    var validated := Transit(w, c, received, Validated, NoDetail).0;
    var starting := Transit(w, c, Asked(validated, AskCapabilities), Starting, NoDetail).0;
    LaunchStory(w, c, starting, timeout, interval);
  }

  lemma UnstartedStory(w: World, job: Job, selected: Option<Manifest>, log: Log, timeout: real, interval: real)
    requires interval > 0.0 && FairClock(w, interval) && AllWrite(w) && !CanStart(w, job, selected)
    requires log == Fresh(log.file)
    ensures var f := Guarded(w, job, selected, log, timeout, interval).0;
            f.log.events
            == [RecordOf(Context(job, None), Received, NoDetail)]
               + Given(selected.Some?, RecordOf(Context(job, selected), Validated, NoDetail))
            && f.raised && !f.started && !IsTerminal(f.last)
  {
    CoversIsHandshake(w.answers(0), job);
    assert w.writes(0) && w.emits(0) && w.writes(1) && w.emits(1) && w.writes(2) && w.emits(2);
    hide Launch, HandshakeOk, Covers, FairClock, AllWrite;
    var received := Transit(w, Context(job, None), log, Received, NoDetail).0;
    var validated := Transit(w, Context(job, selected), received, Validated, NoDetail).0;
  }

  /** `events` is these records and one more. */
  predicate OneMoreThan(events: seq<Record>, before: seq<Record>) {
    |events| == |before| + 1 && events[..|before|] == before
  }

  lemma RecoveredAdds(w: World, c: Context, f: Flow)
    requires AllWrite(w)
    ensures var log := Recovered(w, c, f);
            if IsTerminal(f.last) then log == f.log
            else OneMoreThan(log.events, f.log.events)
  {
    hide Transit, AllWrite;
    if !IsTerminal(f.last) {
      var a, asked := NextAnswer(w, f.log), Asked(f.log, Cancel(RuntimeFailure));
      TransitAdds(w, c, asked, Failed,
                  FailureDetail(true, a.Reply?, if a.Reply? then StateOr(a, Cancelled) else Failed));
      TransitAdds(w, c, f.log, Failed, FailureDetail(false, false, Failed));
    }
  }

  // Where the signal stands in the requests of the guarded part.
  lemma SignalStands(w: World, polls: nat, deadline: real, tail: seq<Request>, more: seq<Request>)
    requires LeavesJob(w, polls, deadline, tail) && (more == [] || more == [Cancel(RuntimeFailure)])
    ensures var r := [AskCapabilities, Start] + Statuses(polls) + tail;
            && (SignalLast(r) <==> Cancel(RuntimeSignal) in r + more) && Start in r + more
  {
    var r := [AskCapabilities, Start] + Statuses(polls) + tail;
    assert r[1] == Start;
    assert tail == [] ==> LastOf(r) == if polls == 0 then Start else Status;
  }

  lemma BeforeTheEnd(w: World, job: Job, selected: Option<Manifest>, r: seq<Request>, signal: bool)
    requires selected.Some? && Start in r && (signal <==> Cancel(RuntimeSignal) in r)
    ensures var c := Context(job, selected);
            Before(w, job, selected, r)
            == [RecordOf(Context(job, None), Received, NoDetail), RecordOf(c, Validated, NoDetail),
                RecordOf(c, Starting, NoDetail)]
               + Given(StillRunning(w, 1), RecordOf(c, Running, AdapterData))
               + Given(signal, RecordOf(c, Cancelling, SignalDetail))
  {
  }

  // The handler adds the end of the job just when the loop has not.
  lemma OneEnd(w: World, c: Context, f: Flow, events: seq<Record>, before: seq<Record>)
    requires f.log.events == before + LoopStory(w, c, f)
    requires if IsTerminal(f.last) then events == f.log.events else OneMoreThan(events, f.log.events)
    ensures OneMoreThan(events, before + Given(SignalLast(f.log.requests), RecordOf(c, Cancelling, SignalDetail)))
  {
    hide ConclusionDetail;
  }

  lemma StartedRunStory(w: World, job: Job, selected: Option<Manifest>, log: Log, timeout: real, interval: real)
    requires interval > 0.0 && FairClock(w, interval) && AllWrite(w) && CanStart(w, job, selected)
    requires log == Fresh(log.file)
    ensures var done := Performed(w, job, selected, log, timeout, interval).0;
            OneMoreThan(done.events, Before(w, job, selected, done.requests))
  {
    GuardedEnds(w, job, selected, log, timeout, interval);
    GuardedStarts(w, job, selected, log, timeout, interval);
    StartedStory(w, job, selected, log, timeout, interval);
    var polls, tail := GuardedLeaves(w, job, selected, log, timeout, interval);
    hide Guarded, FairClock, AllWrite, Recovered, StillRunning, LoopStory, Given, Before, OneMoreThan, LeavesJob;
    var (f, c) := Guarded(w, job, selected, log, timeout, interval);
    RecoveredRequests(w, c, f);
    RecoveredAdds(w, c, f);
    SignalStands(w, polls, w.began + timeout, tail, if IsTerminal(f.last) then [] else [Cancel(RuntimeFailure)]);
    var done := Performed(w, job, selected, log, timeout, interval).0;
    BeforeTheEnd(w, job, selected, done.requests, SignalLast(f.log.requests));
    OneEnd(w, c, f, done.events,
           [RecordOf(Context(job, None), Received, NoDetail), RecordOf(c, Validated, NoDetail),
            RecordOf(c, Starting, NoDetail)] + Given(StillRunning(w, 1), RecordOf(c, Running, AdapterData)));
  }

  lemma UnstartedRunStory(w: World, job: Job, selected: Option<Manifest>, log: Log, timeout: real, interval: real)
    requires interval > 0.0 && FairClock(w, interval) && AllWrite(w) && !CanStart(w, job, selected)
    requires log == Fresh(log.file)
    ensures var done := Performed(w, job, selected, log, timeout, interval).0;
            OneMoreThan(done.events, Before(w, job, selected, done.requests))
  {
    var polls, tail := GuardedRequests(w, job, selected, log, timeout, interval);
    UnstartedStory(w, job, selected, log, timeout, interval);
    hide Guarded, FairClock, AllWrite, Recovered, CanStart;
    var (f, c) := Guarded(w, job, selected, log, timeout, interval);
    RecoveredRequests(w, c, f);
    RecoveredAdds(w, c, f);
  }

  /**
   The whole story of a run under way, when all can be written: received, validated once an adapter is
   selected, starting once the job is started, running if the adapter says so, cancelling on a stop
   signal, and its end, each with the job, the adapter and the detail that belong to it.
   */
  lemma EventsExactly(w: World, file: Option<Record>, raw: RawJob, manifests: seq<Manifest>, wanted: string,
                      timeout: real, poll: real)
    requires FairClock(w, Interval(poll)) && Underway(w, file, raw) && AllWrite(w)
    ensures var log, job := Run(w, file, raw, manifests, wanted, timeout, poll).log, Validate(raw).value;
            var selected := Selection(manifests, job, wanted);
            log.events
            == Before(w, job, selected, log.requests) + [FinalRecord(w, job, selected, log.requests)]
  {
    var job := Validate(raw).value;
    var selected := Selection(manifests, job, wanted);
    RunEndsAsSaid(w, file, raw, manifests, wanted, timeout, poll);
    if CanStart(w, job, selected) {
      StartedRunStory(w, job, selected, Fresh(file), timeout, Interval(poll));
    } else {
      UnstartedRunStory(w, job, selected, Fresh(file), timeout, Interval(poll));
    }
    hide Validate, Selection, Performed, FairClock, AllWrite, CanStart, FinalRecord, Before, OneMoreThan;
    var log := Run(w, file, raw, manifests, wanted, timeout, poll).log;
    EndsWithLast(log.events, Before(w, job, selected, log.requests));
  }

  lemma EndsWithLast(events: seq<Record>, before: seq<Record>)
    requires OneMoreThan(events, before)
    ensures events == before + [Last(events)]
  {
  }
}
