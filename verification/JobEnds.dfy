/**
 How a run of the job runtime ends, told from the adapter's answers and the requests sent alone:
 what the state file and the last event say, what is returned, and what each cancel is for.
 */
module JobEnds {
  import opened Jobs
  import opened Rounding
  import opened JobProtocol
  import opened JobProperties
  import opened JobEvents

  // ----- what the answers say -----

  function LastOf(r: seq<Request>): Request
    requires r != []
  {
    r[|r| - 1]
  }

  /** The state that answer `i` reports, or the one it means without a state. */
  function Said(w: World, i: nat, silent: JobState): JobState {
    match w.answers(i)
    case Refused => silent
    case Reply(None, _) => silent
    case Reply(Some(state), _) => state
  }

  predicate Ended(s: JobState) {
    s == Succeeded || s == Failed || s == Cancelled || s == TimedOut || s == Rejected
  }

  /** The end of a run that has sent these requests. */
  function Conclusion(w: World, r: seq<Request>): JobState {
    if r == [] then Failed else
    match LastOf(r)
    case AskCapabilities => Failed
    case Start => Said(w, |r| - 1, Running)
    case Status => Said(w, |r| - 1, Running)
    case Cancel(RuntimeSignal) =>
      var said := Said(w, |r| - 1, Cancelled);
      if Ended(said) then said else Cancelled
    case Cancel(RuntimeTimeout) => TimedOut
    case Cancel(RuntimeFailure) => Failed
  }

  function ConclusionDetail(w: World, r: seq<Request>): Detail {
    if r == [] then FailureDetail(false, false, Failed) else
    match LastOf(r)
    case AskCapabilities => FailureDetail(false, false, Failed)
    case Cancel(RuntimeTimeout) => TimeoutDetail
    case Cancel(RuntimeFailure) =>
      if w.answers(|r| - 1).Refused? then FailureDetail(true, false, Failed)
      else FailureDetail(true, true, Said(w, |r| - 1, Cancelled))
    case _ => AdapterData
  }

  /** The last request was refused, or its answer is not one of a running or an ended job. */
  predicate Upset(w: World, r: seq<Request>) {
    r != [] && !LastOf(r).AskCapabilities? &&
    (w.answers(|r| - 1).Refused?
     || (!LastOf(r).Cancel? && Said(w, |r| - 1, Running) != Running && !Ended(Said(w, |r| - 1, Running))))
  }

  // ----- the record at the end -----

  /** The last write, if it succeeded, left this record. */
  predicate Leaves(w: World, log: Log, record: Record) {
    log.writes > 0 && (w.writes(log.writes - 1) ==> log.file == Some(record))
  }

  /** A flow has ended the job as the answers say, or it has raised, for these or for reasons of its `own`. */
  ghost predicate EndedAsSaid(w: World, c: Context, f: Flow, own: bool) {
    && (if IsTerminal(f.last)
        then && f.last == Conclusion(w, f.log.requests)
             && Leaves(w, f.log, RecordOf(c, f.last, ConclusionDetail(w, f.log.requests)))
             && (!f.raised ==> w.writes(f.log.writes - 1))
        else f.raised)
    && (AllWrite(w) && f.started ==>
          && (f.raised <==> Upset(w, f.log.requests) || own)
          && (IsTerminal(f.last) <==>
                !Upset(w, f.log.requests) || LastOf(f.log.requests) == Cancel(RuntimeTimeout)))
  }

  lemma TransitLeaves(w: World, c: Context, log: Log, state: JobState, detail: Detail)
    ensures var (next, ok) := Transit(w, c, log, state, detail);
            && Leaves(w, next, RecordOf(c, state, detail)) && next.requests == log.requests
            && (ok <==> w.writes(log.writes) && w.emits(log.emits)) && (ok ==> w.writes(next.writes - 1))
  {
  }

  lemma PassEnds(w: World, c: Context, log: Log, k: nat, deadline: real)
    requires Pass(w, c, log, k, deadline).Done?
    ensures EndedAsSaid(w, c, Pass(w, c, log, k, deadline).flow, false)
  {
    hide Transit;
    TransitLeaves(w, c, log, Cancelling, SignalDetail);
    var (cancelling, _) := Transit(w, c, log, Cancelling, SignalDetail);
    var a, asked := NextAnswer(w, cancelling), Asked(cancelling, Cancel(RuntimeSignal));
    if a.Reply? {
      var said := StateOr(a, Cancelled);
      TransitLeaves(w, c, asked, if IsTerminal(said) then said else Cancelled, AdapterData);
    }
    TransitLeaves(w, c, Asked(log, Cancel(RuntimeTimeout)), TimedOut, TimeoutDetail);
    var status, polled := NextAnswer(w, log), Asked(log, Status);
    if status.Reply? {
      TransitLeaves(w, c, polled, StateOr(status, Running), AdapterData);
    }
  }

  lemma {:induction false} PollEnds(w: World, c: Context, log: Log, k: nat, deadline: real, interval: real)
    requires interval > 0.0 && FairClock(w, interval)
    ensures EndedAsSaid(w, c, Poll(w, c, log, k, deadline, interval), false)
    decreases Steps(deadline - w.clock(k), interval)
  {
    hide Pass, FairClock, EndedAsSaid;
    match Pass(w, c, log, k, deadline) {
      case Done(_) => PassEnds(w, c, log, k, deadline);
      case Again(next) =>
        NotYet(w, c, log, k, deadline);
        TimePasses(w, k, deadline, interval);
        PollEnds(w, c, next, k + 1, deadline, interval);
    }
  }

  lemma LaunchEnds(w: World, c: Context, log: Log, timeout: real, interval: real)
    requires interval > 0.0 && FairClock(w, interval)
    ensures EndedAsSaid(w, c, Launch(w, c, log, timeout, interval), false)
  {
    hide Transit, Poll, FairClock;
    var a, asked := NextAnswer(w, log), Asked(log, Start);
    if a.Reply? && IsJobState(StateOr(a, Running)) {
      TransitLeaves(w, c, asked, StateOr(a, Running), AdapterData);
      if StateOr(a, Running).Running? {
        PollEnds(w, c, Transit(w, c, asked, Running, AdapterData).0, 0, w.began + timeout, interval);
      }
    }
  }

  /** A flow that has started the job ends as the answers say; any other raises. */
  ghost predicate EndsOrFails(w: World, c: Context, f: Flow, own: bool) {
    if f.started
    then && EndedAsSaid(w, c, f, own)
         && f.log.requests != [] && LastOf(f.log.requests) !in {AskCapabilities, Cancel(RuntimeFailure)}
    else f.raised && !IsTerminal(f.last) && (f.log.requests == [] || f.log.requests == [AskCapabilities])
  }

  lemma HandshakeEnds(w: World, c: Context, log: Log, timeout: real, interval: real)
    requires interval > 0.0 && FairClock(w, interval) && log.requests == []
    ensures EndsOrFails(w, c, Handshake(w, c, log, timeout, interval), false)
  {
    var polls, tail := HandshakeRequests(w, c, log, timeout, interval);
    hide Launch, FairClock, HandshakeOk, EndedAsSaid, Transit;
    var (validated, _) := Transit(w, c, log, Validated, NoDetail);
    LaunchEnds(w, c, Transit(w, c, Asked(validated, AskCapabilities), Starting, NoDetail).0, timeout, interval);
  }

  lemma GuardedEnds(w: World, job: Job, selected: Option<Manifest>, log: Log, timeout: real, interval: real)
    requires interval > 0.0 && FairClock(w, interval) && log.requests == []
    ensures var (f, c) := Guarded(w, job, selected, log, timeout, interval);
            && EndsOrFails(w, c, f, !w.finalReadable) && c.job == job
            && c.adapter == if w.writes(log.writes) && w.emits(log.emits) then selected else None
  {
    hide Handshake, FairClock, AllWrite;
    var (received, ok) := Transit(w, Context(job, None), log, Received, NoDetail);
    if ok && selected.Some? {
      HandshakeEnds(w, Context(job, selected), received, timeout, interval);
    }
  }

  lemma RecoveredLeaves(w: World, c: Context, f: Flow, own: bool)
    requires EndsOrFails(w, c, f, own) && f.raised
    ensures var log := Recovered(w, c, f);
            Leaves(w, log, RecordOf(c, Conclusion(w, log.requests), ConclusionDetail(w, log.requests)))
  {
    hide Transit, AllWrite;
    if !IsTerminal(f.last) {
      if f.started {
        var a, asked := NextAnswer(w, f.log), Asked(f.log, Cancel(RuntimeFailure));
        TransitLeaves(w, c, asked, Failed,
                      FailureDetail(true, a.Reply?, if a.Reply? then StateOr(a, Cancelled) else Failed));
      } else {
        TransitLeaves(w, c, f.log, Failed, FailureDetail(false, false, Failed));
      }
    }
  }

  /** The adapter that the records of a run name, from the second one on. */
  function AdapterOf(w: World, selected: Option<Manifest>): Option<string> {
    if selected.Some? && w.writes(0) && w.emits(0) then Some(selected.value.id) else None
  }

  /** What the state file says at the end of a run that has sent these requests. */
  function FinalRecord(w: World, job: Job, selected: Option<Manifest>, r: seq<Request>): Record {
    Record(job.key, job.id, AdapterOf(w, selected), Conclusion(w, r), ConclusionDetail(w, r))
  }

  /** The last request leaves nothing to raise: the job's end was reported, or a cancel before it was answered. */
  predicate EndsWell(w: World, r: seq<Request>) {
    && r != [] && !LastOf(r).AskCapabilities? && LastOf(r) != Cancel(RuntimeFailure)
    && w.answers(|r| - 1).Reply?
  }

  lemma PerformedEnds(w: World, job: Job, selected: Option<Manifest>, log: Log, timeout: real, interval: real)
    requires interval > 0.0 && FairClock(w, interval) && log.requests == [] && log.writes == 0 && log.emits == 0
    ensures var (done, raised) := Performed(w, job, selected, log, timeout, interval);
            && Leaves(w, done, FinalRecord(w, job, selected, done.requests))
            && (!raised ==> w.writes(done.writes - 1))
            && (AllWrite(w) ==> (!raised <==> w.finalReadable && EndsWell(w, done.requests)))
  {
    GuardedEnds(w, job, selected, log, timeout, interval);
    hide Guarded, FairClock, Recovered, AllWrite;
    var (f, c) := Guarded(w, job, selected, log, timeout, interval);
    if f.raised {
      RecoveredLeaves(w, c, f, !w.finalReadable);
      RecoveredRequests(w, c, f);
    }
  }

  /**
   The end of a run, whatever fails. The last write of the state file, if it succeeds, records the
   end that the answers and the requests say, with the job and the adapter it was given to, and a run
   that returns returns this record. When the state file and the outbox can be written, it is also
   the last event; then a run returns if and only if its last request was answered, was more
   than the handshake and no safety cancel, and the record can be read and the adapter closed.
   */
  lemma RunEndsAsSaid(w: World, file: Option<Record>, raw: RawJob, manifests: seq<Manifest>, wanted: string,
                      timeout: real, poll: real)
    requires FairClock(w, Interval(poll)) && Underway(w, file, raw)
    ensures var o, job := Run(w, file, raw, manifests, wanted, timeout, poll), Validate(raw).value;
            var r := FinalRecord(w, job, Selection(manifests, job, wanted), o.log.requests);
            && Leaves(w, o.log, r)
            && (o.result.Returned? ==> o.result.record == r && o.log.file == Some(r))
            && (AllWrite(w) ==>
                  && o.log.events != [] && Last(o.log.events) == r && o.log.file == Some(r)
                  && (o.result.Returned? <==> w.finalReadable && w.closes && EndsWell(w, o.log.requests)))
  {
    var job := Validate(raw).value;
    var selected := Selection(manifests, job, wanted);
    PerformedEnds(w, job, selected, Fresh(file), timeout, Interval(poll));
    if AllWrite(w) {
      EventsTellTheRun(w, file, raw, manifests, wanted, timeout, poll);
      var n := Performed(w, job, selected, Fresh(file), timeout, Interval(poll)).0.writes;
      assert w.writes(n - 1);
    }
    hide Validate, Selection, Performed, FairClock, AllWrite, FinalRecord;
  }
}
