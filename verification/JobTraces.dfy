/**
 The requests of a run, exactly: when a job is started at all, how long its status is asked for, and
 what each cancel is for, told from the surroundings of the run alone.
 */
module JobTraces {
  import opened Jobs
  import opened Rounding
  import opened JobProtocol
  import opened JobProperties
  import opened JobEvents
  import opened JobEnds

  // ----- whether the job is started -----

  /** The handshake is answered with a list of capabilities, and none that the job requires is missing. */
  predicate Covers(a: Answer, required: seq<string>) {
    match a
    case Reply(_, Some(capabilities)) => forall i | 0 <= i < |required| :: required[i] in capabilities
    case _ => false
  }

  /** What it takes for a run under way to attempt `job.start`. */
  predicate CanStart(w: World, job: Job, selected: Option<Manifest>) {
    && selected.Some? && Covers(w.answers(0), job.required)
    && w.writes(0) && w.emits(0) && w.writes(1) && w.emits(1) && w.writes(2) && w.emits(2)
  }

  lemma CoversIsHandshake(a: Answer, job: Job)
    ensures HandshakeOk(a, job) <==> Covers(a, job.required)
  {
    if HandshakeOk(a, job) {
      assert forall i | 0 <= i < |job.required| :: job.required[i] in a.capabilities.value;
    }
  }

  lemma GuardedStarts(w: World, job: Job, selected: Option<Manifest>, log: Log, timeout: real, interval: real)
    requires interval > 0.0 && FairClock(w, interval)
    requires log.requests == [] && log.writes == 0 && log.emits == 0
    ensures Guarded(w, job, selected, log, timeout, interval).0.started <==> CanStart(w, job, selected)
  {
    CoversIsHandshake(w.answers(0), job);
    hide Launch, HandshakeOk, Covers, FairClock;
    var c := Context(job, selected);
    var (received, ok) := Transit(w, Context(job, None), log, Received, NoDetail);
    if ok && selected.Some? {
      var (validated, ok) := Transit(w, c, received, Validated, NoDetail);
      if ok && HandshakeOk(NextAnswer(w, validated), job) {
        var (starting, ok) := Transit(w, c, Asked(validated, AskCapabilities), Starting, NoDetail);
        if ok {
          var polls, tail := LaunchRequests(w, c, starting, timeout, interval);
        }
      }
    }
  }

  // ----- the polling loop -----

  /** The stop signal is seen at pass `k`: before the deadline is checked, or after the wait that follows. */
  predicate SeesSignal(w: World, k: nat, deadline: real) {
    Signalled(w, 2 * k) || (w.clock(k) < deadline && Signalled(w, 2 * k + 1))
  }

  /** The deadline has passed at pass `k`, before any stop signal. */
  predicate Overdue(w: World, k: nat, deadline: real) {
    !Signalled(w, 2 * k) && w.clock(k) >= deadline
  }

  /** Answer `i` is that of a running job. */
  predicate StillRunning(w: World, i: nat) {
    match w.answers(i)
    case Refused => false
    case Reply(state, _) => state == None || state == Some(Running)
  }

  /** Pass `k` asks for the status. */
  predicate AsksAt(w: World, k: nat, deadline: real) {
    !SeesSignal(w, k, deadline) && !Overdue(w, k, deadline)
  }

  /**
   From pass `k` on `polls` passes ask for the status; their answers begin at `base`, and all but the last
   say that the job is running.
   */
  ghost predicate PolledOn(w: World, base: nat, k: nat, polls: nat, deadline: real) {
    && (forall i | k <= i < k + polls :: AsksAt(w, i, deadline))
    && (forall i | base <= i < base + polls - 1 :: StillRunning(w, i))
  }

  /** What ends the loop after `polls` status requests: an answer, the stop signal, or the deadline. */
  ghost predicate LeftFor(w: World, base: nat, k: nat, polls: nat, deadline: real, tail: seq<Request>) {
    if polls > 0 && !StillRunning(w, base + polls - 1) then tail == []
    else if SeesSignal(w, k + polls, deadline) then
      tail == [Cancel(RuntimeSignal)] || (tail == [] && !AllWrite(w))
    else Overdue(w, k + polls, deadline) && tail == [Cancel(RuntimeTimeout)]
  }

  lemma PassLeaves(w: World, c: Context, log: Log, k: nat, deadline: real) returns (polls: nat, tail: seq<Request>)
    requires Pass(w, c, log, k, deadline).Done?
    ensures polls <= 1 && Pass(w, c, log, k, deadline).flow.log.requests == log.requests + Statuses(polls) + tail
    ensures PolledOn(w, |log.requests|, k, polls, deadline)
         && LeftFor(w, |log.requests|, k, polls, deadline, tail)
  {
    hide Transit;
    TransitsAskNothing(w, c);
    polls, tail := 0, [];
    if Signalled(w, 2 * k) {
      TransitLeaves(w, c, log, Cancelling, SignalDetail);
      if CancelOnSignal(w, c, log).log.requests != log.requests {
        tail := [Cancel(RuntimeSignal)];
      }
    } else if w.clock(k) >= deadline {
      tail := [Cancel(RuntimeTimeout)];
    } else if !Signalled(w, 2 * k + 1) {
      polls := 1;
      assert Statuses(1) == [Status];
    }
  }

  // A pass after which the loop goes round again: it has asked for the status, or has seen the signal.
  lemma PassGoesOn(w: World, c: Context, log: Log, k: nat, deadline: real)
    requires Pass(w, c, log, k, deadline).Again?
    ensures var next := Pass(w, c, log, k, deadline).log;
            if SeesSignal(w, k, deadline) then next == log && SeesSignal(w, k + 1, deadline)
            else next.requests == log.requests + [Status] && AsksAt(w, k, deadline) && StillRunning(w, |log.requests|)
  {
  }

  lemma {:induction false} PollLeaves(w: World, c: Context, log: Log, k: nat, deadline: real, interval: real)
      returns (polls: nat, tail: seq<Request>)
    requires interval > 0.0 && FairClock(w, interval)
    ensures Poll(w, c, log, k, deadline, interval).log.requests == log.requests + Statuses(polls) + tail
    ensures PolledOn(w, |log.requests|, k, polls, deadline)
         && LeftFor(w, |log.requests|, k, polls, deadline, tail)
    decreases Steps(deadline - w.clock(k), interval)
  {
    hide Pass, FairClock, AllWrite, SeesSignal, Overdue;
    match Pass(w, c, log, k, deadline) {
      case Done(f) =>
        polls, tail := PassLeaves(w, c, log, k, deadline);
      case Again(next) =>
        NotYet(w, c, log, k, deadline);
        TimePasses(w, k, deadline, interval);
        PassGoesOn(w, c, log, k, deadline);
        polls, tail := PollLeaves(w, c, next, k + 1, deadline, interval);
        if SeesSignal(w, k, deadline) {
          assert polls > 0 ==> AsksAt(w, k + 1, deadline);
        } else {
          assert Statuses(1) == [Status];
          StatusesAdd(1, polls);
          polls := polls + 1;
        }
    }
  }

  // ----- from `job.start` on -----

  /** Before each of the status requests the job was running, and neither the signal nor the deadline had come. */
  ghost predicate Polled(w: World, polls: nat, deadline: real) {
    forall i | 0 <= i < polls :: AsksAt(w, i, deadline) && StillRunning(w, 1 + i)
  }

  /**
   What follows the handshake, the start and `polls` status requests, if all can be written: nothing
   when the end of the job has been reported, and else the cancel for the cause that there is.
   */
  function Cancels(w: World, polls: nat, deadline: real): seq<Request> {
    if w.answers(1 + polls).Refused? then [Cancel(RuntimeFailure)]
    else if Ended(Said(w, 1 + polls, Running)) then []
    else if !StillRunning(w, 1 + polls) then [Cancel(RuntimeFailure)]
    else if !SeesSignal(w, polls, deadline) then [Cancel(RuntimeTimeout)]
    else if w.answers(2 + polls).Refused? then [Cancel(RuntimeSignal), Cancel(RuntimeFailure)]
    else [Cancel(RuntimeSignal)]
  }

  /** How the guarded part leaves a started job, before any cancel of its handler. */
  ghost predicate LeavesJob(w: World, polls: nat, deadline: real, tail: seq<Request>) {
    && Polled(w, polls, deadline)
    && (if !StillRunning(w, 1 + polls) then tail == []
        else if SeesSignal(w, polls, deadline) then tail == [Cancel(RuntimeSignal)] || (tail == [] && !AllWrite(w))
        else (Overdue(w, polls, deadline) && tail == [Cancel(RuntimeTimeout)]) || (tail == [] && !AllWrite(w)))
  }

  lemma LaunchLeaves(w: World, c: Context, log: Log, timeout: real, interval: real)
      returns (polls: nat, tail: seq<Request>)
    requires interval > 0.0 && FairClock(w, interval) && |log.requests| == 1
    ensures Launch(w, c, log, timeout, interval).log.requests == log.requests + [Start] + Statuses(polls) + tail
    ensures LeavesJob(w, polls, w.began + timeout, tail)
  {
    hide Poll, FairClock, SeesSignal, Overdue;
    var a, asked := NextAnswer(w, log), Asked(log, Start);
    polls, tail := 0, [];
    if a.Reply? && IsJobState(StateOr(a, Running)) {
      var (done, ok) := Transit(w, c, asked, StateOr(a, Running), AdapterData);
      if ok && !IsTerminal(StateOr(a, Running)) {
        polls, tail := PollLeaves(w, c, done, 0, w.began + timeout, interval);
        LaunchPolled(w, polls, w.began + timeout);
      }
    }
  }

  lemma LaunchPolled(w: World, polls: nat, deadline: real)
    requires StillRunning(w, 1) && PolledOn(w, 2, 0, polls, deadline)
    ensures Polled(w, polls, deadline)
  {
    hide StillRunning, AsksAt;
  }

  lemma GuardedLeaves(w: World, job: Job, selected: Option<Manifest>, log: Log, timeout: real, interval: real)
      returns (polls: nat, tail: seq<Request>)
    requires interval > 0.0 && FairClock(w, interval)
    requires log.requests == [] && log.writes == 0 && log.emits == 0 && CanStart(w, job, selected)
    ensures Guarded(w, job, selected, log, timeout, interval).0.log.requests
         == [AskCapabilities, Start] + Statuses(polls) + tail
    ensures LeavesJob(w, polls, w.began + timeout, tail)
  {
    CoversIsHandshake(w.answers(0), job);
    hide Launch, HandshakeOk, Covers, FairClock, LeavesJob;
    var c := Context(job, selected);
    var received := Transit(w, Context(job, None), log, Received, NoDetail).0;
    var validated := Transit(w, c, received, Validated, NoDetail).0;
    var starting := Transit(w, c, Asked(validated, AskCapabilities), Starting, NoDetail).0;
    polls, tail := LaunchLeaves(w, c, starting, timeout, interval);
    assert [AskCapabilities] + [Start] == [AskCapabilities, Start];
  }

  // A cancel by the handler follows just when the guarded part has not ended the job.
  lemma SafetyTail(w: World, f: Flow, polls: nat, deadline: real, tail: seq<Request>)
    requires f.log.requests == [AskCapabilities, Start] + Statuses(polls) + tail
    requires LeavesJob(w, polls, deadline, tail) && AllWrite(w)
    requires IsTerminal(f.last) <==> !Upset(w, f.log.requests) || LastOf(f.log.requests) == Cancel(RuntimeTimeout)
    ensures tail + (if !IsTerminal(f.last) then [Cancel(RuntimeFailure)] else []) == Cancels(w, polls, deadline)
  {
    hide AllWrite, Signalled;
    var r := f.log.requests;
    assert tail == [] ==> |r| == 2 + polls && r[1 + polls] == if polls == 0 then Start else Status;
    assert |tail| == 1 ==> |r| == 3 + polls && r[2 + polls] == tail[0];
    assert [Cancel(RuntimeSignal)] + [Cancel(RuntimeFailure)] == [Cancel(RuntimeSignal), Cancel(RuntimeFailure)];
  }

  /** The cancels that a started run can end with, whatever fails, each for its cause. */
  ghost predicate HasCauses(w: World, polls: nat, deadline: real, cancels: seq<Request>) {
    && (Cancel(RuntimeSignal) in cancels ==> StillRunning(w, 1 + polls) && SeesSignal(w, polls, deadline))
    && (Cancel(RuntimeTimeout) in cancels ==> StillRunning(w, 1 + polls) && Overdue(w, polls, deadline))
    && (cancels == [] ==> w.answers(1 + polls).Reply? && Ended(Said(w, 1 + polls, Running)))
    && (AllWrite(w) ==> cancels == Cancels(w, polls, deadline))
  }

  lemma PerformedTrace(w: World, job: Job, selected: Option<Manifest>, log: Log, timeout: real, interval: real)
      returns (polls: nat, cancels: seq<Request>)
    requires interval > 0.0 && FairClock(w, interval) && CanStart(w, job, selected)
    requires log.requests == [] && log.writes == 0 && log.emits == 0
    ensures var r := Performed(w, job, selected, log, timeout, interval).0.requests;
            r == [AskCapabilities, Start] + Statuses(polls) + cancels
    ensures Polled(w, polls, w.began + timeout) && HasCauses(w, polls, w.began + timeout, cancels)
  {
    GuardedStarts(w, job, selected, log, timeout, interval);
    GuardedEnds(w, job, selected, log, timeout, interval);
    var tail;
    polls, tail := GuardedLeaves(w, job, selected, log, timeout, interval);
    hide Guarded, FairClock, AllWrite, Recovered, CanStart, SeesSignal, Overdue, Polled;
    var (f, c) := Guarded(w, job, selected, log, timeout, interval);
    RecoveredRequests(w, c, f);
    cancels := tail + (if !IsTerminal(f.last) then [Cancel(RuntimeFailure)] else []);
    if AllWrite(w) {
      SafetyTail(w, f, polls, w.began + timeout, tail);
    }
    if cancels == [] {
      assert f.log.requests[1 + polls] == if polls == 0 then Start else Status;
    }
  }

  /** The status requests are at least the poll interval and 50 ms apart, all within the timeout. */
  predicate Spaced(polls: nat, poll: real, timeout: real) {
    polls > 0 ==> (polls - 1) as real * (if poll < 0.05 then 0.05 else poll) < timeout
  }

  /**
   The whole trace of a run under way. It attempts `job.start` if and only if an adapter is selected,
   the first three states can be recorded and the handshake covers the capabilities. It then asks for
   the status only while the job is running and neither the stop signal nor the deadline has come;
   each cancel is for its cause, and none follows a reported end. When everything can be
   written, this determines all requests.
   */
  lemma RunTraceExactly(w: World, file: Option<Record>, raw: RawJob, manifests: seq<Manifest>, wanted: string,
                        timeout: real, poll: real) returns (polls: nat, cancels: seq<Request>)
    requires FairClock(w, Interval(poll)) && Underway(w, file, raw)
    ensures var job := Validate(raw).value;
            var r := Run(w, file, raw, manifests, wanted, timeout, poll).log.requests;
            && (Start in r <==> CanStart(w, job, Selection(manifests, job, wanted)))
            && (Start in r ==>
                  && r == [AskCapabilities, Start] + Statuses(polls) + cancels
                  && Polled(w, polls, w.began + timeout) && HasCauses(w, polls, w.began + timeout, cancels)
                  && Spaced(polls, poll, timeout))
  {
    var job := Validate(raw).value;
    var selected := Selection(manifests, job, wanted);
    hide Validate, Selection, Performed, FairClock, Polled, HasCauses, CanStart, Spaced, Interval;
    polls, cancels := AnyTrace(w, job, selected, Fresh(file), timeout, poll);
  }

  lemma {:induction false} ClockGrows(w: World, interval: real, k: nat)
    requires FairClock(w, interval)
    ensures w.clock(k) >= w.began + k as real * interval
  {
    if k > 0 {
      ClockGrows(w, interval, k - 1);
      assert w.clock((k - 1) + 1) >= w.clock(k - 1) + interval;
      assert k as real * interval == (k - 1) as real * interval + interval;
    }
  }

  lemma PollsAreSpaced(w: World, poll: real, polls: nat, timeout: real)
    requires FairClock(w, Interval(poll)) && Polled(w, polls, w.began + timeout)
    ensures Spaced(polls, poll, timeout)
  {
    if polls > 0 {
      ClockGrows(w, Interval(poll), polls - 1);
      assert AsksAt(w, polls - 1, w.began + timeout);
    }
  }

  lemma NotStarted(w: World, job: Job, selected: Option<Manifest>, log: Log, timeout: real, interval: real)
    requires interval > 0.0 && FairClock(w, interval) && log.requests == []
    requires !Guarded(w, job, selected, log, timeout, interval).0.started
    ensures Start !in Performed(w, job, selected, log, timeout, interval).0.requests
  {
    var polls, tail := GuardedRequests(w, job, selected, log, timeout, interval);
    hide Guarded, FairClock;
    var (f, c) := Guarded(w, job, selected, log, timeout, interval);
    RecoveredRequests(w, c, f);
  }

  lemma AnyTrace(w: World, job: Job, selected: Option<Manifest>, log: Log, timeout: real, poll: real)
      returns (polls: nat, cancels: seq<Request>)
    requires FairClock(w, Interval(poll)) && log.requests == [] && log.writes == 0 && log.emits == 0
    ensures var r := Performed(w, job, selected, log, timeout, Interval(poll)).0.requests;
            && (Start in r <==> CanStart(w, job, selected))
            && (Start in r ==>
                  && r == [AskCapabilities, Start] + Statuses(polls) + cancels && Spaced(polls, poll, timeout)
                  && Polled(w, polls, w.began + timeout) && HasCauses(w, polls, w.began + timeout, cancels))
  {
    GuardedStarts(w, job, selected, log, timeout, Interval(poll));
    hide Performed, Guarded, FairClock, Polled, HasCauses, CanStart, Spaced;
    polls, cancels := 0, [];
    if CanStart(w, job, selected) {
      polls, cancels := PerformedTrace(w, job, selected, log, timeout, Interval(poll));
      assert Performed(w, job, selected, log, timeout, Interval(poll)).0.requests[1] == Start;
      PollsAreSpaced(w, poll, polls, timeout);
    } else {
      NotStarted(w, job, selected, log, timeout, Interval(poll));
    }
  }
}
