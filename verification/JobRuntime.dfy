/**
 The job runtime object: `Run` drives one job through the adapter, with its exceptions and its
 clean-up. It is proved to do exactly what the functions of the protocol say.

 Its state file, outbox and adapter process are its fields and its `World`.
 */
module JobRuntimes {
  import opened Jobs
  import opened Rounding
  import opened JobProtocol

  class JobRuntime {
    const w: World
    var job: Job
    var manifest: Option<Manifest>
    var file: Option<Record>
    var events: seq<Record>
    var requests: seq<Request>
    var writes: nat
    var emits: nat
    var lockHeld: bool

    ghost function View(): Log
      reads this
    {
      Log(file, events, requests, writes, emits)
    }

    ghost function Known(): Context
      reads this
    {
      Context(job, manifest)
    }

    constructor (world: World, stored: Option<Record>)
      ensures w == world && View() == Fresh(stored) && manifest == None && !lockHeld
    {
      w := world;
      job := Job("", "", "", []);
      manifest := None;
      file := stored;
      events := [];
      requests := [];
      writes := 0;
      emits := 0;
      lockHeld := false;
    }

    method Transition(state: JobState, detail: Detail) returns (ok: bool)
      modifies `file, `events, `writes, `emits
      ensures (View(), ok) == Transit(w, Known(), old(View()), state, detail)
    {
      var record :=
        Record(job.key, job.id, if manifest.Some? then Some(manifest.value.id) else None, state, detail);
      ok := w.writes(writes);
      writes := writes + 1;
      if !ok { return; }
      file := Some(record);
      ok := w.emits(emits);
      emits := emits + 1;
      if !ok { return; }
      events := events + [record];
    }

    method Ask(r: Request) returns (a: Answer)
      modifies `requests
      ensures a == NextAnswer(w, old(View())) && View() == Asked(old(View()), r)
    {
      a := w.answers(|requests|);
      requests := requests + [r];
    }

    // The two ways of cancelling inside the loop.

    method CancelOnSignal() returns (last: JobState, raised: bool)
      modifies `file, `events, `requests, `writes, `emits
      ensures Flow(View(), last, true, raised) == JobProtocol.CancelOnSignal(w, Known(), old(View()))
    {
      last := Running;
      var ok := Transition(Cancelling, SignalDetail);
      if !ok { return last, true; }
      var a := Ask(Cancel(RuntimeSignal));
      if a.Refused? { return last, true; }
      last := if a.state.Some? then a.state.value else Cancelled;
      if !IsTerminal(last) {
        last := Cancelled;
      }
      ok := Transition(last, AdapterData);
      raised := !ok;
    }

    method CancelOnTimeout() returns (last: JobState, raised: bool)
      modifies `file, `events, `requests, `writes, `emits
      ensures Flow(View(), last, true, raised) == JobProtocol.CancelOnTimeout(w, Known(), old(View()))
    {
      var a := Ask(Cancel(RuntimeTimeout));
      last := TimedOut;
      var ok := Transition(last, TimeoutDetail);
      raised := a.Refused? || !ok;
    }

    method PollLoop(deadline: real, interval: real) returns (last: JobState, raised: bool)
      requires interval > 0.0 && FairClock(w, interval)
      modifies `file, `events, `requests, `writes, `emits
      ensures Flow(View(), last, true, raised) == Poll(w, Known(), old(View()), 0, deadline, interval)
    {
      hide JobProtocol.CancelOnSignal, JobProtocol.CancelOnTimeout, Transit, FairClock, Steps;
      var k := 0;
      last, raised := Running, false;
      while last == Running && !raised
        invariant last == Running && !raised ==>
          Poll(w, Known(), View(), k, deadline, interval) == Poll(w, Known(), old(View()), 0, deadline, interval)
        invariant last != Running || raised ==>
          Flow(View(), last, true, raised) == Poll(w, Known(), old(View()), 0, deadline, interval)
        decreases last == Running && !raised, Steps(deadline - w.clock(k), interval)
      {
        if Signalled(w, 2 * k) {
          last, raised := CancelOnSignal();
          break;
        }
        if w.clock(k) >= deadline {
          last, raised := CancelOnTimeout();
          break;
        }
        TimePasses(w, k, deadline, interval);
        if Signalled(w, 2 * k + 1) {
          k := k + 1;
          continue;
        }
        last, raised := PollStatus();
        k := k + 1;
      }
    }

    // One status request; `Running` and no exception means that the loop goes on.
    method PollStatus() returns (last: JobState, raised: bool)
      modifies `file, `events, `requests, `writes, `emits
      ensures match JobProtocol.AskStatus(w, Known(), old(View()))
              case Done(f) => f == Flow(View(), last, true, raised) && (last != Running || raised)
              case Again(log) => View() == log && last == Running && !raised
    {
      last, raised := Running, true;
      var a := Ask(Status);
      if a.Refused? { return; }
      var state := if a.state.Some? then a.state.value else Running;
      if !IsJobState(state) { return; }
      raised := false;
      if state != last {
        last := state;
        var ok := Transition(last, AdapterData);
        raised := !ok;
      }
    }

    method LaunchJob(timeout: real, interval: real) returns (last: JobState, raised: bool)
      requires interval > 0.0 && FairClock(w, interval)
      modifies `file, `events, `requests, `writes, `emits
      ensures Flow(View(), last, true, raised) == Launch(w, Known(), old(View()), timeout, interval)
    {
      hide Poll, FairClock;
      var a := Ask(Start);
      if a.Refused? { return Starting, true; }
      last := if a.state.Some? then a.state.value else Running;
      if !IsJobState(last) { return last, true; }
      var ok := Transition(last, AdapterData);
      raised := !ok;
      if !raised && !IsTerminal(last) {
        last, raised := PollLoop(w.began + timeout, interval);
      }
    }

    method ShakeHands(timeout: real, interval: real) returns (last: JobState, started: bool, raised: bool)
      requires interval > 0.0 && FairClock(w, interval)
      modifies `file, `events, `requests, `writes, `emits
      ensures Flow(View(), last, started, raised) == Handshake(w, Known(), old(View()), timeout, interval)
    {
      hide Launch, FairClock;
      last, started, raised := Validated, false, true;
      var ok := Transition(last, NoDetail);
      if !ok { return; }
      var a := Ask(AskCapabilities);
      if a.Refused? || a.capabilities.None? { return; }
      if exists r | r in job.required :: r !in a.capabilities.value { return; }
      last := Starting;
      ok := Transition(last, NoDetail);
      if !ok { return; }
      started := true;
      last, raised := LaunchJob(timeout, interval);
    }

    // The body of the `try` statement.
    method Guard(manifests: seq<Manifest>, wanted: string, timeout: real, interval: real)
        returns (last: JobState, started: bool, raised: bool)
      requires interval > 0.0 && FairClock(w, interval) && manifest == None
      modifies this
      ensures job == old(job) && lockHeld == old(lockHeld)
      ensures (Flow(View(), last, started, raised), Known())
           == Guarded(w, job, Selection(manifests, job, wanted), old(View()), timeout, interval)
    {
      hide Handshake, FairClock, Selection;
      last, started, raised := Received, false, true;
      var ok := Transition(last, NoDetail);
      if !ok { return; }
      var selected := SelectAdapter(manifests, job, wanted);
      if selected.None? { return; }
      manifest := selected;
      last, started, raised := ShakeHands(timeout, interval);
      if !w.finalReadable {
        raised := true;
      }
    }

    // The handler of the `try` statement.
    method Recover(last: JobState, started: bool)
      modifies `file, `events, `requests, `writes, `emits
      ensures View() == Recovered(w, Known(), Flow(old(View()), last, started, true))
    {
      if IsTerminal(last) { return; }
      var attempted, succeeded, adapterState := false, false, Failed;
      if started {
        attempted := true;
        var a := Ask(Cancel(RuntimeFailure));
        if a.Reply? {
          succeeded := true;
          adapterState := if a.state.Some? then a.state.value else Cancelled;
        }
      }
      var _ := Transition(Failed, FailureDetail(attempted, succeeded, adapterState));
    }

    /** Runs one job, from its document. */
    method RunJob(raw: RawJob, manifests: seq<Manifest>, wanted: string, timeout: real, poll: real)
        returns (result: Result)
      requires FairClock(w, Interval(poll))
      requires View() == Fresh(file) && manifest == None && !lockHeld
      modifies this
      ensures Outcome(result, View(), lockHeld) == Run(w, old(file), raw, manifests, wanted, timeout, poll)
    {
      hide FairClock, Selection, Guarded, Recovered, Validate;
      var valid := Validate(raw);
      if valid.None? { return Raised; }
      job := valid.value;
      if file.Some? {
        if !w.previousReadable { return Raised; }
        if file.value.key == job.key && IsTerminal(file.value.state) {
          return Returned(file.value);
        }
      }
      if !w.lockFree { return Raised; }
      lockHeld := true;
      var last, started, raised := Guard(manifests, wanted, timeout, Interval(poll));
      if raised {
        Recover(last, started);
      }
      result := if raised || file.None? then Raised else Returned(file.value);
      if requests != [] && !w.closes {
        return Raised;
      }
      lockHeld := false;
    }
  }
}
