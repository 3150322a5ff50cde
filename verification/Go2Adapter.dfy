/**
 The Go2 adapter: it serves one request line after the other, keeps at most one current job, and
 talks to the local bridge. Every bridge answer is an arbitrary input; a call that raises has had
 no effect on the robot.
 */
module Go2Adapters {
  import opened Jobs

  // ----- requests -----

  datatype JobType = Delivery | Inspection | Patrol | Stop | Unsupported

  /** A job parameter as the document gives it. */
  datatype Parameter = Absent | Number(value: real) | NotANumber | NotFinite

  datatype Request =
    | Malformed
    | WrongProtocol
    | CapabilitiesGet
    | TelemetryGet
    | IncidentsGet
    | JobStart(id: Option<string>, jobType: JobType, required: set<string>, distance: Parameter, turn: Parameter)
    | JobStatus(jobId: Option<string>)
    | JobCancel(jobId: Option<string>)
    | UnknownType

  const CAPABILITIES: set<string> := {
    "incident.status", "job.cancel", "motion.linear", "navigation.obstacle-avoidance", "patrol",
    "status.robot", "telemetry.basic"
  }

  // ----- the bridge -----

  datatype BridgeState =
    | ActionRunning
    | RunningNow
    | StartingNow
    | ErrorNow
    | FailedNow
    | ActionDone
    | DoneNow
    | SucceededNow
    | Idle
    | OtherState

  datatype BridgeReply = Raises | Replies(status: Option<BridgeState>, state: Option<BridgeState>)

  datatype JobState = Running | Succeeded | Failed | Cancelled

  function MapBridgeState(r: BridgeReply): JobState
    requires r.Replies?
  {
    match if r.status.Some? then r.status else r.state
    case None => Running
    case Some(raw) =>
      match raw
      case ActionRunning => Running
      case RunningNow => Running
      case StartingNow => Running
      case ErrorNow => Failed
      case FailedNow => Failed
      case ActionDone => Succeeded
      case DoneNow => Succeeded
      case SucceededNow => Succeeded
      case Idle => Succeeded
      case OtherState => Running
  }

  datatype Action = NavigateForward(meters: real) | PatrolInspection(meters: real, seconds: real)

  /** What the adapter sends to the bridge, and how it is answered. */
  datatype Contact =
    | Action(action: Action, accepted: bool)
    | CancelPost(accepted: bool)
    | JobStatusRead(reply: BridgeReply)
    | DiagnosticRead

  // ----- handling a request -----

  datatype CurrentJob = CurrentJob(id: string, jobType: JobType, state: JobState)

  /** The response to a request: its `ok` field, and the job state it reports, if any. */
  datatype Response = Response(ok: bool, state: Option<JobState>)

  const REFUSAL := Response(false, None)

  datatype Handled = Handled(current: Option<CurrentJob>, contacts: seq<Contact>, response: Response)

  function Bounded(p: Parameter, default: real, minimum: real, maximum: real): Option<real> {
    match p
    case NotANumber => None
    case NotFinite => None
    case Absent => Some(Nearest(default, minimum, maximum))
    case Number(value) => Some(Nearest(value, minimum, maximum))
  }

  function Nearest(value: real, minimum: real, maximum: real): real {
    var low := if value < maximum then value else maximum;
    if low < minimum then minimum else low
  }

  predicate IsRunning(current: Option<CurrentJob>) {
    current.Some? && current.value.state.Running?
  }

  predicate IsCurrent(current: Option<CurrentJob>, jobId: Option<string>) {
    current.Some? && jobId == Some(current.value.id)
  }

  /** The action a moving job asks for; none when a parameter is not a finite number. */
  function ActionFor(r: Request): Option<Action>
    requires r.JobStart?
  {
    if r.jobType.Delivery? then
      var meters := Bounded(r.distance, 1.0, 0.1, 60.0);
      if meters.None? then None else Some(NavigateForward(meters.value))
    else
      var meters, seconds := Bounded(r.distance, 10.0, 0.5, 20.0), Bounded(r.turn, 9.0, 1.0, 12.0);
      if meters.None? || seconds.None? then None else Some(PatrolInspection(meters.value, seconds.value))
  }

  function HandleStart(current: Option<CurrentJob>, r: Request, reply: BridgeReply): Handled
    requires r.JobStart?
  {
    if r.id.None? || r.jobType.Unsupported? then Handled(current, [], REFUSAL)
    else if !(r.required <= CAPABILITIES) then Handled(current, [], REFUSAL)
    else if !r.jobType.Stop? && IsRunning(current) then Handled(current, [], REFUSAL)
    else if r.jobType.Stop? then
      if reply.Raises? then Handled(current, [CancelPost(false)], REFUSAL)
      else Handled(Some(CurrentJob(r.id.value, Stop, Succeeded)), [CancelPost(true)], Response(true, Some(Succeeded)))
    else
      match ActionFor(r)
      case None => Handled(current, [], REFUSAL)
      case Some(action) =>
        if reply.Raises? then Handled(current, [Contact.Action(action, false)], REFUSAL)
        else Handled(Some(CurrentJob(r.id.value, r.jobType, Running)), [Contact.Action(action, true)],
                     Response(true, Some(Running)))
  }

  function HandleStatus(current: Option<CurrentJob>, jobId: Option<string>, reply: BridgeReply): Handled {
    if !IsCurrent(current, jobId) then Handled(current, [], REFUSAL)
    else if !IsRunning(current) then Handled(current, [], Response(true, Some(current.value.state)))
    else if reply.Raises? then Handled(current, [JobStatusRead(reply)], REFUSAL)
    else
      var state := MapBridgeState(reply);
      Handled(Some(current.value.(state := state)), [JobStatusRead(reply)], Response(true, Some(state)))
  }

  function HandleCancel(current: Option<CurrentJob>, jobId: Option<string>, reply: BridgeReply): Handled {
    if !IsCurrent(current, jobId) then Handled(current, [], REFUSAL)
    else if reply.Raises? then Handled(current, [CancelPost(false)], REFUSAL)
    else Handled(Some(current.value.(state := Cancelled)), [CancelPost(true)], Response(true, Some(Cancelled)))
  }

  function Handle(current: Option<CurrentJob>, r: Request, reply: BridgeReply): Handled {
    match r
    case Malformed => Handled(current, [], REFUSAL)
    case WrongProtocol => Handled(current, [], REFUSAL)
    case CapabilitiesGet => Handled(current, [], Response(true, None))
    case TelemetryGet => Handled(current, [DiagnosticRead], Response(reply.Replies?, None))
    case IncidentsGet => Handled(current, [DiagnosticRead], Response(reply.Replies?, None))
    case JobStart(_, _, _, _, _) => HandleStart(current, r, reply)
    case JobStatus(jobId) => HandleStatus(current, jobId, reply)
    case JobCancel(jobId) => HandleCancel(current, jobId, reply)
    case UnknownType => Handled(current, [], REFUSAL)
  }

  /** At the end of the input: a running job is cancelled; a failure of that is only logged. */
  function Shutdown(current: Option<CurrentJob>, reply: BridgeReply): (Option<CurrentJob>, seq<Contact>) {
    if !IsRunning(current) then (current, [])
    else if reply.Raises? then (current, [CancelPost(false)])
    else (Some(current.value.(state := Cancelled)), [CancelPost(true)])
  }

  // ----- the adapter object -----

  /** One request line, and how the bridge answers if it is asked. */
  datatype Line = Line(request: Request, reply: BridgeReply)

  class Go2Adapter {
    var currentJob: Option<CurrentJob>
    ghost var contacts: seq<Contact>

    constructor ()
      ensures currentJob == None && contacts == []
    {
      currentJob := None;
      contacts := [];
    }

    method Contacted(c: Contact)
      modifies `contacts
      ensures contacts == old(contacts) + [c]
    {
      contacts := contacts + [c];
    }

    method HandleRequest(r: Request, reply: BridgeReply) returns (response: Response)
      modifies this
      ensures var h := Handle(old(currentJob), r, reply);
              currentJob == h.current && contacts == old(contacts) + h.contacts && response == h.response
    {
      match r {
        case JobStart(id, jobType, required, distance, turn) =>
          response := StartJob(r, reply);
        case JobStatus(jobId) =>
          if currentJob.None? || jobId != Some(currentJob.value.id) { return REFUSAL; }
          if currentJob.value.state.Running? {
            Contacted(JobStatusRead(reply));
            if reply.Raises? { return REFUSAL; }
            currentJob := Some(currentJob.value.(state := MapBridgeState(reply)));
          }
          response := Response(true, Some(currentJob.value.state));
        case JobCancel(jobId) =>
          if currentJob.None? || jobId != Some(currentJob.value.id) { return REFUSAL; }
          Contacted(CancelPost(reply.Replies?));
          if reply.Raises? { return REFUSAL; }
          currentJob := Some(currentJob.value.(state := Cancelled));
          response := Response(true, Some(Cancelled));
        case CapabilitiesGet =>
          response := Response(true, None);
        case TelemetryGet =>
          Contacted(DiagnosticRead);
          response := Response(reply.Replies?, None);
        case IncidentsGet =>
          Contacted(DiagnosticRead);
          response := Response(reply.Replies?, None);
        case _ =>
          response := REFUSAL;
      }
    }

    method StartJob(r: Request, reply: BridgeReply) returns (response: Response)
      requires r.JobStart?
      modifies this
      ensures var h := HandleStart(old(currentJob), r, reply);
              currentJob == h.current && contacts == old(contacts) + h.contacts && response == h.response
    {
      response := REFUSAL;
      if r.id.None? || r.jobType.Unsupported? { return; }
      if !(r.required <= CAPABILITIES) { return; }
      if !r.jobType.Stop? && currentJob.Some? && currentJob.value.state.Running? { return; }
      var state := Running;
      if r.jobType.Stop? {
        Contacted(CancelPost(reply.Replies?));
        state := Succeeded;
      } else {
        var action := ActionFor(r);
        if action.None? { return; }
        Contacted(Contact.Action(action.value, reply.Replies?));
      }
      if reply.Raises? { return; }
      currentJob := Some(CurrentJob(r.id.value, r.jobType, state));
      response := Response(true, Some(state));
    }

    method StopActiveJob(reply: BridgeReply)
      modifies this
      ensures currentJob == Shutdown(old(currentJob), reply).0
      ensures contacts == old(contacts) + Shutdown(old(currentJob), reply).1
    {
      if currentJob.None? || !currentJob.value.state.Running? { return; }
      Contacted(CancelPost(reply.Replies?));
      if reply.Raises? { return; }
      currentJob := Some(currentJob.value.(state := Cancelled));
    }

    /** Serves every line until the input ends, then stops an active job; one response for each line. */
    method Serve(lines: seq<Line>, atEnd: BridgeReply) returns (responses: seq<Response>)
      requires currentJob == None && contacts == []
      modifies this
      ensures |responses| == |lines|
      ensures forall i | 0 <= i < |lines| ::
                responses[i] == Handle(JobAt(lines, i), lines[i].request, lines[i].reply).response
      ensures contacts == Session(lines, atEnd)
    {
      responses := [];
      for i := 0 to |lines|
        invariant |responses| == i && currentJob == JobAt(lines, i) && contacts == TraceAt(lines, i)
        invariant forall j | 0 <= j < i ::
          responses[j] == Handle(JobAt(lines, j), lines[j].request, lines[j].reply).response
      {
        hide Handle;
        var response := HandleRequest(lines[i].request, lines[i].reply);
        responses := responses + [response];
      }
      StopActiveJob(atEnd);
    }
  }

  // ----- sessions -----

  /** The current job after the first `n` lines. */
  function JobAt(lines: seq<Line>, n: nat): Option<CurrentJob>
    requires n <= |lines|
  {
    if n == 0 then None else Handle(JobAt(lines, n - 1), lines[n - 1].request, lines[n - 1].reply).current
  }

  /** Every bridge contact of the first `n` lines. */
  function TraceAt(lines: seq<Line>, n: nat): seq<Contact>
    requires n <= |lines|
  {
    if n == 0 then []
    else TraceAt(lines, n - 1) + Handle(JobAt(lines, n - 1), lines[n - 1].request, lines[n - 1].reply).contacts
  }

  /** Every bridge contact of a whole session, its end included. */
  function Session(lines: seq<Line>, atEnd: BridgeReply): seq<Contact> {
    TraceAt(lines, |lines|) + Shutdown(JobAt(lines, |lines|), atEnd).1
  }

  predicate Moves(c: Contact) {
    c.Action? && c.accepted
  }

  /** What the bridge says in its answer: its status, or without one its state. */
  function Told(r: BridgeReply): Option<BridgeState> {
    match r
    case Raises => None
    case Replies(Some(status), _) => Some(status)
    case Replies(None, state) => state
  }

  predicate SaysFailed(r: BridgeReply) {
    Told(r) == Some(ErrorNow) || Told(r) == Some(FailedNow)
  }

  predicate SaysDone(r: BridgeReply) {
    Told(r) == Some(ActionDone) || Told(r) == Some(DoneNow) || Told(r) == Some(SucceededNow) || Told(r) == Some(Idle)
  }

  /** The bridge has answered that it has failed, is done or is idle, or has accepted a cancel. */
  predicate Releases(c: Contact) {
    match c
    case JobStatusRead(reply) => SaysFailed(reply) || SaysDone(reply)
    case CancelPost(accepted) => accepted
    case _ => false
  }

  /** Since the last accepted action, nothing has released the robot. */
  predicate Busy(trace: seq<Contact>) {
    trace != [] &&
    var last := trace[|trace| - 1];
    Moves(last) || (!Releases(last) && Busy(trace[..|trace| - 1]))
  }

  /** Between any two accepted actions the robot has been released. */
  ghost predicate Serialized(trace: seq<Contact>) {
    forall i, j | 0 <= i < j < |trace| && Moves(trace[i]) && Moves(trace[j]) :: ReleasedBetween(trace, i, j)
  }

  predicate ReleasedBetween(trace: seq<Contact>, i: nat, j: nat)
    requires j <= |trace|
  {
    exists k | i < k < j :: Releases(trace[k])
  }

  predicate InBounds(c: Contact) {
    c.Action? ==>
      match c.action
      case NavigateForward(meters) => 0.1 <= meters <= 60.0
      case PatrolInspection(meters, seconds) => 0.5 <= meters <= 20.0 && 1.0 <= seconds <= 12.0
  }

  lemma {:induction false} IdleMeansReleased(trace: seq<Contact>, i: nat)
    requires i < |trace| && Moves(trace[i]) && !Busy(trace)
    ensures ReleasedBetween(trace, i, |trace|)
  {
    var n := |trace|;
    if Releases(trace[n - 1]) {
      assert i < n - 1 && Releases(trace[n - 1]);
    } else {
      IdleMeansReleased(trace[..n - 1], i);
      var k :| i < k < n - 1 && Releases(trace[..n - 1][k]);
      assert Releases(trace[k]);
    }
  }

  lemma OneMoreContact(trace: seq<Contact>, c: Contact)
    requires Serialized(trace) && (Moves(c) ==> !Busy(trace))
    ensures Serialized(trace + [c])
    ensures Busy(trace + [c]) <==> Moves(c) || (!Releases(c) && Busy(trace))
  {
    var longer := trace + [c];
    assert longer[..|trace|] == trace;
    forall i, j | 0 <= i < j < |longer| && Moves(longer[i]) && Moves(longer[j])
      ensures ReleasedBetween(longer, i, j)
    {
      if j < |trace| {
        assert ReleasedBetween(trace, i, j);
        var k :| i < k < j && Releases(trace[k]);
        assert Releases(longer[k]);
      } else {
        IdleMeansReleased(trace, i);
        var k :| i < k < |trace| && Releases(trace[k]);
        assert Releases(longer[k]);
      }
    }
  }

  /** The robot can be busy only while the adapter has a running job. */
  ghost predicate Disciplined(current: Option<CurrentJob>, trace: seq<Contact>) {
    && Serialized(trace)
    && (Busy(trace) ==> IsRunning(current))
    && forall c | c in trace :: InBounds(c)
  }

  lemma HandleContacts(current: Option<CurrentJob>, r: Request, reply: BridgeReply)
    ensures var h := Handle(current, r, reply);
            && |h.contacts| <= 1
            && (h.contacts == [] ==> h.current == current)
            && (|h.contacts| == 1 ==>
                  var c := h.contacts[0];
                  && InBounds(c)
                  && (Moves(c) ==> !IsRunning(current) && IsRunning(h.current))
                  && (!Moves(c) && !Releases(c) ==> IsRunning(h.current) == IsRunning(current)))
  {
  }

  lemma HandleKeepsDiscipline(current: Option<CurrentJob>, trace: seq<Contact>, r: Request, reply: BridgeReply)
    requires Disciplined(current, trace)
    ensures Disciplined(Handle(current, r, reply).current, trace + Handle(current, r, reply).contacts)
  {
    HandleContacts(current, r, reply);
    hide Handle, Busy, Serialized, InBounds, Moves, Releases;
    var h := Handle(current, r, reply);
    if h.contacts == [] {
      assert trace + h.contacts == trace;
    } else {
      assert h.contacts == [h.contacts[0]];
      OneMoreContact(trace, h.contacts[0]);
    }
  }

  lemma {:induction false} AlwaysDisciplined(lines: seq<Line>, n: nat)
    requires n <= |lines|
    ensures Disciplined(JobAt(lines, n), TraceAt(lines, n))
  {
    hide Handle;
    if n > 0 {
      AlwaysDisciplined(lines, n - 1);
      HandleKeepsDiscipline(JobAt(lines, n - 1), TraceAt(lines, n - 1), lines[n - 1].request, lines[n - 1].reply);
    }
  }

  /**
   Trace discipline. Over every session, whatever the requests and the bridge: between two accepted
   actions the bridge itself has said that it failed, is done or is idle, or accepted a cancel; every
   action carries parameters in its bounds; and after the last accepted action there is such a
   release or, at the latest when the input ends, an attempt to cancel.
   */
  lemma SessionIsDisciplined(lines: seq<Line>, atEnd: BridgeReply)
    ensures var trace := Session(lines, atEnd);
            && Serialized(trace)
            && (forall c | c in trace :: InBounds(c))
            && trace == TraceAt(lines, |lines|)
                        + (if IsRunning(JobAt(lines, |lines|)) then [CancelPost(atEnd.Replies?)] else [])
            && (forall i | 0 <= i < |trace| && Moves(trace[i]) ::
                  exists k | i < k < |trace| :: Releases(trace[k]) || trace[k].CancelPost?)
  {
    AlwaysDisciplined(lines, |lines|);
    hide Handle;
    var current, before := JobAt(lines, |lines|), TraceAt(lines, |lines|);
    var trace, last := Session(lines, atEnd), Shutdown(current, atEnd).1;
    if last == [] {
      assert trace == before;
    } else {
      OneMoreContact(before, last[0]);
      assert trace == before + [last[0]];
    }
    forall i | 0 <= i < |trace| && Moves(trace[i])
      ensures exists k | i < k < |trace| :: Releases(trace[k]) || trace[k].CancelPost?
    {
      if last == [] {
        IdleMeansReleased(trace, i);
        var k :| i < k < |trace| && Releases(trace[k]);
      } else {
        assert trace[|before|].CancelPost?;
      }
    }
  }

  function Distance(a: real, b: real): real {
    if a < b then b - a else a - b
  }

  /** A bounded parameter is the point of its range nearest to the value given, or to the default. */
  lemma BoundedIsNearest(p: Parameter, default: real, minimum: real, maximum: real, x: real)
    requires minimum <= x <= maximum
    ensures Bounded(p, default, minimum, maximum).None? <==> p.NotANumber? || p.NotFinite?
    ensures var r, wanted := Bounded(p, default, minimum, maximum), if p.Number? then p.value else default;
            r.Some? ==> minimum <= r.value <= maximum && Distance(r.value, wanted) <= Distance(x, wanted)
  {
  }

  /** `x` is the parameter's value, or the default without one, brought into the range. */
  predicate Brings(p: Parameter, default: real, minimum: real, maximum: real, x: real) {
    var wanted := if p.Number? then p.value else default;
    && (p.Number? || p.Absent?)
    && (minimum <= wanted <= maximum ==> x == wanted)
    && (wanted < minimum ==> x == minimum) && (wanted > maximum ==> x == maximum)
  }

  /** The action is what this start request asks for. */
  predicate AsksFor(r: Request, a: Action) {
    r.JobStart? &&
    match a
    case NavigateForward(meters) => r.jobType.Delivery? && Brings(r.distance, 1.0, 0.1, 60.0, meters)
    case PatrolInspection(meters, seconds) =>
      && (r.jobType.Inspection? || r.jobType.Patrol?)
      && Brings(r.distance, 10.0, 0.5, 20.0, meters) && Brings(r.turn, 9.0, 1.0, 12.0, seconds)
  }

  predicate Finite(p: Parameter) {
    p.Absent? || p.Number?
  }

  /** The start request is one the adapter can ask the bridge for. */
  predicate Startable(current: Option<CurrentJob>, r: Request) {
    && r.JobStart? && r.id.Some? && !r.jobType.Unsupported?
    && r.required <= {"incident.status", "job.cancel", "motion.linear", "navigation.obstacle-avoidance", "patrol",
                      "status.robot", "telemetry.basic"}
    && (r.jobType.Stop? || !(current.Some? && current.value.state == Running))
    && (r.jobType.Delivery? ==> Finite(r.distance))
    && (r.jobType.Inspection? || r.jobType.Patrol? ==> Finite(r.distance) && Finite(r.turn))
  }

  /**
   A start, exactly: one that can be asked for makes one call, the action with its parameters or for a
   stop job a cancel, and becomes the current job if the bridge answers; any other does nothing.
   */
  lemma StartExactly(current: Option<CurrentJob>, r: Request, reply: BridgeReply)
    requires r.JobStart?
    ensures var h := Handle(current, r, reply);
            && (h.response.ok <==> Startable(current, r) && reply.Replies?)
            && (!h.response.ok ==> h.current == current)
            && (h.response.ok ==>
                  h.response.state == Some(if r.jobType.Stop? then Succeeded else Running)
                  && h.current == Some(CurrentJob(r.id.value, r.jobType, h.response.state.value)))
            && (if !Startable(current, r) then h.contacts == []
                else && |h.contacts| == 1
                     && (if r.jobType.Stop? then h.contacts[0] == CancelPost(reply.Replies?)
                         else h.contacts[0].Action? && AsksFor(r, h.contacts[0].action)
                              && (h.contacts[0].accepted <==> reply.Replies?)))
  {
  }

  /**
   A status request, exactly: for the current job, the bridge is asked only while the job is running,
   and what it says is what the adapter answers and remembers.
   */
  lemma StatusExactly(current: Option<CurrentJob>, id: Option<string>, reply: BridgeReply)
    ensures var h := Handle(current, JobStatus(id), reply);
            if current.None? || id != Some(current.value.id) then h == Handled(current, [], Response(false, None))
            else if current.value.state != Running then
              h == Handled(current, [], Response(true, Some(current.value.state)))
            else
              && h.contacts == [JobStatusRead(reply)]
              && (reply.Raises? ==> h.current == current && h.response == Response(false, None))
              && (reply.Replies? ==>
                    var state := if SaysFailed(reply) then Failed else if SaysDone(reply) then Succeeded else Running;
                    h.response == Response(true, Some(state))
                    && h.current == Some(CurrentJob(current.value.id, current.value.jobType, state)))
  {
  }

  /** A cancel request, exactly: for the current job, whatever its state, one call; accepted, it is cancelled. */
  lemma CancelExactly(current: Option<CurrentJob>, id: Option<string>, reply: BridgeReply)
    ensures var h := Handle(current, JobCancel(id), reply);
            if current.None? || id != Some(current.value.id) then h == Handled(current, [], Response(false, None))
            else && h.contacts == [CancelPost(reply.Replies?)]
                 && (if reply.Raises? then h.current == current && h.response == Response(false, None)
                     else && h.response == Response(true, Some(Cancelled))
                          && h.current == Some(CurrentJob(current.value.id, current.value.jobType, Cancelled)))
  {
  }

  /** At the end of the input, exactly: a running job is cancelled with one call, and any other left alone. */
  lemma ShutdownExactly(current: Option<CurrentJob>, reply: BridgeReply)
    ensures var (after, contacts) := Shutdown(current, reply);
            if current.Some? && current.value.state == Running
            then && contacts == [CancelPost(reply.Replies?)]
                 && after.Some? && after.value.id == current.value.id && after.value.jobType == current.value.jobType
                 && after.value.state == (if reply.Replies? then Cancelled else Running)
            else contacts == [] && after == current
  {
  }

  /** Every action of a session is what one of its start requests asks for. */
  lemma {:induction false} ActionsAreAskedFor(lines: seq<Line>, n: nat, k: nat) returns (i: nat)
    requires n <= |lines| && k < |TraceAt(lines, n)| && TraceAt(lines, n)[k].Action?
    ensures i < n && AsksFor(lines[i].request, TraceAt(lines, n)[k].action)
    ensures TraceAt(lines, n)[k].accepted <==> lines[i].reply.Replies?
  {
    hide Handle, AsksFor;
    if k < |TraceAt(lines, n - 1)| {
      i := ActionsAreAskedFor(lines, n - 1, k);
    } else {
      i := n - 1;
      ReadOnlyRequests(JobAt(lines, i), lines[i].request, lines[i].reply);
      HandleContacts(JobAt(lines, i), lines[i].request, lines[i].reply);
      assert TraceAt(lines, n)[k] in Handle(JobAt(lines, i), lines[i].request, lines[i].reply).contacts;
      StartExactly(JobAt(lines, i), lines[i].request, lines[i].reply);
    }
  }

  /** Nothing but a start, status or cancel request touches the job, and only a start or cancel posts. */
  lemma ReadOnlyRequests(current: Option<CurrentJob>, r: Request, reply: BridgeReply)
    ensures var h := Handle(current, r, reply);
            && (h.current != current ==> r.JobStart? || r.JobStatus? || r.JobCancel?)
            && (forall c | c in h.contacts && (c.Action? || c.CancelPost?) :: r.JobStart? || r.JobCancel?)
            && (forall c | c in h.contacts && c.Action? :: r.JobStart? && !r.jobType.Stop?
                  && r.required <= CAPABILITIES && !IsRunning(current))
            && (r.Malformed? || r.WrongProtocol? || r.UnknownType? ==> !h.response.ok && h.contacts == [])
            && (r.CapabilitiesGet? ==> h.response.ok && h.contacts == [])
            && (r.TelemetryGet? || r.IncidentsGet? ==>
                  h.contacts == [DiagnosticRead] && (h.response.ok <==> reply.Replies?))
  {
  }
}
