/**
 The request/response channel to an adapter process: requests carry fresh identifiers, answers
 arrive in one queue, and a request that times out leaves its answer to be skipped later.
 */
module AdapterChannel {

  /** What the reader thread puts in the queue for one line of the adapter, or at its end. */
  datatype Item<P> =
    | BrokenLine
    | Closed
    | NotAnObject
    | Message(id: nat, protocolOk: bool, ok: bool, payload: P)

  /** How a request ends: with the adapter's answer, or by raising. */
  datatype Outcome<P> = Answered(payload: P) | TimedOut | InvalidJson | Exited | BadResponse | WrongProtocol | Refused

  /** What a request makes of the item that ends it. */
  function Decoded<P>(item: Item<P>): Outcome<P> {
    match item
    case BrokenLine => InvalidJson
    case Closed => Exited
    case NotAnObject => BadResponse
    case Message(_, protocolOk, ok, payload) =>
      if !protocolOk then WrongProtocol else if !ok then Refused else Answered(payload)
  }

  predicate Foreign<P>(item: Item<P>, id: nat) {
    item.Message? && item.id != id
  }

  /**
   A request's loop: it takes items from the queue, skipping answers to other requests, until one
   ends it, the queue stays empty, or the deadline passes after `budget` items.
   */
  function Receive<P>(queue: seq<Item<P>>, id: nat, budget: nat): (Outcome<P>, seq<Item<P>>) {
    if budget == 0 || queue == [] then (TimedOut, queue)
    else if Foreign(queue[0], id) then Receive(queue[1..], id, budget - 1)
    else (Decoded(queue[0]), queue[1..])
  }

  class AdapterProcess<P(0)> {
    var responses: seq<Item<P>>

    constructor ()
      ensures responses == []
    {
      responses := [];
    }

    /** One request, during which `arrivals` reach the queue and time is left for `budget` items. */
    method Request(id: nat, arrivals: seq<Item<P>>, budget: nat) returns (outcome: Outcome<P>)
      modifies this
      ensures (outcome, responses) == Receive(old(responses) + arrivals, id, budget)
    {
      responses := responses + arrivals;
      var left := budget;
      while true
        invariant 0 <= left <= budget
        invariant Receive(responses, id, left) == Receive(old(responses) + arrivals, id, budget)
        decreases left
      {
        if left == 0 { return TimedOut; }
        if responses == [] { return TimedOut; }
        var response := responses[0];
        responses := responses[1..];
        left := left - 1;
        match response
        case BrokenLine => return InvalidJson;
        case Closed => return Exited;
        case NotAnObject => return BadResponse;
        case Message(sender, protocolOk, ok, payload) =>
          if sender != id { continue; }
          if !protocolOk { return WrongProtocol; }
          if !ok { return Refused; }
          return Answered(payload);
      }
    }
  }

  /** Where a request that does not time out ends: at the first item that is not foreign. */
  lemma {:induction false} ReceiveStops<P>(queue: seq<Item<P>>, id: nat, budget: nat, stop: nat)
    requires stop <= |queue| && forall i | 0 <= i < stop :: Foreign(queue[i], id)
    requires stop < |queue| ==> !Foreign(queue[stop], id)
    ensures Receive(queue, id, budget)
         == if budget <= stop then (TimedOut, queue[if budget < |queue| then budget else |queue|..])
            else if stop == |queue| then (TimedOut, [])
            else (Decoded(queue[stop]), queue[stop + 1..])
    decreases queue
  {
    if budget > 0 && queue != [] && Foreign(queue[0], id) {
      ReceiveStops(queue[1..], id, budget - 1, stop - 1);
    }
  }

  /** The item at `stop` is reached in time: all before it are answers to other requests. */
  predicate Reached<P>(queue: seq<Item<P>>, id: nat, budget: nat, stop: nat) {
    && stop < |queue| && stop < budget
    && forall i | 0 <= i < stop :: queue[i].Message? && queue[i].id != id
  }

  /** An item of this kind ends the request. */
  ghost predicate EndsAt<P(!new)>(queue: seq<Item<P>>, id: nat, budget: nat, item: Item<P>) {
    exists stop: nat :: Reached(queue, id, budget, stop) && queue[stop] == item
  }

  lemma {:induction false} FirstOwn<P>(queue: seq<Item<P>>, id: nat) returns (stop: nat)
    ensures stop <= |queue| && forall i | 0 <= i < stop :: Foreign(queue[i], id)
    ensures stop < |queue| ==> !Foreign(queue[stop], id)
  {
    if queue == [] || !Foreign(queue[0], id) {
      stop := 0;
    } else {
      var rest := FirstOwn(queue[1..], id);
      stop := rest + 1;
      assert forall i | 0 < i < stop :: queue[i] == queue[1..][i - 1];
    }
  }

  /**
   How a request ends with any adapter, exactly: each outcome belongs to one kind of item, and the
   first item reached that is not an answer to another request decides.
   */
  lemma {:induction false} RequestEndsExactly<P(!new)>(queue: seq<Item<P>>, id: nat, budget: nat)
    ensures var outcome := Receive(queue, id, budget).0;
            && (outcome == InvalidJson <==> EndsAt(queue, id, budget, BrokenLine))
            && (outcome == Exited <==> EndsAt(queue, id, budget, Closed))
            && (outcome == BadResponse <==> EndsAt(queue, id, budget, NotAnObject))
            && (outcome == WrongProtocol <==> exists ok, p :: EndsAt(queue, id, budget, Message(id, false, ok, p)))
            && (outcome == Refused <==> exists p :: EndsAt(queue, id, budget, Message(id, true, false, p)))
            && (forall p :: outcome == Answered(p) <==> EndsAt(queue, id, budget, Message(id, true, true, p)))
            && (outcome == TimedOut <==>
                  forall stop: nat :: Reached(queue, id, budget, stop) ==> queue[stop].Message? && queue[stop].id != id)
  {
    var stop := FirstOwn(queue, id);
    ReceiveStops(queue, id, budget, stop);
    hide Receive;
    forall item | EndsAt(queue, id, budget, item)
      ensures Foreign(item, id) || (stop < |queue| && stop < budget && queue[stop] == item)
    {
      var at: nat :| Reached(queue, id, budget, at) && queue[at] == item;
      assert at <= stop;
    }
    if stop < |queue| && stop < budget {
      assert Reached(queue, id, budget, stop);
      assert EndsAt(queue, id, budget, queue[stop]);
    }
  }

  // ----- a session with a well-behaved adapter -----

  /** The adapter's answer to request `n`: accepted or refused, with any payload. */
  datatype Reply<P> = Reply(protocolOk: bool, ok: bool, payload: P)

  /**
   A session: request `n` has identifier `n`. By the time it ends the adapter, which answers every
   request once and in order, has answered the first `answered[n]` requests.
   */
  datatype Session<!P> = Session(replies: nat -> Reply<P>, answered: seq<nat>, budgets: seq<nat>)

  ghost predicate WellBehaved<P>(s: Session<P>) {
    && |s.answered| == |s.budgets|
    && (forall n | 0 <= n < |s.answered| :: s.answered[n] <= n + 1)
    && (forall m, n | 0 <= m <= n < |s.answered| :: s.answered[m] <= s.answered[n])
  }

  function AnswerTo<P>(s: Session<P>, n: nat): Item<P> {
    Message(n, s.replies(n).protocolOk, s.replies(n).ok, s.replies(n).payload)
  }

  /** The answers to requests `first` to `end - 1`. */
  function AnswersTo<P>(s: Session<P>, first: nat, end: nat): (items: seq<Item<P>>)
    requires first <= end
    ensures |items| == end - first
    ensures forall i | 0 <= i < |items| :: items[i] == AnswerTo(s, first + i)
    decreases end
  {
    if first == end then [] else AnswersTo(s, first, end - 1) + [AnswerTo(s, end - 1)]
  }

  /** How many answers the adapter has given before request `n`. */
  function AnsweredBefore<P>(s: Session<P>, n: nat): nat
    requires n <= |s.answered|
  {
    if n == 0 then 0 else s.answered[n - 1]
  }

  ghost function Arrivals<P>(s: Session<P>, n: nat): seq<Item<P>>
    requires WellBehaved(s) && n < |s.answered|
  {
    AnswersTo(s, AnsweredBefore(s, n), s.answered[n])
  }

  ghost function QueueBefore<P>(s: Session<P>, n: nat): seq<Item<P>>
    requires WellBehaved(s) && n <= |s.answered|
  {
    if n == 0 then [] else Receive(QueueBefore(s, n - 1) + Arrivals(s, n - 1), n - 1, s.budgets[n - 1]).1
  }

  ghost function OutcomeOf<P>(s: Session<P>, n: nat): Outcome<P>
    requires WellBehaved(s) && n < |s.answered|
  {
    Receive(QueueBefore(s, n) + Arrivals(s, n), n, s.budgets[n]).0
  }

  lemma AnswersJoin<P>(s: Session<P>, a: nat, b: nat, c: nat)
    requires a <= b <= c
    ensures AnswersTo(s, a, b) + AnswersTo(s, b, c) == AnswersTo(s, a, c)
  {
  }

  lemma AnswersBehind<P>(s: Session<P>, a: nat, b: nat, k: nat)
    requires a + k <= b
    ensures AnswersTo(s, a, b)[k..] == AnswersTo(s, a + k, b)
  {
  }

  lemma LateAreForeign<P>(s: Session<P>, a: nat, b: nat, n: nat, late: nat)
    requires a <= b <= n + 1 && late == (if b == n + 1 && a < b then b - a - 1 else b - a)
    ensures forall i | 0 <= i < late :: Foreign(AnswersTo(s, a, b)[i], n)
    ensures late < b - a ==> AnswersTo(s, a, b)[late] == AnswerTo(s, n) && !Foreign(AnswerTo(s, n), n)
  {
  }

  /** What the queue holds before request `n`: the late answers to earlier requests, in order. */
  lemma {:induction false} QueueHoldsLateAnswers<P>(s: Session<P>, n: nat) returns (first: nat)
    requires WellBehaved(s) && n <= |s.answered|
    ensures first <= AnsweredBefore(s, n) <= n
    ensures QueueBefore(s, n) == AnswersTo(s, first, AnsweredBefore(s, n))
    decreases n, 0
  {
    if n == 0 {
      first := 0;
    } else {
      var _, after := RequestEnds(s, n - 1);
      first := after;
    }
  }

  /**
   Request `n` ends at its own answer, if that has arrived and there is time to skip the `late`
   answers before it; otherwise it times out. Nothing newer is ever in the queue.
   */
  lemma {:induction false} RequestEnds<P>(s: Session<P>, n: nat) returns (late: nat, after: nat)
    requires WellBehaved(s) && n < |s.answered|
    ensures late == (if s.answered[n] == n + 1 then |QueueBefore(s, n) + Arrivals(s, n)| - 1
                     else |QueueBefore(s, n) + Arrivals(s, n)|)
    ensures OutcomeOf(s, n)
         == if s.answered[n] == n + 1 && s.budgets[n] > late then Decoded(AnswerTo(s, n)) else TimedOut
    ensures after <= s.answered[n]
    ensures QueueBefore(s, n + 1) == AnswersTo(s, after, s.answered[n])
    decreases n, 1
  {
    var first := QueueHoldsLateAnswers(s, n);
    AnswersJoin(s, first, AnsweredBefore(s, n), s.answered[n]);
    var queue := AnswersTo(s, first, s.answered[n]);
    assert queue == QueueBefore(s, n) + Arrivals(s, n);
    late := if s.answered[n] == n + 1 then |queue| - 1 else |queue|;
    LateAreForeign(s, first, s.answered[n], n, late);
    hide Receive, Foreign, AnswersTo, Arrivals;
    ReceiveStops(queue, n, s.budgets[n], late);
    var taken := if s.budgets[n] <= late then (if s.budgets[n] < |queue| then s.budgets[n] else |queue|)
                 else if late == |queue| then |queue| else late + 1;
    after := first + taken;
    AnswersBehind(s, first, s.answered[n], taken);
  }

  lemma DecodedAnswer<P>(s: Session<P>, n: nat)
    ensures Decoded(AnswerTo(s, n)) != TimedOut
    ensures Decoded(AnswerTo(s, n)).Answered? ==>
              s.replies(n).ok && s.replies(n).protocolOk && Decoded(AnswerTo(s, n)).payload == s.replies(n).payload
  {
  }

  /**
   Response correlation: whatever the timeouts, a request that returns returns its own answer; it
   returns or raises with that answer just when the answer came and could be reached in time, and
   times out otherwise.
   */
  lemma ResponseCorrelation<P>(s: Session<P>, n: nat)
    requires WellBehaved(s) && n < |s.answered|
    ensures OutcomeOf(s, n) == Decoded(AnswerTo(s, n)) || OutcomeOf(s, n) == TimedOut
    ensures OutcomeOf(s, n) == TimedOut <==>
              s.answered[n] <= n || s.budgets[n] < |QueueBefore(s, n) + Arrivals(s, n)|
    ensures OutcomeOf(s, n).Answered? ==>
              s.replies(n).ok && s.replies(n).protocolOk && OutcomeOf(s, n).payload == s.replies(n).payload
  {
    assert s.answered[n] <= n + 1;
    DecodedAnswer(s, n);
    hide Receive, AnswersTo, QueueBefore, Arrivals, WellBehaved, OutcomeOf, Decoded, AnswerTo;
    var late, _ := RequestEnds(s, n);
  }
}
