/**
 The event outbox: a file of events, each delivered when it is emitted or retried by a flush.
 Identifiers of new events are fresh. How a delivery, an append and the rewriting of the file turn
 out are arbitrary inputs, every time.
 */
module EventOutboxes {

  datatype Event = Event(id: nat, delivered: bool)

  /** A line of the file, as a flush reads it: one that cannot even be decoded makes the whole file unreadable. */
  datatype Line = Blank | Malformed | Undecodable | Entry(event: Event)

  /** An attempt to deliver an event to the endpoint, and whether it was seen to be accepted. */
  datatype Post = Post(id: nat, accepted: bool)

  /** How a delivery turns out: accepted, not accepted, or with an exception that is not handled. */
  datatype Delivery = Accepts | Refuses | Breaks

  /**
   How appending a record turns out: written; written, but cut up on reading, because a text in it
   holds a line separator that JSON leaves as it is; raised with part of the record written; raised
   with nothing written.
   */
  datatype Append = Whole | CutUp | Torn(rest: Rest) | Nothing

  /** Where a record is torn: before the end of its line, inside it, or inside one of its characters. */
  datatype Rest = NoLineEnd | Fragment | HalfCharacter

  /** The file and whether its last line has no end yet, every delivery attempt so far, and the next identifier. */
  datatype Box = Box(lines: seq<Line>, unended: bool, posts: seq<Post>, next: nat)

  const EMPTY := Box([], false, [], 0)

  /** A record that is appended to a line without an end makes one unreadable line with it. */
  function Joined(lines: seq<Line>, unended: bool, line: Line): seq<Line> {
    if unended && lines != [] then lines[..|lines| - 1] + [Glued(lines[|lines| - 1], line)] else lines + [line]
  }

  function Glued(a: Line, b: Line): Line {
    if a.Undecodable? || b.Undecodable? then Undecodable else Malformed
  }

  function TornLine(e: Event, rest: Rest): Line {
    match rest
    case NoLineEnd => Entry(e)
    case Fragment => Malformed
    case HalfCharacter => Undecodable
  }

  function Posted(endpoint: bool, b: Box, delivery: Delivery): Box {
    b.(posts := if endpoint then b.posts + [Post(b.next, delivery.Accepts?)] else b.posts, next := b.next + 1)
  }

  function Appended(b: Box, e: Event, append: Append): Box {
    match append
    case Whole => b.(lines := Joined(b.lines, b.unended, Entry(e)), unended := false)
    case CutUp => b.(lines := Joined(b.lines, b.unended, Malformed), unended := false)
    case Torn(rest) => b.(lines := Joined(b.lines, b.unended, TornLine(e, rest)), unended := true)
    case Nothing => b
  }

  /** Delivers the event first, if there is an endpoint, and then appends it to the file. */
  function Emitted(endpoint: bool, b: Box, delivery: Delivery, append: Append): Box {
    var posted := Posted(endpoint, b, delivery);
    if endpoint && delivery.Breaks? then posted
    else Appended(posted, Event(b.next, endpoint && delivery.Accepts?), append)
  }

  /** The first `n` lines of a flush: the events read and retried, if none stopped it, and the attempts. */
  function FlushedTo(lines: seq<Line>, deliver: nat -> Delivery, n: nat): (r: (bool, seq<Event>, seq<Post>))
    requires n <= |lines|
  {
    if n == 0 then (true, [], [])
    else
      var (ok, events, posts) := FlushedTo(lines, deliver, n - 1);
      if !ok then (false, events, posts) else
      match lines[n - 1]
      case Blank => (true, events, posts)
      case Malformed => (false, events, posts)
      case Undecodable => (false, events, posts)
      case Entry(e) =>
        if e.delivered then (true, events + [e], posts)
        else if deliver(n - 1).Breaks? then (false, events, posts + [Post(e.id, false)])
        else
          var accepted := deliver(n - 1).Accepts?;
          (true, events + [e.(delivered := accepted)], posts + [Post(e.id, accepted)])
  }

  function Entries(events: seq<Event>): (lines: seq<Line>)
    ensures |lines| == |events| && forall i | 0 <= i < |lines| :: lines[i] == Entry(events[i])
  {
    if events == [] then [] else Entries(events[..|events| - 1]) + [Entry(events[|events| - 1])]
  }

  predicate Decodable(lines: seq<Line>) {
    forall i | 0 <= i < |lines| :: !lines[i].Undecodable?
  }

  /** The attempts of a whole flush: none when the file cannot be decoded. */
  function Attempts(lines: seq<Line>, deliver: nat -> Delivery): seq<Post> {
    if Decodable(lines) then FlushedTo(lines, deliver, |lines|).2 else []
  }

  predicate Completes(lines: seq<Line>, deliver: nat -> Delivery, rewrites: bool) {
    FlushedTo(lines, deliver, |lines|).0 && rewrites
  }

  /** The attempts come first; the file is rewritten after the last of them, if at all. */
  function Flushed(b: Box, deliver: nat -> Delivery, rewrites: bool): Box {
    var tried := b.(posts := b.posts + Attempts(b.lines, deliver));
    if Completes(b.lines, deliver, rewrites)
    then tried.(lines := Entries(FlushedTo(b.lines, deliver, |b.lines|).1), unended := false)
    else tried
  }

  function Delivered(events: seq<Event>): nat {
    if events == [] then 0
    else Delivered(events[..|events| - 1]) + (if events[|events| - 1].delivered then 1 else 0)
  }

  datatype Report = Failure | Counts(total: nat, delivered: nat, pending: int)

  class EventOutbox {
    const endpoint: bool
    var lines: seq<Line>
    var unended: bool
    var next: nat
    ghost var posts: seq<Post>

    ghost function View(): Box
      reads this
    {
      Box(lines, unended, posts, next)
    }

    constructor (hasEndpoint: bool)
      ensures endpoint == hasEndpoint && View() == EMPTY
    {
      endpoint := hasEndpoint;
      lines := [];
      unended := false;
      next := 0;
      posts := [];
    }

    method Deliver(id: nat, delivery: Delivery) returns (delivered: bool, raised: bool)
      modifies `posts
      ensures delivered == delivery.Accepts? && raised == delivery.Breaks?
      ensures posts == old(posts) + [Post(id, delivered)]
    {
      delivered, raised := delivery.Accepts?, delivery.Breaks?;
      posts := posts + [Post(id, delivered)];
    }

    method AppendRecord(record: Event, append: Append) returns (ok: bool)
      modifies `lines, `unended
      ensures View() == Appended(old(View()), record, append) && ok == (append.Whole? || append.CutUp?)
    {
      ok := append.Whole? || append.CutUp?;
      if append.Nothing? { return; }
      var line := if append.Whole? then Entry(record)
                  else if append.CutUp? then Malformed
                  else TornLine(record, append.rest);
      if unended && lines != [] {
        lines := lines[..|lines| - 1] + [Glued(lines[|lines| - 1], line)];
      } else {
        lines := lines + [line];
      }
      unended := append.Torn?;
    }

    method Emit(delivery: Delivery, append: Append) returns (ok: bool)
      modifies this
      ensures View() == Emitted(endpoint, old(View()), delivery, append)
      ensures ok <==> !(endpoint && delivery.Breaks?) && (append.Whole? || append.CutUp?)
    {
      var record := Event(next, false);
      next := next + 1;
      if endpoint {
        var delivered, raised := Deliver(record.id, delivery);
        if raised { return false; }
        record := record.(delivered := delivered);
      }
      ok := AppendRecord(record, append);
    }

    method Flush(deliver: nat -> Delivery, rewrites: bool) returns (report: Report)
      modifies this
      ensures !endpoint ==> report.Failure? && View() == old(View())
      ensures endpoint ==> View() == Flushed(old(View()), deliver, rewrites)
      ensures endpoint ==>
                var events := FlushedTo(old(lines), deliver, |old(lines)|).1;
                if Completes(old(lines), deliver, rewrites)
                then report.Counts? && report.total == |events| && report.delivered == Delivered(events)
                     && report.pending == report.total - report.delivered
                else report.Failure?
    {
      if !endpoint { return Failure; }
      if !Decodable(lines) {
        CannotComplete(lines, deliver, rewrites);
        return Failure;
      }
      var records := [];
      ghost var tried := [];
      var i := 0;
      while i < |lines|
        invariant 0 <= i <= |lines| && lines == old(lines) && next == old(next) && unended == old(unended)
        invariant (true, records, tried) == FlushedTo(lines, deliver, i)
        invariant posts == old(posts) + tried
      {
        match lines[i] {
          case Blank =>
          case Undecodable => assert false;
          case Malformed =>
            FailedFlush(lines, deliver, i + 1, |lines|);
            return Failure;
          case Entry(e) =>
            var record := e;
            if !record.delivered {
              var delivered, raised := Deliver(record.id, deliver(i));
              tried := tried + [Post(e.id, delivered)];
              if raised {
                FailedFlush(lines, deliver, i + 1, |lines|);
                return Failure;
              }
              record := record.(delivered := delivered);
            }
            records := records + [record];
        }
        i := i + 1;
      }
      if !rewrites { return Failure; }
      lines := Entries(records);
      unended := false;
      var delivered := CountDelivered(records);
      report := Counts(|records|, delivered, |records| - delivered);
    }
  }

  method CountDelivered(records: seq<Event>) returns (n: nat)
    ensures n == Delivered(records)
  {
    n := 0;
    for i := 0 to |records|
      invariant n == Delivered(records[..i])
    {
      assert records[..i + 1][..i] == records[..i];
      if records[i].delivered {
        n := n + 1;
      }
    }
    assert records[..|records|] == records;
  }

  lemma {:induction false} FailedFlush(lines: seq<Line>, deliver: nat -> Delivery, m: nat, n: nat)
    requires m <= n <= |lines| && !FlushedTo(lines, deliver, m).0
    ensures FlushedTo(lines, deliver, n) == FlushedTo(lines, deliver, m)
  {
    if m < n {
      FailedFlush(lines, deliver, m, n - 1);
    }
  }

  // ----- any sequence of emissions and flushes -----

  datatype Op = Emit(delivery: Delivery, append: Append) | Flush(deliver: nat -> Delivery, rewrites: bool)

  function Applied(endpoint: bool, b: Box, op: Op): Box {
    match op
    case Emit(delivery, append) => Emitted(endpoint, b, delivery, append)
    case Flush(deliver, rewrites) => if endpoint then Flushed(b, deliver, rewrites) else b
  }

  function BoxAt(endpoint: bool, ops: seq<Op>, n: nat): Box
    requires n <= |ops|
  {
    if n == 0 then EMPTY else Applied(endpoint, BoxAt(endpoint, ops, n - 1), ops[n - 1])
  }

  /** The number of accepted deliveries of an event. */
  function Accepted(posts: seq<Post>, id: nat): nat {
    if posts == [] then 0
    else Accepted(posts[..|posts| - 1], id)
         + (if posts[|posts| - 1] == Post(id, true) then 1 else 0)
  }

  lemma {:induction false} AcceptedAdds(a: seq<Post>, b: seq<Post>, id: nat)
    ensures Accepted(a + b, id) == Accepted(a, id) + Accepted(b, id)
  {
    if b == [] {
      assert a + b == a;
    } else {
      AcceptedAdds(a, b[..|b| - 1], id);
      assert (a + b)[..|a + b| - 1] == a + b[..|b| - 1];
    }
  }

  /** Operation `m` is a flush that does not complete, and these are its accepted deliveries of an event. */
  function LostAt(endpoint: bool, ops: seq<Op>, m: nat, id: nat): nat
    requires m < |ops|
  {
    var op, lines := ops[m], BoxAt(endpoint, ops, m).lines;
    if op.Flush? && endpoint && !Completes(lines, op.deliver, op.rewrites)
    then Accepted(Attempts(lines, op.deliver), id) else 0
  }

  /** The accepted deliveries that the file was never told about. */
  function Lost(endpoint: bool, ops: seq<Op>, n: nat, id: nat): nat
    requires n <= |ops|
  {
    if n == 0 then 0 else Lost(endpoint, ops, n - 1, id) + LostAt(endpoint, ops, n - 1, id)
  }

  // ----- when a flush completes -----

  /** A flush gets past this line. */
  predicate Passable(lines: seq<Line>, deliver: nat -> Delivery, i: nat)
    requires i < |lines|
  {
    && !lines[i].Malformed? && !lines[i].Undecodable?
    && !(lines[i].Entry? && !lines[i].event.delivered && deliver(i).Breaks?)
  }

  /**
   A flush completes if and only if every line can be read, no delivery raises, and the file can be
   rewritten.
   */
  lemma FlushCompletes(lines: seq<Line>, deliver: nat -> Delivery, rewrites: bool)
    ensures Completes(lines, deliver, rewrites)
        <==> rewrites && forall i | 0 <= i < |lines| :: Passable(lines, deliver, i)
  {
    ReadsOn(lines, deliver, |lines|);
  }

  lemma CannotComplete(lines: seq<Line>, deliver: nat -> Delivery, rewrites: bool)
    requires !Decodable(lines)
    ensures !Completes(lines, deliver, rewrites) && Attempts(lines, deliver) == []
  {
    var i :| 0 <= i < |lines| && lines[i].Undecodable?;
    FlushCompletes(lines, deliver, rewrites);
    assert !Passable(lines, deliver, i);
  }

  lemma {:induction false} ReadsOn(lines: seq<Line>, deliver: nat -> Delivery, n: nat)
    requires n <= |lines|
    ensures FlushedTo(lines, deliver, n).0 <==> forall i | 0 <= i < n :: Passable(lines, deliver, i)
  {
    if n > 0 {
      ReadsOn(lines, deliver, n - 1);
      assert FlushedTo(lines, deliver, n).0 <==> FlushedTo(lines, deliver, n - 1).0 && Passable(lines, deliver, n - 1);
    }
  }

  // ----- order -----

  predicate NoBlanks(lines: seq<Line>) {
    forall i | 0 <= i < |lines| :: !lines[i].Blank?
  }

  /** The entry at `i` has a smaller identifier than the entry at `j`. */
  predicate Before(lines: seq<Line>, i: nat, j: nat)
    requires i < |lines| && j < |lines|
  {
    lines[i].Entry? && lines[j].Entry? ==> lines[i].event.id < lines[j].event.id
  }

  ghost predicate Ascending(lines: seq<Line>) {
    forall i, j | 0 <= i < j < |lines| :: Before(lines, i, j)
  }

  ghost predicate Below(lines: seq<Line>, next: nat) {
    forall i | 0 <= i < |lines| && lines[i].Entry? :: lines[i].event.id < next
  }

  /** The file holds entries and unreadable lines, the entries in the order of their emission. */
  ghost predicate Ordered(b: Box) {
    NoBlanks(b.lines) && Ascending(b.lines) && Below(b.lines, b.next)
  }

  lemma EmitKeepsOrder(endpoint: bool, b: Box, delivery: Delivery, append: Append)
    requires Ordered(b)
    ensures Ordered(Emitted(endpoint, b, delivery, append))
  {
    var after := Emitted(endpoint, b, delivery, append);
    forall i, j | 0 <= i < j < |after.lines|
      ensures Before(after.lines, i, j)
    {
      if j < |b.lines| {
        assert Before(b.lines, i, j);
      }
    }
  }

  /** What a flush has read and retried, when nothing stopped it. */
  lemma {:induction false} CleanFlush(lines: seq<Line>, deliver: nat -> Delivery, n: nat)
    requires n <= |lines| && NoBlanks(lines) && FlushedTo(lines, deliver, n).0
    ensures |FlushedTo(lines, deliver, n).1| == n
    ensures forall i | 0 <= i < n ::
              lines[i].Entry? && FlushedTo(lines, deliver, n).1[i] == Retried(lines[i].event, deliver(i))
  {
    if n > 0 {
      CleanFlush(lines, deliver, n - 1);
    }
  }

  function Retried(e: Event, delivery: Delivery): Event {
    e.(delivered := e.delivered || delivery.Accepts?)
  }

  /** A flush keeps every line in its place: an unreadable one as it is, an entry with its identifier. */
  lemma FlushKeepsLines(b: Box, deliver: nat -> Delivery, rewrites: bool)
    requires NoBlanks(b.lines)
    ensures var after := Flushed(b, deliver, rewrites);
            && |after.lines| == |b.lines| && after.next == b.next
            && forall i | 0 <= i < |b.lines| ::
                 if Completes(b.lines, deliver, rewrites)
                 then b.lines[i].Entry? && after.lines[i] == Entry(Retried(b.lines[i].event, deliver(i)))
                 else after.lines[i] == b.lines[i]
  {
    if Completes(b.lines, deliver, rewrites) {
      CleanFlush(b.lines, deliver, |b.lines|);
    }
    hide FlushedTo;
  }

  lemma FlushKeepsOrder(b: Box, deliver: nat -> Delivery, rewrites: bool)
    requires Ordered(b)
    ensures Ordered(Flushed(b, deliver, rewrites))
  {
    FlushKeepsLines(b, deliver, rewrites);
    hide Flushed, Completes;
    var after := Flushed(b, deliver, rewrites);
    forall i, j | 0 <= i < j < |after.lines|
      ensures Before(after.lines, i, j)
    {
      assert Before(b.lines, i, j);
    }
  }

  lemma {:induction false} AlwaysOrdered(endpoint: bool, ops: seq<Op>, n: nat)
    requires n <= |ops|
    ensures Ordered(BoxAt(endpoint, ops, n))
  {
    hide Emitted, Flushed, Ordered;
    if n == 0 {
      EmptyIsOrdered();
    } else {
      AlwaysOrdered(endpoint, ops, n - 1);
      match ops[n - 1]
      case Emit(delivery, append) => EmitKeepsOrder(endpoint, BoxAt(endpoint, ops, n - 1), delivery, append);
      case Flush(deliver, rewrites) => FlushKeepsOrder(BoxAt(endpoint, ops, n - 1), deliver, rewrites);
    }
  }

  lemma EmptyIsOrdered()
    ensures Ordered(EMPTY)
  {
  }

  // ----- what a flush delivers -----

  /** A flush that gets this far delivers the event of this line, and has it accepted. */
  predicate Takes(lines: seq<Line>, deliver: nat -> Delivery, i: nat)
    requires i < |lines|
  {
    lines[i].Entry? && !lines[i].event.delivered && deliver(i).Accepts?
  }

  // Line `n` adds at most one attempt.
  lemma FlushedLine(lines: seq<Line>, deliver: nat -> Delivery, n: nat, id: nat)
    requires n < |lines|
    ensures Accepted(FlushedTo(lines, deliver, n + 1).2, id)
         == Accepted(FlushedTo(lines, deliver, n).2, id)
            + (if FlushedTo(lines, deliver, n).0 && Takes(lines, deliver, n) && lines[n].event.id == id then 1 else 0)
  {
    var before, after := FlushedTo(lines, deliver, n).2, FlushedTo(lines, deliver, n + 1).2;
    if after != before {
      assert after[..|after| - 1] == before;
    }
  }

  lemma OneEntryEach(lines: seq<Line>, i: nat, j: nat)
    requires Ascending(lines) && i < |lines| && j < |lines| && lines[i].Entry? && lines[j].Entry?
    ensures lines[i].event.id == lines[j].event.id <==> i == j
  {
    if i < j {
      assert Before(lines, i, j);
    } else if j < i {
      assert Before(lines, j, i);
    }
  }

  lemma NothingRead(lines: seq<Line>, deliver: nat -> Delivery)
    ensures FlushedTo(lines, deliver, 0) == (true, [], [])
  {
  }

  /** The first `n` lines of a flush have event `i` accepted once if it takes it and gets that far, and else never. */
  lemma {:induction false} FlushAccepts(lines: seq<Line>, deliver: nat -> Delivery, n: nat, i: nat)
    requires n <= |lines| && i < |lines| && lines[i].Entry? && Ascending(lines)
    ensures Accepted(FlushedTo(lines, deliver, n).2, lines[i].event.id)
         == if i < n && FlushedTo(lines, deliver, i).0 && Takes(lines, deliver, i) then 1 else 0
  {
    hide FlushedTo, Accepted, Ascending;
    if n == 0 {
      NothingRead(lines, deliver);
      NoAttempts(lines[i].event.id);
    } else {
      FlushAccepts(lines, deliver, n - 1, i);
      FlushedLine(lines, deliver, n - 1, lines[i].event.id);
      if lines[n - 1].Entry? {
        OneEntryEach(lines, i, n - 1);
      }
    }
  }

  lemma {:induction false} FlushIgnores(lines: seq<Line>, deliver: nat -> Delivery, n: nat, next: nat, id: nat)
    requires n <= |lines| && Below(lines, next) && id >= next
    ensures Accepted(FlushedTo(lines, deliver, n).2, id) == 0
  {
    if n > 0 {
      FlushIgnores(lines, deliver, n - 1, next, id);
      FlushedLine(lines, deliver, n - 1, id);
    }
  }

  function PostsOf(posts: seq<Post>): seq<nat> {
    if posts == [] then [] else PostsOf(posts[..|posts| - 1]) + [posts[|posts| - 1].id]
  }

  function PendingIds(lines: seq<Line>): seq<nat> {
    if lines == [] then []
    else
      var front, last := PendingIds(lines[..|lines| - 1]), lines[|lines| - 1];
      if Pending(last) then front + [last.event.id] else front
  }

  predicate Pending(line: Line) {
    line.Entry? && !line.event.delivered
  }

  // The attempt a flush makes for a line that it gets past.
  lemma PassedLine(lines: seq<Line>, deliver: nat -> Delivery, n: nat)
    requires n < |lines| && FlushedTo(lines, deliver, n + 1).0
    ensures FlushedTo(lines, deliver, n).0
    ensures FlushedTo(lines, deliver, n + 1).2
         == FlushedTo(lines, deliver, n).2
            + (if Pending(lines[n]) then [Post(lines[n].event.id, deliver(n).Accepts?)] else [])
  {
  }

  lemma OneMorePost(posts: seq<Post>, post: Post)
    ensures PostsOf(posts + [post]) == PostsOf(posts) + [post.id]
  {
    assert (posts + [post])[..|posts|] == posts;
  }

  lemma OneMoreLine(lines: seq<Line>, n: nat)
    requires n < |lines|
    ensures PendingIds(lines[..n + 1])
         == PendingIds(lines[..n]) + (if Pending(lines[n]) then [lines[n].event.id] else [])
  {
    assert lines[..n + 1][..n] == lines[..n];
  }

  /** The attempts of a flush, for the lines it gets past, are the pending events, once each and in order. */
  lemma {:induction false} FlushPostsPending(lines: seq<Line>, deliver: nat -> Delivery, n: nat)
    requires n <= |lines| && FlushedTo(lines, deliver, n).0
    ensures PostsOf(FlushedTo(lines, deliver, n).2) == PendingIds(lines[..n])
  {
    if n > 0 {
      PassedLine(lines, deliver, n - 1);
      FlushPostsPending(lines, deliver, n - 1);
      OneMoreLine(lines, n - 1);
      hide FlushedTo, PostsOf, PendingIds;
      if Pending(lines[n - 1]) {
        OneMorePost(FlushedTo(lines, deliver, n - 1).2, Post(lines[n - 1].event.id, deliver(n - 1).Accepts?));
      }
    }
  }

  // ----- every accepted delivery is accounted for -----

  ghost predicate NoneFrom(posts: seq<Post>, next: nat) {
    forall id | id >= next :: Accepted(posts, id) == 0
  }

  lemma EmitDelivers(endpoint: bool, b: Box, delivery: Delivery, append: Append, id: nat)
    ensures Accepted(Emitted(endpoint, b, delivery, append).posts, id)
         == Accepted(b.posts, id) + (if endpoint && delivery.Accepts? && id == b.next then 1 else 0)
  {
    var after := Emitted(endpoint, b, delivery, append);
    if endpoint {
      assert after.posts[..|after.posts| - 1] == b.posts;
    }
  }

  lemma FlushDelivers(b: Box, deliver: nat -> Delivery, rewrites: bool, id: nat)
    ensures Accepted(Flushed(b, deliver, rewrites).posts, id)
         == Accepted(b.posts, id) + Accepted(Attempts(b.lines, deliver), id)
  {
    hide Completes, Attempts;
    AcceptedAdds(b.posts, Attempts(b.lines, deliver), id);
  }

  lemma NoAttempts(id: nat)
    ensures Accepted([], id) == 0
  {
  }

  lemma {:induction false} NoneBeforeEmission(endpoint: bool, ops: seq<Op>, n: nat)
    requires n <= |ops|
    ensures NoneFrom(BoxAt(endpoint, ops, n).posts, BoxAt(endpoint, ops, n).next)
  {
    hide Accepted, Flushed, Attempts, Ordered;
    if n == 0 {
      NothingPosted();
    } else {
      NoneBeforeEmission(endpoint, ops, n - 1);
      AlwaysOrdered(endpoint, ops, n - 1);
      var b, after := BoxAt(endpoint, ops, n - 1), BoxAt(endpoint, ops, n);
      NextNeverFalls(endpoint, b, ops[n - 1]);
      forall id: nat | id >= after.next
        ensures Accepted(after.posts, id) == 0
      {
        DeliversNothingYet(endpoint, b, ops[n - 1], id);
      }
    }
  }

  lemma NothingPosted()
    ensures NoneFrom([], 0)
  {
  }

  lemma NextNeverFalls(endpoint: bool, b: Box, op: Op)
    ensures Applied(endpoint, b, op).next == if op.Emit? then b.next + 1 else b.next
  {
  }

  lemma DeliversNothingYet(endpoint: bool, b: Box, op: Op, id: nat)
    requires Ordered(b) && NoneFrom(b.posts, b.next) && id >= Applied(endpoint, b, op).next
    ensures Accepted(Applied(endpoint, b, op).posts, id) == 0
  {
    hide Accepted, Flushed, Emitted;
    NextNeverFalls(endpoint, b, op);
    match op
    case Emit(delivery, append) => EmitDelivers(endpoint, b, delivery, append, id);
    case Flush(deliver, rewrites) =>
      NoAttempts(id);
      FlushDelivers(b, deliver, rewrites, id);
      FlushIgnores(b.lines, deliver, |b.lines|, b.next, id);
  }

  lemma {:induction false} LostWasAccepted(endpoint: bool, ops: seq<Op>, n: nat, id: nat)
    requires n <= |ops|
    ensures Lost(endpoint, ops, n, id) <= Accepted(BoxAt(endpoint, ops, n).posts, id)
  {
    hide Accepted, Flushed, Emitted, Completes, Attempts;
    if n > 0 {
      LostWasAccepted(endpoint, ops, n - 1, id);
      var b := BoxAt(endpoint, ops, n - 1);
      match ops[n - 1]
      case Emit(delivery, append) => EmitDelivers(endpoint, b, delivery, append, id);
      case Flush(deliver, rewrites) => FlushDelivers(b, deliver, rewrites, id);
    }
  }

  /** The accepted deliveries of the event at `i` are the one its mark stands for, and the lost ones. */
  ghost predicate Accounted(b: Box, i: nat, lost: nat)
    requires i < |b.lines|
  {
    b.lines[i].Entry? ==>
      Accepted(b.posts, b.lines[i].event.id) == (if b.lines[i].event.delivered then 1 else 0) + lost
  }

  function LostOf(endpoint: bool, ops: seq<Op>, n: nat, i: nat): nat
    requires n <= |ops| && i < |BoxAt(endpoint, ops, n).lines|
  {
    var line := BoxAt(endpoint, ops, n).lines[i];
    if line.Entry? then Lost(endpoint, ops, n, line.event.id) else 0
  }

  // An emission adds its own event, accepted as often as it is marked, and touches no other entry.
  lemma EmitAccounts(endpoint: bool, b: Box, delivery: Delivery, append: Append, i: nat, lost: nat)
    requires Ordered(b) && NoneFrom(b.posts, b.next)
    requires i < |Emitted(endpoint, b, delivery, append).lines|
    requires var line := Emitted(endpoint, b, delivery, append).lines[i];
             line.Entry? ==> if line.event.id == b.next then lost == 0 else i < |b.lines| && Accounted(b, i, lost)
    ensures Accounted(Emitted(endpoint, b, delivery, append), i, lost)
  {
    hide Accepted, Ascending;
    var line := Emitted(endpoint, b, delivery, append).lines[i];
    if line.Entry? {
      EmitDelivers(endpoint, b, delivery, append, line.event.id);
    }
  }

  // Where the entries after an emission come from.
  lemma EmitLines(endpoint: bool, b: Box, delivery: Delivery, append: Append, i: nat)
    requires Ordered(b) && i < |Emitted(endpoint, b, delivery, append).lines|
    ensures var line := Emitted(endpoint, b, delivery, append).lines[i];
            line.Entry? && line.event.id != b.next ==> i < |b.lines| && b.lines[i] == line
  {
  }

  lemma FlushAccounts(b: Box, deliver: nat -> Delivery, rewrites: bool, i: nat, lost: nat)
    requires Ordered(b) && i < |b.lines| && Accounted(b, i, lost)
    requires |Flushed(b, deliver, rewrites).lines| == |b.lines|
    ensures var now := if Completes(b.lines, deliver, rewrites) || !b.lines[i].Entry? then lost
                       else lost + Accepted(Attempts(b.lines, deliver), b.lines[i].event.id);
            Accounted(Flushed(b, deliver, rewrites), i, now)
  {
    FlushKeepsLines(b, deliver, rewrites);
    if b.lines[i].Entry? {
      FlushDelivers(b, deliver, rewrites, b.lines[i].event.id);
      FlushAccepts(b.lines, deliver, |b.lines|, i);
      ReadsOn(b.lines, deliver, i);
      ReadsOn(b.lines, deliver, |b.lines|);
    }
    hide FlushedTo, Accepted, Flushed, Ascending, Below;
  }

  /**
   Conservation. After any emissions and flushes, whatever fails: the entries of the file are in the
   order of their emission, and each has been accepted by the endpoint exactly as often as its mark
   says, plus the deliveries lost by flushes that did not complete.
   */
  lemma {:induction false} OutboxConserves(endpoint: bool, ops: seq<Op>, n: nat, i: nat)
    requires n <= |ops| && i < |BoxAt(endpoint, ops, n).lines|
    ensures Ordered(BoxAt(endpoint, ops, n))
    ensures Accounted(BoxAt(endpoint, ops, n), i, LostOf(endpoint, ops, n, i))
  {
    hide Ordered, Accounted, Emitted, Flushed, Accepted, Completes, Attempts, NoneFrom;
    AlwaysOrdered(endpoint, ops, n);
    if n > 0 {
      var b := BoxAt(endpoint, ops, n - 1);
      AlwaysOrdered(endpoint, ops, n - 1);
      match ops[n - 1] {
        case Emit(delivery, append) =>
          var line := Emitted(endpoint, b, delivery, append).lines[i];
          EmitLines(endpoint, b, delivery, append, i);
          NoneBeforeEmission(endpoint, ops, n - 1);
          LostWasAccepted(endpoint, ops, n - 1, b.next);
          NoneAt(b.posts, b.next);
          if line.Entry? && line.event.id != b.next {
            OutboxConserves(endpoint, ops, n - 1, i);
          }
          EmitAccounts(endpoint, b, delivery, append, i, LostOf(endpoint, ops, n, i));
        case Flush(deliver, rewrites) =>
          OrderedMeans(b);
          FlushKeepsLines(b, deliver, rewrites);
          OutboxConserves(endpoint, ops, n - 1, i);
          if endpoint {
            FlushAccounts(b, deliver, rewrites, i, LostOf(endpoint, ops, n - 1, i));
          }
      }
    }
  }

  lemma NoneAt(posts: seq<Post>, next: nat)
    requires NoneFrom(posts, next)
    ensures Accepted(posts, next) == 0
  {
  }

  lemma OrderedMeans(b: Box)
    requires Ordered(b)
    ensures NoBlanks(b.lines)
  {
  }

  // ----- what is never lost -----

  /** Line `i` of the file has an end, so nothing can be appended to it. */
  predicate Ended(b: Box, i: nat) {
    i < |b.lines| && !(b.unended && i == |b.lines| - 1)
  }

  /** What an operation can do to a line with an end: nothing, or deliver its event. */
  predicate Later(was: Line, now: Line) {
    now == was || (was.Entry? && now.Entry? && now.event.id == was.event.id && now.event.delivered)
  }

  lemma OpKeepsLine(endpoint: bool, b: Box, op: Op, i: nat)
    requires NoBlanks(b.lines) && Ended(b, i)
    ensures Ended(Applied(endpoint, b, op), i)
    ensures Later(b.lines[i], Applied(endpoint, b, op).lines[i])
  {
    if op.Flush? && endpoint {
      FlushKeepsLines(b, op.deliver, op.rewrites);
    }
    hide FlushedTo, Attempts;
  }

  /**
   A line with an end is there for good: its event is never lost, moved or taken for undelivered
   again, and a line that cannot be read stays so.
   */
  lemma {:induction false} LineStays(endpoint: bool, ops: seq<Op>, m: nat, n: nat, i: nat)
    requires m <= n <= |ops| && Ended(BoxAt(endpoint, ops, m), i)
    ensures Ended(BoxAt(endpoint, ops, n), i)
    ensures Later(BoxAt(endpoint, ops, m).lines[i], BoxAt(endpoint, ops, n).lines[i])
  {
    hide Applied, Ordered;
    if m < n {
      LineStays(endpoint, ops, m, n - 1, i);
      AlwaysOrdered(endpoint, ops, n - 1);
      OrderedMeans(BoxAt(endpoint, ops, n - 1));
      OpKeepsLine(endpoint, BoxAt(endpoint, ops, n - 1), ops[n - 1], i);
    }
  }

  // An operation never has a delivered event accepted again.
  lemma DeliveredIsLeft(endpoint: bool, b: Box, op: Op, i: nat)
    requires Ordered(b) && Ended(b, i) && b.lines[i].Entry? && b.lines[i].event.delivered
    ensures Accepted(Applied(endpoint, b, op).posts, b.lines[i].event.id) == Accepted(b.posts, b.lines[i].event.id)
  {
    hide Accepted, Flushed, Emitted, Ascending;
    match op
    case Emit(delivery, append) => EmitDelivers(endpoint, b, delivery, append, b.lines[i].event.id);
    case Flush(deliver, rewrites) =>
      NoAttempts(b.lines[i].event.id);
      FlushDelivers(b, deliver, rewrites, b.lines[i].event.id);
      FlushAccepts(b.lines, deliver, |b.lines|, i);
  }

  /** Once its mark is in the file, an event is not sent successfully again. */
  lemma {:induction false} DeliveredForever(endpoint: bool, ops: seq<Op>, m: nat, n: nat, i: nat)
    requires m <= n <= |ops| && Ended(BoxAt(endpoint, ops, m), i)
    requires BoxAt(endpoint, ops, m).lines[i].Entry? && BoxAt(endpoint, ops, m).lines[i].event.delivered
    ensures Ended(BoxAt(endpoint, ops, n), i) && BoxAt(endpoint, ops, n).lines[i] == BoxAt(endpoint, ops, m).lines[i]
    ensures Accepted(BoxAt(endpoint, ops, n).posts, BoxAt(endpoint, ops, m).lines[i].event.id)
         == Accepted(BoxAt(endpoint, ops, m).posts, BoxAt(endpoint, ops, m).lines[i].event.id)
  {
    hide Applied, Accepted, Ordered;
    LineStays(endpoint, ops, m, n, i);
    if m < n {
      DeliveredForever(endpoint, ops, m, n - 1, i);
      AlwaysOrdered(endpoint, ops, n - 1);
      DeliveredIsLeft(endpoint, BoxAt(endpoint, ops, n - 1), ops[n - 1], i);
    }
  }

  /** One unreadable line in the file, and no flush ever completes again. */
  lemma UnreadableForever(endpoint: bool, ops: seq<Op>, m: nat, n: nat, i: nat, deliver: nat -> Delivery,
                          rewrites: bool)
    requires m <= n <= |ops| && Ended(BoxAt(endpoint, ops, m), i)
    requires BoxAt(endpoint, ops, m).lines[i].Malformed? || BoxAt(endpoint, ops, m).lines[i].Undecodable?
    ensures !Completes(BoxAt(endpoint, ops, n).lines, deliver, rewrites)
  {
    hide BoxAt, Completes;
    LineStays(endpoint, ops, m, n, i);
    FlushCompletes(BoxAt(endpoint, ops, n).lines, deliver, rewrites);
    assert !Passable(BoxAt(endpoint, ops, n).lines, deliver, i);
  }

  lemma OpKeepsUndecodable(endpoint: bool, b: Box, op: Op)
    requires !Decodable(b.lines)
    ensures !Decodable(Applied(endpoint, b, op).lines)
  {
    var i :| 0 <= i < |b.lines| && b.lines[i].Undecodable?;
    if op.Flush? {
      CannotComplete(b.lines, op.deliver, op.rewrites);
      hide FlushedTo, Completes;
    } else {
      assert Applied(endpoint, b, op).lines[i].Undecodable?;
    }
  }

  /** And with one torn inside a character, no flush ever attempts a delivery again. */
  lemma {:induction false} UndecodableForever(endpoint: bool, ops: seq<Op>, m: nat, n: nat, deliver: nat -> Delivery)
    requires m <= n <= |ops| && !Decodable(BoxAt(endpoint, ops, m).lines)
    ensures !Decodable(BoxAt(endpoint, ops, n).lines) && Attempts(BoxAt(endpoint, ops, n).lines, deliver) == []
  {
    hide Applied, Decodable;
    if m < n {
      UndecodableForever(endpoint, ops, m, n - 1, deliver);
      OpKeepsUndecodable(endpoint, BoxAt(endpoint, ops, n - 1), ops[n - 1]);
    }
  }

  /** The identifiers of the events that were appended, in order, and the next one. */
  function AppendedIds(endpoint: bool, ops: seq<Op>, n: nat): (r: (seq<nat>, nat))
    requires n <= |ops|
  {
    if n == 0 then ([], 0)
    else
      var (ids, next) := AppendedIds(endpoint, ops, n - 1);
      match ops[n - 1]
      case Emit(delivery, append) =>
        (if append.Nothing? || (endpoint && delivery.Breaks?) then ids else ids + [next], next + 1)
      case Flush(_, _) => (ids, next)
  }

  /** The file holds entries with these identifiers and nothing else. */
  predicate Holds(lines: seq<Line>, ids: seq<nat>) {
    |lines| == |ids| && forall i | 0 <= i < |ids| :: lines[i].Entry? && lines[i].event.id == ids[i]
  }

  /** While every append is all or nothing, the file holds exactly the events appended, whatever flushes do. */
  lemma {:induction false} WholeFileConserved(endpoint: bool, ops: seq<Op>, n: nat)
    requires n <= |ops| && forall m | 0 <= m < n && ops[m].Emit? :: ops[m].append.Whole? || ops[m].append.Nothing?
    ensures Holds(BoxAt(endpoint, ops, n).lines, AppendedIds(endpoint, ops, n).0)
    ensures BoxAt(endpoint, ops, n).next == AppendedIds(endpoint, ops, n).1 && !BoxAt(endpoint, ops, n).unended
  {
    hide FlushedTo, Attempts;
    if n > 0 {
      WholeFileConserved(endpoint, ops, n - 1);
      if ops[n - 1].Flush? && endpoint {
        FlushKeepsLines(BoxAt(endpoint, ops, n - 1), ops[n - 1].deliver, ops[n - 1].rewrites);
      }
    }
  }

  // ----- when an event is accepted again -----

  /** Flush `m` has had the event accepted and has not completed. */
  predicate LosesAt(endpoint: bool, ops: seq<Op>, m: nat, id: nat)
    requires m < |ops|
  {
    LostAt(endpoint, ops, m, id) > 0
  }

  lemma {:induction false} LostMeans(endpoint: bool, ops: seq<Op>, n: nat, id: nat)
    requires n <= |ops|
    ensures Lost(endpoint, ops, n, id) > 0 <==> exists m | 0 <= m < n :: LosesAt(endpoint, ops, m, id)
  {
    hide LostAt;
    if n > 0 {
      LostMeans(endpoint, ops, n - 1, id);
      assert LosesAt(endpoint, ops, n - 1, id) <==> LostAt(endpoint, ops, n - 1, id) > 0;
    }
  }

  /** An endpoint that accepts everything from now on. */
  const RECOVERED: nat -> Delivery := _ => Accepts

  /** A flush of this file can have the event at `i` accepted. */
  ghost predicate CanBeTaken(b: Box, i: nat)
    requires i < |b.lines| && b.lines[i].Entry?
  {
    exists deliver: nat -> Delivery :: Accepted(Attempts(b.lines, deliver), b.lines[i].event.id) > 0
  }

  lemma TakenMeans(b: Box, i: nat, deliver: nat -> Delivery)
    requires Ordered(b) && i < |b.lines| && b.lines[i].Entry?
    requires Accepted(Attempts(b.lines, deliver), b.lines[i].event.id) > 0
    ensures !b.lines[i].event.delivered && Decodable(b.lines) && forall j | 0 <= j < i :: !b.lines[j].Malformed?
  {
    FlushAccepts(b.lines, deliver, |b.lines|, i);
    ReadsOn(b.lines, deliver, i);
    hide FlushedTo, Accepted, Ascending;
    forall j | 0 <= j < i
      ensures !b.lines[j].Malformed?
    {
      assert Passable(b.lines, deliver, j);
    }
  }

  lemma RecoveredTakes(b: Box, i: nat)
    requires Ordered(b) && i < |b.lines| && b.lines[i].Entry?
    requires !b.lines[i].event.delivered && Decodable(b.lines) && forall j | 0 <= j < i :: !b.lines[j].Malformed?
    ensures Accepted(Attempts(b.lines, RECOVERED), b.lines[i].event.id) > 0
  {
    FlushAccepts(b.lines, RECOVERED, |b.lines|, i);
    ReadsOn(b.lines, RECOVERED, i);
    hide FlushedTo, Accepted, Ascending;
    assert RECOVERED(i) == Accepts;
    forall j | 0 <= j < i
      ensures Passable(b.lines, RECOVERED, j)
    {
      assert RECOVERED(j) == Accepts;
    }
  }

  lemma TakenWhenReached(b: Box, i: nat)
    requires Ordered(b) && i < |b.lines| && b.lines[i].Entry?
    ensures CanBeTaken(b, i)
        <==> !b.lines[i].event.delivered && Decodable(b.lines)
             && forall j | 0 <= j < i :: !b.lines[j].Malformed?
  {
    hide Ordered, Accepted, Attempts, Decodable;
    if deliver: nat -> Delivery :| Accepted(Attempts(b.lines, deliver), b.lines[i].event.id) > 0 {
      TakenMeans(b, i, deliver);
    } else if !b.lines[i].event.delivered && Decodable(b.lines) && forall j | 0 <= j < i :: !b.lines[j].Malformed? {
      RecoveredTakes(b, i);
    }
  }

  /**
   A second delivery, exactly. An event in the file that has been accepted can be accepted again by
   the next flush if and only if some flush had it accepted and did not complete, none since has
   marked it, the file can be decoded and the lines before it can be read.
   */
  lemma AcceptedAgainExactly(endpoint: bool, ops: seq<Op>, n: nat, i: nat)
    requires n <= |ops| && i < |BoxAt(endpoint, ops, n).lines| && BoxAt(endpoint, ops, n).lines[i].Entry?
    ensures var b := BoxAt(endpoint, ops, n);
            var e := b.lines[i].event;
            Accepted(b.posts, e.id) > 0 && CanBeTaken(b, i)
            <==> (exists m | 0 <= m < n :: LosesAt(endpoint, ops, m, e.id))
                 && !e.delivered && Decodable(b.lines) && forall j | 0 <= j < i :: !b.lines[j].Malformed?
  {
    hide BoxAt, LosesAt, CanBeTaken, Accepted, Ordered;
    OutboxConserves(endpoint, ops, n, i);
    TakenWhenReached(BoxAt(endpoint, ops, n), i);
    LostMeans(endpoint, ops, n, BoxAt(endpoint, ops, n).lines[i].event.id);
  }

  /** With no such flush, an event of the file is accepted at most once, and marked delivered if and only if it is. */
  lemma AcceptedOnce(endpoint: bool, ops: seq<Op>, n: nat, i: nat)
    requires n <= |ops| && i < |BoxAt(endpoint, ops, n).lines| && BoxAt(endpoint, ops, n).lines[i].Entry?
    requires forall m | 0 <= m < n :: !LosesAt(endpoint, ops, m, BoxAt(endpoint, ops, n).lines[i].event.id)
    ensures Accepted(BoxAt(endpoint, ops, n).posts, BoxAt(endpoint, ops, n).lines[i].event.id)
         == if BoxAt(endpoint, ops, n).lines[i].event.delivered then 1 else 0
  {
    hide BoxAt, LosesAt, Accepted, Ordered;
    OutboxConserves(endpoint, ops, n, i);
    LostMeans(endpoint, ops, n, BoxAt(endpoint, ops, n).lines[i].event.id);
  }

  // ----- two ways to deliver an event twice -----

  /** One event, refused at first; a flush whose rewriting fails; a flush that completes. */
  const REWRITE_LOST: seq<Op> := [Emit(Refuses, Whole), Flush(RECOVERED, false), Flush(RECOVERED, true)]

  /** One event, refused; a second one with a line separator in a text; two flushes. */
  const CUT_UP: seq<Op> := [Emit(Refuses, Whole), Emit(Refuses, CutUp), Flush(RECOVERED, true), Flush(RECOVERED, true)]

  const PENDING := Entry(Event(0, false))

  const DONE := Entry(Event(0, true))

  lemma FlushOfOne()
    ensures FlushedTo([PENDING], RECOVERED, 1) == (true, [Event(0, true)], [Post(0, true)])
    ensures FlushedTo([PENDING, Malformed], RECOVERED, 2) == (false, [Event(0, true)], [Post(0, true)])
  {
    var one, two := [PENDING], [PENDING, Malformed];
    assert FlushedTo(one, RECOVERED, 0) == (true, [], []) == FlushedTo(two, RECOVERED, 0);
    assert RECOVERED(0) == Accepts;
    var e := Event(0, false);
    assert e.(delivered := true) == Event(0, true);
    assert [] + [Event(0, true)] == [Event(0, true)] && [] + [Post(0, true)] == [Post(0, true)];
    assert FlushedTo(one, RECOVERED, 1) == (true, [Event(0, true)], [Post(0, true)]);
    assert FlushedTo(two, RECOVERED, 1) == (true, [Event(0, true)], [Post(0, true)]);
  }

  lemma OneDone()
    ensures Entries([Event(0, true)]) == [DONE]
  {
    var one := [Event(0, true)];
    assert one[..0] == [];
  }

  lemma AcceptedTwice(posts: seq<Post>)
    requires Accepted(posts, 0) == 0
    ensures Accepted(posts + [Post(0, true)] + [Post(0, true)], 0) == 2
  {
    var one := [Post(0, true)];
    AcceptedAdds(posts + one, one, 0);
    AcceptedAdds(posts, one, 0);
    assert one[..0] == [];
    assert Accepted(one, 0) == 1;
  }

  /** From an empty outbox whose records are all whole: a lost rewriting makes the endpoint accept an event twice. */
  lemma RewriteLostDeliversTwice()
    ensures BoxAt(true, REWRITE_LOST, 3).lines == [DONE]
    ensures Accepted(BoxAt(true, REWRITE_LOST, 3).posts, 0) == 2
  {
    FlushOfOne();
    OneDone();
    var refused := [Post(0, false)];
    assert refused[..0] == [];
    AcceptedTwice(refused);
    hide FlushedTo, Accepted, Entries;
    assert BoxAt(true, REWRITE_LOST, 1) == Box([PENDING], false, [Post(0, false)], 1);
    assert BoxAt(true, REWRITE_LOST, 2) == Box([PENDING], false, refused + [Post(0, true)], 1);
    assert BoxAt(true, REWRITE_LOST, 3) == Box([DONE], false, refused + [Post(0, true)] + [Post(0, true)], 1);
  }

  /** And so does a record that is cut up on reading, without any failure at all, for as long as there are flushes. */
  lemma CutUpDeliversTwice()
    ensures BoxAt(true, CUT_UP, 4).lines == [PENDING, Malformed]
    ensures Accepted(BoxAt(true, CUT_UP, 4).posts, 0) == 2
  {
    FlushOfOne();
    var refused := [Post(0, false), Post(1, false)];
    assert refused[..1] == [Post(0, false)] && refused[..1][..0] == [];
    AcceptedTwice(refused);
    hide FlushedTo, Accepted, Entries;
    assert BoxAt(true, CUT_UP, 1) == Box([PENDING], false, [Post(0, false)], 1);
    assert BoxAt(true, CUT_UP, 2) == Box([PENDING, Malformed], false, refused, 2);
    assert BoxAt(true, CUT_UP, 3) == Box([PENDING, Malformed], false, refused + [Post(0, true)], 2);
    assert BoxAt(true, CUT_UP, 4) == Box([PENDING, Malformed], false, refused + [Post(0, true)] + [Post(0, true)], 2);
  }
}
