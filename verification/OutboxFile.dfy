/**
 The text of the outbox file: the records appended to it, whole or torn, with or without an end of
 line between them, and the lines that a flush reads back from it.
 */
module OutboxFile {
  import opened EventOutboxes

  /** What one append has written: a record, one with a line separator in a text, or a part of one. */
  datatype Content = Full(event: Event) | Separated | Part | PartOfCharacter

  /** A piece of the file, and whether the line ends after it. */
  datatype Piece = Piece(content: Content, ended: bool)

  /** A line is read back as an entry if and only if it is one record and nothing else. */
  function LineOf(pieces: seq<Piece>): Line {
    if |pieces| == 1 && pieces[0].content.Full? then Entry(pieces[0].content.event)
    else if exists i | 0 <= i < |pieces| :: pieces[i].content.PartOfCharacter? then Undecodable
    else Malformed
  }

  /** The number of pieces in the first line. */
  function FirstLine(pieces: seq<Piece>): (n: nat)
    ensures n <= |pieces| && (pieces != [] ==> n > 0)
  {
    if pieces == [] then 0 else if pieces[0].ended then 1 else 1 + FirstLine(pieces[1..])
  }

  /** The lines of the file: the pieces up to each end of line, and what is left behind the last one. */
  function LinesOf(pieces: seq<Piece>): seq<Line> {
    if pieces == [] then []
    else var n := FirstLine(pieces); [LineOf(pieces[..n])] + LinesOf(pieces[n..])
  }

  predicate LastUnended(pieces: seq<Piece>) {
    pieces != [] && !pieces[|pieces| - 1].ended
  }

  /** What an append that turns out so has written of the record. */
  function Written(e: Event, append: Append): seq<Piece> {
    match append
    case Whole => [Piece(Full(e), true)]
    case CutUp => [Piece(Separated, true)]
    case Torn(NoLineEnd) => [Piece(Full(e), false)]
    case Torn(Fragment) => [Piece(Part, false)]
    case Torn(HalfCharacter) => [Piece(PartOfCharacter, false)]
    case Nothing => []
  }

  /** A rewritten file. */
  function Rewritten(events: seq<Event>): (pieces: seq<Piece>)
    ensures |pieces| == |events| && forall i | 0 <= i < |pieces| :: pieces[i] == Piece(Full(events[i]), true)
  {
    seq(|events|, i requires 0 <= i < |events| => Piece(Full(events[i]), true))
  }

  /** The file after the first `n` operations: records are only ever appended, until a flush completes. */
  function PiecesAt(endpoint: bool, ops: seq<Op>, n: nat): seq<Piece>
    requires n <= |ops|
  {
    if n == 0 then []
    else
      var before, b := PiecesAt(endpoint, ops, n - 1), BoxAt(endpoint, ops, n - 1);
      match ops[n - 1]
      case Emit(delivery, append) =>
        if endpoint && delivery == Breaks then before
        else before + Written(Event(b.next, endpoint && delivery == Accepts), append)
      case Flush(deliver, rewrites) =>
        if endpoint && Completes(b.lines, deliver, rewrites)
        then Rewritten(FlushedTo(b.lines, deliver, |b.lines|).1) else before
  }

  // ----- appending to the text -----

  /** Everything is one line without an end. */
  predicate OneOpenLine(pieces: seq<Piece>) {
    forall i | 0 <= i < |pieces| :: !pieces[i].ended
  }

  lemma {:induction false} FirstLineOpen(pieces: seq<Piece>, n: nat)
    requires n <= |pieces| && OneOpenLine(pieces[..n])
    requires n < |pieces| ==> pieces[n].ended
    ensures FirstLine(pieces) == if n < |pieces| then n + 1 else n
  {
    if n > 0 {
      assert pieces[0] == pieces[..n][0];
      assert pieces[1..][..n - 1] == pieces[..n][1..];
      FirstLineOpen(pieces[1..], n - 1);
    }
  }

  /** How far the first line goes. */
  lemma {:induction false} FirstLineMeans(pieces: seq<Piece>)
    ensures var n := FirstLine(pieces);
            && OneOpenLine(pieces[..if n > 0 then n - 1 else 0])
            && (0 < n < |pieces| ==> pieces[n - 1].ended)
    ensures pieces != [] && FirstLine(pieces) == |pieces| && LastUnended(pieces) ==> OneOpenLine(pieces)
  {
    if pieces != [] && !pieces[0].ended {
      FirstLineMeans(pieces[1..]);
      var n := FirstLine(pieces);
      assert forall i | 0 < i < n - 1 :: pieces[i] == pieces[1..][..n - 2][i - 1];
    }
  }

  lemma ContentsJoin(pieces: seq<Piece>, p: Piece)
    requires pieces != []
    ensures LineOf(pieces + [p])
         == if LineOf(pieces).Undecodable? || p.content.PartOfCharacter? then Undecodable else Malformed
  {
    var all := pieces + [p];
    if i :| 0 <= i < |pieces| && pieces[i].content.PartOfCharacter? {
      assert all[i].content.PartOfCharacter?;
    }
    assert all[|pieces|] == p;
  }

  /** One more piece joins the last line if that has no end, and else makes a line of its own. */
  lemma {:induction false} OneMorePiece(pieces: seq<Piece>, p: Piece)
    ensures LinesOf(pieces + [p]) == Joined(LinesOf(pieces), LastUnended(pieces), LineOf([p]))
    decreases |pieces|
  {
    var all, n := pieces + [p], FirstLine(pieces);
    if pieces == [] {
      assert all == [p] && [p][..1] == [p];
    } else {
      FirstLineMeans(pieces);
      if n == |pieces| && LastUnended(pieces) {
        assert all[..n] == pieces;
        FirstLineOpen(all, if p.ended then n else n + 1);
        assert FirstLine(all) == n + 1 && all[..n + 1] == all;
        assert pieces[..n] == pieces && pieces[n..] == [] && all[n + 1..] == [];
        ContentsJoin(pieces, p);
      } else {
        OneMorePiece(pieces[n..], p);
        OneMoreBehind(pieces, p, n);
      }
    }
  }

  lemma JoinedBehind(first: Line, rest: seq<Line>, unended: bool, line: Line)
    requires unended ==> rest != []
    ensures Joined([first] + rest, unended, line) == [first] + Joined(rest, unended, line)
  {
    var lines := [first] + rest;
    if unended {
      assert lines[..|lines| - 1] == [first] + rest[..|rest| - 1];
      assert lines[|lines| - 1] == rest[|rest| - 1];
    }
  }

  lemma FirstAndRest(pieces: seq<Piece>, n: nat)
    requires pieces != [] && n == FirstLine(pieces)
    ensures LinesOf(pieces) == [LineOf(pieces[..n])] + LinesOf(pieces[n..])
    ensures n < |pieces| ==> LinesOf(pieces[n..]) != []
  {
  }

  // The first line has its end: the piece goes to what is behind it.
  lemma {:induction false} OneMoreBehind(pieces: seq<Piece>, p: Piece, n: nat)
    requires n == FirstLine(pieces) && n > 0 && (n < |pieces| || !LastUnended(pieces))
    requires LinesOf(pieces[n..] + [p]) == Joined(LinesOf(pieces[n..]), LastUnended(pieces[n..]), LineOf([p]))
    ensures LinesOf(pieces + [p]) == Joined(LinesOf(pieces), LastUnended(pieces), LineOf([p]))
  {
    hide LinesOf, LineOf, Joined;
    var all := pieces + [p];
    FirstLineMeans(pieces);
    assert all[..n - 1] == pieces[..n - 1];
    FirstLineOpen(all, n - 1);
    assert all[..n] == pieces[..n] && all[n..] == pieces[n..] + [p];
    FirstAndRest(pieces, n);
    FirstAndRest(all, n);
    JoinedBehind(LineOf(pieces[..n]), LinesOf(pieces[n..]), LastUnended(pieces), LineOf([p]));
  }

  lemma {:induction false} RewrittenReads(events: seq<Event>)
    ensures LinesOf(Rewritten(events)) == Entries(events) && !LastUnended(Rewritten(events))
  {
    if events != [] {
      var front, last := events[..|events| - 1], events[|events| - 1];
      RewrittenReads(front);
      assert Rewritten(events) == Rewritten(front) + [Piece(Full(last), true)];
      OneMorePiece(Rewritten(front), Piece(Full(last), true));
    }
  }

  /** What an append does to the lines is what it does to the text. */
  lemma AppendWrites(b: Box, e: Event, append: Append, pieces: seq<Piece>)
    requires b.lines == LinesOf(pieces) && (b.unended <==> LastUnended(pieces))
    ensures var after, text := Appended(b, e, append), pieces + Written(e, append);
            after.lines == LinesOf(text) && (after.unended <==> LastUnended(text))
  {
    if append.Nothing? {
      assert pieces + Written(e, append) == pieces;
    } else {
      OneMorePiece(pieces, Written(e, append)[0]);
      assert Written(e, append) == [Written(e, append)[0]];
    }
  }

  /**
   The lines of the outbox are those of its text, after any operations and failures: a record stands
   alone on its line, an unreadable line where one was torn or cut up, and nothing is left between lines.
   */
  lemma {:induction false} FileIsRead(endpoint: bool, ops: seq<Op>, n: nat)
    requires n <= |ops|
    ensures BoxAt(endpoint, ops, n).lines == LinesOf(PiecesAt(endpoint, ops, n))
    ensures BoxAt(endpoint, ops, n).unended <==> LastUnended(PiecesAt(endpoint, ops, n))
  {
    hide LinesOf, LineOf, Completes, FlushedTo, Appended, Written;
    if n == 0 {
      NothingWritten();
    } else {
      FileIsRead(endpoint, ops, n - 1);
      var b, pieces := BoxAt(endpoint, ops, n - 1), PiecesAt(endpoint, ops, n - 1);
      match ops[n - 1] {
        case Emit(delivery, append) =>
          var e := Event(b.next, endpoint && delivery == Accepts);
          AppendWrites(Posted(endpoint, b, delivery), e, append, pieces);
        case Flush(deliver, rewrites) =>
          RewrittenReads(FlushedTo(b.lines, deliver, |b.lines|).1);
      }
    }
  }

  lemma NothingWritten()
    ensures LinesOf([]) == []
  {
  }

  // ----- the report -----

  /** The report of a completed flush counts the lines of the file, and those of them that are still to be delivered. */
  lemma {:induction false} ReportCounts(events: seq<Event>)
    ensures Delivered(events) + |PendingIds(Entries(events))| == |events| == |Entries(events)|
  {
    if events != [] {
      var front := events[..|events| - 1];
      ReportCounts(front);
      assert Entries(events)[..|events| - 1] == Entries(front);
    }
  }
}
