/**
 The camera probe's JPEG header walker: it looks for the first frame header of an image and reads
 the picture's dimensions from it. Markers, segments and the frame header are those of sections
 B.1.1.4 and B.2.2 of ITU-T T.81.
 */
module CameraProbe {

  type Byte = b: int | 0 <= b < 256

  const PREFIX: Byte := 0xFF

  const START_OF_IMAGE: Byte := 0xD8

  const END_OF_IMAGE: Byte := 0xD9

  predicate IsStartOfFrame(marker: Byte) {
    0xC0 <= marker <= 0xCF && marker != 0xC4 && marker != 0xC8 && marker != 0xCC
  }

  function Word(high: Byte, low: Byte): nat {
    high * 256 + low
  }

  /** Width and height of the picture. */
  datatype Size = NoSize | Size(width: nat, height: nat)

  /** The walk from `offset` on. */
  function Walk(data: seq<Byte>, offset: nat): Size
    decreases |data| - offset
  {
    if offset + 8 >= |data| then NoSize
    else if data[offset] != PREFIX then Walk(data, offset + 1)
    else
      var marker := data[offset + 1];
      if marker == START_OF_IMAGE || marker == END_OF_IMAGE then Walk(data, offset + 2)
      else
        var length := Word(data[offset + 2], data[offset + 3]);
        if length < 2 || offset + 2 + length > |data| then NoSize
        else if IsStartOfFrame(marker) && length >= 7 then
          var height, width := Word(data[offset + 5], data[offset + 6]), Word(data[offset + 7], data[offset + 8]);
          if width > 0 && height > 0 then Size(width, height) else NoSize
        else Walk(data, offset + 2 + length)
  }

  function Dimensions(data: seq<Byte>): Size {
    if |data| < 10 || data[0] != PREFIX || data[1] != START_OF_IMAGE then NoSize else Walk(data, 2)
  }

  /** The walker over a buffer: it ends on every buffer, and reads only inside it. */
  method JpegDimensions(data: array<Byte>) returns (found: bool, width: nat, height: nat)
    ensures (if found then Size(width, height) else NoSize) == Dimensions(data[..])
  {
    found, width, height := false, 0, 0;
    if data.Length < 10 || data[0] != PREFIX || data[1] != START_OF_IMAGE { return; }
    var offset := 2;
    while offset + 8 < data.Length
      invariant 2 <= offset
      invariant Walk(data[..], offset) == Dimensions(data[..])
      decreases data.Length - offset
    {
      if data[offset] != PREFIX {
        offset := offset + 1;
        continue;
      }
      var marker := data[offset + 1];
      if marker == START_OF_IMAGE || marker == END_OF_IMAGE {
        offset := offset + 2;
        continue;
      }
      if offset + 3 >= data.Length { return; }
      var length := Word(data[offset + 2], data[offset + 3]);
      if length < 2 || offset + 2 + length > data.Length { return; }
      if IsStartOfFrame(marker) && length >= 7 {
        height := Word(data[offset + 5], data[offset + 6]);
        width := Word(data[offset + 7], data[offset + 8]);
        found := width > 0 && height > 0;
        return;
      }
      offset := offset + 2 + length;
    }
  }

  // ----- encoding -----

  /** A marker segment with a length field, and its parameters. */
  datatype Segment = Segment(marker: Byte, parameters: seq<Byte>)

  /** Segments that may come before the frame header. */
  predicate Skippable(s: Segment) {
    && s.marker != START_OF_IMAGE && s.marker != END_OF_IMAGE && !IsStartOfFrame(s.marker)
    && |s.parameters| + 2 < 65536
  }

  function WordBytes(n: nat): seq<Byte>
    requires n < 65536
  {
    [n / 256, n % 256]
  }

  function EncodeSegment(s: Segment): seq<Byte>
    requires |s.parameters| + 2 < 65536
  {
    [PREFIX, s.marker] + WordBytes(|s.parameters| + 2) + s.parameters
  }

  /** A frame header: sample precision, lines, samples per line, and three bytes for each component. */
  datatype Frame = Frame(marker: Byte, precision: Byte, lines: nat, samples: nat, components: seq<(Byte, Byte, Byte)>)

  predicate ValidFrame(f: Frame) {
    && IsStartOfFrame(f.marker)
    && 0 < f.lines < 65536 && 0 < f.samples < 65536
    && 0 < |f.components| < 256
  }

  function EncodeComponents(components: seq<(Byte, Byte, Byte)>): (bytes: seq<Byte>)
    ensures |bytes| == 3 * |components|
  {
    if components == [] then []
    else [components[0].0, components[0].1, components[0].2] + EncodeComponents(components[1..])
  }

  function EncodeFrame(f: Frame): seq<Byte>
    requires ValidFrame(f)
  {
    [PREFIX, f.marker] + WordBytes(8 + 3 * |f.components|) + [f.precision]
    + WordBytes(f.lines) + WordBytes(f.samples) + [|f.components|] + EncodeComponents(f.components)
  }

  /** Fill bytes, which section B.1.1.2 of ITU-T T.81 allows before any marker. */
  function Fill(n: nat): (bytes: seq<Byte>)
    ensures |bytes| == n && forall i | 0 <= i < n :: bytes[i] == PREFIX
  {
    if n == 0 then [] else Fill(n - 1) + [PREFIX]
  }

  /** A segment with the fill bytes before it. */
  datatype Padded = Padded(fill: nat, segment: Segment)

  // Segments have markers from X'C0' on; it matters here only behind fill bytes.
  predicate Paddable(p: Padded) {
    Skippable(p.segment) && (p.fill > 0 ==> p.segment.marker >= 0xC0)
  }

  /** Segments, a frame header with `fill` fill bytes before it, and anything after it. */
  function EncodeBody(padded: seq<Padded>, fill: nat, f: Frame, rest: seq<Byte>): seq<Byte>
    requires forall i | 0 <= i < |padded| :: Paddable(padded[i])
    requires ValidFrame(f)
  {
    if padded == [] then Fill(fill) + (EncodeFrame(f) + rest)
    else
      assert Paddable(padded[0]);
      Fill(padded[0].fill) + (EncodeSegment(padded[0].segment) + EncodeBody(padded[1..], fill, f, rest))
  }

  function EncodeFilled(padded: seq<Padded>, fill: nat, f: Frame, rest: seq<Byte>): seq<Byte>
    requires forall i | 0 <= i < |padded| :: Paddable(padded[i])
    requires ValidFrame(f)
  {
    [PREFIX, START_OF_IMAGE] + EncodeBody(padded, fill, f, rest)
  }

  /** The segments without fill bytes. */
  function Plain(segments: seq<Segment>): (padded: seq<Padded>)
    ensures |padded| == |segments| && forall i | 0 <= i < |padded| :: padded[i] == Padded(0, segments[i])
  {
    seq(|segments|, i requires 0 <= i < |segments| => Padded(0, segments[i]))
  }

  /** An image without fill bytes: start of image, segments, a frame header, and anything after it. */
  function EncodeImage(segments: seq<Segment>, f: Frame, rest: seq<Byte>): seq<Byte>
    requires forall i | 0 <= i < |segments| :: Skippable(segments[i])
    requires ValidFrame(f)
  {
    EncodeFilled(Plain(segments), 0, f, rest)
  }

  // ----- round trip -----

  lemma WordOfBytes(n: nat)
    requires n < 65536
    ensures Word(WordBytes(n)[0], WordBytes(n)[1]) == n
  {
  }

  lemma WalkReadsFrame(data: seq<Byte>, offset: nat, f: Frame, rest: seq<Byte>)
    requires ValidFrame(f) && offset <= |data| && data[offset..] == EncodeFrame(f) + rest
    ensures Walk(data, offset) == Size(f.samples, f.lines)
  {
    var header := EncodeFrame(f);
    assert |header| >= 13;
    assert forall i | 0 <= i < |header| :: data[offset + i] == data[offset..][i] == header[i];
    var length := 8 + 3 * |f.components|;
    assert header[2..4] == WordBytes(length);
    assert header[5..7] == WordBytes(f.lines) && header[7..9] == WordBytes(f.samples);
    WordOfBytes(length);
    WordOfBytes(f.lines);
    WordOfBytes(f.samples);
    assert Word(data[offset + 2], data[offset + 3]) == length;
  }

  lemma WalkSkipsSegment(data: seq<Byte>, offset: nat, s: Segment, rest: seq<Byte>)
    requires Skippable(s) && offset <= |data| && data[offset..] == EncodeSegment(s) + rest && |rest| >= 9
    ensures offset + |EncodeSegment(s)| <= |data|
    ensures data[offset + |EncodeSegment(s)|..] == rest
    ensures Walk(data, offset) == Walk(data, offset + |EncodeSegment(s)|)
  {
    var segment := EncodeSegment(s);
    assert forall i | 0 <= i < |segment| :: data[offset + i] == data[offset..][i] == segment[i];
    assert segment[2..4] == WordBytes(|s.parameters| + 2);
    WordOfBytes(|s.parameters| + 2);
    assert data[offset + |segment|..] == data[offset..][|segment|..];
  }

  lemma FrameIsLong(f: Frame)
    requires ValidFrame(f)
    ensures |EncodeFrame(f)| >= 13
  {
  }

  predicate Unfilled(padded: seq<Padded>, fill: nat) {
    fill == 0 && forall i | 0 <= i < |padded| :: padded[i].fill == 0
  }

  /** How many bytes there are from the first fill byte on. */
  function FromFirstFill(padded: seq<Padded>, fill: nat, f: Frame, rest: seq<Byte>): nat
    requires forall i | 0 <= i < |padded| :: Paddable(padded[i])
    requires ValidFrame(f)
  {
    if padded == [] then if fill == 0 then 0 else |EncodeBody(padded, fill, f, rest)|
    else if padded[0].fill > 0 then |EncodeBody(padded, fill, f, rest)|
    else FromFirstFill(padded[1..], fill, f, rest)
  }

  lemma {:induction false} NothingFilled(padded: seq<Padded>, fill: nat, f: Frame, rest: seq<Byte>)
    requires forall i | 0 <= i < |padded| :: Paddable(padded[i])
    requires ValidFrame(f) && Unfilled(padded, fill)
    ensures FromFirstFill(padded, fill, f, rest) == 0
  {
    if padded != [] {
      NothingFilled(padded[1..], fill, f, rest);
    }
  }

  /** How many bytes of the body there are before the first fill byte. */
  function FirstFillAt(padded: seq<Padded>, fill: nat): nat
    requires forall i | 0 <= i < |padded| :: Paddable(padded[i])
  {
    if padded == [] || padded[0].fill > 0 then 0
    else
      assert Paddable(padded[0]);
      |EncodeSegment(padded[0].segment)| + FirstFillAt(padded[1..], fill)
  }

  /** A fill byte at `offset`: the byte after it is taken for a marker, and the next two for a length. */
  predicate TakenForMarker(data: seq<Byte>, offset: nat) {
    offset + 8 < |data| && data[offset] == PREFIX && data[offset + 1] == PREFIX && data[offset + 2] >= 0xC0
  }

  /** Where the walker goes on from there, at least 48 KiB later. */
  function JumpsTo(data: seq<Byte>, offset: nat): (next: nat)
    requires TakenForMarker(data, offset)
    ensures next >= offset + 0xC002
  {
    offset + 2 + Word(data[offset + 2], data[offset + 3])
  }

  lemma FillJump(data: seq<Byte>, offset: nat)
    requires TakenForMarker(data, offset)
    ensures Walk(data, offset)
         == if JumpsTo(data, offset) > |data| then NoSize else Walk(data, JumpsTo(data, offset))
  {
  }

  lemma FillThenMarker(data: seq<Byte>, offset: nat, fill: nat, tail: seq<Byte>)
    requires offset <= |data| && data[offset..] == Fill(fill) + tail && fill > 0
    requires |tail| >= 9 && tail[0] == PREFIX && tail[1] >= 0xC0
    ensures TakenForMarker(data, offset)
  {
    var bytes := data[offset..];
    assert bytes[0] == Fill(fill)[0];
    assert bytes[1] == if fill > 1 then Fill(fill)[1] else tail[0];
    assert bytes[2] == if fill > 2 then Fill(fill)[2] else tail[2 - fill];
    assert data[offset] == bytes[0] && data[offset + 1] == bytes[1] && data[offset + 2] == bytes[2];
  }

  lemma NoFill(tail: seq<Byte>)
    ensures Fill(0) + tail == tail
  {
  }

  lemma FrameHead(f: Frame, rest: seq<Byte>)
    requires ValidFrame(f)
    ensures |EncodeFrame(f) + rest| >= 13
    ensures (EncodeFrame(f) + rest)[0] == PREFIX && (EncodeFrame(f) + rest)[1] >= 0xC0
  {
    FrameIsLong(f);
  }

  lemma SegmentHead(s: Segment, rest: seq<Byte>)
    requires Skippable(s)
    ensures |EncodeSegment(s) + rest| >= |rest| + 4
    ensures (EncodeSegment(s) + rest)[0] == PREFIX && (EncodeSegment(s) + rest)[1] == s.marker
  {
  }

  lemma {:induction false} BodyIsLong(padded: seq<Padded>, fill: nat, f: Frame, rest: seq<Byte>)
    requires forall i | 0 <= i < |padded| :: Paddable(padded[i])
    requires ValidFrame(f)
    ensures |EncodeBody(padded, fill, f, rest)| >= 13
  {
    FrameHead(f, rest);
    if padded != [] {
      BodyIsLong(padded[1..], fill, f, rest);
    }
  }

  lemma UnfilledTail(padded: seq<Padded>, fill: nat)
    requires padded != []
    ensures Unfilled(padded, fill) <==> padded[0].fill == 0 && Unfilled(padded[1..], fill)
  {
    assert forall i | 0 < i < |padded| :: padded[i] == padded[1..][i - 1];
  }

  lemma {:induction false} FillPositions(padded: seq<Padded>, fill: nat, f: Frame, rest: seq<Byte>)
    requires forall i | 0 <= i < |padded| :: Paddable(padded[i])
    requires ValidFrame(f) && !Unfilled(padded, fill)
    ensures |EncodeBody(padded, fill, f, rest)| == FirstFillAt(padded, fill) + FromFirstFill(padded, fill, f, rest)
  {
    hide EncodeSegment, EncodeFrame, Fill;
    if padded != [] && padded[0].fill == 0 {
      assert Paddable(padded[0]);
      UnfilledTail(padded, fill);
      FillPositions(padded[1..], fill, f, rest);
    }
  }

  /** What the walk makes of the body from `offset` on: it reads the frame header, or comes to the first fill byte. */
  ghost predicate Walked(data: seq<Byte>, offset: nat, padded: seq<Padded>, fill: nat, f: Frame)
    requires forall i | 0 <= i < |padded| :: Paddable(padded[i])
  {
    if Unfilled(padded, fill) then Walk(data, offset) == Size(f.samples, f.lines)
    else TakenForMarker(data, offset + FirstFillAt(padded, fill))
         && Walk(data, offset) == Walk(data, offset + FirstFillAt(padded, fill))
  }

  lemma WalkedToFrame(data: seq<Byte>, offset: nat, fill: nat, f: Frame, rest: seq<Byte>)
    requires ValidFrame(f) && offset <= |data| && data[offset..] == Fill(fill) + (EncodeFrame(f) + rest)
    ensures Walked(data, offset, [], fill, f)
  {
    hide Walk, EncodeFrame, Fill, TakenForMarker;
    FrameHead(f, rest);
    NoFill(EncodeFrame(f) + rest);
    if fill == 0 {
      WalkReadsFrame(data, offset, f, rest);
    } else {
      FillThenMarker(data, offset, fill, EncodeFrame(f) + rest);
    }
  }

  lemma WalkedToFill(data: seq<Byte>, offset: nat, padded: seq<Padded>, fill: nat, f: Frame, tail: seq<Byte>)
    requires forall i | 0 <= i < |padded| :: Paddable(padded[i])
    requires padded != [] && padded[0].fill > 0 && |tail| >= 9 && offset <= |data|
    requires Paddable(padded[0]) && data[offset..] == Fill(padded[0].fill) + (EncodeSegment(padded[0].segment) + tail)
    ensures Walked(data, offset, padded, fill, f)
  {
    hide Walk, EncodeSegment, Fill, TakenForMarker;
    SegmentHead(padded[0].segment, tail);
    FillThenMarker(data, offset, padded[0].fill, EncodeSegment(padded[0].segment) + tail);
  }

  lemma WalkedOver(data: seq<Byte>, offset: nat, padded: seq<Padded>, fill: nat, f: Frame, tail: seq<Byte>)
    requires forall i | 0 <= i < |padded| :: Paddable(padded[i])
    requires padded != [] && padded[0].fill == 0 && |tail| >= 9 && offset <= |data|
    requires Paddable(padded[0]) && data[offset..] == EncodeSegment(padded[0].segment) + tail
    requires Walked(data, offset + |EncodeSegment(padded[0].segment)|, padded[1..], fill, f)
    ensures Walked(data, offset, padded, fill, f)
  {
    hide Walk, EncodeSegment, Unfilled, TakenForMarker;
    UnfilledTail(padded, fill);
    WalkSkipsSegment(data, offset, padded[0].segment, tail);
  }

  /** From any place in the body of an image. */
  lemma {:induction false} WalkFilled(data: seq<Byte>, offset: nat, padded: seq<Padded>, fill: nat, f: Frame,
                                      rest: seq<Byte>)
    requires forall i | 0 <= i < |padded| :: Paddable(padded[i])
    requires ValidFrame(f) && offset <= |data| && data[offset..] == EncodeBody(padded, fill, f, rest)
    ensures Walked(data, offset, padded, fill, f)
    decreases padded
  {
    hide Walk, EncodeSegment, EncodeFrame, Fill, Walked, Unfilled;
    if padded == [] {
      WalkedToFrame(data, offset, fill, f, rest);
    } else {
      assert Paddable(padded[0]);
      var segment, tail := padded[0].segment, EncodeBody(padded[1..], fill, f, rest);
      BodyIsLong(padded[1..], fill, f, rest);
      if padded[0].fill > 0 {
        WalkedToFill(data, offset, padded, fill, f, tail);
      } else {
        NoFill(EncodeSegment(segment) + tail);
        WalkSkipsSegment(data, offset, segment, tail);
        WalkFilled(data, offset + |EncodeSegment(segment)|, padded[1..], fill, f, rest);
        WalkedOver(data, offset, padded, fill, f, tail);
      }
    }
  }

  /** Header round trip: an image gives back exactly the dimensions its frame header was made with. */
  lemma HeaderRoundTrip(segments: seq<Segment>, f: Frame, rest: seq<Byte>)
    requires forall i | 0 <= i < |segments| :: Skippable(segments[i])
    requires ValidFrame(f)
    ensures Dimensions(EncodeImage(segments, f, rest)) == Size(f.samples, f.lines)
  {
    NothingFilled(Plain(segments), 0, f, rest);
    FillBytesHideFrame(Plain(segments), 0, f, rest);
  }

  /**
   Any image with fill bytes: the walker jumps from the first of them by the length it takes from
   behind it, and finds what it finds there.
   */
  lemma FillBytesJump(padded: seq<Padded>, fill: nat, f: Frame, rest: seq<Byte>)
    requires forall i | 0 <= i < |padded| :: Paddable(padded[i])
    requires ValidFrame(f) && !Unfilled(padded, fill)
    ensures var data, at := EncodeFilled(padded, fill, f, rest), 2 + FirstFillAt(padded, fill);
            && TakenForMarker(data, at)
            && Dimensions(data) == if JumpsTo(data, at) > |data| then NoSize else Walk(data, JumpsTo(data, at))
  {
    hide Walk, EncodeBody, FromFirstFill, Unfilled, TakenForMarker, FirstFillAt;
    BodyIsLong(padded, fill, f, rest);
    assert EncodeFilled(padded, fill, f, rest)[2..] == EncodeBody(padded, fill, f, rest);
    WalkFilled(EncodeFilled(padded, fill, f, rest), 2, padded, fill, f, rest);
    FillJump(EncodeFilled(padded, fill, f, rest), 2 + FirstFillAt(padded, fill));
  }

  /**
   The round trip with fill bytes, exactly: in an image of less than 48 KiB from its first fill byte
   on, the walker finds the frame header if and only if there is no fill byte before it.
   */
  lemma FillBytesHideFrame(padded: seq<Padded>, fill: nat, f: Frame, rest: seq<Byte>)
    requires forall i | 0 <= i < |padded| :: Paddable(padded[i])
    requires ValidFrame(f) && FromFirstFill(padded, fill, f, rest) < 0xC000
    ensures Dimensions(EncodeFilled(padded, fill, f, rest)) == Size(f.samples, f.lines) <==> Unfilled(padded, fill)
    ensures Dimensions(EncodeFilled(padded, fill, f, rest)) == NoSize <==> !Unfilled(padded, fill)
  {
    hide Walk, EncodeBody, FromFirstFill, Unfilled, TakenForMarker, FirstFillAt;
    BodyIsLong(padded, fill, f, rest);
    assert EncodeFilled(padded, fill, f, rest)[2..] == EncodeBody(padded, fill, f, rest);
    WalkFilled(EncodeFilled(padded, fill, f, rest), 2, padded, fill, f, rest);
    if !Unfilled(padded, fill) {
      FillPositions(padded, fill, f, rest);
      FillBytesJump(padded, fill, f, rest);
    }
  }

  /** The size at `offset` comes from a frame header there. */
  predicate FrameAt(data: seq<Byte>, offset: nat, size: Size) {
    && size.Size? && size.width > 0 && size.height > 0
    && offset + 8 < |data|
    && data[offset] == PREFIX && IsStartOfFrame(data[offset + 1])
    && 7 <= Word(data[offset + 2], data[offset + 3]) <= |data| - offset - 2
    && size.height == Word(data[offset + 5], data[offset + 6])
    && size.width == Word(data[offset + 7], data[offset + 8])
  }

  /** Every size the walker finds in any buffer stands in a frame header inside the buffer. */
  lemma {:induction false} WalkIsSound(data: seq<Byte>, offset: nat) returns (at: nat)
    requires Walk(data, offset).Size?
    ensures at >= offset && FrameAt(data, at, Walk(data, offset))
    decreases |data| - offset
  {
    var marker := data[offset + 1];
    if data[offset] != PREFIX {
      at := WalkIsSound(data, offset + 1);
    } else if marker == START_OF_IMAGE || marker == END_OF_IMAGE {
      at := WalkIsSound(data, offset + 2);
    } else {
      var length := Word(data[offset + 2], data[offset + 3]);
      if IsStartOfFrame(marker) && length >= 7 {
        at := offset;
      } else {
        at := WalkIsSound(data, offset + 2 + length);
      }
    }
  }
}
