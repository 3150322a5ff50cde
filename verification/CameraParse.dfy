/**
 What the JPEG header walker recognizes, exactly: a grammar of images, whose encoder and the walker
 are inverse to each other on every buffer.
 */
module CameraParse {
  import opened CameraProbe

  /** What the walker steps over before a frame header: a stray byte, a marker without a segment, a segment. */
  datatype Item = Stray(byte: Byte) | Standalone(marker: Byte) | Skipped(marker: Byte, body: seq<Byte>)

  /** Start-of-frame markers: 0xC0 to 0xCF but for 0xC4, 0xC8 and 0xCC. */
  predicate MarksFrame(marker: Byte) {
    marker in {0xC0, 0xC1, 0xC2, 0xC3, 0xC5, 0xC6, 0xC7, 0xC9, 0xCA, 0xCB, 0xCD, 0xCE, 0xCF}
  }

  predicate ValidItem(i: Item) {
    match i
    case Stray(byte) => byte != 0xFF
    case Standalone(marker) => marker == 0xD8 || marker == 0xD9
    case Skipped(marker, body) =>
      && marker != 0xD8 && marker != 0xD9 && |body| + 2 < 65536
      && !(MarksFrame(marker) && |body| + 2 >= 7)
  }

  function Big(n: nat): seq<Byte>
    requires n < 65536
  {
    [n / 256, n % 256]
  }

  function Bytes(i: Item): (bytes: seq<Byte>)
    requires ValidItem(i)
    ensures bytes != []
  {
    match i
    case Stray(byte) => [byte]
    case Standalone(marker) => [0xFF, marker]
    case Skipped(marker, body) => [0xFF, marker] + Big(|body| + 2) + body
  }

  /** A frame header: its marker, sample precision, lines, samples per line, and what else its length covers. */
  datatype Header = Header(marker: Byte, precision: Byte, lines: nat, samples: nat, more: seq<Byte>)

  predicate ValidHeader(h: Header) {
    MarksFrame(h.marker) && h.lines < 65536 && h.samples < 65536 && |h.more| + 7 < 65536
  }

  function HeaderBytes(h: Header): (bytes: seq<Byte>)
    requires ValidHeader(h)
    ensures |bytes| == 9 + |h.more|
  {
    [0xFF, h.marker] + Big(|h.more| + 7) + [h.precision] + Big(h.lines) + Big(h.samples) + h.more
  }

  predicate ValidItems(items: seq<Item>) {
    forall k | 0 <= k < |items| :: ValidItem(items[k])
  }

  /** Items, a frame header, and anything after it. */
  function Body(items: seq<Item>, h: Header, rest: seq<Byte>): (bytes: seq<Byte>)
    requires ValidItems(items) && ValidHeader(h)
    ensures |bytes| >= 9
  {
    if items == [] then HeaderBytes(h) + rest else Bytes(items[0]) + Body(items[1..], h, rest)
  }

  function Image(items: seq<Item>, h: Header, rest: seq<Byte>): seq<Byte>
    requires ValidItems(items) && ValidHeader(h)
  {
    [0xFF, 0xD8] + Body(items, h, rest)
  }

  function SizeOf(h: Header): Size {
    if h.samples > 0 && h.lines > 0 then Size(h.samples, h.lines) else NoSize
  }

  // ----- the walker reads what the encoder writes -----

  lemma WalkOverItem(data: seq<Byte>, offset: nat, i: Item, rest: seq<Byte>)
    requires ValidItem(i) && offset <= |data| && data[offset..] == Bytes(i) + rest && |rest| >= 9
    ensures offset + |Bytes(i)| <= |data| && data[offset + |Bytes(i)|..] == rest
    ensures Walk(data, offset) == Walk(data, offset + |Bytes(i)|)
  {
    var bytes := Bytes(i);
    assert forall k | 0 <= k < |bytes| :: data[offset + k] == data[offset..][k] == bytes[k];
    assert data[offset + |bytes|..] == data[offset..][|bytes|..];
    if i.Skipped? {
      var length := |i.body| + 2;
      assert bytes[2] == length / 256 && bytes[3] == length % 256;
      assert Word(data[offset + 2], data[offset + 3]) == length;
    }
  }

  lemma WalkToHeader(data: seq<Byte>, offset: nat, h: Header, rest: seq<Byte>)
    requires ValidHeader(h) && offset <= |data| && data[offset..] == HeaderBytes(h) + rest
    ensures Walk(data, offset) == SizeOf(h)
  {
    var bytes, length := HeaderBytes(h), |h.more| + 7;
    assert forall k | 0 <= k < |bytes| :: data[offset + k] == data[offset..][k] == bytes[k];
    assert bytes[2] == length / 256 && bytes[3] == length % 256;
    assert Word(data[offset + 2], data[offset + 3]) == length;
    assert Word(data[offset + 5], data[offset + 6]) == h.lines;
    assert Word(data[offset + 7], data[offset + 8]) == h.samples;
  }

  lemma {:induction false} WalkOverBody(data: seq<Byte>, offset: nat, items: seq<Item>, h: Header, rest: seq<Byte>)
    requires ValidItems(items) && ValidHeader(h) && offset <= |data| && data[offset..] == Body(items, h, rest)
    ensures Walk(data, offset) == SizeOf(h)
    decreases items
  {
    hide Walk, Bytes;
    if items == [] {
      WalkToHeader(data, offset, h, rest);
    } else {
      WalkOverItem(data, offset, items[0], Body(items[1..], h, rest));
      WalkOverBody(data, offset + |Bytes(items[0])|, items[1..], h, rest);
    }
  }

  lemma ImageIsRead(items: seq<Item>, h: Header, rest: seq<Byte>)
    requires ValidItems(items) && ValidHeader(h)
    ensures Dimensions(Image(items, h, rest)) == SizeOf(h)
  {
    hide Walk;
    assert Image(items, h, rest)[2..] == Body(items, h, rest);
    WalkOverBody(Image(items, h, rest), 2, items, h, rest);
  }

  // ----- and finds nothing else -----

  lemma WordIsBig(high: Byte, low: Byte)
    ensures Word(high, low) < 65536 && Big(Word(high, low)) == [high, low]
  {
  }

  /** The frame header at `offset`. */
  lemma HeaderAt(data: seq<Byte>, offset: nat) returns (h: Header, rest: seq<Byte>)
    requires offset + 8 < |data| && data[offset] == 0xFF && MarksFrame(data[offset + 1])
    requires 7 <= Word(data[offset + 2], data[offset + 3]) <= |data| - offset - 2
    ensures ValidHeader(h) && data[offset..] == HeaderBytes(h) + rest
    ensures h.lines == Word(data[offset + 5], data[offset + 6])
    ensures h.samples == Word(data[offset + 7], data[offset + 8])
  {
    var length := Word(data[offset + 2], data[offset + 3]);
    WordIsBig(data[offset + 2], data[offset + 3]);
    WordIsBig(data[offset + 5], data[offset + 6]);
    WordIsBig(data[offset + 7], data[offset + 8]);
    h := Header(data[offset + 1], data[offset + 4], Word(data[offset + 5], data[offset + 6]),
                Word(data[offset + 7], data[offset + 8]), data[offset + 9..offset + 2 + length]);
    rest := data[offset + 2 + length..];
    assert HeaderBytes(h) == data[offset..offset + 2 + length];
  }

  lemma SegmentAt(data: seq<Byte>, offset: nat, length: nat) returns (i: Item)
    requires 2 <= length && offset + 2 + length <= |data| && data[offset] == 0xFF
    requires offset + 3 < |data| && length == Word(data[offset + 2], data[offset + 3])
    requires data[offset + 1] != 0xD8 && data[offset + 1] != 0xD9 && !(MarksFrame(data[offset + 1]) && length >= 7)
    ensures i.Skipped? && ValidItem(i) && |Bytes(i)| == 2 + length
    ensures data[offset..offset + 2 + length] == Bytes(i)
  {
    WordIsBig(data[offset + 2], data[offset + 3]);
    i := Skipped(data[offset + 1], data[offset + 4..offset + 2 + length]);
    assert data[offset..offset + 4] == [0xFF, data[offset + 1]] + Big(length);
    assert data[offset..offset + 2 + length] == data[offset..offset + 4] + data[offset + 4..offset + 2 + length];
  }

  lemma FramesAreMarked(marker: Byte)
    ensures MarksFrame(marker) <==> IsStartOfFrame(marker)
  {
  }

  /** A frame header stands at `offset`. */
  predicate HeaderStarts(data: seq<Byte>, offset: nat)
    requires offset + 8 < |data|
  {
    data[offset] == 0xFF && MarksFrame(data[offset + 1]) && Word(data[offset + 2], data[offset + 3]) >= 7
  }

  /** Where the walker finds a size, it stands inside the buffer, and at a frame header inside that. */
  lemma WalkIsInside(data: seq<Byte>, offset: nat)
    requires Walk(data, offset).Size?
    ensures offset + 8 < |data|
    ensures HeaderStarts(data, offset) ==> Word(data[offset + 2], data[offset + 3]) <= |data| - offset - 2
  {
    FramesAreMarked(data[offset + 1]);
    hide MarksFrame, IsStartOfFrame, Word;
  }

  /** The item at `offset`, where the walker goes on. */
  lemma ItemAt(data: seq<Byte>, offset: nat) returns (i: Item)
    requires Walk(data, offset).Size? && offset + 8 < |data| && !HeaderStarts(data, offset)
    ensures ValidItem(i) && offset + |Bytes(i)| <= |data| && data[offset..offset + |Bytes(i)|] == Bytes(i)
    ensures Walk(data, offset) == Walk(data, offset + |Bytes(i)|)
  {
    FramesAreMarked(data[offset + 1]);
    hide MarksFrame, IsStartOfFrame, Word, Big;
    if data[offset] != 0xFF {
      i := Stray(data[offset]);
    } else if data[offset + 1] == 0xD8 || data[offset + 1] == 0xD9 {
      i := Standalone(data[offset + 1]);
    } else {
      i := SegmentAt(data, offset, Word(data[offset + 2], data[offset + 3]));
    }
  }

  lemma {:induction false} WalkFindsBody(data: seq<Byte>, offset: nat)
      returns (items: seq<Item>, h: Header, rest: seq<Byte>)
    requires offset <= |data| && Walk(data, offset).Size?
    ensures ValidItems(items) && ValidHeader(h) && data[offset..] == Body(items, h, rest)
    decreases |data| - offset
  {
    hide Walk, Bytes, Body, Word, MarksFrame, HeaderBytes;
    WalkIsInside(data, offset);
    if HeaderStarts(data, offset) {
      h, rest := HeaderAt(data, offset);
      items := [];
      NoItem(h, rest);
    } else {
      var i := ItemAt(data, offset);
      hide HeaderStarts;
      items, h, rest := WalkFindsBody(data, offset + |Bytes(i)|);
      assert data[offset..] == data[offset..offset + |Bytes(i)|] + data[offset + |Bytes(i)|..];
      OneMoreItem(i, items, h, rest);
      items := [i] + items;
    }
  }

  lemma NoItem(h: Header, rest: seq<Byte>)
    requires ValidHeader(h)
    ensures Body([], h, rest) == HeaderBytes(h) + rest
  {
  }

  lemma OneMoreItem(i: Item, items: seq<Item>, h: Header, rest: seq<Byte>)
    requires ValidItem(i) && ValidItems(items) && ValidHeader(h)
    ensures ValidItems([i] + items) && Body([i] + items, h, rest) == Bytes(i) + Body(items, h, rest)
  {
    assert ([i] + items)[1..] == items;
  }

  /** The buffer is an image of these dimensions. */
  ghost predicate IsImage(data: seq<Byte>, size: Size) {
    exists items: seq<Item>, h: Header, rest: seq<Byte> ::
      ValidItems(items) && ValidHeader(h) && data == Image(items, h, rest) && SizeOf(h) == size
  }

  /**
   The walker finds dimensions in a buffer if and only if it is a start of image, any stray bytes, lone
   markers and skippable segments, and then a frame header with these dimensions, neither of them zero.
   */
  lemma WalkerRecognizes(data: seq<Byte>, width: nat, height: nat)
    ensures Dimensions(data) == Size(width, height)
        <==> width > 0 && height > 0 && IsImage(data, Size(width, height))
  {
    hide Walk;
    if Dimensions(data).Size? {
      var items, h, rest := WalkFindsBody(data, 2);
      assert data == [0xFF, 0xD8] + data[2..];
      ImageIsRead(items, h, rest);
    }
    if IsImage(data, Size(width, height)) {
      var items, h, rest :|
        ValidItems(items) && ValidHeader(h) && data == Image(items, h, rest) && SizeOf(h) == Size(width, height);
      ImageIsRead(items, h, rest);
    }
  }
}
