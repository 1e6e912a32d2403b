/** The JPEG header scan (media/transcode.py) against Annex B of ITU-T T.81. */
module Jpeg {
  import opened Common
  import opened B = Bytes

  // --- the code --------------------------------------------------------------

  /** A frame header marker, SOF0 to SOF15 without DHT, JPG and DAC. */
  predicate IsFrame(marker: byte) {
    0xC0 <= marker <= 0xCF && marker != 0xC4 && marker != 0xC8 && marker != 0xCC
  }

  /** A marker without a length: SOI, TEM, a restart. */
  predicate IsStandalone(marker: byte) {
    marker == 0xD8 || marker == 0x01 || 0xD0 <= marker <= 0xD7
  }

  /** The marker tables of the format. */
  lemma MarkersAre(marker: byte)
    ensures IsFrame(marker) <==>
      marker in {0xC0, 0xC1, 0xC2, 0xC3, 0xC5, 0xC6, 0xC7, 0xC9, 0xCA, 0xCB, 0xCD, 0xCE, 0xCF}
    ensures IsStandalone(marker) <==>
      marker in {0x01, 0xD0, 0xD1, 0xD2, 0xD3, 0xD4, 0xD5, 0xD6, 0xD7, 0xD8}
  {
  }

  /** The scan from `i` on. */
  function ScanFrom(data: Bytes, i: nat): Option<(nat, nat)>
    decreases |data| - i
  {
    if i + 3 >= |data| then None
    else if data[i] != 0xFF || data[i + 1] == 0xFF then ScanFrom(data, i + 1)
    else if IsFrame(data[i + 1]) then
      if i + 9 > |data| then None else Some((Word(data, i + 7), Word(data, i + 5)))
    else if data[i + 1] == 0xD9 then None
    else if IsStandalone(data[i + 1]) then ScanFrom(data, i + 2)
    else if Word(data, i + 2) < 2 then None
    else ScanFrom(data, i + 2 + Word(data, i + 2))
  }

  function Dimensions(data: Bytes): Option<(nat, nat)> {
    if !At(data, 0, [0xFF, 0xD8]) then None else ScanFrom(data, 2)
  }

  /** `jpeg_dimensions`: width and height. Total on arbitrary bytes, and in range throughout. */
  method JpegDimensions(data: Bytes) returns (r: Option<(nat, nat)>)
    ensures r == Dimensions(data)
  {
    if |data| < 2 || data[..2] != [0xFF, 0xD8] {
      return None;
    }
    var i := 2;
    var end := |data|;
    while i + 3 < end
      invariant i >= 2 && ScanFrom(data, i) == ScanFrom(data, 2)
      decreases end - i
    {
      if data[i] != 0xFF {
        i := i + 1;
        continue;
      }
      var marker := data[i + 1];
      if marker == 0xFF {
        i := i + 1;
        continue;
      }
      if IsFrame(marker) {
        if i + 9 > end {
          return None;
        }
        var height, width := Word(data, i + 5), Word(data, i + 7);
        return Some((width, height));
      }
      if marker == 0xD9 {
        return None;
      }
      if IsStandalone(marker) {
        i := i + 2;
        continue;
      }
      var segment := Word(data, i + 2);
      if segment < 2 {
        return None;
      }
      i := i + 2 + segment;
    }
    return None;
  }

  // --- files -----------------------------------------------------------------

  /** What may stand before the frame header: a segment with its payload or a standalone marker,
      after stray bytes that are not 0xFF and any number of fill bytes. */
  datatype Item =
    | Segment(stray: Bytes, fill: nat, marker: byte, payload: Bytes)
    | Standalone(stray: Bytes, fill: nat, marker: byte)

  datatype Frame = Frame(stray: Bytes, fill: nat, marker: byte, length: int, precision: byte, height: int, width: int)

  predicate IsStray(stray: Bytes) {
    forall k | 0 <= k < |stray| :: stray[k] != 0xFF
  }

  predicate ItemOk(item: Item) {
    && IsStray(item.stray)
    && match item
       case Segment(_, _, marker, payload) =>
         !IsFrame(marker) && !IsStandalone(marker) && marker != 0xD9 && marker != 0xFF && |payload| + 2 < 0x10000
       case Standalone(_, _, marker) => IsStandalone(marker)
  }

  predicate FrameOk(f: Frame) {
    IsStray(f.stray) && IsFrame(f.marker) && 0 <= f.length < 0x10000 && 0 <= f.height < 0x10000
      && 0 <= f.width < 0x10000
  }

  function Fill(n: nat): (r: Bytes)
    ensures |r| == n && forall k | 0 <= k < n :: r[k] == 0xFF
  {
    seq(n, _ => 0xFF)
  }

  /** Stray bytes, fill bytes and the marker proper. */
  function MarkerBytes(stray: Bytes, fill: nat, marker: byte): Bytes {
    (stray + Fill(fill)) + [0xFF, marker]
  }

  function ItemBytes(item: Item): Bytes
    requires ItemOk(item)
  {
    match item
    case Segment(stray, fill, marker, payload) => MarkerBytes(stray, fill, marker) + (Put16(|payload| + 2) + payload)
    case Standalone(stray, fill, marker) => MarkerBytes(stray, fill, marker)
  }

  function ItemsBytes(items: seq<Item>): Bytes
    requires forall item | item in items :: ItemOk(item)
  {
    if items == [] then [] else ItemBytes(items[0]) + ItemsBytes(items[1..])
  }

  function FrameTail(f: Frame): (r: Bytes)
    requires FrameOk(f)
    ensures |r| == 7 && Word(r, 3) == f.height && Word(r, 5) == f.width
  {
    Put16(f.length) + [f.precision] + Put16(f.height) + Put16(f.width)
  }

  function FrameBytes(f: Frame): Bytes
    requires FrameOk(f)
  {
    MarkerBytes(f.stray, f.fill, f.marker) + FrameTail(f)
  }

  // --- what the scan finds ---------------------------------------------------

  /** Stray and fill bytes before a marker are stepped over, as far as the loop gets. */
  lemma {:induction false} SkipLead(data: Bytes, i: nat, lead: Bytes, stray: nat, marker: byte)
    requires stray <= |lead| && (forall k | 0 <= k < |lead| :: (lead[k] == 0xFF) == (k >= stray))
    requires At(data, i, lead + [0xFF, marker]) && i + |lead| + 3 < |data|
    ensures ScanFrom(data, i) == ScanFrom(data, i + |lead|)
    decreases |lead|
  {
    if lead != [] {
      var text := lead + [0xFF, marker];
      AtIndex(data, i, text, 0);
      AtIndex(data, i, text, 1);
      assert lead + [0xFF, marker] == [lead[0]] + (lead[1..] + [0xFF, marker]);
      AtSplit(data, i, [lead[0]], lead[1..] + [0xFF, marker]);
      SkipLead(data, i + 1, lead[1..], if stray == 0 then 0 else stray - 1, marker);
    }
  }

  /** The scan gets to a marker, whatever stray and fill bytes precede it. */
  lemma ToMarker(data: Bytes, i: nat, stray: Bytes, fill: nat, marker: byte)
    requires IsStray(stray) && At(data, i, MarkerBytes(stray, fill, marker)) && i + |stray| + fill + 3 < |data|
    ensures var at := i + |stray| + fill;
            at + 1 < |data| && ScanFrom(data, i) == ScanFrom(data, at) && data[at] == 0xFF && data[at + 1] == marker
  {
    var lead := stray + Fill(fill);
    hide ScanFrom, At;
    SkipLead(data, i, lead, |stray|, marker);
    AtIndex(data, i, lead + [0xFF, marker], |lead|);
    AtIndex(data, i, lead + [0xFF, marker], |lead| + 1);
  }

  lemma OverSegment(data: Bytes, i: nat, marker: byte, n: nat)
    requires i + 3 < |data| && data[i] == 0xFF && data[i + 1] == marker && Word(data, i + 2) == n >= 2
    requires !IsFrame(marker) && !IsStandalone(marker) && marker != 0xD9 && marker != 0xFF
    ensures ScanFrom(data, i) == ScanFrom(data, i + 2 + n)
  {
    hide Word, IsFrame, IsStandalone;
  }

  lemma OverStandalone(data: Bytes, i: nat, marker: byte)
    requires i + 3 < |data| && data[i] == 0xFF && data[i + 1] == marker && IsStandalone(marker)
    ensures ScanFrom(data, i) == ScanFrom(data, i + 2)
  {
    hide Word;
  }

  lemma SegmentParts(item: Item)
    requires ItemOk(item) && item.Segment?
    ensures |item.payload| + 2 < 0x10000
    ensures ItemBytes(item)
      == MarkerBytes(item.stray, item.fill, item.marker) + (Put16(|item.payload| + 2) + item.payload)
    ensures |ItemBytes(item)| == |item.stray| + item.fill + 2 + |item.payload| + 2
    ensures IsStray(item.stray) && item.marker != 0xFF && item.marker != 0xD9
    ensures !IsFrame(item.marker) && !IsStandalone(item.marker)
  {
    MarkerLength(item.stray, item.fill, item.marker);
    hide MarkerBytes, Put16, IsFrame, IsStandalone, IsStray;
  }

  lemma SegmentStep(data: Bytes, i: nat, item: Item)
    requires ItemOk(item) && item.Segment? && At(data, i, ItemBytes(item)) && i + |ItemBytes(item)| + 1 < |data|
    ensures ScanFrom(data, i) == ScanFrom(data, i + |ItemBytes(item)|)
  {
    SegmentParts(item);
    MarkerLength(item.stray, item.fill, item.marker);
    hide *;
    var lead := MarkerBytes(item.stray, item.fill, item.marker);
    var tail := Put16(|item.payload| + 2) + item.payload;
    AtSplit(data, i, lead, tail);
    ToMarker(data, i, item.stray, item.fill, item.marker);
    WordAt(data, i + |lead|, tail, 0);
    WordOfPut(|item.payload| + 2, item.payload);
    OverSegment(data, i + |item.stray| + item.fill, item.marker, |item.payload| + 2);
  }


  /** An item is stepped over whole. */
  lemma ItemStep(data: Bytes, i: nat, item: Item)
    requires ItemOk(item) && At(data, i, ItemBytes(item)) && i + |ItemBytes(item)| + 1 < |data|
    ensures ScanFrom(data, i) == ScanFrom(data, i + |ItemBytes(item)|)
  {
    if item.Segment? {
      hide *;
      SegmentStep(data, i, item);
    } else {
      hide At, MarkerBytes, Word, ScanFrom, IsFrame, IsStandalone, IsStray;
      MarkerLength(item.stray, item.fill, item.marker);
      ToMarker(data, i, item.stray, item.fill, item.marker);
      OverStandalone(data, i + |item.stray| + item.fill, item.marker);
    }
  }

  lemma MarkerLength(stray: Bytes, fill: nat, marker: byte)
    ensures |MarkerBytes(stray, fill, marker)| == |stray| + fill + 2
  {
  }

  lemma WordOfPut(n: int, rest: Bytes)
    requires 0 <= n < 0x10000
    ensures Word(Put16(n) + rest, 0) == n
  {
  }

  lemma ItemsSplit(data: Bytes, i: nat, items: seq<Item>)
    requires items != [] && (forall item | item in items :: ItemOk(item)) && At(data, i, ItemsBytes(items))
    ensures ItemOk(items[0]) && At(data, i, ItemBytes(items[0]))
    ensures At(data, i + |ItemBytes(items[0])|, ItemsBytes(items[1..]))
    ensures |ItemsBytes(items)| == |ItemBytes(items[0])| + |ItemsBytes(items[1..])|
  {
    hide At, ItemBytes, ItemOk;
    assert items[0] in items;
    AtSplit(data, i, ItemBytes(items[0]), ItemsBytes(items[1..]));
  }

  lemma NoItems()
    ensures ItemsBytes([]) == []
  {
  }

  lemma {:induction false} ItemsStep(data: Bytes, i: nat, items: seq<Item>)
    requires forall item | item in items :: ItemOk(item)
    requires At(data, i, ItemsBytes(items)) && i + |ItemsBytes(items)| + 1 < |data|
    ensures ScanFrom(data, i) == ScanFrom(data, i + |ItemsBytes(items)|)
    decreases items
  {
    hide *;
    if items == [] {
      NoItems();
    } else {
      ItemsSplit(data, i, items);
      ItemStep(data, i, items[0]);
      ItemsStep(data, i + |ItemBytes(items[0])|, items[1..]);
    }
  }

  lemma AtFrame(data: Bytes, i: nat, marker: byte)
    requires i + 9 <= |data| && data[i] == 0xFF && data[i + 1] == marker && IsFrame(marker)
    ensures ScanFrom(data, i) == Some((Word(data, i + 7), Word(data, i + 5)))
  {
    hide Word;
  }

  lemma FrameFound(data: Bytes, i: nat, f: Frame)
    requires FrameOk(f) && At(data, i, FrameBytes(f))
    ensures ScanFrom(data, i) == Some((f.width, f.height))
  {
    hide At, MarkerBytes, Word, FrameTail, ScanFrom, IsFrame, IsStray;
    var lead, tail := MarkerBytes(f.stray, f.fill, f.marker), FrameTail(f);
    AtBounds(data, i, FrameBytes(f));
    AtSplit(data, i, lead, tail);
    MarkerLength(f.stray, f.fill, f.marker);
    ToMarker(data, i, f.stray, f.fill, f.marker);
    WordAt(data, i + |lead|, tail, 3);
    WordAt(data, i + |lead|, tail, 5);
    AtFrame(data, i + |f.stray| + f.fill, f.marker);
  }

  lemma AtBounds(data: Bytes, i: nat, part: Bytes)
    requires At(data, i, part)
    ensures i + |part| <= |data|
  {
  }

  lemma FrameSize(f: Frame)
    requires FrameOk(f)
    ensures |FrameBytes(f)| >= 9
  {
    hide FrameTail;
  }

  lemma StartsLikeJpeg(rest: Bytes)
    ensures Dimensions([0xFF, 0xD8] + rest) == ScanFrom([0xFF, 0xD8] + rest, 2)
  {
    hide ScanFrom;
    assert ([0xFF, 0xD8] + rest)[0..2] == [0xFF, 0xD8];
  }

  /** SOI, any items, a frame header, anything: the scan returns that header's width and height. */
  lemma FindsTheFrame(items: seq<Item>, f: Frame, rest: Bytes)
    requires (forall item | item in items :: ItemOk(item)) && FrameOk(f)
    ensures Dimensions([0xFF, 0xD8] + (ItemsBytes(items) + (FrameBytes(f) + rest))) == Some((f.width, f.height))
  {
    hide *;
    var body := ItemsBytes(items) + (FrameBytes(f) + rest);
    var data := [0xFF, 0xD8] + body;
    var at := 2 + |ItemsBytes(items)|;
    StartsLikeJpeg(body);
    FrontAt([0xFF, 0xD8], body);
    AtSplit(data, 2, ItemsBytes(items), FrameBytes(f) + rest);
    AtSplit(data, at, FrameBytes(f), rest);
    FrameSize(f);
    ItemsStep(data, 2, items);
    FrameFound(data, at, f);
  }

  /** The data of a file up to a last marker, and what follows it. */
  function Ending(items: seq<Item>, stray: Bytes, fill: nat, marker: byte, tail: Bytes): Bytes
    requires forall item | item in items :: ItemOk(item)
  {
    [0xFF, 0xD8] + (ItemsBytes(items) + (MarkerBytes(stray, fill, marker) + tail))
  }

  /** An end of image before any frame header, or a frame header cut short: no answer. */
  lemma NoFrameNoAnswer(items: seq<Item>, stray: Bytes, fill: nat, marker: byte, tail: Bytes)
    requires (forall item | item in items :: ItemOk(item)) && IsStray(stray)
    requires marker == 0xD9 || (IsFrame(marker) && |tail| < 7)
    ensures Dimensions(Ending(items, stray, fill, marker, tail)) == None
  {
    hide ItemsBytes, MarkerBytes, Word, At, ScanFrom, IsFrame;
    var data := Ending(items, stray, fill, marker, tail);
    var at := 2 + |ItemsBytes(items)|;
    FrontAt([0xFF, 0xD8], ItemsBytes(items) + (MarkerBytes(stray, fill, marker) + tail));
    AtSplit(data, 2, ItemsBytes(items), MarkerBytes(stray, fill, marker) + tail);
    AtSplit(data, at, MarkerBytes(stray, fill, marker), tail);
    MarkerLength(stray, fill, marker);
    ItemsStep(data, 2, items);
    if at + |stray| + fill + 3 < |data| {
      ToMarker(data, at, stray, fill, marker);
      EndStops(data, at + |stray| + fill);
    } else {
      LeadOnly(data, at, stray, fill, marker);
    }
  }

  lemma FrontAt(a: Bytes, b: Bytes)
    ensures At(a + b, 0, a) && At(a + b, |a|, b)
  {
  }

  lemma EndStops(data: Bytes, i: nat)
    requires i + 3 < |data| && data[i] == 0xFF
    requires data[i + 1] == 0xD9 || (IsFrame(data[i + 1]) && i + 9 > |data|)
    ensures ScanFrom(data, i) == None
  {
  }

  /** Stray and fill bytes up to an end too close to hold anything: no answer. */
  lemma {:induction false} LeadOnly(data: Bytes, i: nat, stray: Bytes, fill: nat, marker: byte)
    requires IsStray(stray) && At(data, i, MarkerBytes(stray, fill, marker)) && i + |stray| + fill + 3 >= |data|
    ensures ScanFrom(data, i) == None
    decreases |stray| + fill
  {
    if i + 3 < |data| {
      var text := MarkerBytes(stray, fill, marker);
      AtIndex(data, i, text, 0);
      AtIndex(data, i, text, 1);
      if stray != [] {
        assert text == [stray[0]] + MarkerBytes(stray[1..], fill, marker);
        AtSplit(data, i, [stray[0]], MarkerBytes(stray[1..], fill, marker));
        LeadOnly(data, i + 1, stray[1..], fill, marker);
      } else if fill > 0 {
        assert text == [0xFF] + MarkerBytes(stray, fill - 1, marker);
        AtSplit(data, i, [0xFF], MarkerBytes(stray, fill - 1, marker));
        LeadOnly(data, i + 1, stray, fill - 1, marker);
      }
    }
  }
}
