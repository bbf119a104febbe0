/** The pixel size of a PNG or JPEG, read from its header. */
module ImageHeader {
  import opened Wrappers

  type Byte = b: int | 0 <= b < 256

  datatype Format = Png | Jpg
  datatype Facts = Facts(format: Format, width: nat, height: nat)

  const SIGNATURE: seq<Byte> := [0x89, 0x50, 0x4E, 0x47, 0x0D, 0x0A, 0x1A, 0x0A]

  function U16(b: seq<Byte>, at: nat): (n: nat)
    requires at + 2 <= |b|
    ensures n < 0x10000
  {
    var hi: int, lo: int := b[at], b[at + 1];
    hi * 0x100 + lo
  }

  function U32(b: seq<Byte>, at: nat): nat
    requires at + 4 <= |b|
  {
    U16(b, at) * 0x10000 + U16(b, at + 2)
  }

  /** The markers of a frame header: C0 to CF without DHT, JPG and DAC. */
  predicate IsFrame(marker: Byte) {
    0xC0 <= marker <= 0xCF && marker != 0xC4 && marker != 0xC8 && marker != 0xCC
  }

  /** From `at`, segments follow one another by their lengths up to a frame header at `frame`,
      with at least one more byte after its size fields. */
  predicate Leads(b: seq<Byte>, at: nat, frame: nat)
    decreases |b| - at
  {
    && at <= frame && frame + 9 < |b| && b[at] == 0xFF
    && if IsFrame(b[at + 1]) then at == frame else Leads(b, at + 2 + U16(b, at + 2), frame)
  }

  lemma {:induction false} LeadsToOne(b: seq<Byte>, at: nat, f: nat, g: nat)
    requires Leads(b, at, f) && Leads(b, at, g)
    ensures f == g && IsFrame(b[f + 1]) && b[f] == 0xFF
    decreases |b| - at
  {
    if !IsFrame(b[at + 1]) { LeadsToOne(b, at + 2 + U16(b, at + 2), f, g); }
  }

  ghost predicate HasFrame(b: seq<Byte>) {
    exists f: nat :: Leads(b, 2, f)
  }

  lemma FrameFound(b: seq<Byte>, f: nat)
    requires Leads(b, 2, f)
    ensures HasFrame(b)
  {
  }

  predicate IsPng(b: seq<Byte>) {
    |b| > 24 && b[..8] == SIGNATURE
  }

  predicate IsJpg(b: seq<Byte>) {
    |b| > 4 && b[0] == 0xFF && b[1] == 0xD8
  }

  /** Reads every byte string without leaving it: the size is that of the one frame header the
      segments lead to, and nothing is found only if they lead to none. */
  method ImageFacts(b: seq<Byte>) returns (facts: Option<Facts>)
    ensures IsPng(b) ==> facts == Some(Facts(Png, U32(b, 16), U32(b, 20)))
    ensures forall f: nat :: !IsPng(b) && IsJpg(b) && Leads(b, 2, f) ==>
        facts == Some(Facts(Jpg, U16(b, f + 7), U16(b, f + 5)))
    ensures facts.Some? ==> IsPng(b) || (IsJpg(b) && HasFrame(b))
  {
    if |b| > 24 && b[..8] == SIGNATURE {
      return Some(Facts(Png, U32(b, 16), U32(b, 20)));
    }
    if |b| > 4 && b[0] == 0xFF && b[1] == 0xD8 {
      var at: nat := 2;
      while at + 9 < |b|
        invariant forall f: nat :: Leads(b, 2, f) <==> Leads(b, at, f)
        decreases |b| - at
      {
        if b[at] != 0xFF { return None; }
        var marker := b[at + 1];
        if 0xC0 <= marker <= 0xCF && marker !in [0xC4, 0xC8, 0xCC] {
          assert Leads(b, at, at);
          FrameFound(b, at);
          return Some(Facts(Jpg, U16(b, at + 7), U16(b, at + 5)));
        }
        at := at + 2 + U16(b, at + 2);
      }
    }
    return None;
  }

  // ---- what writers write is read back ----

  function Bytes16(n: nat): seq<Byte>
    requires n < 0x10000
  {
    [n / 0x100, n % 0x100]
  }

  function Bytes32(n: nat): seq<Byte>
    requires n < 0x1_0000_0000
  {
    Bytes16(n / 0x10000) + Bytes16(n % 0x10000)
  }

  /** A segment that is no frame header: its marker and what follows its length. */
  datatype Segment = Segment(marker: Byte, payload: seq<Byte>)

  predicate Writable(segments: seq<Segment>) {
    forall s :: s in segments ==> !IsFrame(s.marker) && |s.payload| + 2 < 0x10000
  }

  function Written(s: Segment): seq<Byte>
    requires |s.payload| + 2 < 0x10000
  {
    [0xFF, s.marker] + Bytes16(|s.payload| + 2) + s.payload
  }

  function AllWritten(segments: seq<Segment>): seq<Byte>
    requires Writable(segments)
  {
    if segments == [] then [] else Written(segments[0]) + AllWritten(segments[1..])
  }

  function FrameHeader(marker: Byte, length: nat, precision: Byte, width: nat, height: nat): seq<Byte>
    requires length < 0x10000 && width < 0x10000 && height < 0x10000
  {
    [0xFF, marker] + Bytes16(length) + [precision] + Bytes16(height) + Bytes16(width)
  }

  lemma LeadsOver(b: seq<Byte>, at: nat, next: nat, frame: nat)
    requires at + 4 <= |b| && b[at] == 0xFF && !IsFrame(b[at + 1]) && next == at + 2 + U16(b, at + 2)
    requires Leads(b, next, frame)
    ensures Leads(b, at, frame)
  {
  }

  lemma FrameAtOnce(head: seq<Byte>, tail: seq<Byte>)
    requires |tail| > 9 && tail[0] == 0xFF && IsFrame(tail[1])
    ensures Leads(head + tail, |head|, |head|)
  {
    assert (head + tail)[|head|] == tail[0] && (head + tail)[|head| + 1] == tail[1];
  }

  lemma {:induction false} SegmentsLead(head: seq<Byte>, segments: seq<Segment>, tail: seq<Byte>)
    requires Writable(segments)
    requires |tail| > 9 && tail[0] == 0xFF && IsFrame(tail[1])
    ensures Leads(head + AllWritten(segments) + tail, |head|, |head + AllWritten(segments)|)
    decreases |segments|
  {
    if segments == [] {
      assert head + [] == head;
      FrameAtOnce(head, tail);
    } else {
      var first, more := Written(segments[0]), AllWritten(segments[1..]);
      SegmentsLead(head + first, segments[1..], tail);
      FirstSegment(head, segments[0], more + tail);
      Regroup(head, first, more, tail);
      LeadsOver(head + (first + more) + tail, |head|, |head + first|, |head + first + more|);
    }
  }

  lemma Regroup(a: seq<Byte>, b: seq<Byte>, c: seq<Byte>, d: seq<Byte>)
    ensures a + (b + c) + d == (a + b) + c + d == a + b + (c + d)
  {
  }

  lemma FirstSegment(head: seq<Byte>, s: Segment, rest: seq<Byte>)
    requires |s.payload| + 2 < 0x10000
    ensures var whole := head + Written(s) + rest;
      && whole[|head|] == 0xFF && whole[|head| + 1] == s.marker && U16(whole, |head| + 2) == |s.payload| + 2
      && |head| + 2 + U16(whole, |head| + 2) == |head + Written(s)|
  {
    var whole, own := head + Written(s) + rest, Written(s);
    assert forall k :: 0 <= k < 4 ==> whole[|head| + k] == own[k];
  }

  /** Start of image, any segments, a frame header and at least one more byte: its size is read. */
  lemma {:induction false} JpegReadBack(segments: seq<Segment>, marker: Byte, length: nat, precision: Byte,
      width: nat, height: nat,
      rest: seq<Byte>)
    requires Writable(segments) && IsFrame(marker) && rest != []
    requires length < 0x10000 && width < 0x10000 && height < 0x10000
    ensures var b := [0xFF, 0xD8] + AllWritten(segments)
        + (FrameHeader(marker, length, precision, width, height) + rest);
      var f := 2 + |AllWritten(segments)|;
      IsJpg(b) && !IsPng(b) && Leads(b, 2, f) && U16(b, f + 7) == width && U16(b, f + 5) == height
  {
    var tail := FrameHeader(marker, length, precision, width, height) + rest;
    var b := [0xFF, 0xD8] + AllWritten(segments) + tail;
    var f := 2 + |AllWritten(segments)|;
    SegmentsLead([0xFF, 0xD8], segments, tail);
    assert b[..8][0] == 0xFF;
    assert b[f + 5] == tail[5] && b[f + 6] == tail[6] && b[f + 7] == tail[7] && b[f + 8] == tail[8];
  }

  /** The signature, the length and type of the first chunk, its size fields and one more byte. */
  lemma PngReadBack(lead: seq<Byte>, width: nat, height: nat, rest: seq<Byte>)
    requires |lead| == 8 && width < 0x1_0000_0000 && height < 0x1_0000_0000 && rest != []
    ensures var b := SIGNATURE + lead + Bytes32(width) + Bytes32(height) + rest;
      IsPng(b) && U32(b, 16) == width && U32(b, 20) == height
  {
    var b := SIGNATURE + lead + Bytes32(width) + Bytes32(height) + rest;
    assert b[..8] == SIGNATURE;
    var w, h := Bytes32(width), Bytes32(height);
    assert forall k :: 0 <= k < 4 ==> b[16 + k] == w[k] && b[20 + k] == h[k];
  }
}
