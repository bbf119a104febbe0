/** How a source is cut into parts: every part but the last is full, and the parts
    joined in order are the source again. */
module PartTiling {
  type Byte = b: int | 0 <= b < 256
  type Bytes = seq<Byte>

  /** SHA-256, taken as collision-free: a digest determines the bytes it was made from. */
  datatype Digest = Sha256(of: Bytes)

  /** One row of a manifest. */
  datatype Part = Part(size: nat, checksum: Digest)

  function Min(a: int, b: int): int {
    if a < b then a else b
  }

  /** How many parts a source of `size` bytes has. */
  function PartCount(size: nat, partBytes: nat): nat
    requires partBytes > 0
  {
    (size + partBytes - 1) / partBytes
  }

  /** Where part `n` starts. */
  function Offset(n: nat, partBytes: nat): nat {
    n * partBytes
  }

  /** The bytes of part `n`: empty past the end of the source. */
  function Slice(content: Bytes, partBytes: nat, n: nat): Bytes {
    var from := Min(Offset(n, partBytes), |content|);
    content[from..Min(Offset(n + 1, partBytes), |content|)]
  }

  /** The manifest rows of a source. */
  function Manifest(content: Bytes, partBytes: nat): seq<Part>
    requires partBytes > 0
  {
    seq(PartCount(|content|, partBytes), n requires 0 <= n =>
      Part(|Slice(content, partBytes, n)|, Sha256(Slice(content, partBytes, n))))
  }

  /** Concatenation of chunks, in order. */
  function Join(chunks: seq<Bytes>): Bytes {
    if chunks == [] then [] else Join(chunks[..|chunks| - 1]) + chunks[|chunks| - 1]
  }

  function SumSizes(parts: seq<Part>): nat {
    if parts == [] then 0 else SumSizes(parts[..|parts| - 1]) + parts[|parts| - 1].size
  }

  /** A part number is in range exactly when its first byte is. */
  lemma OffsetInRange(size: nat, partBytes: nat, n: nat)
    requires partBytes > 0
    ensures n < PartCount(size, partBytes) <==> Offset(n, partBytes) < size
  {
    var q := PartCount(size, partBytes);
    assert q * partBytes <= size + partBytes - 1 < q * partBytes + partBytes;
    if n < q {
      assert n * partBytes <= (q - 1) * partBytes;
    } else {
      assert n * partBytes >= q * partBytes;
    }
  }

  /** The part count is the size divided by the part size, rounded up. */
  lemma CountIsCeiling(size: nat, partBytes: nat)
    requires partBytes > 0
    ensures var q := PartCount(size, partBytes); Offset(q, partBytes) >= size
    ensures var q := PartCount(size, partBytes); q > 0 ==> Offset(q - 1, partBytes) < size
    ensures size > 0 ==> PartCount(size, partBytes) > 0
  {
    var q := PartCount(size, partBytes);
    OffsetInRange(size, partBytes, q);
    if q > 0 { OffsetInRange(size, partBytes, q - 1); }
    OffsetInRange(size, partBytes, 0);
  }

  lemma OffsetStep(n: nat, partBytes: nat)
    ensures Offset(n + 1, partBytes) == Offset(n, partBytes) + partBytes
  {
  }

  /** Part `n` is the window the client reads again at n * partBytes. */
  lemma SliceWindow(content: Bytes, partBytes: nat, n: nat)
    requires partBytes > 0 && n < PartCount(|content|, partBytes)
    ensures var at := Offset(n, partBytes); var len := Min(partBytes, |content| - at);
      0 < len && at + len <= |content| && Slice(content, partBytes, n) == content[at..at + len]
    ensures n + 1 < PartCount(|content|, partBytes) ==> |Slice(content, partBytes, n)| == partBytes
  {
    OffsetInRange(|content|, partBytes, n);
    OffsetInRange(|content|, partBytes, n + 1);
    OffsetStep(n, partBytes);
  }

  /** The first `k` slices, joined, are the source up to byte k * partBytes. */
  lemma {:induction false} SlicesJoin(content: Bytes, partBytes: nat, k: nat)
    requires partBytes > 0
    ensures Join(seq(k, n requires 0 <= n < k => Slice(content, partBytes, n))) ==
        content[..Min(Offset(k, partBytes), |content|)]
  {
    var chunks := seq(k, n requires 0 <= n < k => Slice(content, partBytes, n));
    if k > 0 {
      SlicesJoin(content, partBytes, k - 1);
      assert chunks[..k - 1] == seq(k - 1, n requires 0 <= n < k - 1 => Slice(content, partBytes, n));
      OffsetStep(k - 1, partBytes);
    }
  }

  /** Sizes of the first `k` parts add up to the bytes before part `k`. */
  lemma {:induction false} SizesSum(content: Bytes, partBytes: nat, k: nat)
    requires partBytes > 0 && k <= PartCount(|content|, partBytes)
    ensures SumSizes(Manifest(content, partBytes)[..k]) == Min(Offset(k, partBytes), |content|)
  {
    if k > 0 {
      SizesSum(content, partBytes, k - 1);
      var rows := Manifest(content, partBytes);
      assert rows[..k][..k - 1] == rows[..k - 1];
      OffsetInRange(|content|, partBytes, k - 1);
      OffsetStep(k - 1, partBytes);
    }
  }

  /** Part tiling: for every size and part size, the parts have the ceiling count, all but the
      last are full, the sizes add up to the source and the slices join to it. */
  lemma Tiling(content: Bytes, partBytes: nat)
    requires partBytes > 0
    ensures var rows := Manifest(content, partBytes); var q := |rows|;
      && SumSizes(rows) == |content|
      && Join(seq(q, n requires 0 <= n < q => Slice(content, partBytes, n))) == content
      && (forall n :: 0 <= n < q ==> rows[n].size == Min(partBytes, |content| - Offset(n, partBytes)) > 0)
      && (forall n :: 0 <= n < q - 1 ==> rows[n].size == partBytes)
  {
    var rows := Manifest(content, partBytes);
    var q := |rows|;
    CountIsCeiling(|content|, partBytes);
    SizesSum(content, partBytes, q);
    assert rows[..q] == rows;
    SlicesJoin(content, partBytes, q);
    forall n | 0 <= n < q
      ensures rows[n].size == Min(partBytes, |content| - Offset(n, partBytes)) > 0
      ensures n < q - 1 ==> rows[n].size == partBytes
    {
      SliceWindow(content, partBytes, n);
    }
  }
}
