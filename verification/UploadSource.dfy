/** Reading a source by offset, and describing it in one pass. */
module UploadSource {
  import opened Wrappers
  import opened PartTiling

  /** The platform's positioned read: it puts at least one byte into the buffer unless none is
      wanted or the file ends at `position`, and may stop short; `most` says how short. */
  method ReadSome(file: Bytes, buffer: array<Byte>, got: nat, want: nat, position: nat, most: nat) returns (count: nat)
    requires got + want <= buffer.Length
    modifies buffer
    ensures count <= want && (count > 0 ==> position + count <= |file|)
    ensures count == 0 <==> want == 0 || position >= |file|
    ensures count > 0 ==>
        buffer[..] == old(buffer[..got]) + file[position..position + count] + old(buffer[got + count..])
    ensures count == 0 ==> buffer[..] == old(buffer[..])
  {
    if want == 0 || position >= |file| {
      return 0;
    }
    count := Min(want, |file| - position);
    if 0 < most < count { count := most; }
    forall i | 0 <= i < count {
      buffer[got + i] := file[position + i];
    }
  }

  /** Read exactly `length` bytes through any short reads; `plan` gives how short each one is.
      It fails exactly when the file no longer reaches that far. */
  method Read(file: Bytes, offset: nat, length: nat, plan: seq<nat>) returns (bytes: Option<Bytes>)
    ensures bytes.Some? <==> length == 0 || offset + length <= |file|
    ensures bytes.Some? && length == 0 ==> bytes.value == []
    ensures bytes.Some? && length > 0 ==> bytes.value == file[offset..offset + length]
  {
    var buffer := new Byte[length];
    var got, turn := 0, 0;
    while got < length
      invariant got <= length
      invariant got > 0 ==> offset + got <= |file| && buffer[..got] == file[offset..offset + got]
    {
      var count := ReadSome(file, buffer, got, length - got, offset + got, if turn < |plan| then plan[turn] else 0);
      if count == 0 {
        return None;
      }
      assert buffer[..got + count] == file[offset..offset + got + count];
      got, turn := got + count, turn + 1;
    }
    assert buffer[..] == buffer[..length];
    return Some(buffer[..]);
  }

  datatype Description = Description(checksum: Digest, parts: seq<Part>)

  /** The part that the pass reads next is the next one of the manifest. */
  lemma NextPart(file: Bytes, size: nat, partBytes: nat, n: nat)
    requires partBytes > 0 && size <= |file| && n < PartCount(size, partBytes) && Offset(n, partBytes) < size
    ensures var offset := Offset(n, partBytes);
      var length := Min(partBytes, size - offset);
      Manifest(file[..size], partBytes)[..n + 1] ==
      Manifest(file[..size], partBytes)[..n] + [Part(length, Sha256(file[offset..offset + length]))]
  {
    var offset := Offset(n, partBytes);
    var length := Min(partBytes, size - offset);
    SliceWindow(file[..size], partBytes, n);
    assert file[..size][offset..offset + length] == file[offset..offset + length];
  }

  /** One pass over a file that was `size` bytes long when it was opened, a part at a time.
      It gives the manifest of those bytes, or fails exactly when the file got shorter. */
  method DescribeSource(file: Bytes, size: nat, partBytes: nat, plan: seq<nat>) returns (d: Option<Description>)
    requires partBytes > 0
    ensures d.Some? <==> size <= |file|
    ensures d.Some? ==> d.value == Description(Sha256(file[..size]), Manifest(file[..size], partBytes))
  {
    var whole: Bytes, parts := [], [];
    var offset, n := 0, 0;
    CountIsCeiling(size, partBytes);
    while offset < size
      invariant offset == Offset(n, partBytes) && n <= PartCount(size, partBytes)
      invariant Min(offset, size) <= |file| && whole == file[..Min(offset, size)]
      invariant size <= |file| ==> parts == Manifest(file[..size], partBytes)[..n]
      decreases size - offset
    {
      var length := Min(partBytes, size - offset);
      var bytes := Read(file, offset, length, plan);
      if bytes.None? {
        return None;
      }
      OffsetInRange(size, partBytes, n);
      OffsetStep(n, partBytes);
      if size <= |file| {
        NextPart(file, size, partBytes, n);
      }
      whole := whole + bytes.value;
      parts := parts + [Part(|bytes.value|, Sha256(bytes.value))];
      offset, n := offset + partBytes, n + 1;
    }
    OffsetInRange(size, partBytes, n);
    return Some(Description(Sha256(whole), parts));
  }
}
