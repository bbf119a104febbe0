/** The instance's side of the parts protocol: the routes of scoped uploads and project files
    over the shared transfer primitive. One server value holds the caller's own uploads. */
module UploadServer {
  import opened Wrappers
  import opened PartTiling

  const PART_BYTES: nat := 1024 * 1024
  const TRANSFER_MAX_BYTES: nat := 4 * 1024 * 1024 * 1024
  const PENDING_LIMIT: nat := 16

  datatype Scope = CatalogSubmission | AutomationInput | File | BrandPage

  /** Where an upload goes: a project's files, or a scoped upload. */
  datatype Target = Project(projectId: string) | Scoped(scope: Scope)

  type UploadId = nat

  /** A stored blob: its bytes, and what storage says of it without reading them, a size and a
      SHA-256, or none where it reports an ETag. */
  datatype Blob = Blob(bytes: Bytes, size: nat, checksum: Option<Digest>)

  /** An upload's declaration, the blobs stored for it, how many parts went in order into its
      running digest, whether its expiry lies ahead, and whether it was finalized. Storage may lose
      or damage a blob, with or without its record telling, so `blobs` is unconstrained; a restart
      forgets the running digest. */
  datatype Upload = Upload(target: Target, size: nat, checksum: Digest, parts: seq<Part>,
                           blobs: map<nat, Blob>, hashed: nat, live: bool, ready: bool)

  /** Whether the process has room for another running digest, and whether what is put into
      storage is recorded with its SHA-256. */
  datatype Storage = Storage(tracks: bool, reports: bool)

  /** `next` is an id never handed out; `maxBytes` the per-file cap; `room` what the byte
      budgets still admit. */
  datatype Server = Server(uploads: map<UploadId, Upload>, next: UploadId, maxBytes: nat, room: nat, storage: Storage)

  datatype Call =
    | AskParts(target: Target, id: UploadId)
    | Begin(target: Target, size: nat, checksum: Digest, parts: seq<Part>)
    | SendPart(target: Target, id: UploadId, n: nat, bytes: Bytes)
    | Finalize(target: Target, id: UploadId)

  datatype Body =
    | Nothing
    | Progress(ready: bool, missing: seq<nat>, partBytes: nat)
    | Begun(id: UploadId, beginPartBytes: nat)
    | Finished(finishedId: UploadId, checksum: Digest, size: nat, isReady: bool)

  datatype Reply = Reply(status: nat, body: Body) {
    predicate IsOk() {
      200 <= status < 300
    }
  }

  // ---- the shared transfer primitive ----

  /** A stored part by its record: the declared size and, where there is one, the declared digest. */
  predicate Recorded(u: Upload, n: nat) {
    && n < |u.parts| && n in u.blobs && u.blobs[n].size == u.parts[n].size
    && (u.blobs[n].checksum.Some? ==> u.blobs[n].checksum.value == u.parts[n].checksum)
  }

  /** A stored part by its bytes. */
  predicate Intact(u: Upload, n: nat) {
    && n < |u.parts| && n in u.blobs && |u.blobs[n].bytes| == u.parts[n].size
    && Sha256(u.blobs[n].bytes) == u.parts[n].checksum
  }

  predicate AllRecorded(u: Upload) {
    forall n :: 0 <= n < |u.parts| ==> Recorded(u, n)
  }

  predicate AllIntact(u: Upload) {
    forall n :: 0 <= n < |u.parts| ==> Intact(u, n)
  }

  /** The part numbers from `n` on that are not stored, by their records, ascending. */
  function MissingFrom(u: Upload, n: nat): (missing: seq<nat>)
    ensures forall k :: k in missing <==> n <= k < |u.parts| && !Recorded(u, k)
    ensures forall i, j :: 0 <= i < j < |missing| ==> missing[i] < missing[j]
    decreases |u.parts| - n
  {
    if n >= |u.parts| then []
    else if Recorded(u, n) then MissingFrom(u, n + 1)
    else
      var rest := MissingFrom(u, n + 1);
      assert forall j :: 0 <= j < |rest| ==> rest[j] in rest;
      [n] + rest
  }

  /** `Fault`: a blob that is too long to be read as a part. */
  datatype Verdict = Complete | Incomplete | Mismatch | Fault

  /** The bytes held for an upload's parts, in order. */
  function Held(u: Upload): Bytes {
    Join(seq(|u.parts|, n requires 0 <= n => if n in u.blobs then u.blobs[n].bytes else []))
  }

  /** The digest of the parts as they were accepted, which is what was declared for them. */
  function Accepted(u: Upload): Digest {
    Sha256(Join(Declared(u)))
  }

  /** The bytes that were declared for each part. */
  function Declared(u: Upload): seq<Bytes> {
    seq(|u.parts|, n requires 0 <= n < |u.parts| => u.parts[n].checksum.of)
  }

  /** Every record says a SHA-256. */
  predicate Told(u: Upload) {
    forall n :: 0 <= n < |u.parts| && n in u.blobs ==> u.blobs[n].checksum.Some?
  }

  /** The check goes by records alone: for a single part, or with a running digest of all parts. */
  predicate Unread(u: Upload) {
    Told(u) && (|u.parts| == 1 || u.hashed == |u.parts| > 0)
  }

  /** The records from part `n` on: the first bad one decides. */
  function CheckRecords(u: Upload, n: nat): Verdict
    decreases |u.parts| - n
  {
    if n >= |u.parts| then Complete
    else if n !in u.blobs then Incomplete
    else if !Recorded(u, n) then Mismatch
    else CheckRecords(u, n + 1)
  }

  /** The bytes from part `n` on, and then the whole. */
  function CheckBytes(u: Upload, n: nat): Verdict
    decreases |u.parts| - n
  {
    if n >= |u.parts| then Agrees(u, Sha256(Held(u)))
    else if n !in u.blobs then Incomplete
    else if |u.blobs[n].bytes| > PART_BYTES then Fault
    else if !Intact(u, n) then Mismatch
    else CheckBytes(u, n + 1)
  }

  function Agrees(u: Upload, whole: Digest): Verdict {
    if whole == u.checksum then Complete else Mismatch
  }

  /** verifyTransfer: the records of all parts, then the whole digest from the one part, from the
      running digest or from the bytes read back. */
  function Verify(u: Upload): Verdict {
    if CheckRecords(u, 0) != Complete then CheckRecords(u, 0)
    else if Told(u) && |u.parts| == 1 then Agrees(u, u.parts[0].checksum)
    else if Unread(u) then Agrees(u, Accepted(u))
    else CheckBytes(u, 0)
  }

  /** A part that is accepted goes into the running digest if it is the next one. */
  function Tracked(hashed: nat, n: nat, storage: Storage): nat {
    if hashed == n && (n > 0 || storage.tracks) then n + 1 else hashed
  }

  /** The upload after part `n` was stored. */
  function Put(u: Upload, n: nat, bytes: Bytes, storage: Storage): Upload {
    var blob := Blob(bytes, |bytes|, if storage.reports then Some(Sha256(bytes)) else None);
    u.(blobs := u.blobs[n := blob], hashed := Tracked(u.hashed, n, storage))
  }

  /** The manifest of a begin body that the instance takes. */
  predicate ValidManifest(size: nat, checksum: Digest, parts: seq<Part>, maxBytes: nat) {
    && 1 <= size <= Min(maxBytes, TRANSFER_MAX_BYTES)
    && |parts| == PartCount(size, PART_BYTES)
    && (forall n :: 0 <= n < |parts| ==> parts[n].size == Min(PART_BYTES, size - Offset(n, PART_BYTES)))
    && (|parts| == 1 ==> parts[0].checksum == checksum)
  }

  /** A reader's view of a finished upload: the bytes, each part and the whole verified, or nothing. */
  function ReadTransfer(u: Upload): (bytes: seq<Bytes>) {
    if AllIntact(u) && Sha256(Held(u)) == u.checksum then [Held(u)] else []
  }

  // ---- the routes ----

  /** Not past its expiry; a finished project file has none. */
  predicate Active(u: Upload) {
    u.live || (u.ready && u.target.Project?)
  }

  /** The upload a route finds: project routes look inside their project. */
  predicate Finds(s: Server, target: Target, id: UploadId) {
    id in s.uploads &&
    (if target.Project? then s.uploads[id].target == target else s.uploads[id].target.Scoped?)
  }

  /** Unfinished uploads that count toward the pending limit for this kind of target. */
  function Pending(s: Server, target: Target): set<UploadId> {
    set id | id in s.uploads && s.uploads[id].live && !s.uploads[id].ready
             && s.uploads[id].target.Project? == target.Project?
  }

  /** Whether a begin of this size would be reserved. */
  predicate HasRoom(s: Server, target: Target, size: nat) {
    size <= Min(s.maxBytes, TRANSFER_MAX_BYTES) && size <= s.room && |Pending(s, target)| < PENDING_LIMIT
  }

  function Handle(s: Server, call: Call): (Server, Reply) {
    match call
    case Begin(target, size, checksum, parts) => HandleBegin(s, target, size, checksum, parts)
    case AskParts(target, id) =>
      if !Finds(s, target, id) then (s, Reply(404, Nothing))
      else if !Active(s.uploads[id]) then (s, Reply(410, Nothing))
      else
        var u := s.uploads[id];
        (s, Reply(200, Progress(u.ready, if u.ready then [] else MissingFrom(u, 0), PART_BYTES)))
    case SendPart(target, id, n, bytes) =>
      if !Finds(s, target, id) then (s, Reply(404, Nothing)) else HandlePart(s, id, n, bytes)
    case Finalize(target, id) =>
      if !Finds(s, target, id) then (s, Reply(404, Nothing)) else HandleFinalize(s, id)
  }

  function HandleBegin(s: Server, target: Target, size: nat, checksum: Digest, parts: seq<Part>): (Server, Reply) {
    if size > s.maxBytes then (s, Reply(413, Nothing))
    else if !ValidManifest(size, checksum, parts, s.maxBytes) then (s, Reply(400, Nothing))
    else if !HasRoom(s, target, size) then (s, Reply(413, Nothing))
    else
      var u := Upload(target, size, checksum, parts, map[], 0, true, false);
      (s.(uploads := s.uploads[s.next := u], next := s.next + 1), Reply(201, Begun(s.next, PART_BYTES)))
  }

  function HandlePart(s: Server, id: UploadId, n: nat, bytes: Bytes): (Server, Reply)
    requires id in s.uploads
  {
    var u := s.uploads[id];
    if u.ready then (s, Reply(409, Nothing))
    else if !Active(u) then (s, Reply(410, Nothing))
    else if n >= |u.parts| then (s, Reply(400, Nothing))
    else if |bytes| != u.parts[n].size || Sha256(bytes) != u.parts[n].checksum then (s, Reply(422, Nothing))
    else (s.(uploads := s.uploads[id := Put(u, n, bytes, s.storage)]), Reply(204, Nothing))
  }

  function Finish(u: Upload): Upload {
    u.(ready := true, hashed := 0)
  }

  function HandleFinalize(s: Server, id: UploadId): (Server, Reply)
    requires id in s.uploads
  {
    var u := s.uploads[id];
    if !Active(u) then (s, Reply(410, Nothing))
    else if u.ready then (s, Reply(200, Finished(id, u.checksum, u.size, true)))
    else
      match Verify(u)
      case Incomplete => (s, Reply(409, Nothing))
      case Mismatch => (s, Reply(422, Nothing))
      case Fault => (s, Reply(500, Nothing))
      case Complete =>
        (s.(uploads := s.uploads[id := Finish(u)]), Reply(200, Finished(id, u.checksum, u.size, true)))
  }

  // ---- what else may happen to a server ----

  /** The same declaration: what a begin fixes for good. */
  predicate SameDeclaration(u: Upload, v: Upload) {
    u.target == v.target && u.size == v.size && u.checksum == v.checksum && u.parts == v.parts
  }

  /** Every upload has an id that was handed out. */
  predicate IdsInUse(s: Server) {
    forall id :: id in s.uploads ==> id < s.next
  }

  /** Anything that time, sweeps, storage faults and other clients may do: uploads expire, are
      removed, lose or change blobs or get finished elsewhere, and new ones begin under new ids;
      a declaration never changes and an expired upload never comes back to life. */
  predicate Drifts(s: Server, t: Server) {
    && IdsInUse(t) && s.next <= t.next
    && forall id :: id in t.uploads && id < s.next ==>
        && id in s.uploads && SameDeclaration(s.uploads[id], t.uploads[id])
        && (t.uploads[id].live ==> s.uploads[id].live)
        && (s.uploads[id].ready ==> t.uploads[id].ready)
  }

  /** Answering a call is itself within what may happen to a server. */
  lemma {:induction false} HandleDrifts(s: Server, call: Call)
    requires IdsInUse(s)
    ensures Drifts(s, Handle(s, call).0)
  {
  }

  lemma DriftsTransitive(s: Server, t: Server, v: Server)
    requires Drifts(s, t) && Drifts(t, v)
    ensures Drifts(s, v)
  {
  }

  // ---- verified bytes ----

  /** The upload declares exactly the bytes behind `checksum`, cut into the instance's parts. */
  predicate Declares(u: Upload, target: Target, checksum: Digest) {
    u.target == target && u.checksum == checksum && u.size == |checksum.of|
        && u.parts == Manifest(checksum.of, PART_BYTES)
  }

  /** An intact part of an upload that declares some bytes is that slice of them. */
  lemma IntactIsSlice(u: Upload, target: Target, checksum: Digest, n: nat)
    requires Declares(u, target, checksum) && Intact(u, n)
    ensures u.blobs[n].bytes == Slice(checksum.of, PART_BYTES, n)
  {
  }

  lemma {:induction false} RecordsMean(u: Upload, n: nat)
    ensures CheckRecords(u, n) == Complete <==> forall k :: n <= k < |u.parts| ==> Recorded(u, k)
    ensures CheckRecords(u, n) == Incomplete
       <==> exists k :: n <= k < |u.parts| && k !in u.blobs && forall j :: n <= j < k ==> Recorded(u, j)
    decreases |u.parts| - n
  {
    if n < |u.parts| {
      RecordsMean(u, n + 1);
      if n !in u.blobs {
        assert !Recorded(u, n);
      } else if Recorded(u, n) {
        if k :| n + 1 <= k < |u.parts| && k !in u.blobs && forall j :: n + 1 <= j < k ==> Recorded(u, j) {
          assert forall j :: n <= j < k ==> Recorded(u, j);
        }
      }
    }
  }

  lemma {:induction false} BytesMean(u: Upload, n: nat)
    requires forall k :: 0 <= k < |u.parts| ==> u.parts[k].size <= PART_BYTES
    ensures CheckBytes(u, n) == Complete
       <==> Sha256(Held(u)) == u.checksum && forall k :: n <= k < |u.parts| ==> Intact(u, k)
    ensures CheckBytes(u, n) == Incomplete ==> exists k :: n <= k < |u.parts| && k !in u.blobs
    decreases |u.parts| - n
  {
    if n < |u.parts| {
      BytesMean(u, n + 1);
      if !Intact(u, n) { assert CheckBytes(u, n) != Complete; }
    }
  }

  /** The first part that is not recorded as declared has no blob at all. */
  predicate FirstBadIsAbsent(u: Upload) {
    exists k :: 0 <= k < |u.parts| && k !in u.blobs && forall j :: 0 <= j < k ==> Recorded(u, j)
  }

  /** What finalize's check says of an upload that declares some bytes: complete exactly if every
      record is as declared and the bytes are too, unless they are not read; incomplete exactly if
      the first bad record is an absent one. */
  lemma VerifyMeans(u: Upload, target: Target, checksum: Digest)
    requires Declares(u, target, checksum)
    ensures Verify(u) == Complete <==> AllRecorded(u) && (Unread(u) || AllIntact(u))
    ensures Verify(u) == Incomplete <==> FirstBadIsAbsent(u)
  {
    RecordsMean(u, 0);
    if CheckRecords(u, 0) == Complete { GoodRecords(u, target, checksum); }
  }

  /** With good records, what is left is the whole digest. */
  lemma GoodRecords(u: Upload, target: Target, checksum: Digest)
    requires Declares(u, target, checksum) && CheckRecords(u, 0) == Complete && AllRecorded(u)
    ensures Verify(u) == Complete <==> Unread(u) || AllIntact(u)
    ensures Verify(u) != Incomplete && !FirstBadIsAbsent(u)
  {
    forall k | 0 <= k < |u.parts| ensures k in u.blobs { assert Recorded(u, k); }
    AcceptedIsDeclared(u, target, checksum);
    ReadBackMeans(u, target, checksum);
  }

  lemma ReadBackMeans(u: Upload, target: Target, checksum: Digest)
    requires Declares(u, target, checksum) && forall k :: 0 <= k < |u.parts| ==> k in u.blobs
    ensures (CheckBytes(u, 0) == Complete <==> AllIntact(u)) && CheckBytes(u, 0) != Incomplete
  {
    Tiling(checksum.of, PART_BYTES);
    BytesMean(u, 0);
    if AllIntact(u) { IntactIsSource(u, target, checksum); }
  }

  /** The digest of one part, and that of all accepted parts, is the declared one. */
  lemma AcceptedIsDeclared(u: Upload, target: Target, checksum: Digest)
    requires Declares(u, target, checksum)
    ensures Accepted(u) == checksum && (|u.parts| == 1 ==> u.parts[0].checksum == checksum)
  {
    Tiling(checksum.of, PART_BYTES);
    PartsAreSlices(u, target, checksum);
    if |u.parts| == 1 { OnlyPart(checksum.of); }
  }

  lemma PartsAreSlices(u: Upload, target: Target, checksum: Digest)
    requires Declares(u, target, checksum)
    ensures var q := |u.parts|;
      Declared(u) == seq(q, n requires 0 <= n < q => Slice(checksum.of, PART_BYTES, n))
  {
    forall n | 0 <= n < |u.parts| ensures u.parts[n].checksum.of == Slice(checksum.of, PART_BYTES, n) { }
  }

  lemma OnlyPart(content: Bytes)
    requires |Manifest(content, PART_BYTES)| == 1
    ensures Manifest(content, PART_BYTES)[0].checksum == Sha256(content)
  {
    Tiling(content, PART_BYTES);
    var only := seq(1, n requires 0 <= n < 1 => Slice(content, PART_BYTES, n));
    assert only[..0] == [];
    assert Join(only) == only[0];
  }

  /** All parts intact: what is held is what was declared. */
  lemma IntactIsSource(u: Upload, target: Target, checksum: Digest)
    requires Declares(u, target, checksum) && AllIntact(u)
    ensures Held(u) == checksum.of
  {
    var q := |u.parts|;
    assert seq(q, n requires 0 <= n => if n in u.blobs then u.blobs[n].bytes else [])
        == seq(q, n requires 0 <= n < q => Slice(checksum.of, PART_BYTES, n)) by {
      forall n | 0 <= n < q ensures n in u.blobs && u.blobs[n].bytes == Slice(checksum.of, PART_BYTES, n) {
        assert Intact(u, n);
        IntactIsSlice(u, target, checksum, n);
      }
    }
    Tiling(checksum.of, PART_BYTES);
  }

  /** Whatever storage did since, a verified read of an upload that declares a source either
      fails or gives back exactly that source; it gives it back exactly when every part is intact. */
  lemma ReadsBackSource(u: Upload, target: Target, checksum: Digest)
    requires Declares(u, target, checksum)
    ensures ReadTransfer(u) == [] || ReadTransfer(u) == [checksum.of]
    ensures ReadTransfer(u) == [checksum.of] <==> AllIntact(u)
  {
    if AllIntact(u) { IntactIsSource(u, target, checksum); }
  }

  /** The manifest a client computes is one the instance takes, exactly when the size is allowed. */
  lemma OwnManifestIsValid(content: Bytes, maxBytes: nat)
    ensures ValidManifest(|content|, Sha256(content), Manifest(content, PART_BYTES), maxBytes)
       <==> 1 <= |content| <= Min(maxBytes, TRANSFER_MAX_BYTES)
  {
    Tiling(content, PART_BYTES);
    if |Manifest(content, PART_BYTES)| == 1 { OnlyPart(content); }
  }
}
