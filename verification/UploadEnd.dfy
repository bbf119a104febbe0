/** How a finalize ends, from what the instance holds: parts as they are recorded and parts as their
    bytes are, before and after what is missing was sent again. */
module UploadEnd {
  import opened Wrappers
  import opened PartTiling
  import opened UploadServer
  import opened UploadWorld
  import opened UploadTurns
  import opened UploadClient

  /** The status of a finalize of an active upload. */
  function FinalStatus(u: Upload): nat {
    if u.ready then 200
    else match Verify(u) case Complete => 200 case Incomplete => 409 case Mismatch => 422 case Fault => 500
  }

  /** A part is damaged under a record that does not tell. */
  predicate Hidden(u: Upload) {
    exists n :: 0 <= n < |u.parts| && Recorded(u, n) && !Intact(u, n)
  }

  /** The upload once what its records miss was sent. */
  function Refilled(u: Upload, job: Job, storage: Storage): Upload {
    SentAll(u, job, MissingFrom(u, 0), storage)
  }

  /** Then every record is good, and so are the bytes unless damage was hidden. The check passes
      exactly if it does not read the bytes or none was hidden. */
  lemma {:induction false} RefilledMeans(u: Upload, job: Job, storage: Storage)
    requires Declares(u, job.target, job.Checksum())
    ensures var v := Refilled(u, job, storage);
      && Declares(v, job.target, job.Checksum()) && AllRecorded(v) && (AllIntact(v) <==> !Hidden(u))
      && (Verify(v) == Complete <==> Unread(v) || !Hidden(u)) && Verify(v) != Incomplete
  {
    var v, missing := Refilled(u, job, storage), MissingFrom(u, 0);
    forall n | 0 <= n < |u.parts| ensures Recorded(v, n) && (Intact(v, n) <==> !Recorded(u, n) || Intact(u, n)) {
      SentParts(u, job, missing, storage, n);
      IntactWasRecorded(u, n);
    }
    VerifyMeans(v, job.target, job.Checksum());
    forall k | 0 <= k < |v.parts| ensures k in v.blobs { assert Recorded(v, k); }
  }

  lemma IntactWasRecorded(u: Upload, n: nat)
    ensures n < |u.parts| ==> (n in MissingFrom(u, 0) <==> !Recorded(u, n))
  {
  }

  /** The upload the last finalize meets when a 409 is followed by sending what is missing. */
  function LastMet(u: Upload, job: Job, storage: Storage): Upload {
    if FinalStatus(u) == 409 then Refilled(u, job, storage) else u
  }

  /** How a run ends whose first finalize meets this upload. */
  function EndStatus(u: Upload, job: Job, storage: Storage): nat {
    FinalStatus(LastMet(u, job, storage))
  }

  /** It ends well exactly if the check passes at once, or if the first bad part is absent and, once
      the missing parts are sent, no damage is left hidden or none is looked for. */
  lemma {:induction false} EndsWell(u: Upload, job: Job, storage: Storage)
    requires Declares(u, job.target, job.Checksum()) && !u.ready
    ensures EndStatus(u, job, storage) == 200 <==>
      Verify(u) == Complete || (FirstBadIsAbsent(u) && (Unread(Refilled(u, job, storage)) || !Hidden(u)))
    ensures EndStatus(u, job, storage) != 409
  {
    VerifyMeans(u, job.target, job.Checksum());
    RefilledMeans(u, job, storage);
  }

  // ---- when the bytes are not read ----

  predicate Ascending(done: seq<nat>) {
    forall i, j :: 0 <= i < j < |done| ==> done[i] < done[j]
  }

  /** The running digest goes on as far as the parts that are sent follow on it. */
  lemma {:induction false} HashedOn(u: Upload, job: Job, done: seq<nat>, storage: Storage)
    requires Ascending(done)
    ensures var h := SentAll(u, job, done, storage).hashed;
      && u.hashed <= h && (forall n :: u.hashed <= n < h ==> n in done)
      && (u.hashed == 0 && !storage.tracks ==> h == 0)
      && (h in done ==> h == 0 && !storage.tracks)
  {
    if done != [] {
      var k := |done| - 1;
      HashedOn(u, job, done[..k], storage);
      assert done == done[..k] + [done[k]];
    }
  }

  /** The records of what stays and of what is sent all say a digest, and there is one part, or the
      running digest is whole or goes on with nothing but missing parts. */
  predicate GoesByRecords(u: Upload, storage: Storage) {
    && (forall n :: 0 <= n < |u.parts| && Recorded(u, n) ==> u.blobs[n].checksum.Some?)
    && (MissingFrom(u, 0) != [] ==> storage.reports)
    && (|u.parts| == 1 || (0 < |u.parts| && DigestGetsWhole(u, storage)))
  }

  predicate DigestGetsWhole(u: Upload, storage: Storage) {
    u.hashed == |u.parts| ||
    (u.hashed < |u.parts| && (u.hashed > 0 || storage.tracks) && forall n :: u.hashed <= n < |u.parts| ==>
        !Recorded(u, n))
  }

  lemma WholeDigest(u: Upload, job: Job, storage: Storage)
    ensures Refilled(u, job, storage).hashed == |u.parts| > 0 <==> 0 < |u.parts| && DigestGetsWhole(u, storage)
  {
    var missing := MissingFrom(u, 0);
    HashedOn(u, job, missing, storage);
    var h, q := Refilled(u, job, storage).hashed, |u.parts|;
    assert u.hashed <= q < h ==> q in missing;
    assert h < q && !Recorded(u, h) ==> h in missing;
    if u.hashed < h == q {
      forall n | u.hashed <= n < q ensures !Recorded(u, n) { assert n in missing; }
    }
  }

  /** From what is there before the run: whether the check after it will go by records alone. */
  lemma {:induction false} UnreadExactly(u: Upload, job: Job, storage: Storage)
    requires Declares(u, job.target, job.Checksum())
    ensures Unread(Refilled(u, job, storage)) <==> GoesByRecords(u, storage)
  {
    var v, missing := Refilled(u, job, storage), MissingFrom(u, 0);
    WholeDigest(u, job, storage);
    forall n | 0 <= n < |u.parts|
      ensures n in v.blobs && (v.blobs[n].checksum.Some? <==>
          if Recorded(u, n) then u.blobs[n].checksum.Some? else storage.reports)
    {
      SentBlobs(u, job, missing, storage, n);
    }
    if missing != [] { assert missing[0] in missing; }
  }
}
