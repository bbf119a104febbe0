/** The runs that meet what storage lost or damaged, for every source. */
module UploadDamage {
  import opened Wrappers
  import opened PartTiling
  import opened UploadServer
  import opened UploadKeys
  import opened UploadWorld
  import opened UploadTurns
  import opened UploadClient
  import opened UploadEnd
  import opened UploadRun
  import opened UploadCommand
  import opened UploadOutcome

  /** What is stored when every part is, but for the bytes of the first, which are gone. */
  function FirstDamaged(job: Job): map<nat, Blob> {
    map n: nat | n < job.Count() ::
      Blob(if n == 0 then [] else Slice(job.content, PART_BYTES, n), job.Parts()[n].size, Some(job.Parts()[n].checksum))
  }

  function UploadWith(job: Job, blobs: map<nat, Blob>, hashed: nat, ready: bool): Upload {
    Upload(job.target, |job.content|, job.Checksum(), job.Parts(), blobs, hashed, true, ready)
  }

  predicate CanRun(job: Job) {
    job.content != [] && job.partBytes == PART_BYTES && !Ambiguous(job.base)
  }

  /** Parts that are not intact and will not be sent again. */
  predicate Bad(u: Upload) {
    if u.ready then !AllIntact(u) else Hidden(u)
  }

  const STORAGE := Storage(true, true)

  /** An undisturbed run when the disk names this upload. */
  method RunOn(job: Job, upload: Upload) returns (r: Outcome<UploadResult>, w: World)
    requires CanRun(job) && upload.live && Declares(upload, job.target, job.Checksum())
    ensures job.base in w.servers && (r.Ok? <==> !Bad(upload) || upload.ready || GoesByRecords(upload, STORAGE))
    ensures r.Ok? ==>
      && job.Key() !in w.saved && r.value.sentParts == |ToSend(upload)| && r.value.id in w.servers[job.base].uploads
      && (ReadTransfer(w.servers[job.base].uploads[r.value.id]) == [job.content] <==> !Bad(upload))
      && ReadTransfer(w.servers[job.base].uploads[r.value.id]) in {[], [job.content]}
    ensures !r.Ok? ==> r.Threw? && (r.status == 422 || r.status == 500) && (job.Key() !in w.saved <==> r.status == 422)
  {
    var server := Server(map[0 := upload], 1, |job.content|, 0, STORAGE);
    var entry := SavedUpload(0, job.Checksum(), |job.content|);
    w := new World(map[job.base := server], []);
    SavingKeepsStore(w.servers, map[], job.base, job.target, job.Checksum(), |job.content|, entry);
    w.saved := map[job.Key() := entry];
    NoScriptIsFair(server, w.saved, job);
    assert SavedPlace(server, w.saved, job) == Place(0, ToSend(upload));
    r := UndisturbedUpload(w, job);
    if r.Ok? { ReadsBackSource(w.servers[job.base].uploads[r.value.id], job.target, job.Checksum()); }
  }

  lemma {:induction false} FirstIsHidden(job: Job, hashed: nat, ready: bool)
    requires CanRun(job)
    ensures var u := UploadWith(job, FirstDamaged(job), hashed, ready);
      && Declares(u, job.target, job.Checksum()) && AllRecorded(u) && Told(u) && MissingFrom(u, 0) == []
      && Hidden(u) && !AllIntact(u)
  {
    Tiling(job.content, PART_BYTES);
    CountIsCeiling(|job.content|, PART_BYTES);
    var u := UploadWith(job, FirstDamaged(job), hashed, ready);
    assert Recorded(u, 0) && !Intact(u, 0);
    if MissingFrom(u, 0) != [] { assert MissingFrom(u, 0)[0] in MissingFrom(u, 0); }
  }

  /** An upload finished in an earlier run whose answer was lost, and whose blobs storage has lost
      since. The command reports success and forgets the upload, and there is nothing to read. */
  method FinishedThenLost(job: Job) returns (r: Outcome<UploadResult>, w: World)
    requires CanRun(job)
    ensures r.Ok? && job.Key() !in w.saved && job.base in w.servers
    ensures r.value.id in w.servers[job.base].uploads && ReadTransfer(w.servers[job.base].uploads[r.value.id]) == []
  {
    Tiling(job.content, PART_BYTES);
    CountIsCeiling(|job.content|, PART_BYTES);
    var upload := UploadWith(job, map[], 0, true);
    assert !Intact(upload, 0);
    r, w := RunOn(job, upload);
  }

  /** An open upload whose first part lost its bytes under a record that does not tell, and whose
      running digest is whole. Nothing is missing by the records and the check goes by them: success
      again, and nothing to read. */
  method DamageUnseen(job: Job) returns (r: Outcome<UploadResult>, w: World)
    requires CanRun(job)
    ensures r.Ok? && r.value.sentParts == 0 && job.Key() !in w.saved && job.base in w.servers
    ensures r.value.id in w.servers[job.base].uploads && ReadTransfer(w.servers[job.base].uploads[r.value.id]) == []
  {
    FirstIsHidden(job, job.Count(), false);
    r, w := RunOn(job, UploadWith(job, FirstDamaged(job), job.Count(), false));
  }

  /** The same damage without a running digest, of a source with more than one part: the bytes are
      read, the run fails, and unless a blob was too long to read the next one begins afresh. */
  method DamageSeen(job: Job) returns (r: Outcome<UploadResult>, w: World)
    requires CanRun(job) && job.Count() > 1
    ensures r.Threw? && (r.status == 422 || r.status == 500) && (job.Key() !in w.saved <==> r.status == 422)
  {
    FirstIsHidden(job, 0, false);
    r, w := RunOn(job, UploadWith(job, FirstDamaged(job), 0, false));
  }
}
