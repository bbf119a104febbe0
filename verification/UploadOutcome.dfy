/** How fair runs end, from what the instance and the disk held when they began: undisturbed, with
    tries wasted in time, and with parts lost or damaged just before the upload is finished. */
module UploadOutcome {
  import opened Wrappers
  import opened PartTiling
  import opened UploadServer
  import opened UploadKeys
  import opened UploadWorld
  import opened UploadTurns
  import opened UploadClient
  import opened UploadEnd
  import opened UploadRun
  import opened UploadRecovery
  import opened UploadCommand

  /** The upload the disk names is damaged under records that do not tell: any part of a finished
      one, or one recorded as stored. */
  predicate Spoiled(s: Server, saved: map<Key, SavedUpload>, job: Job) {
    Resumable(s, saved, job) &&
    var u := s.uploads[saved[job.Key()].id]; if u.ready then !AllIntact(u) else Hidden(u)
  }

  /** Exactly when an undisturbed run succeeds: a place to send to can be had, and an unfinished
      upload is not damaged under its records, or is checked by its records alone. */
  predicate Succeeds(s: Server, saved: map<Key, SavedUpload>, job: Job) {
    CanPlace(s, saved, job) &&
    (Spoiled(s, saved, job) ==>
      var u := s.uploads[saved[job.Key()].id]; u.ready || GoesByRecords(u, s.storage))
  }

  /** The parts such a run sends: those the instance lacks. */
  function PartsToSend(s: Server, saved: map<Key, SavedUpload>, job: Job): nat {
    |PlaceOf(s, saved, job).missing|
  }

  // ---- the upload at the first finalize ----

  lemma {:induction false} NothingStored(u: Upload, n: nat)
    requires u.blobs == map[] && n <= |u.parts|
    ensures |MissingFrom(u, n)| == |u.parts| - n && forall i :: 0 <= i < |u.parts| - n ==> MissingFrom(u, n)[i] == n + i
    decreases |u.parts| - n
  {
    if n < |u.parts| { NothingStored(u, n + 1); }
  }

  /** What a run starts from may be relied on. */
  ghost predicate Sound(s: Server, saved: map<Key, SavedUpload>, job: Job) {
    && IdsInUse(s) && job.partBytes > 0
    && (Resumable(s, saved, job) ==> Declares(s.uploads[saved[job.Key()].id], job.target, job.Checksum()))
  }

  /** A new upload is sent every part, which is what it lacks. */
  lemma {:induction false} NewIsRefilled(s: Server, saved: map<Key, SavedUpload>, job: Job)
    requires Sound(s, saved, job) && CanPlace(s, saved, job) && !Resumable(s, saved, job)
    ensures var t, place := Placed(s, saved, job), PlaceOf(s, saved, job);
      && Open(t, job, place.id) && t.uploads[place.id].blobs == map[] && t.storage == s.storage
      && place.missing == MissingFrom(t.uploads[place.id], 0)
  {
    BeginAnswers(s, CALM, job);
    var t, place := Placed(s, saved, job), PlaceOf(s, saved, job);
    NothingStored(t.uploads[place.id], 0);
  }

  /** The upload as the run finds or begins it. */
  function FoundUpload(s: Server, saved: map<Key, SavedUpload>, job: Job): Upload
    requires job.partBytes > 0 && PlaceOf(s, saved, job).id in Placed(s, saved, job).uploads
  {
    Placed(s, saved, job).uploads[PlaceOf(s, saved, job).id]
  }

  lemma {:induction false} FoundIs(s: Server, saved: map<Key, SavedUpload>, job: Job)
    requires Sound(s, saved, job) && CanPlace(s, saved, job)
    ensures var t, place := Placed(s, saved, job), PlaceOf(s, saved, job);
      && place.id in t.uploads && t.storage == s.storage && IdsInUse(t)
      && Declares(t.uploads[place.id], job.target, job.Checksum()) && Active(t.uploads[place.id])
      && place.missing == ToSend(t.uploads[place.id])
      && (Resumable(s, saved, job) ==> t == s && place.id == saved[job.Key()].id)
      && (!Resumable(s, saved, job) ==> !t.uploads[place.id].ready && t.uploads[place.id].blobs == map[])
  {
    if !Resumable(s, saved, job) { NewIsRefilled(s, saved, job); }
  }

  /** The upload at the first finalize: as it was, if it was finished, and else with what it lacked. */
  function Passed(u: Upload, job: Job, storage: Storage): Upload {
    if u.ready then u else Refilled(u, job, storage)
  }

  lemma PassOf(t: Server, job: Job, id: UploadId)
    requires id in t.uploads && IdsInUse(t)
    ensures var u, after := t.uploads[id], PassEnd(t, job, id, ToSend(t.uploads[id]));
      && id in after.uploads && after.uploads[id] == Passed(u, job, t.storage)
      && after.storage == t.storage && IdsInUse(after)
  {
  }

  lemma {:induction false} PassMakes(s: Server, saved: map<Key, SavedUpload>, job: Job)
    requires Sound(s, saved, job) && CanPlace(s, saved, job)
    ensures var t, id := AfterPass(s, saved, job), PlaceOf(s, saved, job).id;
      && id in Placed(s, saved, job).uploads && id in t.uploads && t.storage == s.storage && IdsInUse(t)
      && t.uploads[id] == Passed(FoundUpload(s, saved, job), job, s.storage)
  {
    FoundIs(s, saved, job);
    PassOf(Placed(s, saved, job), job, PlaceOf(s, saved, job).id);
  }

  // ---- nothing wrong from the first finalize on ----

  /** How the finalize of an upload that was passed over ends. */
  lemma PassedEnds(u: Upload, job: Job, storage: Storage)
    requires Declares(u, job.target, job.Checksum())
    ensures var v := Passed(u, job, storage);
      && Declares(v, job.target, job.Checksum()) && (Active(v) <==> Active(u))
      && (FinalStatus(v) == 200 <==> u.ready || GoesByRecords(u, storage) || !Hidden(u))
      && (FinalStatus(v) == 200 || FinalStatus(v) == 422 || FinalStatus(v) == 500)
      && (AllIntact(v) <==> if u.ready then AllIntact(u) else !Hidden(u))
  {
    RefilledMeans(u, job, storage);
    UnreadExactly(u, job, storage);
  }

  lemma CalmConcludes(t: Server, rest: seq<Turn>, id: UploadId, retries: nat)
    requires CalmFor(rest, 2) && id in t.uploads && Active(t.uploads[id]) && FinalStatus(t.uploads[id]) != 409
    ensures Reached(t, NextTurn(rest)) == t && Concludes(rest, t, id, retries)
    ensures NextTurn(AfterConcluding(rest, t.uploads[id])) == CALM
  {
  }

  /** Nothing is hidden in a new upload. */
  lemma {:induction false} SpoiledIs(s: Server, saved: map<Key, SavedUpload>, job: Job)
    requires Sound(s, saved, job) && CanPlace(s, saved, job)
        && PlaceOf(s, saved, job).id in Placed(s, saved, job).uploads
    ensures var u := FoundUpload(s, saved, job);
      && (Spoiled(s, saved, job) <==> if u.ready then !AllIntact(u) else Hidden(u))
      && (Succeeds(s, saved, job) <==> u.ready || GoesByRecords(u, s.storage) || !Hidden(u))
  {
    FoundIs(s, saved, job);
  }

  lemma {:induction false} CalmEnds(s: Server, saved: map<Key, SavedUpload>, script: seq<Turn>, job: Job,
      first: Server, met: Upload,
      r: Outcome<UploadResult>, forgotten: bool)
    requires Sound(s, saved, job) && CanPlace(s, saved, job) && Fair(s, saved, script, job)
    requires CalmFor(Finale(s, saved, script, job), 2) && RunEnds(s, saved, script, job, first, met, r, forgotten)
    ensures r.Ok? <==> Succeeds(s, saved, job)
    ensures r.Ok? ==> r.value.sentParts == PartsToSend(s, saved, job) && (AllIntact(met) <==> !Spoiled(s, saved, job))
    ensures !r.Ok? ==> r.Threw? && (r.status == 422 || r.status == 500) && (forgotten <==> r.status == 422)
  {
    FoundIs(s, saved, job);
    PassMakes(s, saved, job);
    PassedEnds(FoundUpload(s, saved, job), job, s.storage);
    CalmConcludes(AfterPass(s, saved, job), Finale(s, saved, script, job), PlaceOf(s, saved, job).id, job.retries);
    SpoiledIs(s, saved, job);
  }

  /** A run in which at most some tries are wasted, each in time: it succeeds exactly if `Succeeds`
      says so of the moment it starts, sending what the instance lacks, and the source is then read
      back exactly if nothing was spoiled. A run that finds the damage forgets the upload, unless the
      instance could not even read it. */
  method UndisturbedUpload(w: World, job: Job) returns (r: Outcome<UploadResult>)
    requires w.Fine() && job.base in w.servers && !Ambiguous(job.base) && job.partBytes > 0
    requires Fair(w.servers[job.base], w.saved, w.script, job)
    requires CalmFor(Finale(w.servers[job.base], w.saved, w.script, job), 2)
    modifies w
    ensures Since(old(Now(w)), Now(w), job, 2, 5)
    ensures r.Ok? <==> Succeeds(old(w.servers[job.base]), old(w.saved), job)
    ensures r.Ok? ==> FinishedAt(w.servers[job.base], job, r.value.id) && ReportsOn(r.value, job, old(w.saved), w.saved)
    ensures r.Ok? ==> r.value.sentParts == PartsToSend(old(w.servers[job.base]), old(w.saved), job)
    ensures r.Ok? ==>
      (ReadTransfer(w.servers[job.base].uploads[r.value.id]) == [job.content]
       <==> !Spoiled(old(w.servers[job.base]), old(w.saved), job))
    ensures !r.Ok? && CanPlace(old(w.servers[job.base]), old(w.saved), job) ==>
      r.Threw? && (r.status == 422 || r.status == 500) && (job.Key() !in w.saved <==> r.status == 422)
  {
    ghost var s, saved, script := w.servers[job.base], w.saved, w.script;
    SavedDeclares(w, job);
    ghost var first, met;
    r, first, met := ResumableUpload(w, job);
    if CanPlace(s, saved, job) { CalmEnds(s, saved, script, job, first, met, r, job.Key() !in w.saved); }
    if r.Ok? { FinishedHolds(w.servers[job.base], job, r.value.id, met); }
  }

  /** A script without a disturbance is fair to its end. */
  lemma NoScriptIsFair(s: Server, saved: map<Key, SavedUpload>, job: Job)
    ensures Fair(s, saved, [], job) && CalmFor(Finale(s, saved, [], job), 2)
  {
    CalmIsGentle([], |PlaceOf(s, saved, job).missing|, job.retries);
  }

  // ---- a change between the last part and the first finalize ----

  lemma CalmMends(script: seq<Turn>, u: Upload, retries: nat)
    requires CalmFor(script, |script|)
    ensures Mends(script, u, retries) && NextTurn(AfterMending(script, u)) == CALM
  {
    var n := |MissingFrom(u, 0)|;
    RestIsDrop(script, 0);
    assert Rest(script) == Drop(script, 1);
    CalmIsGentle(Rest(script), n, retries);
    DropDrop(script, 1, n);
    RestIsDrop(script, 1 + n);
  }

  /** The instance as the first finalize finds it. */
  function FirstMet(s: Server, saved: map<Key, SavedUpload>, script: seq<Turn>, job: Job): Server
    requires job.partBytes > 0
  {
    Reached(AfterPass(s, saved, job), NextTurn(Finale(s, saved, script, job)))
  }

  /** The only disturbance of a run, besides tries wasted in time, is what the instance goes through
      between the last part and the first finalize, and that leaves the upload open. */
  predicate LateChange(s: Server, saved: map<Key, SavedUpload>, script: seq<Turn>, job: Job) {
    && CanPlace(s, saved, job) && Fair(s, saved, script, job)
    && var rest := Finale(s, saved, script, job);
      && NextTurn(rest).fate.Delivered? && CalmFor(Rest(rest), |Rest(rest)|)
      && Open(FirstMet(s, saved, script, job), job, PlaceOf(s, saved, job).id)
  }

  /** The upload after that change. */
  function Changed(s: Server, saved: map<Key, SavedUpload>, script: seq<Turn>, job: Job): Upload
    requires LateChange(s, saved, script, job)
  {
    FirstMet(s, saved, script, job).uploads[PlaceOf(s, saved, job).id]
  }

  /** The check passes at once, or the first bad part is absent and what is left is mended. */
  predicate CanMend(u: Upload, job: Job, storage: Storage) {
    Verify(u) == Complete || (FirstBadIsAbsent(u) && (Unread(Refilled(u, job, storage)) || !Hidden(u)))
  }

  /** Such a run succeeds exactly if what it meets can be mended. */
  lemma {:induction false} LossEnds(s: Server, saved: map<Key, SavedUpload>, script: seq<Turn>, job: Job,
      first: Server, met: Upload,
      r: Outcome<UploadResult>, forgotten: bool)
    requires Sound(s, saved, job) && LateChange(s, saved, script, job)
    requires RunEnds(s, saved, script, job, first, met, r, forgotten)
    ensures first == FirstMet(s, saved, script, job)
    ensures var u := Changed(s, saved, script, job);
      && (r.Ok? <==> CanMend(u, job, first.storage))
      && (Verify(u) == Mismatch ==> r.Threw? && r.status == 422 && forgotten)
      && (r.Ok? ==> met == LastMet(u, job, first.storage))
  {
    var rest, u := Finale(s, saved, script, job), Changed(s, saved, script, job);
    CalmMends(Rest(rest), u, job.retries);
    EndsWell(u, job, first.storage);
  }

  /** Only blobs are lost: what is left is as it was. */
  predicate OnlyLost(u: Upload, v: Upload) {
    SameDeclaration(u, v) && forall n :: n in v.blobs ==> n in u.blobs && v.blobs[n] == u.blobs[n]
  }

  /** Any loss of parts is mended: the first bad part is absent, and what is left is not damaged. */
  lemma {:induction false} LossIsMended(u: Upload, v: Upload, job: Job)
    requires Declares(u, job.target, job.Checksum()) && AllRecorded(u) && AllIntact(u) && OnlyLost(u, v)
    ensures (Verify(v) == Complete || FirstBadIsAbsent(v)) && !Hidden(v)
  {
    VerifyMeans(v, job.target, job.Checksum());
    forall n | 0 <= n < |v.parts| && n in v.blobs ensures Recorded(v, n) && Intact(v, n) {
      assert Recorded(u, n) && Intact(u, n);
    }
    if n: nat :| n < |v.parts| && n !in v.blobs { FirstAbsent(v, n); }
  }

  lemma {:induction false} FirstAbsent(v: Upload, n: nat)
    requires n < |v.parts| && n !in v.blobs && forall k :: 0 <= k < |v.parts| && k in v.blobs ==> Recorded(v, k)
    ensures FirstBadIsAbsent(v)
    decreases n
  {
    if k: nat :| k < n && k !in v.blobs {
      FirstAbsent(v, k);
    } else {
      assert forall j :: 0 <= j < n ==> Recorded(v, j);
    }
  }

  /** A run with a late change: it succeeds exactly if the changed upload can be mended, and forgets
      one whose first bad part is damaged. If only parts were lost and nothing was spoiled before, it
      succeeds, and the source is read back. */
  method SurvivesLoss(w: World, job: Job) returns (r: Outcome<UploadResult>)
    requires w.Fine() && job.base in w.servers && !Ambiguous(job.base)
    requires LateChange(w.servers[job.base], w.saved, w.script, job)
    modifies w
    ensures Since(old(Now(w)), Now(w), job, 2, 5)
    ensures r.Ok? ==> FinishedAt(w.servers[job.base], job, r.value.id)
    ensures LateOutcome(old(w.servers[job.base]), old(w.saved), old(w.script), job, r, job.Key() !in w.saved,
      r.Ok? && ReadTransfer(w.servers[job.base].uploads[r.value.id]) == [job.content])
  {
    ghost var s, saved, script := w.servers[job.base], w.saved, w.script;
    SavedDeclares(w, job);
    ghost var first, met;
    r, first, met := ResumableUpload(w, job);
    LossEnds(s, saved, script, job, first, met, r, job.Key() !in w.saved);
    if r.Ok? { FinishedHolds(w.servers[job.base], job, r.value.id, met); }
    LateReadsBack(s, saved, script, job, first.storage);
  }

  ghost predicate LateOutcome(s: Server, saved: map<Key, SavedUpload>, script: seq<Turn>, job: Job,
      r: Outcome<UploadResult>, forgotten: bool, readBack: bool)
    requires LateChange(s, saved, script, job)
  {
    var u := Changed(s, saved, script, job);
    && (r.Ok? <==> CanMend(u, job, FirstMet(s, saved, script, job).storage))
    && (Verify(u) == Mismatch ==> r.Threw? && r.status == 422 && forgotten)
    && (OnlyLoss(s, saved, script, job) ==> r.Ok? && readBack)
  }

  /** The late change only lost parts, of an upload that was not spoiled. */
  predicate OnlyLoss(s: Server, saved: map<Key, SavedUpload>, script: seq<Turn>, job: Job)
    requires LateChange(s, saved, script, job)
  {
    var t, id := AfterPass(s, saved, job), PlaceOf(s, saved, job).id;
    !Spoiled(s, saved, job) && id in t.uploads && OnlyLost(t.uploads[id], Changed(s, saved, script, job))
  }

  lemma {:induction false} LateReadsBack(s: Server, saved: map<Key, SavedUpload>, script: seq<Turn>, job: Job,
      storage: Storage)
    requires Sound(s, saved, job) && LateChange(s, saved, script, job)
    ensures OnlyLoss(s, saved, script, job) ==>
      var u := Changed(s, saved, script, job); CanMend(u, job, storage) && AllIntact(LastMet(u, job, storage))
  {
    var t, id := AfterPass(s, saved, job), PlaceOf(s, saved, job).id;
    PassMakes(s, saved, job);
    StillOpen(t, NextTurn(Finale(s, saved, script, job)), job, id);
    if OnlyLoss(s, saved, script, job) {
      LossReadsBack(s, saved, job, t.uploads[id], Changed(s, saved, script, job), storage);
    }
  }

  lemma {:induction false} LossReadsBack(s: Server, saved: map<Key, SavedUpload>, job: Job, p: Upload, u: Upload,
      storage: Storage)
    requires Sound(s, saved, job) && CanPlace(s, saved, job) && !Spoiled(s, saved, job)
    requires PlaceOf(s, saved, job).id in AfterPass(s, saved, job).uploads
    requires p == AfterPass(s, saved, job).uploads[PlaceOf(s, saved, job).id] && OnlyLost(p, u) && !p.ready && !u.ready
    ensures (Verify(u) == Complete || FirstBadIsAbsent(u)) && !Hidden(u) && AllIntact(LastMet(u, job, storage))
  {
    FoundIs(s, saved, job);
    PassMakes(s, saved, job);
    SpoiledIs(s, saved, job);
    RefilledMeans(FoundUpload(s, saved, job), job, s.storage);
    LossIsMended(p, u, job);
    LostReadsBack(u, job, storage);
  }

  lemma {:induction false} LostReadsBack(u: Upload, job: Job, storage: Storage)
    requires Declares(u, job.target, job.Checksum()) && !u.ready && !Hidden(u)
        && (Verify(u) == Complete || FirstBadIsAbsent(u))
    ensures AllIntact(LastMet(u, job, storage))
  {
    RefilledMeans(u, job, storage);
    VerifyMeans(u, job.target, job.Checksum());
    assert forall n :: 0 <= n < |u.parts| && Recorded(u, n) ==> Intact(u, n);
  }

  /** No drift takes back that an upload is finished. */
  lemma StillOpen(t: Server, turn: Turn, job: Job, id: UploadId)
    requires IdsInUse(t) && Open(Reached(t, turn), job, id) && id in t.uploads
    ensures !t.uploads[id].ready
  {
  }
}
