/** The whole command: find the upload or begin it, deliver it, settle what the disk holds. */
module UploadCommand {
  import opened Wrappers
  import opened PartTiling
  import opened UploadServer
  import opened UploadKeys
  import opened UploadSource
  import opened UploadWorld
  import opened UploadTurns
  import opened UploadClient
  import opened UploadEnd
  import opened UploadRun
  import opened UploadRecovery

  // ---- the upload to send to ----

  /** A place to send to can be had: there is a byte to send, the part sizes agree, and either the
      disk names an upload that can still be finished or a begin has room. */
  predicate CanPlace(s: Server, saved: map<Key, SavedUpload>, job: Job) {
    job.content != [] && job.partBytes == PART_BYTES &&
    (Resumable(s, saved, job) || HasRoom(s, job.target, |job.content|))
  }

  /** How many turns it takes to find the saved upload or to begin and save one. */
  function PlaceTurns(s: Server, saved: map<Key, SavedUpload>, job: Job): nat {
    AskTurns(s, saved, job) + if Resumable(s, saved, job) then 0 else 2
  }

  /** Every part number, in order. */
  function AllParts(count: nat): (missing: seq<nat>)
    ensures |missing| == count && Distinct(missing) && InRange(missing, count)
    ensures forall n :: 0 <= n < count ==> n in missing
    ensures forall i :: 0 <= i < count ==> missing[i] == i
  {
    if count == 0 then [] else AllParts(count - 1) + [count - 1]
  }

  /** The saved upload, or a new one with every part to send. */
  function PlaceOf(s: Server, saved: map<Key, SavedUpload>, job: Job): Place {
    if Resumable(s, saved, job) then SavedPlace(s, saved, job) else Place(s.next, AllParts(job.Count()))
  }

  /** The instance once the place is found. */
  function Placed(s: Server, saved: map<Key, SavedUpload>, job: Job): Server
    requires job.partBytes > 0
  {
    if Resumable(s, saved, job) then s else Handle(s, job.BeginCall()).0
  }

  /** What is found when nothing goes wrong. */
  ghost predicate PlaceFound(s: Server, saved: map<Key, SavedUpload>, script: seq<Turn>, job: Job, t: Server,
      left: seq<Turn>, r: Outcome<Place>, resumed: bool)
    requires job.partBytes > 0
  {
    CalmFor(script, PlaceTurns(s, saved, job)) ==>
      && (r.Ok? <==> CanPlace(s, saved, job))
      && (r.Ok? ==>
            && resumed == Resumable(s, saved, job) && r.value == PlaceOf(s, saved, job)
            && t == Placed(s, saved, job) && left == Drop(script, PlaceTurns(s, saved, job)))
  }

  lemma DropMore(script: seq<Turn>, i: nat, k: nat)
    requires CalmFor(script, i + k)
    ensures CalmFor(script, i) && CalmFor(Drop(script, i), k)
  {
  }

  lemma {:induction false} FoundAtOnce(s: Server, saved: map<Key, SavedUpload>, script: seq<Turn>, job: Job,
      t: Server, left: seq<Turn>,
      c: Outcome<Option<Place>>, r: Outcome<Place>)
    requires job.partBytes > 0 && job.content != [] && CarriedOn(s, saved, script, job, t, left, c)
    requires c.IsFailure() ==> r.IsFailure()
    requires c.Ok? ==> c.value.Some? && r == Ok(c.value.value)
    ensures PlaceFound(s, saved, script, job, t, left, r, r.Ok?)
  {
  }

  lemma {:induction false} FoundAnew(s: Server, saved: map<Key, SavedUpload>, script: seq<Turn>, job: Job, m: Server,
      after: seq<Turn>,
      t: Server, left: seq<Turn>, begun: Outcome<UploadId>, r: Outcome<Place>)
    requires job.partBytes > 0 && job.content != [] && CarriedOn(s, saved, script, job, m, after, Ok(None))
    requires (CalmFor(after, 2) ==> BegunAs(m, job, t, begun)) && (begun.Ok? ==> left == Drop(after, 2))
    requires if begun.Ok? then r == Ok(Place(begun.value, AllParts(job.Count()))) else r.IsFailure()
    ensures PlaceFound(s, saved, script, job, t, left, r, false)
  {
    var turns := AskTurns(s, saved, job);
    if CalmFor(script, PlaceTurns(s, saved, job)) {
      DropMore(script, turns, 2);
      DropDrop(script, turns, 2);
    }
  }

  /** Begin, with every part to send. */
  method BeginPlace(w: World, job: Job, described: Description)
      returns (r: Outcome<Place>, ghost begun: Outcome<UploadId>)
    requires w.Fine() && job.base in w.servers && !Ambiguous(job.base) && job.partBytes > 0 && job.content != []
    requires described == Description(job.Checksum(), Manifest(job.content, job.partBytes))
    modifies w`servers, w`script, w`log, w`saved
    ensures Since(old(Now(w)), Now(w), job, 0, 1)
    ensures r.Ok? ==> Sending(w, job, r.value.id) && Distinct(r.value.missing) && InRange(r.value.missing, job.Count())
    ensures if begun.Ok? then r == Ok(Place(begun.value, AllParts(job.Count()))) else r.IsFailure()
    ensures CalmFor(old(w.script), 2) ==> BegunAs(old(w.servers[job.base]), job, w.servers[job.base], begun)
    ensures begun.Ok? ==> w.script == Drop(old(w.script), 2)
  {
    var id := BeginAnew(w, job, described);
    begun := id;
    r := if id.Ok? then Ok(Place(id.value, AllParts(job.Count()))) else id.PropagateFailure<Place>();
  }

  /** Find the upload to send to: the saved one, or a new one. */
  method FindPlace(w: World, job: Job, described: Description) returns (r: Outcome<Place>, resumed: bool)
    requires w.Fine() && job.base in w.servers && !Ambiguous(job.base) && job.partBytes > 0 && job.content != []
    requires described == Description(job.Checksum(), Manifest(job.content, job.partBytes))
    modifies w`servers, w`script, w`log, w`saved
    ensures Since(old(Now(w)), Now(w), job, 0, 2)
    ensures r.Ok? ==> Sending(w, job, r.value.id) && Distinct(r.value.missing) && InRange(r.value.missing, job.Count())
    ensures r.Ok? && resumed ==> job.Key() in old(w.saved) && old(w.saved)[job.Key()].id == r.value.id
    ensures PlaceFound(old(w.servers[job.base]), old(w.saved), old(w.script), job, w.servers[job.base], w.script, r,
        resumed)
  {
    ghost var s, saved, script, before := w.servers[job.base], w.saved, w.script, Now(w);
    var found := CarryOn(w, job);
    ghost var middle, m, after := Now(w), w.servers[job.base], w.script;
    if found.IsFailure() || found.value.Some? {
      SinceWidens(before, middle, job, 0, 1, 0, 2);
      resumed := found.Ok?;
      r := if found.Ok? then Ok(found.value.value) else found.PropagateFailure<Place>();
      FoundAtOnce(s, saved, script, job, m, after, found, r);
    } else {
      resumed := false;
      ghost var begun;
      r, begun := BeginPlace(w, job, described);
      SinceAdds(before, middle, Now(w), job, 0, 1, 0, 1, 0, 2);
      FoundAnew(s, saved, script, job, m, after, w.servers[job.base], w.script, begun, r);
    }
  }

  // ---- what the disk holds in the end ----

  /** Forget the upload when it is finished or can never be; report what came of it. An answer
      about different bytes keeps the saved id. */
  method Settle(w: World, job: Job, id: UploadId, resumed: bool, sentParts: nat, reply: Reply)
      returns (r: Outcome<UploadResult>)
    requires w.Fine() && job.Key() in w.saved && (reply.IsOk() ==> reply.body.Finished?)
    modifies w`saved, w`script
    ensures w.Fine() && w.saved - {job.Key()} == old(w.saved) - {job.Key()}
    ensures r.Ok? ==>
        job.Key() !in w.saved && r.value == UploadResult(id, job.Checksum(), |job.content|, resumed, sentParts)
    ensures r.Ok? ==>
        reply.IsOk() && reply.body.isReady && reply.body.checksum == job.Checksum() && reply.body.size == |job.content|
    ensures NextTurn(old(w.script)) == CALM ==>
      (r.Ok? <==>
        reply.IsOk() && reply.body.isReady && reply.body.checksum == job.Checksum() && reply.body.size == |job.content|)
    ensures NextTurn(old(w.script)) == CALM && !reply.IsOk() ==>
      r.Threw? && r.status == reply.status && (Forgets(reply.status) <==> job.Key() !in w.saved)
    ensures NextTurn(old(w.script)) == CALM && reply.IsOk() && !r.Ok? ==> w.saved == old(w.saved)
  {
    if !reply.IsOk() {
      if Forgets(reply.status) {
        var wrote := w.Forget(job.Key());
        if wrote == DiedWriting {
          return Crashed;
        } else if wrote == Failed {
          return Threw(0, "STATE");
        }
      }
      return Threw(reply.status, "HTTP_ERROR");
    }
    var done := reply.body;
    if !done.isReady || done.checksum != job.Checksum() || done.size != |job.content| {
      return Threw(422, "CHECKSUM_MISMATCH");
    }
    var wrote := w.Forget(job.Key());
    match wrote
    case Done => return Ok(UploadResult(id, job.Checksum(), |job.content|, resumed, sentParts));
    case Failed => return Threw(0, "STATE");
    case DiedWriting => return Crashed;
  }

  /** How a run ends by the status of its last finalize: well and forgotten, or with that status,
      forgotten exactly if the upload can never be finished. */
  predicate EndsAs(r: Outcome<UploadResult>, status: nat, forgotten: bool) {
    if status == 200 then r.Ok? && forgotten else r.Threw? && r.status == status && (forgotten <==> Forgets(status))
  }

  /** The rest of a run from a known upload, when all that is missing comes through. */
  ghost predicate DeliveredAs(s: Server, script: seq<Turn>, job: Job, place: Place, first: Server, met: Upload,
      r: Outcome<UploadResult>, forgotten: bool)
  {
    Sends(s, script, job, place.id, place.missing) ==>
      var rest := AfterParts(script, |place.missing|);
      && first == Reached(PassEnd(s, job, place.id, place.missing), NextTurn(rest))
      && (Concludes(rest, first, place.id, job.retries)
          && NextTurn(AfterConcluding(rest, first.uploads[place.id])) == CALM ==>
            var u := first.uploads[place.id];
            && Declares(u, job.target, job.Checksum()) && met == LastMet(u, job, first.storage)
            && EndsAs(r, FinalStatus(met), forgotten)
            && (r.Ok? ==> r.value.sentParts == SentInAll(place.missing, u)))
  }

  /** Send, finalize and settle. `first` is the instance as the first finalize found it, `met` the
      upload as the last one did. */
  method Deliver(w: World, job: Job, place: Place, resumed: bool)
      returns (r: Outcome<UploadResult>, ghost first: Server, ghost met: Upload)
    requires Sending(w, job, place.id) && Distinct(place.missing) && InRange(place.missing, job.Count())
    modifies w
    ensures Since(old(Now(w)), Now(w), job, 2, 3)
    ensures r.Ok? ==> FinishedFrom(w.servers[job.base], job, place.id, met) && job.Key() !in w.saved
    ensures r.Ok? ==> r.value == UploadResult(place.id, job.Checksum(), |job.content|, resumed, r.value.sentParts)
    ensures DeliveredAs(old(w.servers[job.base]), old(w.script), job, place, first, met, r, job.Key() !in w.saved)
  {
    ghost var before := Now(w);
    var answer;
    ghost var at;
    answer, first, at := Conclude(w, job, place.id, place.missing);
    met := if place.id in at.uploads then at.uploads[place.id] else Unmet(job);
    ghost var middle := Now(w);
    if answer.IsFailure() {
      r := answer.PropagateFailure<UploadResult>();
      return;
    }
    r := Settle(w, job, place.id, resumed, answer.value.0, answer.value.1);
    SavingCounts(before, middle, Now(w), job, 2, 3);
  }

  /** No finalize was answered: nothing is said about what it met. */
  ghost function Unmet(job: Job): Upload {
    Upload(job.target, 0, job.Checksum(), [], map[], 0, false, false)
  }

  method Describe(job: Job, plan: seq<nat>) returns (described: Description)
    requires job.partBytes > 0
    ensures described == Description(job.Checksum(), Manifest(job.content, job.partBytes))
  {
    var d := DescribeSource(job.content, |job.content|, job.partBytes, plan);
    assert job.content[..|job.content|] == job.content;
    return d.value;
  }

  // ---- the command ----

  /** Nothing goes wrong but tries of parts that are wasted in time, up to the first finalize. */
  predicate Fair(s: Server, saved: map<Key, SavedUpload>, script: seq<Turn>, job: Job) {
    && CalmFor(script, PlaceTurns(s, saved, job))
    && Gentle(Drop(script, PlaceTurns(s, saved, job)), |PlaceOf(s, saved, job).missing|, job.retries)
  }

  /** The script from the first finalize on. */
  function Finale(s: Server, saved: map<Key, SavedUpload>, script: seq<Turn>, job: Job): seq<Turn> {
    AfterParts(Drop(script, PlaceTurns(s, saved, job)), |PlaceOf(s, saved, job).missing|)
  }

  /** The instance before the first finalize: with the upload, and with what it was missing. */
  function AfterPass(s: Server, saved: map<Key, SavedUpload>, job: Job): Server
    requires job.partBytes > 0
  {
    var place, t := PlaceOf(s, saved, job), Placed(s, saved, job);
    if place.id in t.uploads then PassEnd(t, job, place.id, place.missing) else t
  }

  /** How a fair run ends, whatever happens between its last part and its first finalize. */
  ghost predicate RunEnds(s: Server, saved: map<Key, SavedUpload>, script: seq<Turn>, job: Job, first: Server,
      met: Upload, r: Outcome<UploadResult>, forgotten: bool)
    requires job.partBytes > 0
  {
    && (Fair(s, saved, script, job) && r.Ok? ==>
          CanPlace(s, saved, job) && r.value.resumed == Resumable(s, saved, job))
    && (Fair(s, saved, script, job) && CanPlace(s, saved, job) ==>
      var rest, place := Finale(s, saved, script, job), PlaceOf(s, saved, job);
      && first == Reached(AfterPass(s, saved, job), NextTurn(rest))
      && (Concludes(rest, first, place.id, job.retries)
          && NextTurn(AfterConcluding(rest, first.uploads[place.id])) == CALM ==>
            var u := first.uploads[place.id];
            && Declares(u, job.target, job.Checksum()) && met == LastMet(u, job, first.storage)
            && EndsAs(r, FinalStatus(met), forgotten)
            && (r.Ok? ==> r.value.id == place.id && r.value.sentParts == SentInAll(place.missing, u))))
  }

  /** A place that is found can be sent to. */
  lemma {:induction false} PlaceSends(s: Server, saved: map<Key, SavedUpload>, script: seq<Turn>, job: Job)
    requires IdsInUse(s) && job.partBytes > 0 && CanPlace(s, saved, job) && Fair(s, saved, script, job)
    requires Resumable(s, saved, job) ==> Declares(s.uploads[saved[job.Key()].id], job.target, job.Checksum())
    ensures var place, t := PlaceOf(s, saved, job), Placed(s, saved, job);
      && Sends(t, Drop(script, PlaceTurns(s, saved, job)), job, place.id, place.missing)
      && Declares(t.uploads[place.id], job.target, job.Checksum()) && Active(t.uploads[place.id])
      && (Resumable(s, saved, job) || t.uploads[place.id].blobs == map[])
  {
    if !Resumable(s, saved, job) { BeginAnswers(s, CALM, job); }
  }

  lemma {:induction false} RunFollows(s: Server, saved: map<Key, SavedUpload>, script: seq<Turn>, job: Job,
      first: Server,
      met: Upload, r: Outcome<UploadResult>, forgotten: bool, place: Place)
    requires IdsInUse(s) && job.partBytes > 0 && CanPlace(s, saved, job) && Fair(s, saved, script, job)
    requires Resumable(s, saved, job) ==> Declares(s.uploads[saved[job.Key()].id], job.target, job.Checksum())
    requires place == PlaceOf(s, saved, job)
    requires r.Ok? ==> r.value.id == place.id && r.value.resumed == Resumable(s, saved, job)
    requires DeliveredAs(Placed(s, saved, job), Drop(script, PlaceTurns(s, saved, job)), job, place, first, met, r,
        forgotten)
    ensures RunEnds(s, saved, script, job, first, met, r, forgotten)
  {
    PlaceSends(s, saved, script, job);
  }

  lemma SavedDeclares(w: World, job: Job)
    requires w.Fine() && job.base in w.servers && !Ambiguous(job.base)
    ensures var s := w.servers[job.base];
      Resumable(s, w.saved, job) ==> Declares(s.uploads[w.saved[job.Key()].id], job.target, job.Checksum())
  {
    if job.Key() in w.saved {
      assert EntryFine(w.servers, job.base, job.target, job.Checksum(), |job.content|, w.saved[job.Key()]);
    }
  }

  /** How the command ends, from a source with at least one byte. */
  method UploadBytes(w: World, job: Job) returns (r: Outcome<UploadResult>, ghost first: Server, ghost met: Upload)
    requires w.Fine() && job.base in w.servers && !Ambiguous(job.base) && job.partBytes > 0 && job.content != []
    modifies w
    ensures Since(old(Now(w)), Now(w), job, 2, 5)
    ensures r.Ok? ==>
        FinishedFrom(w.servers[job.base], job, r.value.id, met) && ReportsOn(r.value, job, old(w.saved), w.saved)
    ensures RunEnds(old(w.servers[job.base]), old(w.saved), old(w.script), job, first, met, r, job.Key() !in w.saved)
  {
    ghost var s, saved, script, before := w.servers[job.base], w.saved, w.script, Now(w);
    SavedDeclares(w, job);
    first, met := s, Unmet(job);
    var described := Describe(job, []);
    var place, resumed := FindPlace(w, job, described);
    ghost var middle := Now(w);
    if place.IsFailure() {
      SinceWidens(before, middle, job, 0, 2, 2, 5);
      r := place.PropagateFailure<UploadResult>();
    } else {
      r, first, met := Deliver(w, job, place.value, resumed);
      SinceAdds(before, middle, Now(w), job, 0, 2, 2, 3, 2, 5);
      if Fair(s, saved, script, job) && CanPlace(s, saved, job) {
        RunFollows(s, saved, script, job, first, met, r, job.Key() !in w.saved, place.value);
      }
    }
  }

  /** What a success reports: the source, the entry gone, and a resumed upload the one the disk named. */
  predicate ReportsOn(result: UploadResult, job: Job, saved: map<Key, SavedUpload>, after: map<Key, SavedUpload>) {
    && result.checksum == job.Checksum() && result.size == |job.content| && job.Key() !in after
    && (result.resumed ==> job.Key() in saved && saved[job.Key()].id == result.id)
  }

  /** The upload command. Whatever goes wrong, the disk stays true, the requests stay bounded and
      success means that the instance finished the source's declaration, on the upload as `met` was.
      How a fair run ends is said exactly. */
  method ResumableUpload(w: World, job: Job) returns (r: Outcome<UploadResult>, ghost first: Server, ghost met: Upload)
    requires w.Fine() && job.base in w.servers && !Ambiguous(job.base) && job.partBytes > 0
    modifies w
    ensures Since(old(Now(w)), Now(w), job, 2, 5)
    ensures r.Ok? ==>
        FinishedFrom(w.servers[job.base], job, r.value.id, met) && ReportsOn(r.value, job, old(w.saved), w.saved)
    ensures RunEnds(old(w.servers[job.base]), old(w.saved), old(w.script), job, first, met, r, job.Key() !in w.saved)
  {
    if |job.content| < 1 {
      NothingYet(Now(w), Now(w), job);
      SinceWidens(Now(w), Now(w), job, 0, 0, 2, 5);
      r, first, met := Threw(400, "INVALID_INPUT"), w.servers[job.base], Unmet(job);
    } else {
      r, first, met := UploadBytes(w, job);
    }
  }
}
