/** One whole run of the upload command: carry on or begin, send, finalize, forget. */
module UploadRun {
  import opened Wrappers
  import opened PartTiling
  import opened UploadServer
  import opened UploadKeys
  import opened UploadSource
  import opened UploadWorld
  import opened UploadTurns
  import opened UploadClient
  import opened UploadEnd

  /** Every part goes, with its own bytes, to an upload the disk names at that moment. */
  predicate PutsNamed(log: seq<Event>, job: Job) {
    forall e :: e in log && e.call.SendPart? ==>
      && e.base == job.base && job.Key() in e.saved && e.saved[job.Key()].id == e.call.id
      && e.call.n < job.Count() && e.call == job.PartCall(e.call.id, e.call.n)
  }

  /** The most PUTs one pass can take. */
  function PassLimit(job: Job): nat {
    job.Count() * (job.retries + 1)
  }

  /** The requests of a stretch of a run: at most `passes` passes and `others` other requests. */
  ghost predicate RunLog(log: seq<Event>, job: Job, passes: nat, others: nat) {
    && PutsNamed(log, job) && |log| <= passes * PassLimit(job) + others
    && forall n :: Tries(log, n) <= passes * (job.retries + 1)
  }

  /** The world at one moment of a run. */
  datatype Moment = Moment(servers: map<Base, Server>, saved: map<Key, SavedUpload>, log: seq<Event>)

  ghost function Now(w: World): Moment
    reads w
  {
    Moment(w.servers, w.saved, w.log)
  }

  /** What a stretch of a run leaves alone, other instances and other saved uploads, and how
      many requests it may take. */
  ghost predicate Since(a: Moment, b: Moment, job: Job, passes: nat, others: nat) {
    && StoreFine(b.servers, b.saved)
    && OneDrifted(a.servers, b.servers, job)
    && b.saved - {job.Key()} == a.saved - {job.Key()}
    && a.log <= b.log && RunLog(b.log[|a.log|..], job, passes, others)
  }

  lemma {:induction false} SinceAdds(a: Moment, b: Moment, c: Moment, job: Job, p: nat, m: nat, q: nat, n: nat,
      passes: nat, others: nat)
    requires Since(a, b, job, p, m) && Since(b, c, job, q, n) && passes == p + q && others == m + n
    ensures Since(a, c, job, passes, others)
  {
    DriftsTransitive(a.servers[job.base], b.servers[job.base], c.servers[job.base]);
    RunLogAdds(b.log[|a.log|..], c.log[|b.log|..], job, p, m, q, n);
    assert c.log[|a.log|..] == b.log[|a.log|..] + c.log[|b.log|..];
  }

  lemma RunLogAdds(x: seq<Event>, y: seq<Event>, job: Job, p: nat, m: nat, q: nat, n: nat)
    requires RunLog(x, job, p, m) && RunLog(y, job, q, n)
    ensures RunLog(x + y, job, p + q, m + n)
  {
    Distribute(PassLimit(job), p, q);
    Distribute(job.retries + 1, p, q);
    forall k ensures Tries(x + y, k) <= (p + q) * (job.retries + 1) {
      TriesAdd(x, y, k);
    }
  }

  /** One request that is not a PUT. */
  lemma OtherRequest(log: seq<Event>, job: Job)
    requires |log| == 1 && !log[0].call.SendPart?
    ensures RunLog(log, job, 0, 1)
  {
    assert log[..0] == [];
    forall n ensures Tries(log, n) == 0 {
      assert Tries(log[..0], n) == 0;
    }
  }

  lemma NothingYet(a: Moment, b: Moment, job: Job)
    requires StoreFine(a.servers, a.saved) && job.base in a.servers && a == b
    ensures Since(a, b, job, 0, 0)
  {
    DriftsReflexive(a.servers[job.base]);
  }

  /** One request that is not a PUT. */
  method Ask(w: World, job: Job, call: Call) returns (x: Exchange)
    requires w.Fine() && job.base in w.servers && !call.SendPart?
    modifies w`servers, w`script, w`log
    ensures Since(old(Now(w)), Now(w), job, 0, 1) && w.script == Rest(old(w.script)) && w.saved == old(w.saved)
    ensures (w.servers[job.base], x) == Serve(old(w.servers[job.base]), NextTurn(old(w.script)), call)
  {
    x := w.Request(job.base, call);
    assert w.log[|old(w.log)|..] == [Event(job.base, call, old(w.saved))];
    OtherRequest(w.log[|old(w.log)|..], job);
  }

  /** The disk names an upload that can still be finished. */
  predicate Resumable(s: Server, saved: map<Key, SavedUpload>, job: Job) {
    job.Key() in saved && saved[job.Key()].id in s.uploads && Active(s.uploads[saved[job.Key()].id])
  }

  /** The instance finished the job's bytes under this id. */
  predicate FinishedAt(s: Server, job: Job, id: UploadId) {
    id in s.uploads && s.uploads[id].ready && Declares(s.uploads[id], job.target, job.Checksum())
  }

  /** How a finalize that succeeded left the upload it met: an unfinished one passed the check; one
      that was finished before was left as it was, unchecked. */
  ghost predicate FinishedFrom(s: Server, job: Job, id: UploadId, met: Upload) {
    && FinishedAt(s, job, id) && Declares(met, job.target, job.Checksum())
    && s.uploads[id] == (if met.ready then met else Finish(met))
    && (!met.ready ==> AllRecorded(met) && (Unread(met) || AllIntact(met)))
  }

  /** Exactly when success means that the source is held: every part the finalize met was intact,
      and it was if the upload was unfinished and its bytes were read. */
  lemma FinishedHolds(s: Server, job: Job, id: UploadId, met: Upload)
    requires FinishedFrom(s, job, id, met)
    ensures ReadTransfer(s.uploads[id]) == [job.content] <==> AllIntact(met)
    ensures ReadTransfer(s.uploads[id]) == [] || ReadTransfer(s.uploads[id]) == [job.content]
    ensures !met.ready && !Unread(met) ==> AllIntact(met)
  {
    var u := s.uploads[id];
    ReadsBackSource(u, job.target, job.Checksum());
    assert forall n :: Intact(u, n) <==> Intact(met, n);
  }

  predicate Forgets(status: nat) {
    status == 404 || status == 410 || status == 422
  }

  /** Where a run carries on: an upload, and what it is missing. */
  datatype Place = Place(id: UploadId, missing: seq<nat>)

  /** The parts the instance asks for: none of a finished upload. */
  function ToSend(u: Upload): (missing: seq<nat>)
    ensures Distinct(missing) && InRange(missing, |u.parts|)
  {
    var missing := if u.ready then [] else MissingFrom(u, 0);
    assert forall i :: 0 <= i < |missing| ==> missing[i] in missing;
    missing
  }

  /** The answer about upload `id` when it can only be the job's. */
  function AskReply(s: Server, id: UploadId): Reply {
    if id !in s.uploads then Reply(404, Nothing)
    else if !Active(s.uploads[id]) then Reply(410, Nothing)
    else Reply(200, Progress(s.uploads[id].ready, ToSend(s.uploads[id]), PART_BYTES))
  }

  /** An answer about an upload that can only be the job's lists distinct parts of it. */
  lemma {:induction false} AskAnswers(s: Server, turn: Turn, job: Job, id: UploadId)
    requires IdsInUse(s) && id < s.next && (id in s.uploads ==> Declares(s.uploads[id], job.target, job.Checksum()))
    ensures var x := Serve(s, turn, AskParts(job.target, id)).1;
      x.Answer? && x.reply.IsOk() ==>
        && x.reply.body.Progress? && x.reply.body.partBytes == PART_BYTES
        && Distinct(x.reply.body.missing) && InRange(x.reply.body.missing, job.Count())
    ensures turn == CALM ==> Serve(s, turn, AskParts(job.target, id)) == (s, Answer(AskReply(s, id)))
  {
    var at := Reached(s, turn);
    if id in at.uploads {
      assert Declares(at.uploads[id], job.target, job.Checksum());
      var missing := ToSend(at.uploads[id]);
    }
  }

  /** Ask which parts of the saved upload the instance is missing. */
  method AskMissing(w: World, job: Job, id: UploadId) returns (r: Outcome<Reply>)
    requires w.Fine() && job.base in w.servers && !Ambiguous(job.base)
    requires job.Key() in w.saved && w.saved[job.Key()].id == id
    modifies w`servers, w`script, w`log
    ensures Since(old(Now(w)), Now(w), job, 0, 1) && w.script == Rest(old(w.script))
    ensures r.Ok? && r.value.IsOk() ==>
      && r.value.body.Progress? && r.value.body.partBytes == PART_BYTES
      && Distinct(r.value.body.missing) && InRange(r.value.body.missing, job.Count())
    ensures NextTurn(old(w.script)) == CALM ==>
      r == Ok(AskReply(old(w.servers[job.base]), id)) && w.servers == old(w.servers)
  {
    assert EntryFine(w.servers, job.base, job.target, job.Checksum(), |job.content|, w.saved[job.Key()]);
    AskAnswers(w.servers[job.base], NextTurn(w.script), job, id);
    var x := Ask(w, job, AskParts(job.target, id));
    match x
    case Died => return Crashed;
    case NoAnswer => return Threw(0, "NO_ANSWER");
    case Answer(reply) => return Ok(reply);
  }

  /** The upload the disk names, and what it is missing. */
  function SavedPlace(s: Server, saved: map<Key, SavedUpload>, job: Job): Place
    requires Resumable(s, saved, job)
  {
    Place(saved[job.Key()].id, ToSend(s.uploads[saved[job.Key()].id]))
  }

  /** How many turns that takes: none without a saved id, and one more to forget one. */
  function AskTurns(s: Server, saved: map<Key, SavedUpload>, job: Job): nat {
    if job.Key() !in saved then 0 else if Resumable(s, saved, job) then 1 else 2
  }

  /** When nothing goes wrong: exactly the saved upload that can still be finished. */
  ghost predicate CarriedOn(s: Server, saved: map<Key, SavedUpload>, script: seq<Turn>, job: Job, t: Server,
      left: seq<Turn>, r: Outcome<Option<Place>>)
  {
    CalmFor(script, AskTurns(s, saved, job)) ==>
      && t == s && left == Drop(script, AskTurns(s, saved, job))
      && (if !Resumable(s, saved, job) then r == Ok(None)
          else if job.partBytes != PART_BYTES then r.Threw?
          else r == Ok(Some(SavedPlace(s, saved, job))))
  }

  /** Ask about the saved upload, if there is one. An upload that is gone is forgotten. */
  method CarryOn(w: World, job: Job) returns (r: Outcome<Option<Place>>)
    requires w.Fine() && job.base in w.servers && !Ambiguous(job.base)
    modifies w`servers, w`script, w`log, w`saved
    ensures Since(old(Now(w)), Now(w), job, 0, 1)
    ensures r.Ok? && r.value.Some? ==> Sending(w, job, r.value.value.id)
    ensures r.Ok? && r.value.Some? ==> Distinct(r.value.value.missing) && InRange(r.value.value.missing, job.Count())
    ensures r.Ok? && r.value.Some? ==> job.Key() in old(w.saved) && old(w.saved)[job.Key()].id == r.value.value.id
    ensures r.Ok? && r.value.None? ==> job.Key() !in w.saved
    ensures CarriedOn(old(w.servers[job.base]), old(w.saved), old(w.script), job, w.servers[job.base], w.script, r)
  {
    NothingYet(Now(w), Now(w), job);
    var key := job.Key();
    if key !in w.saved || w.saved[key].checksum != job.Checksum() || w.saved[key].size != |job.content| {
      return Ok(None);
    }
    var id := w.saved[key].id;
    var asked := AskMissing(w, job, id);
    if asked.IsFailure() {
      return asked.PropagateFailure<Option<Place>>();
    }
    var reply := asked.value;
    if reply.IsOk() {
      if reply.body.partBytes != job.partBytes {
        return Threw(409, "PART_SIZE");
      }
      return Ok(Some(Place(id, if reply.body.ready then [] else reply.body.missing)));
    }
    if reply.status != 404 && reply.status != 410 {
      return Threw(reply.status, "HTTP_ERROR");
    }
    var wrote := w.Forget(key);
    match wrote
    case Done => return Ok(None);
    case Failed => return Threw(0, "STATE");
    case DiedWriting => return Crashed;
  }

  /** A begin that is accepted gives a new, empty, open upload of the job's bytes. */
  predicate BegunAt(s: Server, t: Server, job: Job, id: UploadId) {
    && Open(t, job, id) && id !in s.uploads && id < t.next && t.uploads[id].blobs == map[]
  }

  lemma {:induction false} BeginAnswers(s: Server, turn: Turn, job: Job)
    requires IdsInUse(s) && job.partBytes > 0 && job.content != []
    ensures var (t, x) := Serve(s, turn, job.BeginCall());
      && (x.Answer? && x.reply.status == 201 ==> x.reply.body.Begun? && x.reply.body.beginPartBytes == PART_BYTES)
      && (x.Answer? && x.reply.status == 201 && job.partBytes == PART_BYTES ==> BegunAt(s, t, job, x.reply.body.id))
      && (turn == CALM && job.partBytes == PART_BYTES ==>
          x.Answer? && (x.reply.status == 201 <==> HasRoom(s, job.target, |job.content|)))
      && (turn == CALM && x.Answer? && x.reply.status == 201 ==>
          t == Handle(s, job.BeginCall()).0 && x.reply.body.id == s.next)
  {
    OwnManifestIsValid(job.content, s.maxBytes);
  }

  /** A calm begin succeeds exactly if the part sizes agree and there is room, and gives the next id. */
  predicate BegunAs(s: Server, job: Job, t: Server, r: Outcome<UploadId>)
    requires job.partBytes > 0
  {
    && (r.Ok? <==> job.partBytes == PART_BYTES && HasRoom(s, job.target, |job.content|))
    && (r.Ok? ==> r.value == s.next && t == Handle(s, job.BeginCall()).0)
  }

  /** Ask for a new upload. */
  method BeginOnce(w: World, job: Job, described: Description) returns (r: Outcome<UploadId>)
    requires w.Fine() && job.base in w.servers && job.partBytes > 0 && job.content != []
    requires described == Description(job.Checksum(), Manifest(job.content, job.partBytes))
    modifies w`servers, w`script, w`log
    ensures Since(old(Now(w)), Now(w), job, 0, 1) && w.script == Rest(old(w.script)) && w.saved == old(w.saved)
    ensures r.Ok? ==>
        job.partBytes == PART_BYTES && BegunAt(old(w.servers[job.base]), w.servers[job.base], job, r.value)
    ensures NextTurn(old(w.script)) == CALM ==> BegunAs(old(w.servers[job.base]), job, w.servers[job.base], r)
  {
    BeginAnswers(w.servers[job.base], NextTurn(w.script), job);
    var x := Ask(w, job, Begin(job.target, |job.content|, described.checksum, described.parts));
    match x
    case Died => return Crashed;
    case NoAnswer => return Threw(0, "NO_ANSWER");
    case Answer(reply) =>
      if reply.status != 201 {
        return Threw(reply.status, "HTTP_ERROR");
      }
      if reply.body.beginPartBytes != job.partBytes {
        return Threw(409, "PART_SIZE");
      }
      return Ok(reply.body.id);
  }

  /** Save the id of an upload that was begun. */
  method SaveId(w: World, job: Job, id: UploadId) returns (r: Outcome<UploadId>)
    requires w.Fine() && job.base in w.servers && !Ambiguous(job.base)
    requires Open(w.servers[job.base], job, id) && id < w.servers[job.base].next
    modifies w`saved, w`script
    ensures w.Fine() && w.script == Rest(old(w.script)) && w.saved - {job.Key()} == old(w.saved) - {job.Key()}
    ensures r.Ok? ==> r.value == id && job.Key() in w.saved && w.saved[job.Key()].id == id
    ensures NextTurn(old(w.script)) == CALM ==> r.Ok?
  {
    var entry := SavedUpload(id, job.Checksum(), |job.content|);
    assert EntryFine(w.servers, job.base, job.target, job.Checksum(), |job.content|, entry);
    var wrote := w.Save(job.base, job.target, job.Checksum(), |job.content|, entry);
    match wrote
    case Done => return Ok(id);
    case Failed => return Threw(0, "STATE");
    case DiedWriting => return Crashed;
  }

  /** Begin a new upload, and save its id before anything is sent to it. */
  method BeginAnew(w: World, job: Job, described: Description) returns (r: Outcome<UploadId>)
    requires w.Fine() && job.base in w.servers && !Ambiguous(job.base) && job.partBytes > 0 && job.content != []
    requires described == Description(job.Checksum(), Manifest(job.content, job.partBytes))
    modifies w`servers, w`script, w`log, w`saved
    ensures Since(old(Now(w)), Now(w), job, 0, 1)
    ensures r.Ok? ==>
      && Sending(w, job, r.value) && BegunAt(old(w.servers[job.base]), w.servers[job.base], job, r.value)
      && w.script == Drop(old(w.script), 2)
    ensures CalmFor(old(w.script), 2) ==> BegunAs(old(w.servers[job.base]), job, w.servers[job.base], r)
  {
    ghost var before := Now(w);
    var begun := BeginOnce(w, job, described);
    if begun.IsFailure() {
      return begun;
    }
    ghost var middle := Now(w);
    r := SaveId(w, job, begun.value);
    SavingCounts(before, middle, Now(w), job, 0, 1);
  }

  /** Writing the job's own entry is no request. */
  lemma SavingCounts(a: Moment, b: Moment, c: Moment, job: Job, p: nat, n: nat)
    requires Since(a, b, job, p, n) && StoreFine(c.servers, c.saved)
    requires c.servers == b.servers && c.log == b.log && c.saved - {job.Key()} == b.saved - {job.Key()}
    ensures Since(a, c, job, p, n)
  {
  }

  /** Distinct part numbers are no more than there are parts. */
  lemma {:induction false} DistinctAreFew(missing: seq<nat>, count: nat)
    requires Distinct(missing) && InRange(missing, count)
    ensures |missing| <= count
  {
    SizeOfDistinct(missing);
    assert ToSet(missing) <= Below(count);
    SubsetIsSmaller(ToSet(missing), Below(count));
  }

  /** The numbers below `count`. */
  function Below(count: nat): (all: set<nat>)
    ensures |all| == count && forall n: nat :: n in all <==> n < count
  {
    if count == 0 then {} else Below(count - 1) + {count - 1}
  }

  lemma {:induction false} SizeOfDistinct(missing: seq<nat>)
    requires Distinct(missing)
    ensures |ToSet(missing)| == |missing|
  {
    if missing != [] {
      var k := |missing| - 1;
      SizeOfDistinct(missing[..k]);
      assert missing == missing[..k] + [missing[k]];
      assert ToSet(missing) == ToSet(missing[..k]) + {missing[k]};
    }
  }

  lemma SubsetIsSmaller(a: set<nat>, b: set<nat>)
    requires a <= b
    ensures |a| <= |b|
  {
    assert |b| == |a| + |b - a| by { assert b == a + (b - a); }
  }

  /** The same pass limits hold for a run's record of it. */
  lemma PassWithinLimits(sent: seq<Event>, job: Job, id: UploadId, missing: seq<nat>, done: nat)
    requires done <= |missing| && Distinct(missing) && InRange(missing, job.Count())
        && PassLog(sent, job, id, missing, done)
    ensures RunLog(sent, job, 1, 0)
  {
    DistinctAreFew(missing, job.Count());
    if done < job.Count() { StepsAdd(done, job.Count(), job.retries + 1); }
  }

  /** The instance after a pass over `missing`. */
  function PassEnd(s: Server, job: Job, id: UploadId, missing: seq<nat>): Server
    requires id in s.uploads
  {
    if missing == [] then s else s.(uploads := s.uploads[id := SentAll(s.uploads[id], job, missing, s.storage)])
  }

  /** There is nothing to send, or all that is sent comes through in time. */
  predicate Sends(s: Server, script: seq<Turn>, job: Job, id: UploadId, missing: seq<nat>) {
    id in s.uploads && (missing == [] || (Open(s, job, id) && Gentle(script, |missing|, job.retries)))
  }

  ghost predicate PassedOver(s: Server, script: seq<Turn>, job: Job, id: UploadId, missing: seq<nat>, t: Server,
      left: seq<Turn>, r: Outcome<nat>)
  {
    Sends(s, script, job, id, missing) ==>
      r.Ok? && t == PassEnd(s, job, id, missing) && left == AfterParts(script, |missing|)
  }

  /** A pass, seen from the run. */
  method Pass(w: World, job: Job, id: UploadId, missing: seq<nat>) returns (r: Outcome<nat>)
    requires Sending(w, job, id) && Distinct(missing) && InRange(missing, job.Count())
    modifies w`servers, w`script, w`log, w`waited
    ensures Sending(w, job, id) && Since(old(Now(w)), Now(w), job, 1, 0)
    ensures r.Ok? ==> r.value == |missing|
    ensures PassedOver(old(w.servers[job.base]), old(w.script), job, id, missing, w.servers[job.base], w.script, r)
  {
    ghost var start := StanceOf(w);
    var reports;
    ghost var done, sent;
    r, reports, done, sent := SendMissing(w, job, id, missing);
    PassWithinLimits(sent, job, id, missing, done);
    assert w.log[|old(w.log)|..] == sent;
    assert done == |missing| ==> missing[..done] == missing;
  }

  /** A finalize of an upload that can only be the job's: success means it is finished, and that it
      passed the check if it was not finished before; an answer that comes through says how it ends. */
  lemma {:induction false} FinalizeAnswers(s: Server, turn: Turn, job: Job, id: UploadId)
    requires IdsInUse(s) && id < s.next && (id in s.uploads ==> Declares(s.uploads[id], job.target, job.Checksum()))
    ensures var (t, x) := Serve(s, turn, Finalize(job.target, id)); var at := Reached(s, turn);
      && (x.Answer? && x.reply.IsOk() ==>
            && x.reply.body == Finished(id, job.Checksum(), |job.content|, true)
            && id in at.uploads && FinishedFrom(t, job, id, at.uploads[id]))
      && (turn.fate.Delivered? && id in at.uploads && Active(at.uploads[id]) ==>
            x.Answer? && x.reply.status == FinalStatus(at.uploads[id]) && (x.reply.IsOk() || t == at))
  {
    var at := Reached(s, turn);
    if id in at.uploads {
      assert Declares(at.uploads[id], job.target, job.Checksum());
      VerifyMeans(at.uploads[id], job.target, job.Checksum());
    }
  }

  /** A finalize that is delivered ends as the upload says, and changes nothing if it does not succeed. */
  ghost predicate Finalized(turn: Turn, id: UploadId, r: Outcome<Reply>, at: Server, t: Server) {
    turn.fate.Delivered? && id in at.uploads && Active(at.uploads[id]) ==>
      r.Ok? && r.value.status == FinalStatus(at.uploads[id]) && (r.value.IsOk() || t == at)
  }

  /** Ask for the upload to be finished; `at` is the instance as the request found it. */
  method FinalizeOnce(w: World, job: Job, id: UploadId) returns (r: Outcome<Reply>, ghost at: Server)
    requires Sending(w, job, id)
    modifies w`servers, w`script, w`log
    ensures Sending(w, job, id) && Since(old(Now(w)), Now(w), job, 0, 1) && w.script == Rest(old(w.script))
    ensures at == Reached(old(w.servers[job.base]), NextTurn(old(w.script)))
    ensures id in at.uploads ==> Declares(at.uploads[id], job.target, job.Checksum())
    ensures r.Ok? && r.value.IsOk() ==>
      && r.value.body == Finished(id, job.Checksum(), |job.content|, true)
      && id in at.uploads && FinishedFrom(w.servers[job.base], job, id, at.uploads[id])
    ensures Finalized(NextTurn(old(w.script)), id, r, at, w.servers[job.base])
  {
    assert EntryFine(w.servers, job.base, job.target, job.Checksum(), |job.content|, w.saved[job.Key()]);
    FinalizeAnswers(w.servers[job.base], NextTurn(w.script), job, id);
    at := Reached(w.servers[job.base], NextTurn(w.script));
    var x := Ask(w, job, Finalize(job.target, id));
    match x
    case Died => r := Crashed;
    case NoAnswer => r := Threw(0, "NO_ANSWER");
    case Answer(reply) => r := Ok(reply);
  }
}
