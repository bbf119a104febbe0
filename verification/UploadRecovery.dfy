/** The whole command, and any number of runs of it. */
module UploadRecovery {
  import opened Wrappers
  import opened PartTiling
  import opened UploadServer
  import opened UploadKeys
  import opened UploadSource
  import opened UploadWorld
  import opened UploadTurns
  import opened UploadClient
  import opened UploadEnd
  import opened UploadRun

  /** A finalize succeeded, on the upload as `at` had it. */
  ghost predicate FinishedOk(w: World, job: Job, id: UploadId, at: Server, reply: Reply)
    reads w
  {
    && job.base in w.servers && reply.body == Finished(id, job.Checksum(), |job.content|, true)
    && id in at.uploads && FinishedFrom(w.servers[job.base], job, id, at.uploads[id])
  }

  /** The finalize that comes next is delivered, to an instance that has the upload. */
  predicate Meets(rest: seq<Turn>, at: Server, id: UploadId) {
    NextTurn(rest).fate.Delivered? && id in at.uploads && Active(at.uploads[id])
  }

  /** When all that is missing comes through, the finalize finds the upload with it, and if that is
      delivered it ends as the upload says. `left` is what is left of the script. */
  ghost predicate Judged(s: Server, script: seq<Turn>, job: Job, id: UploadId, missing: seq<nat>,
      r: Outcome<(nat, Reply)>, at: Server, left: seq<Turn>)
  {
    Sends(s, script, job, id, missing) ==>
      var rest := AfterParts(script, |missing|);
      && at == Reached(PassEnd(s, job, id, missing), NextTurn(rest))
      && (Meets(rest, at, id) ==> r.Ok? && r.value.1.status == FinalStatus(at.uploads[id]) && left == Rest(rest))
  }

  /** A finalize that does not succeed changes nothing. */
  ghost predicate NothingDone(s: Server, script: seq<Turn>, job: Job, id: UploadId, missing: seq<nat>,
      r: Outcome<(nat, Reply)>, at: Server, t: Server)
  {
    Sends(s, script, job, id, missing) && Meets(AfterParts(script, |missing|), at, id)
        && FinalStatus(at.uploads[id]) != 200 ==>
      t == at
  }

  lemma {:induction false} JudgedSo(s: Server, script: seq<Turn>, job: Job, id: UploadId, missing: seq<nat>,
      m: Server, rest: seq<Turn>,
      sent: Outcome<nat>, reply: Outcome<Reply>, at: Server, t: Server, r: Outcome<(nat, Reply)>)
    requires PassedOver(s, script, job, id, missing, m, rest, sent) && at == Reached(m, NextTurn(rest))
    requires sent.Ok? && Finalized(NextTurn(rest), id, reply, at, t)
    requires if reply.Ok? then r == Ok((sent.value, reply.value)) else r.IsFailure()
    ensures Judged(s, script, job, id, missing, r, at, Rest(rest)) && NothingDone(s, script, job, id, missing, r, at, t)
  {
  }

  /** Send what is missing and finalize; `at` is the instance as the finalize found it. */
  method SendAndFinalize(w: World, job: Job, id: UploadId, missing: seq<nat>)
      returns (r: Outcome<(nat, Reply)>, ghost at: Server)
    requires Sending(w, job, id) && Distinct(missing) && InRange(missing, job.Count())
    modifies w`servers, w`script, w`log, w`waited
    ensures Sending(w, job, id) && Since(old(Now(w)), Now(w), job, 1, 1)
    ensures r.Ok? && r.value.1.IsOk() ==> FinishedOk(w, job, id, at, r.value.1)
    ensures r.Ok? ==> r.value.0 == |missing|
    ensures id in at.uploads ==> Declares(at.uploads[id], job.target, job.Checksum())
    ensures Judged(old(w.servers[job.base]), old(w.script), job, id, missing, r, at, w.script)
    ensures NothingDone(old(w.servers[job.base]), old(w.script), job, id, missing, r, at, w.servers[job.base])
  {
    ghost var s, script, before := w.servers[job.base], w.script, Now(w);
    at := s.(uploads := map[]);
    var sent := Pass(w, job, id, missing);
    ghost var middle, m, rest := Now(w), w.servers[job.base], w.script;
    if sent.IsFailure() {
      SinceWidens(before, middle, job, 1, 0, 1, 1);
      r := sent.PropagateFailure<(nat, Reply)>();
      return;
    }
    var reply;
    reply, at := FinalizeOnce(w, job, id);
    SinceAdds(before, middle, Now(w), job, 1, 0, 0, 1, 1, 1);
    r := if reply.Ok? then Ok((sent.value, reply.value)) else reply.PropagateFailure<(nat, Reply)>();
    JudgedSo(s, script, job, id, missing, m, rest, sent, reply, at, w.servers[job.base], r);
  }

  lemma {:induction false} SinceWidens(a: Moment, b: Moment, job: Job, p: nat, m: nat, q: nat, n: nat)
    requires Since(a, b, job, p, m) && p <= q && m <= n
    ensures Since(a, b, job, q, n)
  {
    if p < q {
      StepsAdd(p, q, PassLimit(job));
      StepsAdd(p, q, job.retries + 1);
    }
  }

  /** After a 409 nothing more goes wrong than tries that are wasted in time. */
  predicate Mends(script: seq<Turn>, u: Upload, retries: nat) {
    && NextTurn(script) == CALM && Gentle(Rest(script), |MissingFrom(u, 0)|, retries)
    && NextTurn(AfterParts(Rest(script), |MissingFrom(u, 0)|)) == CALM
  }

  /** The script after the one recovery. */
  function AfterMending(script: seq<Turn>, u: Upload): seq<Turn> {
    Rest(AfterParts(Rest(script), |MissingFrom(u, 0)|))
  }

  /** Of an upload that is open, when no more than tries are lost, the second finalize judges what
      was then mended. */
  ghost predicate Mended(s: Server, script: seq<Turn>, job: Job, id: UploadId, r: Outcome<(nat, Reply)>, at: Server,
      left: seq<Turn>)
  {
    Open(s, job, id) && Mends(script, s.uploads[id], job.retries) ==>
      && r.Ok? && r.value.0 == |MissingFrom(s.uploads[id], 0)|
      && id in at.uploads && at.uploads[id] == Refilled(s.uploads[id], job, s.storage)
      && r.value.1.status == FinalStatus(at.uploads[id]) && left == AfterMending(script, s.uploads[id])
  }

  lemma {:induction false} AskedMends(s: Server, script: seq<Turn>, job: Job, id: UploadId, r: Outcome<(nat, Reply)>,
      at: Server,
      left: seq<Turn>)
    requires Open(s, job, id) && Mends(script, s.uploads[id], job.retries)
    requires Judged(s, Rest(script), job, id, MissingFrom(s.uploads[id], 0), r, at, left)
    requires r.Ok? ==> r.value.0 == |MissingFrom(s.uploads[id], 0)|
    ensures Mended(s, script, job, id, r, at, left)
  {
    var u := s.uploads[id];
    var t := PassEnd(s, job, id, MissingFrom(u, 0));
    assert t.uploads[id] == Refilled(u, job, s.storage) && Reached(t, CALM) == t;
  }

  /** Ask again what is missing. */
  method AskAgain(w: World, job: Job, id: UploadId) returns (r: Outcome<seq<nat>>)
    requires Sending(w, job, id)
    modifies w`servers, w`script, w`log
    ensures Sending(w, job, id) && Since(old(Now(w)), Now(w), job, 0, 1) && w.script == Rest(old(w.script))
    ensures r.Ok? ==> Distinct(r.value) && InRange(r.value, job.Count())
    ensures var s := old(w.servers[job.base]);
      Open(s, job, id) && NextTurn(old(w.script)) == CALM ==>
          r == Ok(MissingFrom(s.uploads[id], 0)) && w.servers[job.base] == s
  {
    var asked := AskMissing(w, job, id);
    if asked.IsFailure() {
      return asked.PropagateFailure<seq<nat>>();
    }
    if !asked.value.IsOk() {
      return Threw(asked.value.status, "HTTP_ERROR");
    }
    return Ok(asked.value.body.missing);
  }

  /** After a 409: ask again, send what is gone and finalize once more. */
  method RecoverOnce(w: World, job: Job, id: UploadId) returns (r: Outcome<(nat, Reply)>, ghost at: Server)
    requires Sending(w, job, id)
    modifies w`servers, w`script, w`log, w`waited
    ensures Sending(w, job, id) && Since(old(Now(w)), Now(w), job, 1, 2)
    ensures r.Ok? && r.value.1.IsOk() ==> FinishedOk(w, job, id, at, r.value.1)
    ensures Mended(old(w.servers[job.base]), old(w.script), job, id, r, at, w.script)
  {
    ghost var s, script, before := w.servers[job.base], w.script, Now(w);
    at := s;
    var missing := AskAgain(w, job, id);
    ghost var middle := Now(w);
    if missing.IsFailure() {
      SinceWidens(before, middle, job, 0, 1, 1, 2);
      r := missing.PropagateFailure<(nat, Reply)>();
      return;
    }
    r, at := SendAndFinalize(w, job, id, missing.value);
    if Open(s, job, id) && Mends(script, s.uploads[id], job.retries) {
      AskedMends(s, script, job, id, r, at, w.script);
    }
    SinceAdds(before, middle, Now(w), job, 0, 1, 1, 1, 1, 2);
  }

  // ---- from a known upload to its end ----

  /** The first finalize is answered, and if that is a 409, what follows goes through. */
  predicate Concludes(rest: seq<Turn>, first: Server, id: UploadId, retries: nat) {
    && Meets(rest, first, id)
    && (FinalStatus(first.uploads[id]) == 409 ==> Mends(Rest(rest), first.uploads[id], retries))
  }

  function AfterConcluding(rest: seq<Turn>, u: Upload): seq<Turn> {
    if FinalStatus(u) == 409 then AfterMending(Rest(rest), u) else Rest(rest)
  }

  /** The parts sent when the first finalize met this upload. */
  function SentInAll(missing: seq<nat>, u: Upload): nat {
    |missing| + if FinalStatus(u) == 409 then |MissingFrom(u, 0)| else 0
  }

  /** How a run ends whose missing parts come through: `first` is the instance as the first finalize
      found it, `at` as the last one did. */
  ghost predicate Concluded(s: Server, script: seq<Turn>, job: Job, id: UploadId, missing: seq<nat>,
      r: Outcome<(nat, Reply)>, first: Server, at: Server, left: seq<Turn>)
  {
    Sends(s, script, job, id, missing) ==>
      var rest := AfterParts(script, |missing|);
      && first == Reached(PassEnd(s, job, id, missing), NextTurn(rest))
      && (Concludes(rest, first, id, job.retries) ==>
            && r.Ok? && r.value.0 == SentInAll(missing, first.uploads[id])
            && id in at.uploads && at.uploads[id] == LastMet(first.uploads[id], job, first.storage)
            && r.value.1.status == FinalStatus(at.uploads[id]) && left == AfterConcluding(rest, first.uploads[id]))
  }

  lemma ConcludedAtOnce(s: Server, script: seq<Turn>, job: Job, id: UploadId, missing: seq<nat>,
      r: Outcome<(nat, Reply)>, first: Server, left: seq<Turn>)
    requires Judged(s, script, job, id, missing, r, first, left) && (r.Ok? ==> r.value.0 == |missing|)
    requires r.Ok? ==> r.value.1.status != 409
    ensures Concluded(s, script, job, id, missing, r, first, first, left)
  {
  }

  lemma {:induction false} ConcludedMended(s: Server, script: seq<Turn>, job: Job, id: UploadId, missing: seq<nat>,
      r: Outcome<(nat, Reply)>, first: Server, left: seq<Turn>, t: Server, r2: Outcome<(nat, Reply)>, at: Server,
      left2: seq<Turn>, all: Outcome<(nat, Reply)>)
    requires Judged(s, script, job, id, missing, r, first, left)
        && NothingDone(s, script, job, id, missing, r, first, t)
    requires r.Ok? && r.value.0 == |missing| && r.value.1.status == 409
    requires id in first.uploads ==> Declares(first.uploads[id], job.target, job.Checksum())
    requires Mended(t, left, job, id, r2, at, left2)
    requires if r2.Ok? then all == Ok((r.value.0 + r2.value.0, r2.value.1)) else all.IsFailure()
    ensures Concluded(s, script, job, id, missing, all, first, at, left2)
  {
  }

  /** From a known upload to a final answer from the instance. */
  method Conclude(w: World, job: Job, id: UploadId, missing: seq<nat>)
      returns (r: Outcome<(nat, Reply)>, ghost first: Server, ghost at: Server)
    requires Sending(w, job, id) && Distinct(missing) && InRange(missing, job.Count())
    modifies w`servers, w`script, w`log, w`waited
    ensures Sending(w, job, id) && Since(old(Now(w)), Now(w), job, 2, 3)
    ensures r.Ok? && r.value.1.IsOk() ==> FinishedOk(w, job, id, at, r.value.1)
    ensures id in first.uploads ==> Declares(first.uploads[id], job.target, job.Checksum())
    ensures Concluded(old(w.servers[job.base]), old(w.script), job, id, missing, r, first, at, w.script)
  {
    ghost var s, script, before := w.servers[job.base], w.script, Now(w);
    r, first := SendAndFinalize(w, job, id, missing);
    at := first;
    ghost var middle, left, t := Now(w), w.script, w.servers[job.base];
    if r.Ok? && r.value.1.status == 409 {
      var again;
      again, at := RecoverOnce(w, job, id);
      SinceAdds(before, middle, Now(w), job, 1, 1, 1, 2, 2, 3);
      ghost var r1 := r;
      r := if again.Ok? then Ok((r.value.0 + again.value.0, again.value.1)) else again;
      ConcludedMended(s, script, job, id, missing, r1, first, left, t, again, at, w.script, r);
    } else {
      SinceWidens(before, middle, job, 1, 1, 2, 3);
      ConcludedAtOnce(s, script, job, id, missing, r, first, left);
    }
  }
}
