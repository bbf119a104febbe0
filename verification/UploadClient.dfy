/** The resumable upload client: begin or resume, send what is missing with bounded retries,
    finalize, recover once from a 409, and forget or keep the saved id. */
module UploadClient {
  import opened Wrappers
  import opened PartTiling
  import opened UploadServer
  import opened UploadKeys
  import opened UploadSource
  import opened UploadWorld
  import opened UploadTurns

  datatype Outcome<+T> = Ok(value: T) | Threw(status: nat, code: string) | Crashed {
    predicate IsFailure() {
      !Ok?
    }
    function PropagateFailure<U>(): Outcome<U>
      requires IsFailure()
    {
      match this case Threw(s, c) => Threw(s, c) case Crashed => Crashed
    }
  }

  /** One upload command: `content` is the source's bytes. */
  datatype Job = Job(base: Base, target: Target, content: Bytes, partBytes: nat, retries: nat, retryDelayMs: nat) {
    function Checksum(): Digest {
      Sha256(content)
    }
    function Key(): Key {
      StateKey(base, target, Checksum(), |content|)
    }
    function Parts(): seq<Part> {
      Manifest(content, PART_BYTES)
    }
    function Count(): nat {
      |Parts()|
    }
    /** The request that begins an upload: the manifest in the client's own part size. */
    function BeginCall(): Call
      requires partBytes > 0
    {
      Begin(target, |content|, Checksum(), Manifest(content, partBytes))
    }
    /** The request that sends part `n` to upload `id`. */
    function PartCall(id: UploadId, n: nat): Call {
      SendPart(target, id, n, Slice(content, PART_BYTES, n))
    }
  }

  datatype UploadResult = UploadResult(id: UploadId, checksum: Digest, size: nat, resumed: bool, sentParts: nat)

  function Repeat<T>(x: T, k: nat): seq<T> {
    seq(k, _ => x)
  }

  // ---- what is true while parts are being sent ----

  /** The upload's id is on the disk, and the parts are the instance's size. */
  ghost predicate Sending(w: World, job: Job, id: UploadId)
    reads w
  {
    && w.Fine() && job.base in w.servers && !Ambiguous(job.base) && job.partBytes == PART_BYTES
    && job.Key() in w.saved && w.saved[job.Key()].id == id
  }

  /** The upload is there, unfinished, alive and declares the job's bytes. */
  predicate Open(s: Server, job: Job, id: UploadId) {
    id in s.uploads && s.uploads[id].live && !s.uploads[id].ready && Declares(s.uploads[id], job.target, job.Checksum())
  }

  /** Every request of a pass sends one of `missing`, with that part's bytes, to the upload
      that the disk names at that moment. */
  predicate OnlyMissingSent(log: seq<Event>, job: Job, id: UploadId, missing: seq<nat>) {
    forall e :: e in log ==>
      && e.base == job.base && e.call.SendPart? && e.call.n in missing && e.call == job.PartCall(id, e.call.n)
      && job.Key() in e.saved && e.saved[job.Key()].id == id
  }

  /** How often part `n` is sent in a log. */
  function Tries(log: seq<Event>, n: nat): nat {
    if log == [] then 0
    else Tries(log[..|log| - 1], n) + if log[|log| - 1].call.SendPart? && log[|log| - 1].call.n == n then 1 else 0
  }

  lemma {:induction false} TriesAdd(a: seq<Event>, b: seq<Event>, n: nat)
    ensures Tries(a + b, n) == Tries(a, n) + Tries(b, n)
    decreases |b|
  {
    if b == [] {
      assert a + b == a;
    } else {
      TriesAdd(a, b[..|b| - 1], n);
      assert (a + b)[..|a + b| - 1] == a + b[..|b| - 1];
    }
  }

  lemma {:induction false} TriesRepeat(e: Event, k: nat, n: nat)
    requires e.call.SendPart?
    ensures Tries(Repeat(e, k), n) == if e.call.n == n then k else 0
  {
    if k > 0 {
      TriesRepeat(e, k - 1, n);
      assert Repeat(e, k)[..k - 1] == Repeat(e, k - 1);
    }
  }

  // ---- accounting of the bytes ----

  /** The bytes of the parts that are not pending. */
  function SizeOutside(parts: seq<Part>, pending: set<nat>): nat {
    if parts == [] then 0
    else SizeOutside(parts[..|parts| - 1], pending) + if |parts| - 1 in pending then 0 else parts[|parts| - 1].size
  }

  lemma {:induction false} SizeOutsideAdds(parts: seq<Part>, pending: set<nat>, n: nat)
    requires n in pending
    ensures SizeOutside(parts, pending - {n}) == SizeOutside(parts, pending) + if n < |parts| then parts[n].size else 0
  {
    if parts != [] {
      SizeOutsideAdds(parts[..|parts| - 1], pending, n);
    }
  }

  lemma {:induction false} SizeOutsideNone(parts: seq<Part>)
    ensures SizeOutside(parts, {}) == SumSizes(parts)
  {
    if parts != [] {
      SizeOutsideNone(parts[..|parts| - 1]);
    }
  }

  predicate NonDecreasing(reports: seq<nat>) {
    forall i, j :: 0 <= i < j < |reports| ==> reports[i] <= reports[j]
  }

  predicate Distinct(missing: seq<nat>) {
    forall i, j :: 0 <= i < j < |missing| ==> missing[i] != missing[j]
  }

  function ToSet(missing: seq<nat>): set<nat> {
    set n | n in missing
  }

  // ---- waiting between tries ----

  /** 1 + 2 + ... + n. */
  function Triangle(n: nat): nat {
    if n == 0 then 0 else Triangle(n - 1) + n
  }

  lemma {:induction false} TriangleClosed(n: nat)
    ensures 2 * Triangle(n) == n * (n + 1)
  {
    if n > 0 { TriangleClosed(n - 1); }
  }

  lemma Distribute(a: nat, b: nat, c: nat)
    ensures a * (b + c) == a * b + a * c
  {
  }

  lemma {:induction false} TriangleGrows(m: nat, n: nat, delay: nat)
    requires m <= n
    ensures delay * Triangle(m) <= delay * Triangle(n)
  {
    if m < n {
      TriangleGrows(m, n - 1, delay);
      Distribute(delay, Triangle(n - 1), n);
    }
  }

  // ---- sending ----

  /** Read part `n` again from the source, where it was read for the manifest. */
  method ReadPart(job: Job, n: nat, plan: seq<nat>) returns (bytes: Bytes)
    requires job.partBytes == PART_BYTES && n < job.Count()
    ensures bytes == Slice(job.content, PART_BYTES, n)
  {
    SliceWindow(job.content, PART_BYTES, n);
    var got := Read(job.content, Offset(n, job.partBytes), job.Parts()[n].size, plan);
    return got.value;
  }

  /** The instance after it accepted part `n`. */
  function WithPart(s: Server, job: Job, id: UploadId, n: nat): Server
    requires id in s.uploads
  {
    s.(uploads := s.uploads[id := Put(s.uploads[id], n, Slice(job.content, PART_BYTES, n), s.storage)])
  }

  /** An open upload accepts any of its parts, and sending it again changes nothing more. */
  lemma {:induction false} PutAccepts(s: Server, job: Job, id: UploadId, n: nat)
    requires Open(s, job, id) && n < job.Count()
    ensures var t := WithPart(s, job, id, n);
      && Handle(s, job.PartCall(id, n)) == (t, Reply(204, Nothing))
      && Open(t, job, id) && WithPart(t, job, id, n) == t
  {
    var u := s.uploads[id];
    var v := WithPart(s, job, id, n).uploads[id];
    assert Put(v, n, Slice(job.content, PART_BYTES, n), s.storage) == v by {
      assert v.blobs[n := v.blobs[n]] == v.blobs;
    }
  }

  /** How things stand for a client, but for its disk. */
  datatype Stance = Stance(servers: map<Base, Server>, script: seq<Turn>, log: seq<Event>, waited: nat)

  ghost function StanceOf(w: World): Stance
    reads w
  {
    Stance(w.servers, w.script, w.log, w.waited)
  }

  /** The other instances are as they were, and the job's has only drifted. */
  predicate OneDrifted(a: map<Base, Server>, b: map<Base, Server>, job: Job) {
    job.base in a && job.base in b && b == a[job.base := b[job.base]] && Drifts(a[job.base], b[job.base])
  }

  /** One PUT of part `n`. */
  method PutOnce(w: World, job: Job, id: UploadId, n: nat, bytes: Bytes) returns (x: Exchange)
    requires Sending(w, job, id) && bytes == Slice(job.content, PART_BYTES, n)
    modifies w`servers, w`script, w`log
    ensures Sending(w, job, id) && OneDrifted(old(w.servers), w.servers, job) && w.script == Rest(old(w.script))
    ensures w.log == old(w.log) + [Event(job.base, job.PartCall(id, n), w.saved)]
    ensures (w.servers[job.base], x) == Serve(old(w.servers[job.base]), NextTurn(old(w.script)), job.PartCall(id, n))
  {
    x := w.Request(job.base, SendPart(job.target, id, n, bytes));
  }

  lemma RepeatGrows<T>(x: T, k: nat)
    ensures Repeat(x, k) + [x] == Repeat(x, k + 1)
  {
  }

  /** An exchange that settles nothing: no answer, or a refusal that passes. */
  predicate Unsettled(x: Exchange) {
    x.NoAnswer? || (x.Answer? && !x.reply.IsOk() && Passing(x.reply.status))
  }

  /** What a calm and a fleeting turn make of a PUT to an open upload. */
  lemma {:induction false} PutTurns(s: Server, turn: Turn, job: Job, id: UploadId, n: nat)
    requires Open(s, job, id) && n < job.Count()
    ensures turn == CALM ==>
        Serve(s, turn, job.PartCall(id, n)) == (WithPart(s, job, id, n), Answer(Reply(204, Nothing)))
    ensures Fleeting(turn) ==>
      var (t, x) := Serve(s, turn, job.PartCall(id, n)); (t == s || t == WithPart(s, job, id, n)) && Unsettled(x)
  {
    PutAccepts(s, job, id, n);
  }

  /** What one try means: it is the last one unless nothing is settled and there are tries left. */
  ghost predicate Attempted(s: Server, turn: Turn, job: Job, id: UploadId, n: nat, attempt: nat,
      r: Option<Outcome<()>>, t: Server)
  {
    var (after, x) := Serve(s, turn, job.PartCall(id, n));
    && t == after && (r.None? <==> Unsettled(x) && attempt < job.retries)
    && (r.Some? ==> (r.value.Ok? <==> x.Answer? && x.reply.IsOk()) && (Unsettled(x) ==> r.value.Threw?))
  }

  /** One try: its request, and the wait before the next one. */
  ghost predicate OneTry(at: Stance, next: Stance, job: Job, id: UploadId, n: nat, saved: map<Key, SavedUpload>,
      attempt: nat, r: Option<Outcome<()>>)
  {
    && OneDrifted(at.servers, next.servers, job) && next.script == Rest(at.script)
    && next.log == at.log + [Event(job.base, job.PartCall(id, n), saved)]
    && next.waited == at.waited + (if r.None? then job.retryDelayMs * (attempt + 1) else 0)
    && Attempted(at.servers[job.base], NextTurn(at.script), job, id, n, attempt, r, next.servers[job.base])
  }

  /** One try of part `n` and what it means: done, or wait and try again. */
  method TryOnce(w: World, job: Job, id: UploadId, n: nat, bytes: Bytes, attempt: nat) returns (r: Option<Outcome<()>>)
    requires Sending(w, job, id) && bytes == Slice(job.content, PART_BYTES, n) && attempt <= job.retries
    modifies w`servers, w`script, w`log, w`waited
    ensures Sending(w, job, id) && OneTry(old(StanceOf(w)), StanceOf(w), job, id, n, w.saved, attempt, r)
  {
    var x := PutOnce(w, job, id, n, bytes);
    if x.Died? {
      return Some(Crashed);
    }
    if x.Answer? && x.reply.IsOk() {
      return Some(Ok(()));
    }
    var status := if x.Answer? then x.reply.status else 0;
    if !Passing(status) || attempt >= job.retries {
      return Some(Threw(status, if x.Answer? then "HTTP_ERROR" else "NO_ANSWER"));
    }
    w.waited := w.waited + job.retryDelayMs * (attempt + 1);
    return None;
  }

  /** Tries of a part of an open upload that are wasted until one comes through, or until there are
      none left. */
  ghost predicate Trying(s: Server, job: Job, id: UploadId, n: nat, script: seq<Turn>) {
    Open(s, job, id) && n < job.Count() && (Comes(script, job.retries) || Wasted(script) > job.retries)
  }

  /** The instance while tries are wasted: as it was, or with the part stored and the answer lost. */
  ghost predicate Wasting(s: Server, t: Server, job: Job, id: UploadId, n: nat, script: seq<Turn>, attempt: nat) {
    Trying(s, job, id, n, script) ==> attempt <= Wasted(script) && (t == s || t == WithPart(s, job, id, n))
  }

  /** What comes of a part whose tries are wasted or come through: it is stored exactly if no more
      than `retries` tries are wasted, by the try after those. */
  ghost predicate Through(s: Server, t: Server, job: Job, id: UploadId, n: nat, script: seq<Turn>, tries: nat,
      ok: bool) {
    Trying(s, job, id, n, script) ==>
      && (ok <==> Wasted(script) <= job.retries)
      && (ok ==> t == WithPart(s, job, id, n) && tries == Wasted(script) + 1)
  }

  /** One more try, while tries are wasted and when that is over. */
  lemma {:induction false} WastingStep(s: Server, now: Server, t: Server, job: Job, id: UploadId, n: nat,
      script: seq<Turn>, attempt: nat,
      r: Option<Outcome<()>>)
    requires Wasting(s, now, job, id, n, script, attempt) && attempt <= job.retries
    requires Attempted(now, NextTurn(Drop(script, attempt)), job, id, n, attempt, r, t)
    ensures r.None? ==> Wasting(s, t, job, id, n, script, attempt + 1)
    ensures r.Some? ==> Through(s, t, job, id, n, script, attempt + 1, r.value.Ok?)
  {
    if Trying(s, job, id, n, script) {
      PutAccepts(s, job, id, n);
      PutTurns(now, NextTurn(Drop(script, attempt)), job, id, n);
      WastedFirst(script, attempt);
    }
  }

  /** What sending one part in up to `tries` tries does: the instance drifts, the tries are logged
      and waited for, and what was wasted in time comes through. */
  ghost predicate PartSent(at: Stance, next: Stance, job: Job, id: UploadId, n: nat, saved: map<Key, SavedUpload>,
      tries: nat, ok: bool)
  {
    && OneDrifted(at.servers, next.servers, job)
    && 1 <= tries <= job.retries + 1 && next.script == Drop(at.script, tries)
    && next.log == at.log + Repeat(Event(job.base, job.PartCall(id, n), saved), tries)
    && next.waited == at.waited + job.retryDelayMs * Triangle(tries - 1)
    && Through(at.servers[job.base], next.servers[job.base], job, id, n, at.script, tries, ok)
  }

  /** After `attempt` tries that settled nothing. */
  ghost predicate SoFar(start: Stance, at: Stance, job: Job, id: UploadId, n: nat, saved: map<Key, SavedUpload>,
      attempt: nat) {
    && OneDrifted(start.servers, at.servers, job) && at.script == Drop(start.script, attempt)
    && at.log == start.log + Repeat(Event(job.base, job.PartCall(id, n), saved), attempt)
    && at.waited == start.waited + job.retryDelayMs * Triangle(attempt)
    && Wasting(start.servers[job.base], at.servers[job.base], job, id, n, start.script, attempt)
  }

  lemma {:induction false} TryStep(start: Stance, at: Stance, next: Stance, job: Job, id: UploadId, n: nat,
      saved: map<Key, SavedUpload>,
      attempt: nat, r: Option<Outcome<()>>)
    requires SoFar(start, at, job, id, n, saved, attempt) && attempt <= job.retries
    requires OneTry(at, next, job, id, n, saved, attempt, r)
    ensures r.None? ==> attempt < job.retries && SoFar(start, next, job, id, n, saved, attempt + 1)
    ensures r.Some? ==> PartSent(start, next, job, id, n, saved, attempt + 1, r.value.Ok?)
  {
    var event := Event(job.base, job.PartCall(id, n), saved);
    WastingStep(start.servers[job.base], at.servers[job.base], next.servers[job.base], job, id, n, start.script,
        attempt, r);
    DriftsTransitive(start.servers[job.base], at.servers[job.base], next.servers[job.base]);
    RepeatGrows(event, attempt);
    RestIsDrop(start.script, attempt);
    Distribute(job.retryDelayMs, Triangle(attempt), attempt + 1);
  }

  /** Send one part, again after no answer, a 429 or a 5xx, at most `retries` more times. */
  method TryPart(w: World, job: Job, id: UploadId, n: nat, bytes: Bytes) returns (r: Outcome<()>, ghost tries: nat)
    requires Sending(w, job, id) && bytes == Slice(job.content, PART_BYTES, n)
    modifies w`servers, w`script, w`log, w`waited
    ensures Sending(w, job, id) && PartSent(old(StanceOf(w)), StanceOf(w), job, id, n, w.saved, tries, r.Ok?)
  {
    var attempt := 0;
    ghost var start := StanceOf(w);
    DriftsReflexive(w.servers[job.base]);
    assert w.servers == w.servers[job.base := w.servers[job.base]];
    while true
      invariant attempt <= job.retries && Sending(w, job, id)
      invariant SoFar(start, StanceOf(w), job, id, n, w.saved, attempt)
      decreases job.retries - attempt
    {
      ghost var at := StanceOf(w);
      var tried := TryOnce(w, job, id, n, bytes, attempt);
      TryStep(start, at, StanceOf(w), job, id, n, w.saved, attempt, tried);
      tries := attempt + 1;
      if tried.Some? {
        r := tried.value;
        return;
      }
      attempt := attempt + 1;
    }
  }

  // ---- what a pass makes of an open upload ----

  /** The upload after the parts of `done` were stored, one after the other. */
  function SentAll(u: Upload, job: Job, done: seq<nat>, storage: Storage): (sent: Upload)
    ensures sent == u.(blobs := sent.blobs, hashed := sent.hashed)
  {
    if done == [] then u
    else
      var n := done[|done| - 1];
      Put(SentAll(u, job, done[..|done| - 1], storage), n, Slice(job.content, PART_BYTES, n), storage)
  }

  /** What is stored for a part afterwards: its own slice if it was sent, and else what was there. */
  lemma {:induction false} SentBlobs(u: Upload, job: Job, done: seq<nat>, storage: Storage, n: nat)
    ensures var sent, slice := SentAll(u, job, done, storage), Slice(job.content, PART_BYTES, n);
      if n in done then n in sent.blobs && sent.blobs[n] ==
          Blob(slice, |slice|, if storage.reports then Some(Sha256(slice)) else None)
      else (n in sent.blobs <==> n in u.blobs) && (n in u.blobs ==> sent.blobs[n] == u.blobs[n])
  {
    if done != [] {
      SentBlobs(u, job, done[..|done| - 1], storage, n);
      assert done == done[..|done| - 1] + [done[|done| - 1]];
    }
  }

  /** A part that was sent is good by its record and by its bytes; any other is as good as it was. */
  lemma SentParts(u: Upload, job: Job, done: seq<nat>, storage: Storage, n: nat)
    requires Declares(u, job.target, job.Checksum()) && n < |u.parts|
    ensures var sent := SentAll(u, job, done, storage);
      && (Recorded(sent, n) <==> n in done || Recorded(u, n))
      && (Intact(sent, n) <==> n in done || Intact(u, n))
  {
    SentBlobs(u, job, done, storage, n);
  }

  /** The log of a pass that has dealt with the first `i` of `missing`. */
  ghost predicate PassLog(sent: seq<Event>, job: Job, id: UploadId, missing: seq<nat>, i: nat)
    requires i <= |missing|
  {
    && OnlyMissingSent(sent, job, id, missing) && |sent| <= i * (job.retries + 1)
    && forall n :: Tries(sent, n) <= if n in missing[..i] then job.retries + 1 else 0
  }

  /** What a gentle pass over `done` makes of the instance. */
  ghost predicate Filled(s: Server, t: Server, job: Job, id: UploadId, done: seq<nat>) {
    && Open(s, job, id) && Open(t, job, id)
    && t == s.(uploads := s.uploads[id := SentAll(s.uploads[id], job, done, s.storage)])
  }

  lemma {:induction false} FilledNext(s: Server, t: Server, job: Job, id: UploadId, done: seq<nat>, n: nat)
    requires Filled(s, t, job, id, done) && n < job.Count()
    ensures Filled(s, WithPart(t, job, id, n), job, id, done + [n])
  {
    assert (done + [n])[..|done|] == done;
    PutAccepts(t, job, id, n);
  }

  predicate InRange(missing: seq<nat>, count: nat) {
    forall i :: 0 <= i < |missing| ==> missing[i] < count
  }

  /** A pass over an open upload in which each part comes through in time. */
  predicate GentlePass(start: Stance, job: Job, id: UploadId, missing: seq<nat>) {
    && job.base in start.servers && Open(start.servers[job.base], job, id)
    && Gentle(start.script, |missing|, job.retries)
  }

  /** How things stand in a pass that has dealt with the first `i` of `missing`. */
  ghost predicate PassAt(start: Stance, at: Stance, job: Job, id: UploadId, missing: seq<nat>, i: nat, sent: seq<Event>)
    requires i <= |missing|
  {
    && OneDrifted(start.servers, at.servers, job)
    && (i == 0 ==> at.servers == start.servers && at.script == start.script)
    && (GentlePass(start, job, id, missing) ==> Goes(start, at, job, id, missing, i))
    && at.log == start.log + sent && PassLog(sent, job, id, missing, i)
    && start.waited <= at.waited <= start.waited + i * (job.retryDelayMs * Triangle(job.retries))
  }

  /** The first `i` parts are stored; the others will come through, and leave of the script what all
      parts leave. */
  ghost predicate Goes(start: Stance, at: Stance, job: Job, id: UploadId, missing: seq<nat>, i: nat)
    requires i <= |missing|
  {
    && job.base in start.servers && job.base in at.servers
    && Filled(start.servers[job.base], at.servers[job.base], job, id, missing[..i])
    && Gentle(at.script, |missing| - i, job.retries)
    && AfterParts(at.script, |missing| - i) == AfterParts(start.script, |missing|)
  }

  lemma {:induction false} GoesOn(start: Stance, at: Stance, next: Stance, job: Job, id: UploadId, missing: seq<nat>,
      i: nat,
      saved: map<Key, SavedUpload>, tries: nat, ok: bool)
    requires i < |missing| && InRange(missing, job.Count()) && Goes(start, at, job, id, missing, i)
    requires PartSent(at, next, job, id, missing[i], saved, tries, ok)
    ensures ok && Goes(start, next, job, id, missing, i + 1)
  {
    assert missing[..i + 1] == missing[..i] + [missing[i]];
    FilledNext(start.servers[job.base], at.servers[job.base], job, id, missing[..i], missing[i]);
    assert next.script == AfterPart(at.script);
  }

  lemma {:induction false} PassStep(start: Stance, at: Stance, next: Stance, job: Job, id: UploadId,
      missing: seq<nat>, i: nat,
      sent: seq<Event>, saved: map<Key, SavedUpload>, tries: nat, ok: bool) returns (after: seq<Event>)
    requires i < |missing| && Distinct(missing) && InRange(missing, job.Count())
    requires PassAt(start, at, job, id, missing, i, sent) && PartSent(at, next, job, id, missing[i], saved, tries, ok)
    requires job.Key() in saved && saved[job.Key()].id == id
    ensures PassAt(start, next, job, id, missing, i + 1, after) && (GentlePass(start, job, id, missing) ==> ok)
  {
    after := NoteTries(job, id, missing, i, sent, Event(job.base, job.PartCall(id, missing[i]), saved), tries);
    assert next.log == start.log + after;
    if GentlePass(start, job, id, missing) { GoesOn(start, at, next, job, id, missing, i, saved, tries, ok); }
    DriftsTransitive(start.servers[job.base], at.servers[job.base], next.servers[job.base]);
    TriangleGrows(tries - 1, job.retries, job.retryDelayMs);
    StepsAdd(i, |missing|, job.retryDelayMs * Triangle(job.retries));
  }

  /** Deal with `missing[i]` in a pass. */
  method SendNext(w: World, job: Job, id: UploadId, missing: seq<nat>, i: nat, ghost sent: seq<Event>,
      ghost start: Stance)
    returns (tried: Outcome<()>, ghost after: seq<Event>)
    requires i < |missing| && Distinct(missing) && InRange(missing, job.Count()) && Sending(w, job, id)
    requires PassAt(start, StanceOf(w), job, id, missing, i, sent)
    modifies w`servers, w`script, w`log, w`waited
    ensures Sending(w, job, id) && PassAt(start, StanceOf(w), job, id, missing, i + 1, after)
    ensures GentlePass(start, job, id, missing) ==> tried.Ok?
  {
    var bytes := ReadPart(job, missing[i], []);
    ghost var at := StanceOf(w);
    ghost var tries;
    tried, tries := TryPart(w, job, id, missing[i], bytes);
    after := PassStep(start, at, StanceOf(w), job, id, missing, i, sent, w.saved, tries, tried.Ok?);
  }

  function PartSize(job: Job, missing: seq<nat>, i: nat): nat
    requires i < |missing| && InRange(missing, job.Count())
  {
    job.Parts()[missing[i]].size
  }

  /** One pass over `missing`: send each part, and report the bytes the instance holds. It deals
      with the first `done` of them, all of them unless a part fails for good. */
  method SendMissing(w: World, job: Job, id: UploadId, missing: seq<nat>)
    returns (r: Outcome<nat>, reports: seq<nat>, ghost done: nat, ghost sent: seq<Event>)
    requires Sending(w, job, id) && Distinct(missing) && InRange(missing, job.Count())
    modifies w`servers, w`script, w`log, w`waited
    ensures Sending(w, job, id) && done <= |missing|
    ensures PassAt(old(StanceOf(w)), StanceOf(w), job, id, missing, done, sent)
    ensures r.Ok? ==> done == r.value == |missing| && reports != [] && reports[|reports| - 1] == |job.content|
    ensures Reported(reports, job, missing, if r.Ok? || done == 0 then done else done - 1)
    ensures GentlePass(old(StanceOf(w)), job, id, missing) || missing == [] ==> r.Ok?
  {
    var sentParts: nat, sentBytes: nat := 0, SizeOutside(job.Parts(), ToSet(missing));
    reports := [sentBytes];
    sent, done := [], 0;
    ghost var start := StanceOf(w);
    PassStarts(start, job, id, missing);
    FirstReport(job, missing);
    for i := 0 to |missing|
      invariant Sending(w, job, id) && PassAt(start, StanceOf(w), job, id, missing, i, sent) && done == i
      invariant sentParts == i && Reported(reports, job, missing, i) && reports[|reports| - 1] == sentBytes
    {
      var tried;
      tried, sent := SendNext(w, job, id, missing, i, sent, start);
      done := i + 1;
      if tried.IsFailure() {
        return tried.PropagateFailure<nat>(), reports, done, sent;
      }
      sentParts := sentParts + 1;
      reports, sentBytes := Report(reports, sentBytes, job, missing, i);
    }
    LastReport(reports, job, missing);
    return Ok(sentParts), reports, done, sent;
  }

  /** Part `missing[i]` is through: report the bytes that are. */
  method Report(reports: seq<nat>, sentBytes: nat, job: Job, missing: seq<nat>, i: nat)
    returns (after: seq<nat>, sentNow: nat)
    requires Distinct(missing) && InRange(missing, job.Count()) && i < |missing|
    requires Reported(reports, job, missing, i) && reports[|reports| - 1] == sentBytes
    ensures Reported(after, job, missing, i + 1) && after[|after| - 1] == sentNow && reports < after
  {
    sentNow := sentBytes + PartSize(job, missing, i);
    NextReport(reports, job, missing, i, sentNow);
    after := reports + [sentNow];
  }

  lemma {:induction false} PassStarts(start: Stance, job: Job, id: UploadId, missing: seq<nat>)
    requires job.base in start.servers && IdsInUse(start.servers[job.base])
    ensures PassAt(start, start, job, id, missing, 0, [])
  {
    DriftsReflexive(start.servers[job.base]);
    assert start.servers == start.servers[job.base := start.servers[job.base]];
    if GentlePass(start, job, id, missing) {
      var s := start.servers[job.base];
      assert s.uploads == s.uploads[id := s.uploads[id]];
    }
  }

  /** The progress reports once the first `i` of `missing` are sent. */
  ghost predicate Reported(reports: seq<nat>, job: Job, missing: seq<nat>, i: nat)
    requires i <= |missing|
  {
    && reports != [] && NonDecreasing(reports)
    && reports[|reports| - 1] == SizeOutside(job.Parts(), ToSet(missing[i..])) <= |job.content|
  }

  lemma FirstReport(job: Job, missing: seq<nat>)
    requires Distinct(missing) && InRange(missing, job.Count())
    ensures Reported([SizeOutside(job.Parts(), ToSet(missing))], job, missing, 0)
  {
    PendingBytes(job.Parts(), missing, 0);
    Tiling(job.content, PART_BYTES);
    assert missing[0..] == missing;
  }

  lemma NonDecreasingGrows(reports: seq<nat>, next: nat)
    requires reports != [] && NonDecreasing(reports) && reports[|reports| - 1] <= next
    ensures NonDecreasing(reports + [next])
  {
  }

  lemma NextReport(reports: seq<nat>, job: Job, missing: seq<nat>, i: nat, next: nat)
    requires Distinct(missing) && InRange(missing, job.Count()) && i < |missing|
    requires Reported(reports, job, missing, i) && next == reports[|reports| - 1] + PartSize(job, missing, i)
    ensures Reported(reports + [next], job, missing, i + 1)
  {
    PendingBytes(job.Parts(), missing, i);
    PendingBytes(job.Parts(), missing, i + 1);
    Tiling(job.content, PART_BYTES);
    NonDecreasingGrows(reports, next);
  }

  lemma LastReport(reports: seq<nat>, job: Job, missing: seq<nat>)
    requires Reported(reports, job, missing, |missing|)
    ensures reports[|reports| - 1] == |job.content|
  {
    assert ToSet(missing[|missing|..]) == {};
    SizeOutsideNone(job.Parts());
    Tiling(job.content, PART_BYTES);
  }

  lemma StepsAdd(i: nat, n: nat, step: nat)
    requires i < n
    ensures i * step + step == (i + 1) * step <= n * step
  {
  }

  /** Sending part `missing[i]` takes its bytes out of what is still pending. */
  lemma PendingBytes(parts: seq<Part>, missing: seq<nat>, i: nat)
    requires Distinct(missing) && InRange(missing, |parts|) && i <= |missing|
    ensures i < |missing| ==>
      SizeOutside(parts, ToSet(missing[i + 1..])) == SizeOutside(parts, ToSet(missing[i..])) + parts[missing[i]].size
    ensures SizeOutside(parts, ToSet(missing[i..])) <= SumSizes(parts)
    decreases |missing| - i
  {
    if i < |missing| {
      assert missing[i..] == [missing[i]] + missing[i + 1..];
      assert ToSet(missing[i + 1..]) == ToSet(missing[i..]) - {missing[i]};
      SizeOutsideAdds(parts, ToSet(missing[i..]), missing[i]);
      PendingBytes(parts, missing, i + 1);
    } else {
      assert ToSet(missing[i..]) == {};
      SizeOutsideNone(parts);
    }
  }

  /** What a pass's log becomes after up to `retries + 1` tries of part `missing[i]`. */
  lemma NoteTries(job: Job, id: UploadId, missing: seq<nat>, i: nat, sent: seq<Event>, event: Event, k: nat)
      returns (after: seq<Event>)
    requires i < |missing| && Distinct(missing) && k <= job.retries + 1
    requires event.base == job.base && event.call == job.PartCall(id, missing[i])
    requires job.Key() in event.saved && event.saved[job.Key()].id == id
    requires PassLog(sent, job, id, missing, i)
    ensures after == sent + Repeat(event, k) && PassLog(after, job, id, missing, i + 1)
  {
    after := sent + Repeat(event, k);
    assert missing[..i + 1] == missing[..i] + [missing[i]];
    forall n ensures Tries(after, n) <= if n in missing[..i + 1] then job.retries + 1 else 0 {
      TriesOfPart(sent, event, k, n);
    }
    StepsAdd(i, i + 1, job.retries + 1);
    OnlyOneMore(sent, job, id, missing, i, event, k);
  }

  lemma TriesOfPart(sent: seq<Event>, event: Event, k: nat, n: nat)
    requires event.call.SendPart?
    ensures Tries(sent + Repeat(event, k), n) == Tries(sent, n) + if event.call.n == n then k else 0
  {
    TriesAdd(sent, Repeat(event, k), n);
    TriesRepeat(event, k, n);
  }

  lemma OnlyOneMore(sent: seq<Event>, job: Job, id: UploadId, missing: seq<nat>, i: nat, event: Event, k: nat)
    requires i < |missing| && event.base == job.base && event.call == job.PartCall(id, missing[i])
    requires job.Key() in event.saved && event.saved[job.Key()].id == id && OnlyMissingSent(sent, job, id, missing)
    ensures OnlyMissingSent(sent + Repeat(event, k), job, id, missing)
  {
    forall e | e in Repeat(event, k) ensures e == event { }
  }
}
