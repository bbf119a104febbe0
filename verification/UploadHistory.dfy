/** Any number of runs, disturbed or killed anywhere, and a last one. */
module UploadHistory {
  import opened Wrappers
  import opened PartTiling
  import opened UploadServer
  import opened UploadKeys
  import opened UploadWorld
  import opened UploadTurns
  import opened UploadClient
  import opened UploadRun
  import opened UploadCommand
  import opened UploadOutcome

  /** Another run, what goes wrong during it, and how the instances drift before it. */
  datatype Attempt = Attempt(job: Job, script: seq<Turn>, drift: map<Base, Server>)

  /** The instances after a while without a request from this machine. */
  function Drifted(servers: map<Base, Server>, drift: map<Base, Server>): map<Base, Server> {
    map base | base in servers ::
      if base in drift && Drifts(servers[base], drift[base]) then drift[base] else servers[base]
  }

  lemma DriftedKeepsStore(servers: map<Base, Server>, saved: map<Key, SavedUpload>, drift: map<Base, Server>)
    requires StoreFine(servers, saved)
    ensures StoreFine(Drifted(servers, drift), saved)
  {
  }

  /** A run the command line can start. */
  predicate CanStart(servers: map<Base, Server>, job: Job) {
    job.base in servers && !Ambiguous(job.base) && job.partBytes > 0
  }

  /** The request sends a part of this job, with that part's bytes, to the upload that the disk then
      named for the job, at the job's own instance. */
  predicate NamedPut(e: Event, job: Job) {
    && e.base == job.base && e.call.SendPart? && job.Key() in e.saved && e.saved[job.Key()].id == e.call.id
    && e.call.n < job.Count() && e.call == job.PartCall(e.call.id, e.call.n)
  }

  /** No part ever went anywhere but, with its own bytes, to the upload that the disk named for its
      source at that moment, so a crash leaves at most an empty upload behind. */
  ghost predicate PutsEverNamed(log: seq<Event>) {
    forall e :: e in log && e.call.SendPart? ==> exists job: Job :: NamedPut(e, job)
  }

  lemma RunIsNamed(log: seq<Event>, job: Job)
    requires PutsNamed(log, job)
    ensures PutsEverNamed(log)
  {
    forall e | e in log && e.call.SendPart? ensures exists j: Job :: NamedPut(e, j) { assert NamedPut(e, job); }
  }

  /** Any number of runs, of any sources to any instances, each disturbed or killed anywhere. */
  method RunAll(w: World, attempts: seq<Attempt>)
    requires w.Fine() && PutsEverNamed(w.log)
    modifies w
    ensures w.Fine() && w.servers.Keys == old(w.servers.Keys) && PutsEverNamed(w.log)
  {
    for i := 0 to |attempts|
      invariant w.Fine() && w.servers.Keys == old(w.servers.Keys) && PutsEverNamed(w.log)
    {
      var next := attempts[i];
      DriftedKeepsStore(w.servers, w.saved, next.drift);
      w.servers := Drifted(w.servers, next.drift);
      w.script := next.script;
      if CanStart(w.servers, next.job) {
        ghost var logged := w.log;
        var r;
        ghost var first, met;
        r, first, met := ResumableUpload(w, next.job);
        assert w.log == logged + w.log[|logged|..];
        RunIsNamed(w.log[|logged|..], next.job);
      }
    }
  }

  /** Recovery: after any history from an empty disk, one undisturbed run succeeds exactly when
      `Succeeds` says of the moment it starts. The instance then reads back the source, exactly unless
      the upload was spoiled under its records. */
  method RunAgain(servers: map<Base, Server>, attempts: seq<Attempt>, job: Job)
    returns (r: Outcome<UploadResult>, before: Moment, after: Moment)
    requires CanStart(servers, job) && forall base :: base in servers ==> IdsInUse(servers[base])
    ensures job.base in before.servers && StoreFine(before.servers, before.saved) && PutsEverNamed(before.log)
    ensures r.Ok? <==> Succeeds(before.servers[job.base], before.saved, job)
    ensures r.Ok? ==> job.base in after.servers && FinishedAt(after.servers[job.base], job, r.value.id)
    ensures r.Ok? ==> r.value.sentParts == PartsToSend(before.servers[job.base], before.saved, job)
    ensures r.Ok? ==>
      (ReadTransfer(after.servers[job.base].uploads[r.value.id]) == [job.content]
       <==> !Spoiled(before.servers[job.base], before.saved, job))
    ensures !r.Ok? && CanPlace(before.servers[job.base], before.saved, job) ==>
      r.Threw? && (r.status == 422 || r.status == 500) && (job.Key() !in after.saved <==> r.status == 422)
  {
    var w := new World(servers, []);
    RunAll(w, attempts);
    w.script := [];
    before := Moment(w.servers, w.saved, w.log);
    NoScriptIsFair(w.servers[job.base], w.saved, job);
    r := UndisturbedUpload(w, job);
    after := Moment(w.servers, w.saved, w.log);
  }
}
