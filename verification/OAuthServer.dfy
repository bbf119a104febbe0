/** What the server does for a consent-based source: save, test the saved source, sync, enable. */
module OAuthServer {
  import opened Wrappers

  /** The settings of the form: what is typed or ticked, and what is chosen from a list. */
  datatype Settings = Settings(typed: seq<string>, chosen: seq<string>)

  datatype Record = Record(settings: Settings, fingerprint: Option<nat>, enabled: bool)

  /** The revision of a record is a digest of all of it but its timestamps, taken as injective. */
  datatype Revision = Revision(of: Record)

  datatype Receipt = Receipt(healthy: bool, listingFailed: bool, files: nat, originalRead: bool, revision: Revision) {
    predicate Eligible() {
      healthy && !listingFailed && files > 0 && originalRead
    }
  }

  datatype Request = Save(settings: Settings, create: bool) | Preview | Sync | Enable(revision: Revision)

  datatype Reply = Refused(changed: bool) | Saved | Report(receipt: Receipt) | Synced(assets: nat) | Enabled

  /** What the server does not decide itself: permission, the source's health, what a test finds,
      and what others write while a health check runs. */
  datatype Outside = Outside(permitted: bool, valid: bool, healthy: bool, listingFailed: bool, files: nat,
                             originalRead: bool,
                             assets: nat, during: Option<Option<Record>>)

  function ServeSave(record: Option<Record>, settings: Settings, create: bool, o: Outside): (Option<Record>, Reply) {
    if !o.permitted || !o.valid then (record, Refused(false))
    else if create then
      if record.Some? then (record, Refused(false)) else (Some(Record(settings, None, false)), Saved)
    else if record.None? || record.value.enabled then (record, Refused(false))
    else (Some(record.value.(settings := settings)), Saved)
  }

  function ServePreview(record: Option<Record>, o: Outside): Reply {
    if !o.permitted || record.None? || record.value.fingerprint.None? then Refused(false)
    else Report(Receipt(o.healthy, o.listingFailed, o.files, o.originalRead, Revision(record.value)))
  }

  /** The revision is compared before and after the health check. */
  function ServeEnable(record: Option<Record>, revision: Revision, o: Outside): (Option<Record>, Reply) {
    if !o.permitted || record.None? then (record, Refused(false))
    else if revision != Revision(record.value) then (record, Refused(true))
    else
      var current := if o.during.Some? then o.during.value else record;
      if !o.healthy then (current, Refused(false))
      else if current.None? || revision != Revision(current.value) then (current, Refused(true))
      else (Some(current.value.(enabled := true)), Enabled)
  }

  function Serve(record: Option<Record>, r: Request, o: Outside): (Option<Record>, Reply) {
    match r
    case Save(settings, create) => ServeSave(record, settings, create, o)
    case Preview => (record, ServePreview(record, o))
    case Sync => (record, if o.permitted && record.Some? then Synced(o.assets) else Refused(false))
    case Enable(revision) => ServeEnable(record, revision, o)
  }

  /** An enabled record is the one the revision names, whatever others wrote during the check. */
  lemma EnabledIsNamed(record: Option<Record>, revision: Revision, o: Outside)
    requires ServeEnable(record, revision, o).1 == Enabled
    ensures record == Some(revision.of)
    ensures ServeEnable(record, revision, o).0 == Some(revision.of.(enabled := true))
  {
  }

  /** Only a save changes settings, only a test reports, and only an enable request enables;
      `wrote` says that someone else may have written during the request. */
  predicate Plausible(record: Option<Record>, r: Request, wrote: bool, after: Option<Record>, reply: Reply) {
    && (reply.Enabled? ==> r.Enable? && record == Some(r.revision.of) && after == Some(r.revision.of.(enabled := true)))
    && (reply.Report? ==> r.Preview? && record == after == Some(reply.receipt.revision.of))
    && (reply.Saved? ==> r.Save? && after.Some? && after.value.settings == r.settings)
    && (!reply.Enabled? && !reply.Saved? && !wrote ==> after == record)
    && (wrote ==> r.Enable?)
  }

  lemma ServeIsPlausible(record: Option<Record>, r: Request, o: Outside)
    ensures Plausible(record, r, r.Enable? && o.during.Some?, Serve(record, r, o).0, Serve(record, r, o).1)
  {
  }
}
