/** The setup form of a source connected by browser consent, against its server: save disabled,
    test what is saved, sync and enable. Other people may write the source at any time, and any
    reply may be lost. */
module OAuthSetup {
  import opened Wrappers
  import opened OAuthServer

  /** The request in flight, before and after the server handled it. */
  datatype Wire = Quiet | Sent(request: Request) | Back(request: Request, reply: Reply)

  class OAuthSetup {
    const canStore: bool
    const stored: bool

    var settings: Settings
    var baseline: Settings
    var busy: bool
    var disposed: bool
    var created: bool
    var enabled: bool
    var receipt: Option<Receipt>

    var saveOff: bool
    var testOff: bool
    var enableOff: bool
    var settingsOff: bool

    var wire: Wire

    /** The source on the server. */
    var record: Option<Record>

    // What is only known from outside the form.
    /** The records a test passed on, ever and since the last save that was answered. */
    ghost var passed: set<Record>
    ghost var recent: set<Record>
    /** Someone else wrote, the answer to a save was lost or changes were given up, since the last
        answered save. */
    ghost var astray: bool
    /** A list choice changed since the buttons were last brought up to date. */
    ghost var silent: bool
    /** The record that was enabled on this form's request, and the settings then on the screen if
        nothing had gone astray. */
    ghost var enabledAs: Option<Record>
    ghost var shownAs: Option<Settings>

    predicate Dirty()
      reads this
    {
      settings != baseline
    }

    predicate Eligible()
      reads this
    {
      receipt.Some? && receipt.value.Eligible()
    }

    ghost predicate ControlsFit()
      reads this
    {
      && (busy ==> saveOff && testOff && enableOff && settingsOff)
      && (enabled ==> settingsOff)
      && (!testOff ==> created && stored && (Dirty() ==> silent))
      && (!enableOff ==> !enabled && canStore && (disposed || Eligible()) && (Dirty() ==> silent))
    }

    ghost predicate Tested(r: Option<Receipt>)
      reads this
    {
      r.Some? && r.value.Eligible() ==> r.value.revision.of in recent
    }

    ghost predicate WireFits()
      reads this
    {
      && (wire.Back? && wire.reply.Report? ==> Tested(Some(wire.reply.receipt)))
      && (!wire.Quiet? && wire.request.Enable? ==> wire.request.revision.of in recent)
      && (!wire.Quiet? && (wire.request.Enable? || wire.request.Sync?) ==> (Dirty() ==> silent))
      && (!wire.Quiet? && wire.request.Save? ==> wire.request.settings == settings)
      && (!wire.Quiet? && wire.request.Sync? ==> disposed || Eligible())
    }

    /** The saved settings are the ones the form was last in step with. */
    ghost predicate InStep()
      reads this
    {
      if wire.Back? && wire.request.Save? && wire.reply.Saved? then record.Some? && record.value.settings == settings
      else record.Some? ==> record.value.settings == baseline
    }

    /** A form without lists enables what is on its screen. */
    ghost predicate EnabledAsShown()
      reads this
    {
      settings.chosen == [] && shownAs.Some? ==> enabledAs.Some? && enabledAs.value.settings == shownAs.value
    }

    ghost predicate Valid()
      reads this
    {
      && busy == !wire.Quiet?
      && ControlsFit()
      && Tested(receipt)
      && WireFits()
      && recent <= passed
      && (enabledAs.Some? ==> enabledAs.value in passed)
      && (settings.chosen == [] ==> !silent)
      && (!astray ==> InStep())
      && EnabledAsShown()
    }

    /** Opened on a saved source, or on none. */
    constructor (canStore: bool, existing: Option<Record>, empty: Settings)
      ensures Valid() && record == existing && !astray && !silent && enabledAs.None? && shownAs.None? && wire.Quiet?
          && !disposed
      ensures this.canStore == canStore && created == existing.Some?
      ensures stored == (existing.Some? && existing.value.fingerprint.Some?)
      ensures settings == baseline == if existing.Some? then existing.value.settings else empty
      ensures enabled == (existing.Some? && existing.value.enabled) && receipt.None?
      ensures testOff == !(created && stored)
    {
      this.canStore, record := canStore, existing;
      stored := existing.Some? && existing.value.fingerprint.Some?;
      settings := if existing.Some? then existing.value.settings else empty;
      baseline := if existing.Some? then existing.value.settings else empty;
      busy, disposed, created, receipt, wire := false, false, existing.Some?, None, Quiet;
      enabled := existing.Some? && existing.value.enabled;
      passed, recent, astray, silent, enabledAs, shownAs := {}, {}, false, false, None, None;
      settingsOff := existing.Some? && existing.value.enabled;
      saveOff := existing.Some?;
      testOff := !(existing.Some? && existing.value.fingerprint.Some?);
      enableOff := true;
    }

    method Update()
      modifies `saveOff, `testOff, `enableOff, `settingsOff, `silent
      ensures ControlsFit() && !silent
      ensures settingsOff == (busy || enabled) && saveOff == (busy || enabled || (created && !Dirty()))
      ensures testOff == (busy || !created || !stored || Dirty())
      ensures enableOff == (busy || enabled || Dirty() || !Eligible() || !canStore)
    {
      settingsOff, saveOff := busy || enabled, busy || enabled || (created && !Dirty());
      testOff := busy || !created || !stored || Dirty();
      enableOff := busy || enabled || Dirty() || !Eligible() || !canStore;
      silent := false;
    }

    /** Typing and ticking: the receipt is dropped and the buttons follow. */
    method EditTyped(typed: seq<string>)
      requires Valid()
      modifies this
      ensures Valid() && record == old(record)
      ensures old(settingsOff) ==> unchanged(this)
      ensures !old(settingsOff) ==> settings == old(settings).(typed := typed) && receipt.None? && !silent && enableOff
    {
      if settingsOff { return; }
      settings, receipt := settings.(typed := typed), None;
      Update();
    }

    /** Choosing from a list: no listener answers, so receipt and buttons stay. */
    method EditChosen(chosen: seq<string>)
      requires Valid() && |chosen| == |settings.chosen|
      modifies `settings, `silent
      ensures Valid()
      ensures settings == if old(settingsOff) then old(settings) else old(settings).(chosen := chosen)
    {
      if settingsOff { return; }
      if settings.chosen != chosen { silent := true; }
      settings := settings.(chosen := chosen);
    }

    /** Start of an action that got as far as its first request. */
    method Ask(r: Request)
      requires Valid() && !busy && !r.Enable? && (r.Save? ==> r.settings == settings)
          && (r.Sync? ==> (Dirty() ==> silent) && Eligible())
      modifies `busy, `wire, `saveOff, `testOff, `enableOff, `settingsOff
      ensures Valid() && wire == Sent(r)
    {
      busy, wire := true, Sent(r);
      saveOff, testOff, enableOff, settingsOff := true, true, true, true;
    }

    method ClickSave(complete: bool)
      requires Valid()
      modifies this
      ensures Valid() && record == old(record) && settings == old(settings)
      ensures old(saveOff || busy || disposed) || !complete ==> unchanged(this)
      ensures !old(saveOff || busy || disposed) && complete ==>
          wire == Sent(Save(settings, !created)) && created == old(created)
    {
      if saveOff || busy || disposed || !complete { return; }
      Ask(Save(settings, !created));
    }

    method ClickTest()
      requires Valid()
      modifies this
      ensures Valid() && record == old(record)
      ensures (settings, baseline, astray, silent) == old((settings, baseline, astray, silent))
      ensures old(testOff || busy || disposed) ==> unchanged(this)
      ensures !old(testOff || busy || disposed) ==> wire == Sent(Preview) && receipt.None?
      ensures (disposed, enabled) == old((disposed, enabled))
    {
      if testOff || busy || disposed { return; }
      Ask(Preview);
      receipt := None;
    }

    method ClickEnable()
      requires Valid()
      modifies this
      ensures Valid() && record == old(record)
      ensures (settings, baseline, astray, silent, receipt) == old((settings, baseline, astray, silent, receipt))
      ensures old(enableOff || busy || disposed || !Eligible()) ==> unchanged(this)
      ensures !old(enableOff || busy || disposed || !Eligible()) ==> wire == Sent(Sync)
      ensures (disposed, enabled) == old((disposed, enabled))
    {
      if enableOff || busy || disposed || !Eligible() { return; }
      Ask(Sync);
    }

    /** Someone else writes, replaces or removes the source. */
    method Meddle(now: Option<Record>)
      requires Valid()
      modifies `record, `astray
      ensures Valid() && record == now && astray
    {
      record, astray := now, true;
    }

    /** The source is enabled: what was enabled is noted. */
    method TakeEnabled(after: Option<Record>)
      requires Valid() && wire.Sent? && Plausible(record, wire.request, false, after, Enabled)
      modifies `record, `wire, `enabledAs, `shownAs
      ensures Valid() && record == after && wire == Back(old(wire).request, Enabled)
      ensures enabledAs == old(record) && shownAs == if astray then None else Some(settings)
      ensures old(record).Some? && old(record).value in recent
      ensures !astray ==> (old(record).value.settings == settings <==> !Dirty()) && (Dirty() ==> silent)
    {
      EnableSent();
      enabledAs, shownAs := record, if astray then None else Some(settings);
      record, wire := after, Back(wire.request, Enabled);
    }

    /** Any other answer: a report that passed is noted. */
    method TakeOther(after: Option<Record>, reply: Reply, wrote: bool)
      requires Valid() && wire.Sent? && Plausible(record, wire.request, wrote, after, reply) && reply != Enabled
      modifies `record, `wire, `passed, `recent, `astray
      ensures Valid() && record == after && wire == Back(old(wire).request, reply) && astray == (old(astray) || wrote)
    {
      if reply.Report? && reply.receipt.Eligible() {
        passed, recent := passed + {reply.receipt.revision.of}, recent + {reply.receipt.revision.of};
      }
      astray := astray || wrote;
      record, wire := after, Back(wire.request, reply);
    }

    /** What an answer of the server means. If the source is enabled, a test passed on exactly the
        record that is enabled, after the last save that was answered; and if nobody else wrote and
        no list choice went unnoticed, the settings enabled are those on the screen. */
    method TakeIn(after: Option<Record>, reply: Reply, wrote: bool)
      requires Valid() && wire.Sent? && Plausible(record, wire.request, wrote, after, reply)
      modifies `record, `wire, `passed, `recent, `astray, `enabledAs, `shownAs
      ensures Valid() && record == after && wire == Back(old(wire).request, reply)
      ensures astray == (old(astray) || (wrote && reply != Enabled))
      ensures enabledAs == if reply == Enabled then old(record) else old(enabledAs)
      ensures shownAs == if reply != Enabled then old(shownAs) else if old(astray) then None else Some(settings)
      ensures reply == Enabled ==> old(record).Some? && old(record).value in old(recent)
      ensures reply == Enabled && !old(astray) ==>
          (old(record).value.settings == settings <==> !Dirty()) && (Dirty() ==> silent)
    {
      if reply == Enabled {
        TakeEnabled(after);
      } else {
        TakeOther(after, reply, wrote);
      }
    }

    /** While a request to enable is out, its record passed a test, and the screen is as it was last
        saved but for lists. */
    lemma EnableSent()
      requires Valid() && wire.Sent? && wire.request.Enable?
      ensures wire.request.revision.of in recent && wire.request.revision.of in passed && (Dirty() ==> silent)
      ensures !astray && record.Some? ==> (record.value.settings == settings <==> !Dirty())
      ensures !astray && record.Some? && settings.chosen == [] ==> record.value.settings == settings
    {
    }

    method Handle(o: Outside)
      requires Valid()
      modifies `record, `wire, `passed, `recent, `astray, `enabledAs, `shownAs
      ensures Valid()
      ensures !old(wire).Sent? ==> unchanged(this)
      ensures old(wire).Sent? ==>
          wire.Back? && (record, wire.reply) == Serve(old(record), old(wire).request, o)
          && wire.request == old(wire).request
      ensures old(wire).Sent? ==>
          astray == (old(astray) || (wire.request.Enable? && o.during.Some? && wire.reply != Enabled))
      ensures old(wire).Sent? ==> enabledAs == if wire.reply == Enabled then old(record) else old(enabledAs)
      ensures old(wire).Sent? && wire.reply == Enabled ==> enabledAs.Some? && enabledAs.value in old(recent)
      ensures old(wire).Sent? && wire.reply == Enabled && !old(astray) ==>
          (enabledAs.value.settings == settings <==> !Dirty())
      ensures old(wire).Sent? && wire.reply == Enabled && !old(astray) && settings.chosen == [] ==>
          enabledAs.value.settings == settings
    {
      if !wire.Sent? { return; }
      ServeIsPlausible(record, wire.request, o);
      var (after, reply) := Serve(record, wire.request, o);
      TakeIn(after, reply, wire.request.Enable? && o.during.Some?);
    }

    /** The end of an action, however it ended. */
    method Finish()
      requires busy && Tested(receipt) && recent <= passed && (enabledAs.Some? ==> enabledAs.value in passed)
      requires ControlsFit() && (settings.chosen == [] ==> !silent)
      requires (!astray && record.Some? ==> record.value.settings == baseline) && EnabledAsShown()
      modifies `busy, `wire, `saveOff, `testOff, `enableOff, `settingsOff, `silent
      ensures Valid() && wire.Quiet? && (!disposed ==> !silent)
      ensures !disposed ==>
          testOff == (!created || !stored || Dirty()) && enableOff == (enabled || Dirty() || !Eligible() || !canStore)
      ensures !disposed ==> settingsOff == enabled
      ensures disposed ==> silent == old(silent)
    {
      busy, wire := false, Quiet;
      if !disposed { Update(); }
    }

    /** An answer that is an error, or none: only a changed source drops the receipt. */
    method Fail(changed: bool)
      requires Valid() && !wire.Quiet?
      modifies `receipt, `astray, `busy, `wire, `saveOff, `testOff, `enableOff, `settingsOff, `silent
      ensures Valid() && wire.Quiet? && receipt == if changed && !disposed then None else old(receipt)
      ensures astray == (old(astray) || (old(wire).Back? && old(wire).reply.Saved?))
    {
      if changed && !disposed { receipt := None; }
      astray := astray || (wire.Back? && wire.reply.Saved?);
      Finish();
    }

    method AfterSave()
      requires Valid() && wire.Back? && wire.request.Save? && wire.reply.Saved?
      modifies this
      ensures Valid() && wire.Quiet? && (settings, record, disposed, enabled) ==
          old((settings, record, disposed, enabled))
      ensures !disposed ==> created && baseline == settings && receipt.None? && astray == old(astray) && recent == {}
    {
      if disposed { Fail(false); return; }
      created, baseline, receipt, recent := true, settings, None, {};
      Finish();
    }

    /** The next request of an enabling: with the revision of the receipt as it is now. */
    method AfterSync(assets: nat)
      requires Valid() && wire.Back? && wire.request.Sync?
      modifies this
      ensures Valid() && (settings, record, disposed, enabled) == old((settings, record, disposed, enabled))
      ensures assets > 0 && !disposed ==>
                && old(receipt).Some? && wire == Sent(Enable(old(receipt).value.revision))
                    && old(receipt).value.Eligible()
                && (baseline, astray, silent, recent) == old((baseline, astray, silent, recent))
      ensures assets == 0 || disposed ==> wire.Quiet?
    {
      if assets == 0 || disposed { Fail(false); return; }
      wire := Sent(Enable(receipt.value.revision));
    }

    /** The answer arrives, or is lost. */
    method Arrive(lost: bool)
      requires Valid()
      modifies this
      ensures Valid() && record == old(record) && settings == old(settings) && disposed == old(disposed)
      ensures !old(wire).Back? ==> unchanged(this)
      ensures old(wire).Back? && !lost && old(wire).request.Preview? && old(wire).reply.Report? && !disposed ==>
                && receipt == Some(old(wire).reply.receipt) && wire.Quiet? && !silent
                && (baseline, astray, created, enabled) == old((baseline, astray, created, enabled))
                && enableOff == (enabled || Dirty() || !Eligible() || !canStore) && settingsOff == enabled
      ensures (old(wire).Back? && !lost && old(wire).request.Sync? && old(wire).reply.Synced? && !disposed &&
               old(wire).reply.assets > 0) ==>
                && old(receipt).Some? && old(receipt).value.Eligible()
                && wire == Sent(Enable(old(receipt).value.revision))
                && (baseline, astray, silent) == old((baseline, astray, silent))
      ensures old(wire).Back? && !lost && old(wire).request.Save? && old(wire).reply.Saved? && !disposed ==>
                created && baseline == settings && receipt.None? && recent == {} && astray == old(astray)
      ensures old(wire).Back? && !lost && old(wire).request.Enable? && !disposed ==>
          enabled == (old(enabled) || old(wire).reply == Enabled)
      ensures enabled && !old(enabled) ==> old(wire).Back? && old(wire).reply == Enabled
      ensures old(wire).Back? && (lost || old(wire).reply.Refused?) ==>
                && wire.Quiet? && (created, enabled, baseline) == old((created, enabled, baseline))
                && receipt == if !lost && old(wire).reply.changed && !disposed then None else old(receipt)
    {
      if !wire.Back? { return; }
      var reply := wire.reply;
      if lost || reply.Refused? {
        Fail(!lost && reply.changed);
      } else if wire.request.Save? && reply.Saved? {
        AfterSave();
      } else if wire.request.Sync? && reply.Synced? {
        AfterSync(reply.assets);
      } else if wire.request.Preview? && reply.Report? {
        if !disposed { receipt := Some(reply.receipt); }
        Finish();
      } else {
        if !disposed && reply == Enabled { enabled := true; }
        Finish();
      }
    }

    /** Leaving the form: what was typed is given up and the receipt dropped. */
    method Leave()
      requires Valid()
      modifies `disposed, `receipt, `baseline, `astray
      ensures Valid() && disposed && receipt.None?
    {
      astray := astray || Dirty();
      disposed, receipt, baseline := true, None, settings;
    }
  }

  datatype Event =
    | EditTyped(typed: seq<string>) | EditChosen(chosen: seq<string>)
    | ClickSave(complete: bool) | ClickTest | ClickEnable
    | Handle(outside: Outside) | Arrive(lost: bool) | Meddle(record: Option<Record>) | Leave

  method Take(form: OAuthSetup, event: Event)
    requires form.Valid()
    modifies form
    ensures form.Valid() && |form.settings.chosen| == |old(form.settings.chosen)|
  {
    match event
    case EditTyped(typed) => form.EditTyped(typed);
    case EditChosen(chosen) => if |chosen| == |form.settings.chosen| { form.EditChosen(chosen); }
    case ClickSave(complete) => form.ClickSave(complete);
    case ClickTest => form.ClickTest();
    case ClickEnable => form.ClickEnable();
    case Handle(outside) => form.Handle(outside);
    case Arrive(lost) => form.Arrive(lost);
    case Meddle(record) => form.Meddle(record);
    case Leave => form.Leave();
  }

  /** Whatever happens, in any order: a source this form got enabled is, but for being enabled, a
      record that a test passed on; and a form without lists, unless something had gone astray since
      its last save, got enabled what was on its screen. */
  method Run(form: OAuthSetup, events: seq<Event>)
    requires form.Valid()
    modifies form
    ensures form.Valid() && |form.settings.chosen| == |old(form.settings.chosen)|
    ensures form.enabledAs.Some? ==> form.enabledAs.value in form.passed
    ensures form.settings.chosen == [] && form.shownAs.Some? ==>
              form.enabledAs.Some? && form.enabledAs.value.settings == form.shownAs.value
  {
    for i := 0 to |events|
      invariant form.Valid() && |form.settings.chosen| == |old(form.settings.chosen)|
    {
      Take(form, events[i]);
    }
  }

  // ---- a form with lists ----
  // Google Drive, the only source connected by consent, has no list among its fields. The rest is
  // about a descriptor that would.

  const GOOD := Outside(true, true, true, false, 1, true, 1, None)
  const SOURCE := Record(Settings([], ["read"]), Some(1), false)

  /** A saved source with one list choice, tested and ready to be enabled. */
  method TestedForm() returns (form: OAuthSetup)
    ensures fresh(form) && form.Valid() && form.wire.Quiet? && form.record == Some(SOURCE)
        && form.settings == SOURCE.settings
    ensures form.Eligible() && form.receipt.value.revision == Revision(SOURCE)
    ensures !form.enableOff && !form.settingsOff && !form.disposed && !form.astray
  {
    form := new OAuthSetup(true, Some(SOURCE), SOURCE.settings);
    form.ClickTest();
    form.Handle(GOOD);
    form.Arrive(false);
  }

  /** A list would need a listener of its own: without one, a choice made after the test leaves the
      enable button usable, and what is enabled is not what is on the screen. */
  method ChoiceAfterTest() returns (form: OAuthSetup)
    ensures form.Valid() && !form.astray && form.enabledAs.Some? && form.enabledAs.value.settings != form.settings
  {
    form := TestedForm();
    form.EditChosen(["write"]);
    form.ClickEnable();
    form.Handle(GOOD);
    form.Arrive(false);
    assert form.wire == Sent(Enable(Revision(SOURCE)));
    form.Handle(GOOD);
  }
}
