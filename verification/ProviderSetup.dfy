/** The setup form of a source with a credential: configure, test, save disabled, seal, enable.
    Every handler runs up to its next request; the reply is an event of its own, so anything the
    page allows may happen in between. */
module ProviderSetup {
  import opened Wrappers
  import opened SetupLog

  /** Where the action in flight waits. */
  datatype Pending = Quiet | Testing(settings: Settings, credential: Credential)
    | Creating | Storing | Syncing | Enabling

  datatype Event =
    | EditSettings(settings: Settings)
    | EditCredential(credential: Credential)
    | ClickTest | ClickSave | ClickRetry | ClickEnable
    | Reply(reply: Reply)
    | Discard
    | Dispose

  /** The secret the form would send now is none, or the one given. */
  predicate Sends(credential: Credential, secret: string) {
    SecretOf(credential).None? || SecretOf(credential).value == secret
  }

  /** The last test passed with what the form holds, but for a password since cleared. */
  predicate Vouched(log: seq<Step>, settings: Settings, credential: Credential) {
    Tested(log).Some? && Tested(log).value.0 == settings && Sends(credential, Tested(log).value.1)
  }

  predicate Waits(log: seq<Step>, pending: Pending, settings: Settings, credential: Credential, created: bool,
      stored: bool, enabled: bool) {
    match pending
    case Quiet => Open(log).None?
    case Testing(s, c) => !created && SecretOf(c).Some? && Open(log) == Some(Preview(s, SecretOf(c).value))
    case Creating => !created && Open(log) == Some(Create(settings)) && Vouched(log, settings, credential)
    case Storing => created && !stored && Open(log).Some? && Open(log).value.Store?
    case Syncing => stored && !enabled && Open(log) == Some(Sync(settings.id))
    case Enabling => stored && !enabled && Open(log) == Some(Enable(settings.id))
  }

  predicate Agrees(log: seq<Step>, settings: Settings, created: bool, stored: bool, enabled: bool) {
    && Lawful(log)
    && created == Created(log).Some? && (created ==> Created(log).value == settings)
    && stored == Stored(log) && enabled == Enabled(log)
  }

  lemma Pushed(log: seq<Step>, step: Step)
    ensures log + [step] != [] && Before(log + [step]) == log && (log + [step])[|log|] == step
  {
  }

  /** Asking changes nothing about what was done so far. */
  lemma AfterAsk(log: seq<Step>, settings: Settings, created: bool, stored: bool, enabled: bool, r: Request)
    requires Agrees(log, settings, created, stored, enabled) && Open(log).None? && May(log, r)
    ensures Agrees(log + [Asked(r)], settings, created, stored, enabled)
    ensures Open(log + [Asked(r)]) == Some(r)
    ensures Tested(log + [Asked(r)]) == if r.Preview? then None else Tested(log)
  {
    Pushed(log, Asked(r));
  }

  lemma AfterEdit(log: seq<Step>, settings: Settings, now: Settings, created: bool, stored: bool, enabled: bool)
    requires Agrees(log, settings, created, stored, enabled) && Open(log).None? && (created ==> now == settings)
    ensures Agrees(log + [Edited], now, created, stored, enabled) && Open(log + [Edited]).None?
        && !JustAnswered(log + [Edited])
  {
    Pushed(log, Edited);
  }

  /** What an answer changes. */
  lemma AfterAnswer(log: seq<Step>, settings: Settings, created: bool, stored: bool, enabled: bool, reply: Reply)
    requires Agrees(log, settings, created, stored, enabled) && Open(log).Some?
    requires Open(log).value.Create? ==> Open(log).value.settings == settings && !created
    ensures var r, next := Open(log).value, log + [Answered(reply)];
      && Agrees(next, settings, created || (reply.Done? && r.Create?), stored || (reply.Done? && r.Store?),
                enabled || (reply.Done? && r.Enable?))
      && Open(next).None?
      && (JustAnswered(next) <==> reply.Done?)
      && Before(next) == log
      && next[|next| - 1] == Answered(reply)
      && Tested(next) == if !r.Preview? then Tested(log)
                         else if reply.Done? && reply.receipt.Eligible() then Some((r.settings, r.secret))
                         else None
  {
    Pushed(log, Answered(reply));
  }

  class ProviderSetup {
    const canStore: bool
    const complete: (Settings, bool) -> bool

    var settings: Settings
    var credential: Credential
    var busy: bool
    var disposed: bool
    var created: bool
    var stored: bool
    var enabled: bool
    var receipt: Option<Receipt>
    var baseline: (Settings, Credential)

    var testOff: bool
    var saveOff: bool
    var retryOff: bool
    var enableOff: bool
    var settingsOff: bool
    var credentialsOff: bool

    var pending: Pending
    ghost var log: seq<Step>

    predicate Eligible()
      reads this
    {
      receipt.Some? && receipt.value.Eligible()
    }

    predicate IsDirty()
      reads this
    {
      !enabled && (settings, credential) != baseline
    }

    /** The controls are as the flags say. */
    ghost predicate UpToDate()
      reads this
    {
      && testOff == (busy || created) && saveOff == (busy || created || !Eligible())
      && retryOff == (busy || !created || stored || credential.password == "")
      && enableOff == (busy || !stored || enabled)
      && settingsOff == (busy || created) && credentialsOff == (busy || stored)
    }

    /** A control that can be used stands for a request that may be sent. */
    ghost predicate ControlsFit()
      reads this
    {
      && (busy || created ==> settingsOff && testOff && saveOff)
      && (busy || stored ==> credentialsOff && retryOff)
      && (busy || enabled || !stored ==> enableOff)
      && (!created ==> retryOff)
      && (!saveOff ==> disposed || Eligible())
    }

    ghost predicate PasswordKnown()
      reads this
    {
      baseline.1.password == "" && (stored ==> credential.password == "")
    }

    ghost predicate Valid()
      reads this
    {
      && busy == !pending.Quiet?
      && Agrees(log, settings, created, stored, enabled)
      && Waits(log, pending, settings, credential, created, stored, enabled)
      && (pending.Testing? ==> receipt.None?)
      && (!busy && !created && Eligible() ==> Vouched(log, settings, credential))
      && (!busy && created && !stored && canStore && JustAnswered(log) ==> SecretOf(credential).None?)
      && ControlsFit()
      && PasswordKnown()
    }

    constructor (canStore: bool, complete: (Settings, bool) -> bool, settings: Settings)
      ensures Valid() && log == [] && this.canStore == canStore && this.complete == complete
    {
      this.canStore, this.complete, this.settings := canStore, complete, settings;
      credential := Credential(false, "", "", "");
      busy, disposed, created, stored, enabled := false, false, false, false, false;
      receipt, pending, log := None, Quiet, [];
      baseline := (settings, Credential(false, "", "", ""));
      testOff, saveOff, retryOff, enableOff, settingsOff, credentialsOff := false, true, true, true, false, false;
    }

    method Update()
      modifies `testOff, `saveOff, `retryOff, `enableOff, `settingsOff, `credentialsOff
      ensures ControlsFit() && UpToDate()
    {
      testOff, saveOff := busy || created, busy || created || !Eligible();
      retryOff := busy || !created || stored || credential.password == "";
      enableOff := busy || !stored || enabled;
      settingsOff, credentialsOff := busy || created, busy || stored;
    }

    /** changed(): what was edited has not been tested. */
    method Changed()
      modifies `receipt, `testOff, `saveOff, `retryOff, `enableOff, `settingsOff, `credentialsOff
      ensures ControlsFit() && UpToDate() && receipt == if created then old(receipt) else None
    {
      if !created { receipt := None; }
      Update();
    }

    method EditSettings(now: Settings)
      requires Valid()
      modifies this
      ensures Valid()
      ensures old(settingsOff) ==> unchanged(this)
      ensures !old(settingsOff) ==> settings == now && receipt.None? && log == old(log) + [Edited]
      ensures !old(settingsOff) ==>
          UpToDate() && !busy && (credential, disposed, created) == old((credential, disposed, created))
    {
      if settingsOff { return; }
      AfterEdit(log, settings, now, created, stored, enabled);
      settings, log := now, log + [Edited];
      Changed();
    }

    method EditCredential(now: Credential)
      requires Valid()
      modifies this
      ensures Valid()
      ensures old(credentialsOff) ==> unchanged(this)
      ensures !old(credentialsOff) ==> credential == now && log == old(log) + [Edited] && (receipt.None? || created)
      ensures !old(credentialsOff) ==>
          UpToDate() && !busy && (settings, disposed, created) == old((settings, disposed, created))
    {
      if credentialsOff { return; }
      AfterEdit(log, settings, settings, created, stored, enabled);
      credential, log := now, log + [Edited];
      assert !busy && !stored && pending.Quiet? && Open(log).None? && !JustAnswered(log);
      Changed();
      assert PasswordKnown() && Agrees(log, settings, created, stored, enabled);
    }

    /** Start of an action that got as far as its first request. */
    method Ask(r: Request, next: Pending)
      requires Valid() && !busy && !next.Quiet? && May(log, r) && (next.Testing? ==> receipt.None?)
      requires Waits(log + [Asked(r)], next, settings, credential, created, stored, enabled)
      modifies this
      ensures Valid() && pending == next && log == old(log) + [Asked(r)]
      ensures (settings, credential, receipt, disposed) == old((settings, credential, receipt, disposed))
      ensures created == old(created) && stored == old(stored) && enabled == old(enabled)
    {
      AfterAsk(log, settings, created, stored, enabled, r);
      busy, pending, log := true, next, log + [Asked(r)];
      Update();
    }

    method ClickTest()
      requires Valid()
      modifies this
      ensures Valid()
      ensures (settings, credential, created, stored, enabled) == old((settings, credential, created, stored, enabled))
      ensures log == if old(testOff || busy || disposed) || !complete(settings, credential.bearer)
          || SecretOf(credential).None? then old(log)
                     else old(log) + [Asked(Preview(settings, SecretOf(credential).value))]
      ensures disposed == old(disposed) && (log != old(log) ==> pending == Testing(settings, credential))
    {
      if testOff || busy || disposed { return; }
      var secret := SecretOf(credential);
      if !complete(settings, credential.bearer) || secret.None? { return; }
      receipt := None;
      Update();
      AfterAsk(log, settings, created, stored, enabled, Preview(settings, secret.value));
      Ask(Preview(settings, secret.value), Testing(settings, credential));
    }

    method ClickSave()
      requires Valid()
      modifies this
      ensures Valid()
      ensures (settings, credential, created, stored, enabled) == old((settings, credential, created, stored, enabled))
      ensures log == if old(saveOff || busy || disposed || !Eligible())
          || !complete(settings, credential.bearer) then old(log)
                     else old(log) + [Asked(Create(settings))]
      ensures disposed == old(disposed) && (log != old(log) ==> pending == Creating)
    {
      if saveOff || busy || disposed || !Eligible() || !complete(settings, credential.bearer) { return; }
      AfterAsk(log, settings, created, stored, enabled, Create(settings));
      Ask(Create(settings), Creating);
    }

    method ClickRetry()
      requires Valid()
      modifies this
      ensures Valid()
      ensures (settings, credential, created, stored, enabled) == old((settings, credential, created, stored, enabled))
      ensures log == if !canStore || old(retryOff || busy || disposed) || SecretOf(credential).None? then old(log)
                     else old(log) + [Asked(Store(settings.id, SecretOf(credential).value, credential.expiry))]
    {
      if !canStore || retryOff || busy || disposed { return; }
      var secret := SecretOf(credential);
      if secret.None? { return; }
      AfterAsk(log, settings, created, stored, enabled, Store(settings.id, secret.value, credential.expiry));
      Ask(Store(settings.id, secret.value, credential.expiry), Storing);
    }

    method ClickEnable()
      requires Valid()
      modifies this
      ensures Valid()
      ensures (settings, credential, created, stored, enabled) == old((settings, credential, created, stored, enabled))
      ensures log == if !canStore || old(enableOff || busy || disposed) then old(log)
          else old(log) + [Asked(Sync(settings.id))]
    {
      if !canStore || enableOff || busy || disposed { return; }
      EnabledStoredCreated(log);
      AfterAsk(log, settings, created, stored, enabled, Sync(settings.id));
      Ask(Sync(settings.id), Syncing);
    }

    /** The end of an action, however it ended. */
    method Finish()
      requires busy && Agrees(log, settings, created, stored, enabled) && Open(log).None?
      requires !created && Eligible() ==> Vouched(log, settings, credential)
      requires created && !stored && canStore && JustAnswered(log) ==> SecretOf(credential).None?
      requires ControlsFit() && PasswordKnown() && (saveOff || disposed || Eligible())
      modifies `busy, `pending, `testOff, `saveOff, `retryOff, `enableOff, `settingsOff, `credentialsOff
      ensures Valid() && !busy && (!disposed ==> UpToDate())
    {
      busy, pending := false, Quiet;
      if !disposed { Update(); }
    }

    /** The reply to a test counts only for the form it was sent with. */
    method AfterTest(reply: Reply)
      requires Valid() && pending.Testing?
      modifies this
      ensures Valid() && !busy && log == old(log) + [Answered(reply)]
      ensures receipt == if reply.Done? && !old(disposed)
          && (old(settings), old(credential)) == (old(pending).settings, old(pending).credential)
                         then Some(reply.receipt) else old(receipt)
      ensures (settings, credential, created, disposed) == old((settings, credential, created, disposed))
          && (!disposed ==> UpToDate())
    {
      AfterAnswer(log, settings, created, stored, enabled, reply);
      log := log + [Answered(reply)];
      if reply.Done? && !disposed && (settings, credential) == (pending.settings, pending.credential) {
        receipt := Some(reply.receipt);
      }
      Finish();
    }

    /** storeCredential: the secret of the form as it is now, or the action ends. */
    method StoreCredential()
      requires busy && canStore && created && !stored && !enabled && Agrees(log, settings, created, stored, enabled)
      requires Open(log).None? && JustAnswered(log) && Vouched(log, settings, credential)
      requires ControlsFit() && PasswordKnown()
      modifies this
      ensures Valid()
      ensures log == if SecretOf(old(credential)).None? then old(log)
                     else old(log) + [Asked(Store(old(settings).id, SecretOf(old(credential)).value,
                         old(credential).expiry))]
    {
      var secret := SecretOf(credential);
      if secret.None? { Finish(); return; }
      var r := Store(settings.id, secret.value, credential.expiry);
      AfterAsk(log, settings, created, stored, enabled, r);
      log, pending := log + [Asked(r)], Storing;
    }

    method AfterCreate(reply: Reply)
      requires Valid() && pending.Creating?
      modifies this
      ensures Valid() && created == reply.Done? && settings == old(settings)
      ensures !created ==>
          (credential, receipt, disposed, busy) == (old(credential), old(receipt), old(disposed), false)
      ensures !created && !disposed ==> UpToDate()
      ensures log == old(log) + [Answered(reply)] +
                     if reply.Done? && canStore && SecretOf(old(credential)).Some?
                     then [Asked(Store(old(settings).id, SecretOf(old(credential)).value, old(credential).expiry))]
                     else []
    {
      EnabledStoredCreated(log);
      AfterAnswer(log, settings, created, stored, enabled, reply);
      log := log + [Answered(reply)];
      if !reply.Done? { Finish(); return; }
      created := true;
      if canStore {
        StoreCredential();
      } else {
        credential := credential.(password := "");
        baseline := (settings, credential);
        Finish();
      }
    }

    method AfterStore(reply: Reply)
      requires Valid() && pending.Storing?
      modifies this
      ensures Valid() && !busy && log == old(log) + [Answered(reply)]
      ensures stored == reply.Done? && (stored ==> credential.password == "")
    {
      EnabledStoredCreated(log);
      AfterAnswer(log, settings, created, stored, enabled, reply);
      log := log + [Answered(reply)];
      if reply.Done? {
        credential, stored := credential.(password := ""), true;
        baseline := (settings, credential);
      }
      Finish();
    }

    /** Nothing exposed ends the action; otherwise the source is enabled next. */
    method AfterSync(reply: Reply)
      requires Valid() && pending.Syncing?
      modifies this
      ensures Valid()
      ensures log == old(log) + [Answered(reply)] +
                     if reply.Done? && reply.assets > 0 then [Asked(Enable(settings.id))] else []
    {
      EnabledStoredCreated(log);
      AfterAnswer(log, settings, created, stored, enabled, reply);
      log := log + [Answered(reply)];
      if !reply.Done? || reply.assets == 0 { Finish(); return; }
      AfterAsk(log, settings, created, stored, enabled, Enable(settings.id));
      log, pending := log + [Asked(Enable(settings.id))], Enabling;
    }

    method AfterEnable(reply: Reply)
      requires Valid() && pending.Enabling?
      modifies this
      ensures Valid() && !busy && log == old(log) + [Answered(reply)] && enabled == reply.Done?
    {
      EnabledStoredCreated(log);
      AfterAnswer(log, settings, created, stored, enabled, reply);
      log := log + [Answered(reply)];
      if reply.Done? {
        enabled, baseline := true, (settings, credential);
      }
      Finish();
    }

    /** The button that gives up what was typed; it can be clicked while a request runs. */
    method Discard()
      requires Valid()
      modifies `credential, `baseline
      ensures Valid() && credential == old(credential).(password := "") && !IsDirty()
    {
      credential := credential.(password := "");
      baseline := (settings, credential);
    }

    method Dispose()
      requires Valid()
      modifies `disposed, `credential, `receipt
      ensures Valid() && disposed && credential.password == "" && receipt.None?
    {
      disposed, receipt := true, None;
      credential := credential.(password := "", username := "");
    }

    method Answer(reply: Reply)
      requires Valid()
      modifies this
      ensures Valid() && (!old(busy) ==> unchanged(this)) && old(log) <= log
      ensures old(busy) ==> |log| > |old(log)| && log[|old(log)|] == Answered(reply)
    {
      match pending
      case Quiet => return;
      case Testing(_, _) => AfterTest(reply);
      case Creating => AfterCreate(reply);
      case Storing => AfterStore(reply);
      case Syncing => AfterSync(reply);
      case Enabling => AfterEnable(reply);
    }

    method Take(event: Event)
      requires Valid()
      modifies this
      ensures Valid() && old(log) <= log
    {
      match event
      case EditSettings(now) => EditSettings(now);
      case EditCredential(now) => EditCredential(now);
      case ClickTest => ClickTest();
      case ClickSave => ClickSave();
      case ClickRetry => ClickRetry();
      case ClickEnable => ClickEnable();
      case Reply(reply) => Answer(reply);
      case Discard => Discard();
      case Dispose => Dispose();
    }

    /** The flags say what the log says, and a form that closes without asking holds no password. */
    lemma ValidMeans()
      requires Valid()
      ensures Lawful(log) && created == Created(log).Some? && stored == Stored(log) && enabled == Enabled(log)
      ensures (enabled ==> stored) && (stored ==> created)
      ensures |Made(log)| <= 1 <==> !MadeAnother(log)
      ensures created && NoneTwice(log) ==> settings.id in Made(log) && (|Made(log)| == 1 <==> UntoldCount(log) == 0)
      ensures created ==> Created(log).value == settings
      ensures !IsDirty() ==> credential.password == ""
    {
      EnabledStoredCreated(log);
      OneSourceExactly(log);
      if NoneTwice(log) { SourcesCounted(log); }
    }

    /** Whatever is clicked, typed, answered or closed, in any order, the invariant holds. */
    method Run(events: seq<Event>)
      requires Valid()
      modifies this
      ensures Valid() && Lawful(log)
    {
      for i := 0 to |events|
        invariant Valid()
      {
        Take(events[i]);
      }
    }
  }

  const PASSES := Done(Receipt(true, false, 1, true), 0)

  /** The form is free, complete and can be tested. */
  ghost predicate Ready(form: ProviderSetup)
    reads form
  {
    && form.Valid() && form.UpToDate() && !form.busy && !form.disposed && !form.created
    && form.complete(form.settings, form.credential.bearer) && SecretOf(form.credential).Some?
  }

  method TestAndCreate(form: ProviderSetup)
    requires Ready(form)
    modifies form
    ensures form.Valid() && form.pending.Creating? && !form.disposed
    ensures (form.settings, form.credential) == old((form.settings, form.credential))
    ensures form.log ==
      old(form.log) + [Asked(Preview(form.settings, SecretOf(form.credential).value)), Answered(PASSES),
                       Asked(Create(form.settings))]
  {
    form.ClickTest();
    form.AfterTest(PASSES);
    form.ClickSave();
  }

  /** A create that is granted, but whose answer is lost, leaves the form as it was. */
  method CreateUntold(form: ProviderSetup)
    requires Ready(form)
    modifies form
    ensures Ready(form) && (form.settings, form.credential) == old((form.settings, form.credential))
    ensures form.log ==
      old(form.log) + [Asked(Preview(form.settings, SecretOf(form.credential).value)), Answered(PASSES),
                       Asked(Create(form.settings)), Answered(Lost)]
  {
    TestAndCreate(form);
    form.AfterCreate(Lost);
  }

  /** The first create is granted and its answer lost; the settings open again, and under another
      id a second source is tested and created. */
  method SecondSource(form: ProviderSetup, other: Settings)
    requires Ready(form) && form.log == [] && other.id != form.settings.id
        && form.complete(other, form.credential.bearer)
    modifies form
    ensures form.Valid() && form.created && NoneTwice(form.log)
    ensures Made(form.log) == {old(form.settings.id), other.id} && |Made(form.log)| == 2
  {
    ghost var secret, first := SecretOf(form.credential).value, form.settings;
    CreateUntold(form);
    form.EditSettings(other);
    TestAndCreate(form);
    form.AfterCreate(PASSES);
    MadeTwice(first, other, secret, form.log);
  }

  /** The nine steps of that run, whatever the form asks next. */
  lemma MadeTwice(a: Settings, b: Settings, secret: string, log: seq<Step>)
    requires a.id != b.id && 9 <= |log| <= 10 && (|log| == 10 ==> log[9].Asked?)
    requires log[..9] == [Asked(Preview(a, secret)), Answered(PASSES), Asked(Create(a)), Answered(Lost), Edited,
                          Asked(Preview(b, secret)), Answered(PASSES), Asked(Create(b)), Answered(PASSES)]
    ensures Made(log) == {a.id, b.id} && |Made(log)| == 2 && NoneTwice(log)
  {
    if |log| == 10 {
      MadeTwice(a, b, secret, log[..9]);
      assert log[..9][..9] == log[..9];
      assert Before(log) == log[..9];
    } else {
      assert log == log[..9];
      MadeOnce(a, b, secret, log[..7]);
      assert Before(log) == log[..8] && Before(log[..8]) == log[..7];
    }
  }

  lemma {:induction false} MadeOnce(a: Settings, b: Settings, secret: string, log: seq<Step>)
    requires log == [Asked(Preview(a, secret)), Answered(PASSES), Asked(Create(a)), Answered(Lost), Edited,
                     Asked(Preview(b, secret)), Answered(PASSES)]
    ensures Made(log) == {a.id} && NoneTwice(log)
  {
    forall n | 0 < n <= 7 ensures Before(log[..n]) == log[..n - 1] { }
    assert Made(log[..3]) == {} && NoneTwice(log[..3]) by {
      assert Made(log[..0]) == {} && NoneTwice(log[..0]);
      assert Made(log[..1]) == {} && NoneTwice(log[..1]);
      assert Made(log[..2]) == {} && NoneTwice(log[..2]);
    }
    assert Made(log[..4]) == {a.id} && NoneTwice(log[..4]);
    assert Made(log[..5]) == {a.id} && NoneTwice(log[..5]);
    assert Made(log[..6]) == {a.id} && NoneTwice(log[..6]);
    assert log[..7] == log;
  }
}
