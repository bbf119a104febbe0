/** What a source setup may ask of the server, and in which order. */
module SetupLog {
  import opened Wrappers
  import opened Strings

  /** The settings half of the form, which is what a source is created from. */
  datatype Settings = Settings(id: string, title: string, values: seq<string>)

  datatype Credential = Credential(bearer: bool, username: string, password: string, expiry: string)

  /** What a test run reports. */
  datatype Receipt = Receipt(healthy: bool, listingFailed: bool, files: nat, originalRead: bool) {
    predicate Eligible() {
      healthy && !listingFailed && files > 0 && originalRead
    }
  }

  datatype Request =
    | Preview(settings: Settings, secret: string)
    | Create(settings: Settings)
    | Store(id: string, secret: string, expiry: string)
    | Sync(id: string)
    | Enable(id: string)

  /** What becomes of a request. The page takes one that was granted, but whose answer was lost, for
      refused. */
  datatype Reply = Refused | Lost | Done(receipt: Receipt, assets: nat)

  datatype Step = Asked(request: Request) | Answered(reply: Reply) | Edited

  // ---- the secret on the wire ----

  function Lower(s: string): string {
    seq(|s|, i requires 0 <= i < |s| => if 'A' <= s[i] <= 'Z' then s[i] - 'A' + 'a' else s[i])
  }

  /** The one string a credential is sent as, or nothing if the form is not complete. */
  function SecretOf(c: Credential): Option<string> {
    if c.password == "" then None
    else if c.bearer then Some("bearer:" + c.password)
    else if c.username == "" || ':' in c.username || Lower(c.username) == "bearer" then None
    else if |c.username + ":" + c.password| < 8 then None
    else Some(c.username + ":" + c.password)
  }

  /** The server can tell from the secret alone what kind it is and what was typed. */
  lemma SecretSaysAll(c: Credential, d: Credential)
    requires SecretOf(c).Some? && SecretOf(c) == SecretOf(d)
    ensures c.bearer == d.bearer && c.password == d.password && (!c.bearer ==> c.username == d.username)
  {
    var head := (e: Credential) => if e.bearer then "bearer" else e.username;
    assert "bearer:" == "bearer" + ":" && Lower("bearer") == "bearer";
    FirstMark(head(c), head(d), ':', c.password, d.password);
  }

  // ---- what the steps so far mean ----

  /** The last request, if it has no answer yet. */
  function Open(log: seq<Step>): Option<Request> {
    if log != [] && log[|log| - 1].Asked? then Some(log[|log| - 1].request) else None
  }

  function Before(log: seq<Step>): seq<Step>
    requires log != []
  {
    log[..|log| - 1]
  }

  /** The settings and the secret of the last test, if it passed and nothing was edited since. */
  function Tested(log: seq<Step>): Option<(Settings, string)> {
    if log == [] then None
    else match log[|log| - 1]
      case Edited => None
      case Asked(r) => if r.Preview? then None else Tested(Before(log))
      case Answered(reply) =>
        match Open(Before(log))
        case Some(Preview(settings, secret)) =>
          if reply.Done? && reply.receipt.Eligible() then Some((settings, secret)) else None
        case _ => Tested(Before(log))
  }

  /** The settings of the source that was created. */
  function Created(log: seq<Step>): Option<Settings> {
    if log == [] then None
    else match (log[|log| - 1], Open(Before(log)))
      case (Answered(Done(_, _)), Some(Create(settings))) => Some(settings)
      case _ => Created(Before(log))
  }

  predicate Stored(log: seq<Step>) {
    log != [] && ((log[|log| - 1].Answered? && log[|log| - 1].reply.Done? && Open(Before(log)).Some?
        && Open(Before(log)).value.Store?)
      || Stored(Before(log)))
  }

  predicate Enabled(log: seq<Step>) {
    log != [] && ((log[|log| - 1].Answered? && log[|log| - 1].reply.Done? && Open(Before(log)).Some?
        && Open(Before(log)).value.Enable?)
      || Enabled(Before(log)))
  }

  predicate JustAnswered(log: seq<Step>) {
    |log| >= 2 && log[|log| - 1].Answered? && log[|log| - 1].reply.Done? && Open(Before(log)).Some?
  }

  /** Whether a request may be sent after these steps. */
  predicate May(log: seq<Step>, r: Request) {
    match r
    case Preview(_, _) => Created(log).None?
    case Create(settings) => Created(log).None? && Tested(log).Some? && Tested(log).value.0 == settings
    case Store(id, secret, _) =>
      && Created(log).Some? && Created(log).value.id == id && !Stored(log)
      && (JustAnswered(log) ==> Tested(log).Some? && Tested(log).value == (Created(log).value, secret))
    case Sync(id) => Created(log).Some? && Created(log).value.id == id && Stored(log) && !Enabled(log)
    case Enable(id) =>
      && Created(log).Some? && Created(log).value.id == id && Stored(log) && !Enabled(log)
      && JustAnswered(log) && Open(Before(log)).value == Sync(id) && log[|log| - 1].reply.assets > 0
  }

  /** One request at a time, each answered before the next, and each allowed when it is sent. */
  predicate Lawful(log: seq<Step>) {
    log == [] ||
    (Lawful(Before(log)) &&
     match log[|log| - 1]
     case Asked(r) => Open(Before(log)).None? && May(Before(log), r)
     case Answered(_) => Open(Before(log)).Some?
     case Edited => Open(Before(log)).None?)
  }

  // ---- what a lawful log guarantees ----

  /** Enabled only after the credential was stored, stored only after the source was created. */
  lemma {:induction false} EnabledStoredCreated(log: seq<Step>)
    requires Lawful(log)
    ensures Enabled(log) ==> Stored(log)
    ensures Stored(log) ==> Created(log).Some?
  {
    if log != [] {
      EnabledStoredCreated(Before(log));
      if Open(Before(log)).Some? { EnabledStoredCreated(Before(Before(log))); }
    }
  }

  lemma {:induction false} LawfulPrefix(log: seq<Step>, n: nat)
    requires Lawful(log) && n <= |log|
    ensures Lawful(log[..n])
    decreases |log|
  {
    if n < |log| {
      LawfulPrefix(Before(log), n);
      assert Before(log)[..n] == log[..n];
    } else {
      assert log[..n] == log;
    }
  }

  predicate PassedAt(log: seq<Step>, j: nat, settings: Settings, secret: string) {
    && j + 1 < |log| && log[j] == Asked(Preview(settings, secret))
    && log[j + 1].Answered? && log[j + 1].reply.Done? && log[j + 1].reply.receipt.Eligible()
    && forall k :: j < k < |log| ==> log[k] != Edited && !(log[k].Asked? && log[k].request.Preview?)
  }

  /** What counts as tested was sent as a test, passed it, and was not edited since. */
  lemma {:induction false} TestedPassed(log: seq<Step>) returns (j: nat)
    requires Tested(log).Some?
    ensures PassedAt(log, j, Tested(log).value.0, Tested(log).value.1)
  {
    var n := |log| - 1;
    if log[n].Answered? && Open(Before(log)).Some? && Open(Before(log)).value.Preview? {
      j := n - 1;
    } else {
      j := TestedPassed(Before(log));
      assert forall k :: 0 <= k < n ==> log[k] == Before(log)[k];
    }
  }

  /** Wherever a source is created, the same settings passed a test before, with nothing edited
      in between. */
  lemma CreatedWasTested(log: seq<Step>, n: nat) returns (j: nat, secret: string)
    requires Lawful(log) && n < |log| && log[n].Asked? && log[n].request.Create?
    ensures PassedAt(log[..n], j, log[n].request.settings, secret)
  {
    LawfulPrefix(log, n + 1);
    assert Before(log[..n + 1]) == log[..n];
    j := TestedPassed(log[..n]);
    secret := Tested(log[..n]).value.1;
  }

  /** The secret stored right after the creation is the one the passing test used. */
  lemma StoredWasTested(log: seq<Step>, n: nat) returns (j: nat)
    requires Lawful(log) && 2 <= n < |log| && log[n].Asked? && log[n].request.Store?
    requires log[n - 1].Answered? && log[n - 1].reply.Done? && log[n - 2].Asked?
    ensures Created(log[..n]).Some? && log[n].request.id == Created(log[..n]).value.id
    ensures PassedAt(log[..n], j, Created(log[..n]).value, log[n].request.secret)
  {
    LawfulPrefix(log, n + 1);
    assert Before(log[..n + 1]) == log[..n];
    assert Before(log[..n]) == log[..n - 1];
    j := TestedPassed(log[..n]);
  }

  // ---- the sources on the server ----

  /** Step `n` is the server's consent to create a source. */
  predicate Grants(log: seq<Step>, n: nat) {
    0 < n < |log| && log[n].Answered? && !log[n].reply.Refused? && log[n - 1].Asked? && log[n - 1].request.Create?
  }

  /** The server created a source, but the page was not told. */
  predicate Untold(log: seq<Step>, n: nat) {
    Grants(log, n) && log[n].reply.Lost?
  }

  function IdAt(log: seq<Step>, n: nat): string
    requires Grants(log, n)
  {
    log[n - 1].request.settings.id
  }

  /** The ids of the sources created on the server at this form's request. */
  function Made(log: seq<Step>): set<string> {
    if log == [] then {}
    else if Grants(log, |log| - 1) then Made(Before(log)) + {IdAt(log, |log| - 1)}
    else Made(Before(log))
  }

  ghost predicate MadeAt(log: seq<Step>, n: nat, id: string) {
    Grants(log, n) && IdAt(log, n) == id
  }

  lemma {:induction false} MadeMeans(log: seq<Step>, id: string)
    ensures id in Made(log) <==> exists n: nat :: MadeAt(log, n, id)
  {
    if log != [] {
      MadeMeans(Before(log), id);
      assert forall n: nat :: n < |log| - 1 ==> (MadeAt(log, n, id) <==> MadeAt(Before(log), n, id));
      if MadeAt(log, |log| - 1, id) { assert id in Made(log); }
    }
  }

  lemma {:induction false} CreatedStays(log: seq<Step>, n: nat)
    requires n <= |log| && Created(log[..n]).Some?
    ensures Created(log).Some?
    decreases |log|
  {
    if n < |log| {
      assert Before(log)[..n] == log[..n];
      CreatedStays(Before(log), n);
    } else {
      assert log[..n] == log;
    }
  }

  /** A create whose answer came through is the last one. */
  lemma {:induction false} ToldIsLast(log: seq<Step>, m: nat, n: nat)
    requires Lawful(log) && Grants(log, m) && log[m].reply.Done? && m < n < |log|
    ensures log[n].Asked? ==> !log[n].request.Create?
  {
    LawfulPrefix(log, n + 1);
    assert Before(log[..n + 1]) == log[..n];
    assert Before(log[..m + 1]) == log[..m] && Created(log[..m + 1]).Some?;
    assert log[..n][..m + 1] == log[..m + 1];
    CreatedStays(log[..n], m + 1);
  }

  /** After a create the page was not told of, another one under another id was granted. */
  ghost predicate MadeAnother(log: seq<Step>) {
    exists m: nat, n: nat :: m < n && Untold(log, m) && Grants(log, n) && IdAt(log, m) != IdAt(log, n)
  }

  lemma TwoOrFewer(ids: set<string>)
    ensures |ids| <= 1 <==> forall a, b :: a in ids && b in ids ==> a == b
  {
    if ids != {} {
      var x :| x in ids;
      assert ids == {x} + (ids - {x});
      if ids - {x} != {} { var y :| y in ids - {x}; assert |ids - {x}| > 0; }
    }
  }

  /** One form creates at most one source, exactly if no lost answer to a create is followed by
      the consent to another one under another id. */
  lemma {:induction false} OneSourceExactly(log: seq<Step>)
    requires Lawful(log)
    ensures |Made(log)| <= 1 <==> !MadeAnother(log)
  {
    TwoOrFewer(Made(log));
    if m: nat, n: nat :| m < n && Untold(log, m) && Grants(log, n) && IdAt(log, m) != IdAt(log, n) {
      assert MadeAt(log, m, IdAt(log, m)) && MadeAt(log, n, IdAt(log, n));
      MadeMeans(log, IdAt(log, m));
      MadeMeans(log, IdAt(log, n));
    }
    if a, b :| a in Made(log) && b in Made(log) && a != b {
      MadeMeans(log, a);
      MadeMeans(log, b);
      var i: nat :| MadeAt(log, i, a);
      var j: nat :| MadeAt(log, j, b);
      var m, n := if i < j then i else j, if i < j then j else i;
      if log[m].reply.Done? { ToldIsLast(log, m, n - 1); }
      assert Untold(log, m);
    }
  }

  /** The server refuses an id that is taken: as long as nobody removes a source, it creates no id
      twice. */
  predicate NoneTwice(log: seq<Step>) {
    log == [] || (NoneTwice(Before(log)) && (Grants(log, |log| - 1) ==> IdAt(log, |log| - 1) !in Made(Before(log))))
  }

  /** How many creates the page was not told of. */
  function UntoldCount(log: seq<Step>): nat {
    if log == [] then 0 else UntoldCount(Before(log)) + if Untold(log, |log| - 1) then 1 else 0
  }

  /** Then the sources are the ones the page was not told of and the one it was told of: with a
      lost create behind it, a form that ends with a source has made two. */
  lemma {:induction false} SourcesCounted(log: seq<Step>)
    requires Lawful(log) && NoneTwice(log)
    ensures |Made(log)| == UntoldCount(log) + if Created(log).Some? then 1 else 0
    ensures Created(log).Some? ==> Created(log).value.id in Made(log) && (|Made(log)| == 1 <==> UntoldCount(log) == 0)
  {
    if log != [] {
      SourcesCounted(Before(log));
      if Open(Before(log)).Some? { AskingKeeps(Before(log)); }
    }
  }

  /** A request alone creates nothing. */
  lemma AskingKeeps(log: seq<Step>)
    requires Lawful(log) && Open(log).Some?
    ensures Created(log) == Created(Before(log)) && (Open(log).value.Create? ==> Created(log).None?)
  {
  }
}
