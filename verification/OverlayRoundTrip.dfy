/** Saving a policy that nobody edited, from the stored overlay through the form and back
    through the server. */
module OverlayRoundTrip {
  import opened Wrappers
  import opened JsText
  import opened JsonStrings
  import opened GroupText
  import opened TextControl
  import opened PolicyRules
  import opened Overlay

  predicate TextTrimmed(t: Option<Text>) {
    t.Some? ==> Trim(t.value) == t.value
  }

  function TrimText(t: Option<Text>): Option<Text> {
    if t.None? then None else Some(Trim(t.value))
  }

  function TrimRules(rules: seq<InputRule>): seq<InputRule> {
    seq(|rules|, i requires 0 <= i < |rules| => rules[i].(reason := TrimText(rules[i].reason)))
  }

  function TrimAccess(access: map<Text, seq<InputRule>>): map<Text, seq<InputRule>> {
    map id | id in access :: TrimRules(access[id])
  }

  function NameKept(name: Option<Text>): Option<Text> {
    if name.None? then None else Some(Trim(Kept(name.value)))
  }

  /** The same settings with the name and the visibility as a text control keeps them, and the name
      and every reason trimmed. */
  function Resaved(o: Policy): Policy {
    o.(name := NameKept(o.name),
       inputAccess := if o.inputAccess.None? then None else Some(TrimAccess(o.inputAccess.value)),
       visibility := if o.visibility.None? then None else Some(AsShown(o.visibility.value)))
  }

  /** The name and the visibility as it is shown hold no line break. */
  predicate AllOneLine(o: Policy) {
    (o.name.Some? ==> OneLine(o.name.value)) && (o.visibility.Some? ==> OneLine(ShowGroups(o.visibility.value)))
  }

  /** The name and every reason are trimmed. */
  predicate AllTrimmed(o: Policy) {
    && TextTrimmed(o.name)
    && (o.inputAccess.Some? ==> forall id :: id in o.inputAccess.value ==>
          forall i :: 0 <= i < |o.inputAccess.value[id]| ==> TextTrimmed(o.inputAccess.value[id][i].reason))
  }

  lemma {:induction false} TrimShortens(t: Text)
    ensures |TrimStart(t)| <= |t| && |TrimEnd(t)| <= |t|
  {
    if t != [] { TrimShortens(t[1..]); TrimShortens(t[..|t| - 1]); }
  }

  /** A text the server cleaned is not blank, and cleaning its trimmed form changes nothing. */
  lemma CleanedText(raw: Option<Text>, max: nat, t: Option<Text>)
    requires t == CleanText(raw, max) && max > 0
    ensures t.Some? ==> NonBlank(t.value) == Some(Trim(t.value))
    ensures CleanText(TrimText(t), max) == TrimText(t)
  {
    if t.Some? {
      var all := Trim(raw.value);
      TrimTwice(raw.value);
      assert t.value[0] == all[0];
      TrimSkipsSpace(t.value);
      TrimTwice(t.value);
      TrimShortens(t.value);
      TrimShortens(TrimStart(t.value));
    }
  }

  lemma {:induction false} TrimmedHasNoSpaceEnds(t: Text)
    ensures Trim(t) == t <==> t == [] || (!IsSpace(t[0]) && !IsSpace(t[|t| - 1]))
  {
    if t != [] {
      TrimTwice(t);
      TrimShortens(t[1..]);
      TrimShortens(t[..|t| - 1]);
      TrimShortens(TrimStart(t[1..]));
    }
  }

  /** When a stored text is not trimmed: it was cut, and the cut fell right after a space. */
  lemma CutLeavesSpace(raw: Text, max: nat)
    requires max > 0
    ensures TextTrimmed(CleanText(Some(raw), max)) <==> !(|Trim(raw)| > max && IsSpace(Trim(raw)[max - 1]))
  {
    TrimTwice(raw);
    TrimmedHasNoSpaceEnds(Trim(raw));
    if |Trim(raw)| > max { TrimmedHasNoSpaceEnds(Trim(raw)[..max]); }
  }

  /** A rule the server stored. */
  predicate StoredRule(r: InputRule) {
    && r.groups != [] && IsClean(r.groups)
    && (!r.level.Locked? ==> r.value.None?)
    && (if r.level.Choice? then r.allow.Some? && r.allow.value != [] else r.allow.None?)
    && CleanText(TrimText(r.reason), REASON_MAX) == TrimText(r.reason)
    && (r.reason.Some? ==> NonBlank(r.reason.value) == Some(Trim(r.reason.value)))
  }

  lemma NormalizedRuleIsStored(raw: InputRule)
    ensures NormalizeRule(raw).Some? ==> StoredRule(NormalizeRule(raw).value)
  {
    CleanIsClean(raw.groups);
    CleanedText(raw.reason, REASON_MAX, CleanText(raw.reason, REASON_MAX));
  }

  /** An untouched rule goes out with its own typed values, and is stored as it is sent. */
  lemma {:induction false} UntouchedRule(codec: Codec, r: InputRule)
    requires StoredRule(r)
    ensures var sent := r.(reason := TrimText(r.reason));
      EntryOf(codec, LoadRule(codec, r)) == Some(sent) && NormalizeRule(sent) == Some(sent)
  {
    CleanIsClean(r.groups);
    if r.reason.None? { assert NonBlank([]) == None; }
  }

  predicate StoredRules(rules: seq<InputRule>) {
    rules != [] && forall i :: 0 <= i < |rules| ==> StoredRule(rules[i])
  }

  lemma {:induction false} UntouchedRules(codec: Codec, rules: seq<InputRule>)
    requires StoredRules(rules)
    ensures EntriesOk(codec, LoadRules(codec, rules)) && Entries(codec, LoadRules(codec, rules)) == TrimRules(rules)
    ensures RulesOk(TrimRules(rules)) && NormalizeRules(TrimRules(rules)) == TrimRules(rules)
    ensures TrimRules(rules) != []
  {
    forall i | 0 <= i < |rules|
      ensures EntryOf(codec, LoadRules(codec, rules)[i]) == Some(TrimRules(rules)[i])
      ensures NormalizeRule(TrimRules(rules)[i]) == Some(TrimRules(rules)[i])
    {
      UntouchedRule(codec, rules[i]);
    }
  }

  predicate StoredAccess(access: map<Text, seq<InputRule>>) {
    access != map[] && [] !in access && forall id :: id in access ==> StoredRules(access[id])
  }

  lemma NormalizedAccessIsStored(raw: map<Text, seq<InputRule>>)
    ensures NormalizeAccess(raw).Some? && NormalizeAccess(raw).value != map[] ==>
        StoredAccess(NormalizeAccess(raw).value)
  {
    if NormalizeAccess(raw).Some? {
      var access := NormalizeAccess(raw).value;
      forall id | id in access ensures StoredRules(access[id]) {
        forall i | 0 <= i < |access[id]| ensures StoredRule(access[id][i]) { NormalizedRuleIsStored(raw[id][i]); }
      }
    }
  }

  lemma {:induction false} UntouchedAccess(codec: Codec, access: map<Text, seq<InputRule>>)
    requires StoredAccess(access)
    ensures var model := map id | id in access :: LoadRules(codec, access[id]);
      && (forall id :: id in model ==> EntriesOk(codec, model[id]))
      && AccessOf(codec, model) == TrimAccess(access)
    ensures NormalizeAccess(TrimAccess(access)) == Some(TrimAccess(access)) && TrimAccess(access) != map[]
  {
    var model := map id | id in access :: LoadRules(codec, access[id]);
    forall id | id in access
      ensures EntriesOk(codec, model[id]) && Entries(codec, model[id]) == TrimRules(access[id]) && model[id] != []
      ensures RulesOk(TrimRules(access[id])) && NormalizeRules(TrimRules(access[id])) == TrimRules(access[id])
          && TrimRules(access[id]) != []
    {
      UntouchedRules(codec, access[id]);
    }
    assert AccessOf(codec, model) == TrimAccess(access);
    var trimmed := TrimAccess(access);
    assert (map id | id in trimmed && trimmed[id] != [] :: NormalizeRules(trimmed[id])) == trimmed;
    var id :| id in access;
    assert id in TrimAccess(access);
  }

  lemma {:induction false} TextFormatsTwice(formats: seq<Json>)
    ensures TextFormats(TextFormats(formats)) == TextFormats(formats)
  {
    if formats != [] {
      TextFormatsTwice(formats[1..]);
      if formats[0].JText? && formats[0].text != [] {
        assert ([formats[0]] + TextFormats(formats[1..]))[1..] == TextFormats(formats[1..]);
      }
    }
  }

  /** Enforcement the server stored is stored again as it is. */
  lemma EnforceTwice(raw: Enforce)
    ensures NormalizeEnforce(raw).Some? ==>
      var e := NormalizeEnforce(raw).value;
      NormalizeEnforce(e) == Some(e) && !e.extra && e.escalation != Some([])
  {
    if raw.formats.Some? { TextFormatsTwice(raw.formats.value); }
  }

  /** What is known of an overlay that the server stored. */
  predicate Stored(o: Policy) {
    && !o.extra && (o.name.Some? ==> 1 <= |o.name.value| <= NAME_MAX && !IsSpace(o.name.value[0]))
    && (o.inputAccess.Some? ==> StoredAccess(o.inputAccess.value))
    && (o.visibility.Some? ==> o.visibility.value != [] && IsClean(o.visibility.value))
    && (o.enforce.Some? ==> NormalizeEnforce(o.enforce.value) == o.enforce && !o.enforce.value.extra)
    && (o.enforce.Some? ==>
        o.enforce.value.escalation != Some([]) && o.enforce.value != Enforce(None, None, None, false))
    && (o.defaults.Some? ==> o.defaults.value.JObject? && o.defaults.value.fields != [])
  }

  lemma CleanTextStart(raw: Text, max: nat)
    requires max > 0 && CleanText(Some(raw), max).Some?
    ensures var t := CleanText(Some(raw), max).value; 1 <= |t| <= max && !IsSpace(t[0])
  {
    TrimTwice(raw);
  }

  lemma {:induction false} NormalizedIsStored(body: Policy)
    ensures Normalize(body).Some? ==> Stored(Normalize(body).value)
  {
    if CleanText(body.name, NAME_MAX).Some? { CleanTextStart(body.name.value, NAME_MAX); }
    if body.inputAccess.Some? { NormalizedAccessIsStored(body.inputAccess.value); }
    if body.enforce.Some? { EnforceTwice(body.enforce.value); }
    if body.visibility.Some? { CleanIsClean(body.visibility.value); }
  }

  lemma BlankIsNoGroups()
    ensures GroupsOf([]) == Some([]) && GroupsOrNone([]) == []
  {
    var one: seq<Text> := [[]];
    assert Split([], COMMA) == one && TrimAll(one) == one && one[..0] == [] && Distinct(one) == [];
  }

  lemma TrimNoLonger(t: Text)
    ensures |Trim(t)| <= |t|
    ensures |Trim(t)| == |t| ==> Trim(t) == t
  {
    TrimShortens(t);
    TrimShortens(TrimStart(t));
    TrimmedHasNoSpaceEnds(t);
    if |Trim(t)| == |t| && t != [] {
      if IsSpace(t[0]) {
        TrimShortens(t[1..]);
        TrimShortens(TrimStart(t[1..]));
      } else if IsSpace(t[|t| - 1]) {
        TrimShortens(t[..|t| - 1]);
      }
    }
  }

  lemma NameComesThrough(name: Text)
    ensures Trim(Kept(name)) == name <==> Trim(name) == name && OneLine(name)
  {
    KeptWhole(name);
    TrimNoLonger(Kept(name));
  }

  /** A stored name goes out trimmed and on one line, and is stored so. */
  lemma UntouchedName(name: Text)
    requires 1 <= |name| <= NAME_MAX && !IsSpace(name[0])
    ensures NonBlank(Kept(name)) == NameKept(Some(name))
    ensures CleanText(NameKept(Some(name)), NAME_MAX) == NameKept(Some(name))
    ensures NameKept(Some(name)) == Some(name) <==> Trim(name) == name && OneLine(name)
  {
    KeptStart(name);
    NameComesThrough(name);
    TrimTwice(Kept(name));
    TrimNoLonger(Kept(name));
  }

  /** A stored visibility goes out as the control shows it, and is stored so. */
  lemma {:induction false} UntouchedVisibility(codec: Codec, o: Policy)
    requires Stored(o)
    ensures var f := Load(codec, o);
      && (VisibleOf(f) == if o.visibility.Some? then AsShown(o.visibility.value) else [])
      && ((f.visibility == f.visibilityText && o.visibility.Some?) || GroupsOf(f.visibility).Some?)
    ensures o.visibility.Some? ==>
        AsShown(o.visibility.value) != [] && Clean(AsShown(o.visibility.value)) == AsShown(o.visibility.value)
  {
    if o.visibility.Some? {
      var groups := o.visibility.value;
      ShownReadsBack(groups);
      ShownWhole(groups);
      KeptWhole(ShowGroups(groups));
      CleanIsClean(AsShown(groups));
    } else {
      BlankIsNoGroups();
    }
  }

  /** The body that an untouched form sends for a stored overlay: the overlay as the form holds it. */
  lemma {:induction false} UntouchedBody(codec: Codec, o: Policy)
    requires Stored(o)
    ensures CanSave(codec, Load(codec, o)) && BodyOf(codec, Load(codec, o)) == Resaved(o)
  {
    var f := Load(codec, o);
    UntouchedVisibility(codec, o);
    UntouchedModel(codec, o);
    if o.name.Some? { UntouchedName(o.name.value); }
    assert NonBlank([]) == None;
    assert EnforceOf(f) == o.enforce;
  }

  lemma {:induction false} UntouchedModel(codec: Codec, o: Policy)
    requires Stored(o)
    ensures var f := Load(codec, o);
      && (forall id :: id in f.model ==> EntriesOk(codec, f.model[id]))
      && (if AccessOf(codec, f.model) == map[] then None else Some(AccessOf(codec, f.model))) == Resaved(o).inputAccess
  {
    if o.inputAccess.Some? { UntouchedAccess(codec, o.inputAccess.value); }
  }

  lemma {:induction false} UntouchedNormalizes(codec: Codec, o: Policy)
    requires Stored(o)
    ensures Normalize(Resaved(o)) == Some(Resaved(o))
  {
    var b := Resaved(o);
    UntouchedVisibility(codec, o);
    if o.inputAccess.Some? { UntouchedAccess(codec, o.inputAccess.value); }
    if o.name.Some? { UntouchedName(o.name.value); }
    assert (b.enforce, b.defaults, b.extra) == (o.enforce, o.defaults, o.extra);
    NormalizesToItself(b);
  }

  lemma NormalizesToItself(b: Policy)
    requires CleanText(b.name, NAME_MAX) == b.name && !b.extra
    requires b.inputAccess.Some? ==>
      b.inputAccess.value != map[] && NormalizeAccess(b.inputAccess.value) == b.inputAccess
    requires b.visibility.Some? ==> b.visibility.value != [] && Clean(b.visibility.value) == b.visibility.value
    requires b.enforce.Some? ==>
      NormalizeEnforce(b.enforce.value) == b.enforce && b.enforce.value != Enforce(None, None, None, false)
    requires b.defaults.Some? ==> b.defaults.value.JObject? && b.defaults.value.fields != []
    ensures Normalize(b) == Some(b)
  {
  }

  lemma TrimmedAccessIsSame(access: map<Text, seq<InputRule>>)
    ensures TrimAccess(access) == access <==>
      forall id :: id in access ==> forall i :: 0 <= i < |access[id]| ==> TextTrimmed(access[id][i].reason)
  {
    if forall id :: id in access ==> forall i :: 0 <= i < |access[id]| ==> TextTrimmed(access[id][i].reason) {
      forall id | id in access ensures TrimRules(access[id]) == access[id] { }
      assert TrimAccess(access) == access;
    }
    if TrimAccess(access) == access {
      forall id, i | id in access && 0 <= i < |access[id]| ensures TextTrimmed(access[id][i].reason) {
        assert TrimAccess(access)[id] == access[id];
        assert TrimRules(access[id])[i] == access[id][i];
      }
    }
  }

  lemma {:induction false} ResavedIsSame(o: Policy)
    requires Stored(o)
    ensures Resaved(o) == o <==> AllTrimmed(o) && AllOneLine(o)
  {
    if o.name.Some? { UntouchedName(o.name.value); }
    if o.visibility.Some? { ShownWhole(o.visibility.value); }
    if o.inputAccess.Some? { TrimmedAccessIsSame(o.inputAccess.value); }
  }

  /** Saving an overlay that nobody edited is always accepted. It stores again exactly what was
      stored just when its name and reasons are trimmed and its name and shown visibility are one
      line: the server cuts texts to length after trimming, so a cut that falls after a space leaves
      one that the next save drops, and a text control takes line breaks out. */
  lemma {:induction false} UntouchedSave(codec: Codec, body: Policy)
    requires Normalize(body).Some?
    ensures var o := Normalize(body).value;
      && CanSave(codec, Load(codec, o))
      && Normalize(BodyOf(codec, Load(codec, o))) == Some(Resaved(o))
      && (Normalize(BodyOf(codec, Load(codec, o))) == Some(o) <==> AllTrimmed(o) && AllOneLine(o))
  {
    var o := Normalize(body).value;
    NormalizedIsStored(body);
    UntouchedBody(codec, o);
    UntouchedNormalizes(codec, o);
    ResavedIsSame(o);
  }

  const TWO_LINES: Text := [0x61, 0x0A, 0x62]
  const JOINED: Text := [0x61, 0x62]

  const BOTH_BREAK := Policy(Some(TWO_LINES), None, Some([TWO_LINES]), None, None, false)

  lemma {:induction false} BreaksAreStored()
    ensures Normalize(BOTH_BREAK) == Some(BOTH_BREAK)
  {
    TwoLinesKept();
    var one: seq<Text> := [TWO_LINES];
    assert IsClean(one);
    CleanIsClean(one);
  }

  lemma BreaksResaved()
    ensures Resaved(BOTH_BREAK) == BOTH_BREAK.(name := Some(JOINED), visibility := Some([JOINED]))
  {
    TwoLinesKept();
  }

  /** What the server stores after an untouched save of what it stored before. */
  function SavedAgain(codec: Codec, o: Policy): Option<Policy> {
    if CanSave(codec, Load(codec, o)) then Normalize(BodyOf(codec, Load(codec, o))) else None
  }

  lemma {:induction false} SavedAgainIsResaved(codec: Codec, o: Policy)
    requires Normalize(o) == Some(o)
    ensures SavedAgain(codec, o) == Some(Resaved(o))
  {
    UntouchedSave(codec, o);
  }

  /** A name and a group of two lines, as the server stores them and an untouched save leaves them. */
  lemma {:induction false} BreaksAreLost(codec: Codec)
    ensures Normalize(BOTH_BREAK) == Some(BOTH_BREAK)
    ensures SavedAgain(codec, BOTH_BREAK) == Some(BOTH_BREAK.(name := Some(JOINED), visibility := Some([JOINED])))
  {
    BreaksAreStored();
    SavedAgainIsResaved(codec, BOTH_BREAK);
    BreaksResaved();
  }

  lemma TwoLinesKept()
    ensures Trim(TWO_LINES) == TWO_LINES && Trim(JOINED) == JOINED && Kept(TWO_LINES) == JOINED
    ensures AsShown([TWO_LINES]) == [JOINED]
  {
    TrimmedHasNoSpaceEnds(TWO_LINES);
    TrimmedHasNoSpaceEnds(JOINED);
    assert TWO_LINES[1..] == [0x0A, 0x62] && TWO_LINES[1..][1..] == [0x62] && TWO_LINES[1..][1..][1..] == [];
    assert Kept(TWO_LINES) == JOINED;
    InkIsFirst(TWO_LINES);
    var one: seq<Text> := [TWO_LINES];
    var kept: seq<Text> := [JOINED];
    assert KeptAll(one) == kept && IsClean(kept);
    CleanIsClean(kept);
    assert !NeedJson(one) by { assert forall i :: 0 <= i < |one| ==> one[i] == TWO_LINES && COMMA !in one[i]; }
  }

  lemma InkIsFirst(t: Text)
    requires Trim(t) == t && t != []
    ensures InkStartsWith(t, OPEN) <==> t[0] == OPEN
  {
  }
}
