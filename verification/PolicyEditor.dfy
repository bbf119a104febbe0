/** The policy form as it is edited: rules changed in place, and the body built from them. */
module PolicyEditor {
  import opened Wrappers
  import opened JsText
  import opened JsonStrings
  import opened GroupText
  import opened TextControl
  import opened PolicyRules
  import opened Overlay
  import opened OverlayRoundTrip

  function RuleIn(d: Draft): Rule {
    Rule(GroupsOrNone(d.groups), d.level, [d.value, d.allow, d.reason])
  }

  /** The rules as the form's warnings, and members, see them. */
  function RulesIn(drafts: seq<Draft>): seq<Rule> {
    seq(|drafts|, i requires 0 <= i < |drafts| => RuleIn(drafts[i]))
  }

  lemma StarIsEveryone()
    ensures GroupsOrNone(STAR) == [STAR]
  {
    SplitAfter(STAR, COMMA, []);
    TrimmedHasNoSpaceEnds(STAR);
    var one := [STAR];
    assert TrimAll(one) == one;
    assert one[..0] == [] && Distinct(one) == [STAR];
  }

  lemma RulesInInsert(rules: seq<Draft>, at: nat, added: Draft)
    requires at <= |rules|
    ensures RulesIn(rules[..at] + [added] + rules[at..]) == Insert(RulesIn(rules), at, RuleIn(added))
  {
  }

  lemma RulesInRemove(rules: seq<Draft>, index: nat)
    requires index < |rules|
    ensures RulesIn(rules[..index] + rules[index + 1..]) == Remove(RulesIn(rules), index)
  {
  }

  /** What adding a rule at the add position does for a member. */
  lemma AddedEffect(rules: seq<Draft>, added: Draft, member: set<Group>)
    requires added.groups == if rules == [] then STAR else []
    ensures var at := AddPosition(RulesIn(rules)); var after := RulesIn(rules[..at] + [added] + rules[at..]);
      Resolve(after, member) == if rules == [] then Some(after[0]) else Resolve(RulesIn(rules), member)
  {
    var at := AddPosition(RulesIn(rules));
    RulesInInsert(rules, at, added);
    if rules == [] {
      StarIsEveryone();
    } else {
      BlankIsNoGroups();
      AddingBlankIsSafe(RulesIn(rules), RuleIn(added), member);
    }
  }

  /** The entries of the first `n` drafts. */
  predicate AreEntries(codec: Codec, drafts: seq<Draft>, out: seq<InputRule>, n: nat)
    requires n <= |drafts|
  {
    |out| == n && forall j :: 0 <= j < n ==> EntryOf(codec, drafts[j]) == Some(out[j])
  }

  lemma {:induction false} EntriesGrow(codec: Codec, drafts: seq<Draft>, out: seq<InputRule>, n: nat, entry: InputRule)
    requires n < |drafts| && AreEntries(codec, drafts, out, n) && EntryOf(codec, drafts[n]) == Some(entry)
    ensures AreEntries(codec, drafts, out + [entry], n + 1)
  {
  }

  lemma EntriesAre(codec: Codec, drafts: seq<Draft>, out: seq<InputRule>)
    requires AreEntries(codec, drafts, out, |drafts|)
    ensures EntriesOk(codec, drafts) && Entries(codec, drafts) == out
  {
  }

  class Editor {
    const codec: Codec
    const original: Policy
    const visibilityText: Text
    var name: Text
    var visibility: Text
    var watermark: Option<Watermark>
    var chain: Text
    var model: map<Text, seq<Draft>>

    function AsForm(): Form
      reads this
    {
      Form(original, name, visibility, visibilityText, watermark, chain, model)
    }

    /** What the two text controls hold. */
    predicate Controls()
      reads this
    {
      OneLine(name) && OneLine(visibility)
    }

    constructor (codec: Codec, o: Policy)
      ensures AsForm() == Load(codec, o) && this.codec == codec && Controls()
    {
      this.codec, original := codec, o;
      var f := Load(codec, o);
      visibilityText, name, visibility, watermark, chain, model :=
          f.visibilityText, f.name, f.visibility, f.watermark, f.chain, f.model;
    }

    /** Typing or pasting into the name or the visibility. */
    method TypeName(text: Text)
      requires Controls()
      modifies this`name
      ensures Controls() && name == Kept(text)
    {
      name := Kept(text);
    }

    method TypeVisibility(text: Text)
      requires Controls()
      modifies this`visibility
      ensures Controls() && visibility == Kept(text)
    {
      visibility := Kept(text);
    }

    /** One rule changed; every other rule, with its typed values, stays as it is. */
    method Edit(id: Text, index: nat, d: Draft)
      requires id in model && index < |model[id]| && d.original == model[id][index].original
      modifies this`model
      ensures model == old(model)[id := old(model)[id][index := d]]
      ensures forall other, i :: other in model && 0 <= i < |model[other]| && (other != id || i != index) ==>
        EntryOf(codec, model[other][i]) == EntryOf(codec, old(model)[other][i])
    {
      model := model[id := model[id][index := d]];
    }

    /** Setting a rule's groups changes what a member gets only if the member matches the rule
        before or after, and no rule above it. */
    method SetGroups(id: Text, index: nat, groups: Text)
      requires id in model && index < |model[id]|
      modifies this`model
      ensures model == old(model)[id := old(model)[id][index := old(model)[id][index].(groups := groups)]]
      ensures forall member ::
        Resolve(RulesIn(model[id]), member) != Resolve(RulesIn(old(model)[id]), member) ==>
        && Resolve(RulesIn(model[id])[..index], member).None?
        && (Matches(GroupsOrNone(groups), member) || Matches(GroupsOrNone(old(model)[id][index].groups), member))
    {
      ghost var before := RulesIn(model[id]);
      Edit(id, index, model[id][index].(groups := groups));
      forall member { ChangedRuleReaches(before, RulesIn(model[id]), index, member); }
    }

    /** move(-1) on `index + 1`, or move(1) on `index`. */
    method SwapDown(id: Text, index: nat)
      requires id in model && index + 1 < |model[id]|
      modifies this`model
      ensures var rules := old(model)[id];
        model == old(model)[id := rules[index := rules[index + 1]][index + 1 := rules[index]]]
      ensures RulesIn(model[id]) == Swap(RulesIn(old(model)[id]), index)
      ensures forall member ::
        Resolve(RulesIn(model[id]), member) != Resolve(RulesIn(old(model)[id]), member) ==>
        Matches(RulesIn(old(model)[id])[index].groups, member)
            && Matches(RulesIn(old(model)[id])[index + 1].groups, member)
    {
      ghost var before := RulesIn(model[id]);
      var rules := model[id];
      rules := rules[index := rules[index + 1]][index + 1 := rules[index]];
      model := model[id := rules];
      assert RulesIn(rules) == Swap(before, index);
      forall member { SwapAffectsOnlyBoth(before, index, member); }
    }

    /** Remove a rule. A flagged one is missed by nobody. */
    method RemoveRule(id: Text, index: nat)
      requires id in model && index < |model[id]|
      modifies this`model
      ensures model == old(model)[id := old(model)[id][..index] + old(model)[id][index + 1..]]
      ensures Flagged(RulesIn(old(model)[id]), index) ==>
        forall member :: Resolve(RulesIn(model[id]), member) == Resolve(RulesIn(old(model)[id]), member)
    {
      ghost var before := RulesIn(model[id]);
      var rules := model[id];
      model := model[id := rules[..index] + rules[index + 1..]];
      RulesInRemove(rules, index);
      if Flagged(before, index) {
        forall member { DeletingFlaggedIsSafe(before, index, member); }
      }
    }

    /** Add a rule above the first catch-all; the first rule of an input is for everyone. */
    method AddRule(id: Text, default: Option<Json>)
      modifies this`model
      ensures var rules := if id in old(model) then old(model)[id] else [];
        var at := AddPosition(RulesIn(rules));
        var value := ShowValue(codec, default);
        var groups := if rules == [] then STAR else [];
        var added := Draft(groups, [], Locked, value, value, [], [], [], None);
        model == old(model)[id := rules[..at] + [added] + rules[at..]]
      ensures id in old(model) && old(model)[id] != [] ==>
        forall member :: Resolve(RulesIn(model[id]), member) == Resolve(RulesIn(old(model)[id]), member)
      ensures id !in old(model) || old(model)[id] == [] ==>
        forall member :: Resolve(RulesIn(model[id]), member) == Some(RulesIn(model[id])[0])
    {
      var rules := if id in model then model[id] else [];
      var at := AddPosition(RulesIn(rules));
      var value := ShowValue(codec, default);
      var added := Draft(if rules == [] then STAR else [], [], Locked, value, value, [], [], [], None);
      model := model[id := rules[..at] + [added] + rules[at..]];
      forall member { AddedEffect(rules, added, member); }
    }

    /** Rules of one input, entry by entry; None when the form refuses one. */
    method EntriesOf(drafts: seq<Draft>) returns (rules: Option<seq<InputRule>>)
      ensures rules.Some? <==> EntriesOk(codec, drafts)
      ensures rules.Some? ==> rules.value == Entries(codec, drafts)
    {
      var out := [];
      for i := 0 to |drafts|
        invariant AreEntries(codec, drafts, out, i)
      {
        var entry := EntryOf(codec, drafts[i]);
        if entry.None? {
          return None;
        }
        EntriesGrow(codec, drafts, out, i, entry.value);
        out := out + [entry.value];
      }
      EntriesAre(codec, drafts, out);
      return Some(out);
    }

    /** bodyOf(): what a save sends, or nothing when the form refuses to save. */
    method Body() returns (body: Option<Policy>)
      ensures body.Some? <==> CanSave(codec, AsForm())
      ensures body.Some? ==> body.value == BodyOf(codec, AsForm())
      ensures body.Some? && Controls() && body.value.name.Some? ==> OneLine(body.value.name.value)
    {
      if original.extra || (original.enforce.Some? && original.enforce.value.extra) {
        return None;
      }
      var access: map<Text, seq<InputRule>> := map[];
      var left := model.Keys;
      while left != {}
        invariant left <= model.Keys
        invariant forall id :: id in model.Keys - left ==> EntriesOk(codec, model[id])
        invariant access == map id | id in model.Keys - left && model[id] != [] :: Entries(codec, model[id])
        decreases left
      {
        var id :| id in left;
        var rules := EntriesOf(model[id]);
        if rules.None? {
          return None;
        }
        left := left - {id};
        if model[id] != [] { access := access[id := rules.value]; }
      }
      assert access == AccessOf(codec, model);
      if !(visibility == visibilityText && original.visibility.Some?) && GroupsOf(visibility).None? {
        return None;
      }
      if Controls() { TrimOneLine(name); }
      var visible := VisibleOf(AsForm());
      var enforce := EnforceOf(AsForm());
      return Some(Policy(NonBlank(name), if access == map[] then None else Some(access),
                         if visible == [] then None else Some(visible), enforce, original.defaults, false));
    }
  }

  /** A changed rule matters to a member only where no rule above matches, and only if the rule
      matched before or matches now. */
  lemma ChangedRuleReaches(before: seq<Rule>, after: seq<Rule>, index: nat, member: set<Group>)
    requires index < |before| == |after| && after == before[index := after[index]]
    ensures Resolve(after, member) != Resolve(before, member) ==>
      && Resolve(after[..index], member).None?
      && (Matches(after[index].groups, member) || Matches(before[index].groups, member))
  {
    var a, b := before[..index], before[index + 1..];
    assert before == a + ([before[index]] + b) && after == a + ([after[index]] + b) && after[..index] == a;
    ResolveConcat(a, [before[index]] + b, member);
    ResolveConcat(a, [after[index]] + b, member);
    ResolveConcat([before[index]], b, member);
    ResolveConcat([after[index]], b, member);
    ResolveOne(before[index], member);
    ResolveOne(after[index], member);
  }

  /** Open the form for a stored overlay, touch nothing and save. */
  method SaveUntouched(codec: Codec, body: Policy) returns (stored: Option<Policy>)
    requires Normalize(body).Some?
    ensures stored == Some(Resaved(Normalize(body).value))
    ensures stored == Normalize(body) <==> AllTrimmed(Normalize(body).value) && AllOneLine(Normalize(body).value)
  {
    UntouchedSave(codec, body);
    var editor := new Editor(codec, Normalize(body).value);
    var sent := editor.Body();
    return Normalize(sent.value);
  }
}
