/** The ordered rule list of one input: the first rule that matches a member's groups wins. */
module PolicyRules {
  import opened Wrappers
  import opened JsText
  import opened JsonStrings

  type Group = Text

  const STAR: Group := [0x2A]

  datatype Level = Editable | Choice | Locked | Hidden

  /** A rule's groups and level; `body` holds its other texts. */
  datatype Rule = Rule(groups: seq<Group>, level: Level, body: seq<Text>)

  predicate Matches(groups: seq<Group>, member: set<Group>) {
    STAR in groups || exists g :: g in groups && g in member
  }

  /** The place of the first rule that matches, or the number of rules. */
  function FirstMatch(rules: seq<Rule>, member: set<Group>): (at: nat)
    ensures at <= |rules| && (at < |rules| ==> Matches(rules[at].groups, member))
    ensures forall j :: 0 <= j < at ==> !Matches(rules[j].groups, member)
  {
    if rules == [] || Matches(rules[0].groups, member) then 0
    else 1 + FirstMatch(rules[1..], member)
  }

  /** The rule a member gets, if any. */
  function Resolve(rules: seq<Rule>, member: set<Group>): Option<Rule> {
    var at := FirstMatch(rules, member);
    if at < |rules| then Some(rules[at]) else None
  }

  // ---- warnings ----

  datatype Warning =
    | Quiet
    | NeverApplies(shadow: nat)
    | AllCovered(covered: seq<Group>)
    | SomeCovered(covered: seq<Group>)

  /** The first rule before `index` that holds everyone, or `index`. */
  function FirstStar(rules: seq<Rule>, index: nat): (at: nat)
    requires index <= |rules|
    ensures at <= index && (at < index ==> STAR in rules[at].groups)
    ensures forall j :: 0 <= j < at ==> STAR !in rules[j].groups
  {
    if index == 0 || STAR in rules[0].groups then 0 else 1 + FirstStar(rules[1..], index - 1)
  }

  predicate CoveredBefore(rules: seq<Rule>, index: nat, g: Group)
    requires index <= |rules|
  {
    exists j :: 0 <= j < index && g in rules[j].groups
  }

  /** The groups that some rule before `index` names. */
  function Covered(rules: seq<Rule>, index: nat, groups: seq<Group>): (covered: seq<Group>)
    requires index <= |rules|
    ensures |covered| <= |groups|
    ensures |covered| == |groups| <==> forall g :: g in groups ==> CoveredBefore(rules, index, g)
  {
    if groups == [] then []
    else
      var rest := Covered(rules, index, groups[1..]);
      assert groups == [groups[0]] + groups[1..];
      if CoveredBefore(rules, index, groups[0]) then [groups[0]] + rest else rest
  }

  /** The warning shown under rule `index`. */
  function WarningFor(rules: seq<Rule>, index: nat): Warning
    requires index < |rules|
  {
    var everyone := FirstStar(rules, index);
    var covered := Covered(rules, index, rules[index].groups);
    if everyone < index then NeverApplies(everyone)
    else if covered == [] then Quiet
    else if |covered| == |rules[index].groups| then AllCovered(covered)
    else SomeCovered(covered)
  }

  predicate Flagged(rules: seq<Rule>, index: nat)
    requires index < |rules|
  {
    var w := WarningFor(rules, index);
    w.NeverApplies? || w.AllCovered?
  }

  /** Warnings are exact: a rule that names a group is flagged just when no member gets it. */
  lemma FlaggedMeansDead(rules: seq<Rule>, index: nat)
    requires index < |rules| && rules[index].groups != []
    ensures Flagged(rules, index) <==> forall member :: FirstMatch(rules, member) != index
  {
    if Flagged(rules, index) {
      forall member ensures FirstMatch(rules, member) != index {
        if Matches(rules[index].groups, member) { FlaggedIsShadowed(rules, index, member); }
      }
    } else {
      var member := UnflaggedReaches(rules, index);
    }
  }

  /** A member who gets a rule that is not flagged. */
  lemma UnflaggedReaches(rules: seq<Rule>, index: nat) returns (member: set<Group>)
    requires index < |rules| && rules[index].groups != [] && !Flagged(rules, index)
    ensures FirstMatch(rules, member) == index
  {
    var groups := rules[index].groups;
    var covered := Covered(rules, index, groups);
    assert FirstStar(rules, index) == index && |covered| != |groups|;
    var g :| g in groups && !CoveredBefore(rules, index, g);
    member := if g == STAR then {} else {g};
    forall j | 0 <= j < index ensures !Matches(rules[j].groups, member) {
      assert STAR !in rules[j].groups && g !in rules[j].groups;
    }
    assert Matches(groups, member);
  }

  lemma FlaggedIsShadowed(rules: seq<Rule>, index: nat, member: set<Group>)
    requires index < |rules| && Flagged(rules, index) && Matches(rules[index].groups, member)
    ensures FirstMatch(rules, member) < index
  {
    var groups := rules[index].groups;
    var everyone := FirstStar(rules, index);
    if everyone < index {
      assert Matches(rules[everyone].groups, member);
    } else {
      var g :| g in groups && (g == STAR || g in member);
      assert CoveredBefore(rules, index, g);
      var j :| 0 <= j < index && g in rules[j].groups;
      assert Matches(rules[j].groups, member);
    }
  }

  // ---- edits ----

  function Remove(rules: seq<Rule>, index: nat): seq<Rule>
    requires index < |rules|
  {
    rules[..index] + rules[index + 1..]
  }

  function Insert(rules: seq<Rule>, at: nat, rule: Rule): seq<Rule>
    requires at <= |rules|
  {
    rules[..at] + [rule] + rules[at..]
  }

  function Swap(rules: seq<Rule>, index: nat): seq<Rule>
    requires index + 1 < |rules|
  {
    rules[index := rules[index + 1]][index + 1 := rules[index]]
  }

  /** What is found in two lists one after the other. */
  lemma {:induction false} ResolveConcat(a: seq<Rule>, b: seq<Rule>, member: set<Group>)
    ensures Resolve(a + b, member) == if Resolve(a, member).Some? then Resolve(a, member) else Resolve(b, member)
  {
    if a == [] {
      assert a + b == b;
    } else if !Matches(a[0].groups, member) {
      ResolveConcat(a[1..], b, member);
      assert (a + b)[1..] == a[1..] + b;
      ResolveSkips(a, member);
      ResolveSkips(a + b, member);
    }
  }

  lemma ResolveSkips(rules: seq<Rule>, member: set<Group>)
    requires rules != [] && !Matches(rules[0].groups, member)
    ensures Resolve(rules, member) == Resolve(rules[1..], member)
  {
  }

  lemma ResolveOne(rule: Rule, member: set<Group>)
    ensures Resolve([rule], member) == if Matches(rule.groups, member) then Some(rule) else None
  {
  }

  /** Taking out a rule changes nothing for a member whose first match it is not. */
  lemma RemoveAffectsOnlyItsMembers(rules: seq<Rule>, index: nat, member: set<Group>)
    requires index < |rules| && FirstMatch(rules, member) != index
    ensures Resolve(Remove(rules, index), member) == Resolve(rules, member)
  {
    var a, r, b := rules[..index], rules[index], rules[index + 1..];
    assert rules == a + ([r] + b);
    ResolveConcat(a, b, member);
    ResolveConcat(a, [r] + b, member);
    ResolveConcat([r], b, member);
    ResolveOne(r, member);
    if Matches(r.groups, member) {
      assert FirstMatch(rules, member) < index;
      assert Matches(a[FirstMatch(rules, member)].groups, member);
      assert FirstMatch(a, member) < |a|;
    }
  }

  /** Deleting a flagged rule keeps what every member gets. */
  lemma DeletingFlaggedIsSafe(rules: seq<Rule>, index: nat, member: set<Group>)
    requires index < |rules| && Flagged(rules, index)
    ensures Resolve(Remove(rules, index), member) == Resolve(rules, member)
  {
    if Matches(rules[index].groups, member) { FlaggedIsShadowed(rules, index, member); }
    RemoveAffectsOnlyItsMembers(rules, index, member);
  }

  /** Where the form adds a rule: above the first catch-all. */
  function AddPosition(rules: seq<Rule>): (at: nat)
    ensures at <= |rules|
  {
    FirstStar(rules, |rules|)
  }

  /** A rule at the add position reaches exactly the members that match it and no rule above
      it, and no warning says it never applies. */
  lemma {:induction false} AddedRuleReaches(rules: seq<Rule>, rule: Rule, member: set<Group>)
    ensures var at := AddPosition(rules); var after := Insert(rules, at, rule);
      && !WarningFor(after, at).NeverApplies?
      && Resolve(after, member) ==
         if Matches(rule.groups, member) && Resolve(rules[..at], member).None? then Some(rule)
             else Resolve(rules, member)
  {
    var at := AddPosition(rules);
    var after := Insert(rules, at, rule);
    var a, b := rules[..at], rules[at..];
    assert rules == a + b && after == a + ([rule] + b);
    ResolveConcat(a, b, member);
    ResolveConcat(a, [rule] + b, member);
    ResolveConcat([rule], b, member);
    ResolveOne(rule, member);
    assert forall j :: 0 <= j < at ==> after[j] == rules[j];
    assert FirstStar(after, at) == at;
  }

  /** So adding a rule without groups changes nothing for anyone. */
  lemma AddingBlankIsSafe(rules: seq<Rule>, rule: Rule, member: set<Group>)
    requires rule.groups == []
    ensures Resolve(Insert(rules, AddPosition(rules), rule), member) == Resolve(rules, member)
  {
    AddedRuleReaches(rules, rule, member);
  }

  /** Moving a rule past its neighbour matters only to members who match both. */
  lemma SwapAffectsOnlyBoth(rules: seq<Rule>, index: nat, member: set<Group>)
    requires index + 1 < |rules|
    ensures Resolve(Swap(rules, index), member) !=  Resolve(rules, member) ==>
      Matches(rules[index].groups, member) && Matches(rules[index + 1].groups, member)
    ensures Matches(rules[index].groups, member) && Matches(rules[index + 1].groups, member)
        && Resolve(rules[..index], member).None?
      ==> Resolve(rules, member) == Some(rules[index]) && Resolve(Swap(rules, index), member) == Some(rules[index + 1])
  {
    var a, b := rules[..index], rules[index + 2..];
    var r, s := rules[index], rules[index + 1];
    assert rules == a + ([r] + ([s] + b)) && Swap(rules, index) == a + ([s] + ([r] + b));
    ResolveConcat(a, [r] + ([s] + b), member);
    ResolveConcat(a, [s] + ([r] + b), member);
    ResolveConcat([r], [s] + b, member);
    ResolveConcat([s], [r] + b, member);
    ResolveConcat([s], b, member);
    ResolveConcat([r], b, member);
    ResolveOne(r, member);
    ResolveOne(s, member);
  }
}
