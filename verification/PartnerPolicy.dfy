/** How the server picks a rule: the overlay's order, except that rules naming a partner's own
    programme or company decide by strictness. Where that leaves the form's warnings. */
module PartnerPolicy {
  import opened Wrappers
  import opened JsText
  import opened JsonStrings
  import opened PolicyRules

  /** "programme-" */
  const PROGRAMME: Text := [0x70, 0x72, 0x6F, 0x67, 0x72, 0x61, 0x6D, 0x6D, 0x65, 0x2D]
  /** "company-" */
  const COMPANY: Text := [0x63, 0x6F, 0x6D, 0x70, 0x61, 0x6E, 0x79, 0x2D]

  predicate IsProgramme(g: Group) {
    PROGRAMME < g
  }

  predicate IsCompany(g: Group) {
    COMPANY < g
  }

  predicate IsPartner(g: Group) {
    IsProgramme(g) || IsCompany(g)
  }

  function Strictness(level: Level): nat {
    match level case Editable => 0 case Choice => 1 case Locked => 2 case Hidden => 3
  }

  /** How strict rule `i` is. */
  function Rank(rules: seq<Rule>, i: nat): nat {
    if i < |rules| then Strictness(rules[i].level) else 0
  }

  /** The rules that name a group, in the overlay's order, from rule `from` on. */
  function Naming(rules: seq<Rule>, g: Group, from: nat): (named: seq<nat>)
    ensures forall j :: j in named <==> from <= j < |rules| && g in rules[j].groups
    ensures InRules(rules, named)
    ensures forall a, b :: 0 <= a < b < |named| ==> named[a] < named[b]
    decreases |rules| - from
  {
    if from >= |rules| then []
    else
      var rest := Naming(rules, g, from + 1);
      assert forall j :: 0 <= j < |rest| ==> rest[j] in rest;
      if g in rules[from].groups then [from] + rest else rest
  }

  predicate InRules(rules: seq<Rule>, list: seq<nat>) {
    forall a :: 0 <= a < |list| ==> list[a] < |rules|
  }

  /** Everything listed before place `a` is less strict than what is there. */
  predicate IsFirstStrictest(rules: seq<Rule>, list: seq<nat>, a: int) {
    0 <= a < |list| && forall b :: 0 <= b < a ==> Rank(rules, list[b]) < Rank(rules, list[a])
  }

  /** The strictest of some rules; among equally strict ones, the one listed first. */
  function Strictest(rules: seq<Rule>, list: seq<nat>): (i: nat)
    requires list != [] && InRules(rules, list)
    ensures i in list && i < |rules|
    ensures forall j :: j in list ==> Rank(rules, j) <= Rank(rules, i)
    ensures exists a :: IsFirstStrictest(rules, list, a) && list[a] == i
  {
    var n := |list| - 1;
    assert list == list[..n] + [list[n]];
    if n == 0 then
      assert IsFirstStrictest(rules, list, 0);
      list[0]
    else
      var before := Strictest(rules, list[..n]);
      var a :| IsFirstStrictest(rules, list[..n], a) && list[..n][a] == before;
      assert IsFirstStrictest(rules, list, a);
      if Rank(rules, list[n]) > Rank(rules, before) then
        assert IsFirstStrictest(rules, list, n);
        list[n]
      else before
  }

  /** Rules of several groups, one group after the other, without repeats. */
  function NamingAny(rules: seq<Rule>, groups: seq<Group>): (list: seq<nat>)
    ensures InRules(rules, list)
  {
    if groups == [] then []
    else Append(NamingAny(rules, groups[..|groups| - 1]), Naming(rules, groups[|groups| - 1], 0))
  }

  /** [...new Set([...list, ...more])] for a list without repeats. */
  function Append(list: seq<nat>, more: seq<nat>): (all: seq<nat>)
    ensures forall j :: j in all <==> j in list || j in more
    ensures list <= all && forall a :: 0 <= a < |all| ==> all[a] in list || all[a] in more
  {
    if more == [] then list
    else
      var before := Append(list, more[..|more| - 1]);
      assert more == more[..|more| - 1] + [more[|more| - 1]];
      if more[|more| - 1] in before then before else before + [more[|more| - 1]]
  }

  /** One scope's answer, and the first place at which it has a rule. */
  datatype Pick = Pick(rule: nat, at: nat)

  function Least(list: seq<nat>): nat
    requires list != []
  {
    if |list| == 1 then list[0]
    else
      var rest := Least(list[1..]);
      if list[0] < rest then list[0] else rest
  }

  predicate PicksIn(rules: seq<Rule>, picks: seq<Pick>) {
    forall p :: p in picks ==> p.rule < |rules|
  }

  function PickOf(rules: seq<Rule>, list: seq<nat>): (picks: seq<Pick>)
    requires InRules(rules, list)
    ensures PicksIn(rules, picks)
  {
    if list == [] then [] else [Pick(Strictest(rules, list), Least(list))]
  }

  function Programmes(groups: seq<Group>): (kept: seq<Group>)
    ensures forall g :: g in kept <==> g in groups && IsProgramme(g)
  {
    if groups == [] then []
    else
      assert groups == [groups[0]] + groups[1..];
      if IsProgramme(groups[0]) then [groups[0]] + Programmes(groups[1..]) else Programmes(groups[1..])
  }

  function Companies(groups: seq<Group>): (kept: seq<Group>)
    ensures forall g :: g in kept <==> g in groups && IsCompany(g)
  {
    if groups == [] then []
    else
      assert groups == [groups[0]] + groups[1..];
      if IsCompany(groups[0]) then [groups[0]] + Companies(groups[1..]) else Companies(groups[1..])
  }

  predicate BelongsTo(company: Group, p: Group, programmeOf: map<Group, Group>) {
    company in programmeOf && programmeOf[company] == p
  }

  /** The companies of the list that belong to programme `p`. */
  function Inside(companies: seq<Group>, p: Group, programmeOf: map<Group, Group>): (inside: seq<Group>)
    ensures forall c :: c in inside <==> c in companies && BelongsTo(c, p, programmeOf)
  {
    if companies == [] then []
    else
      var rest := Inside(companies[1..], p, programmeOf);
      assert companies == [companies[0]] + companies[1..];
      if BelongsTo(companies[0], p, programmeOf) then [companies[0]] + rest else rest
  }

  /** The companies that belong to none of the programmes. */
  function Alone(companies: seq<Group>, programmes: seq<Group>, programmeOf: map<Group, Group>): (alone: seq<Group>)
    ensures forall c :: c in alone <==> c in companies && !(c in programmeOf && programmeOf[c] in programmes)
  {
    if companies == [] then []
    else
      var rest := Alone(companies[1..], programmes, programmeOf);
      assert companies == [companies[0]] + companies[1..];
      if companies[0] in programmeOf && programmeOf[companies[0]] in programmes then rest else [companies[0]] + rest
  }

  /** A programme's answer: its company's rules before its own. */
  function ProgrammePick(rules: seq<Rule>, p: Group, inside: seq<Group>): (picks: seq<Pick>)
    ensures PicksIn(rules, picks)
  {
    var companyRules := NamingAny(rules, inside);
    if companyRules != [] then PickOf(rules, companyRules) else PickOf(rules, Naming(rules, p, 0))
  }

  function ProgrammePicks(rules: seq<Rule>, programmes: seq<Group>, companies: seq<Group>,
      programmeOf: map<Group, Group>): (picks: seq<Pick>)
    ensures PicksIn(rules, picks)
  {
    if programmes == [] then []
    else
      var mine := ProgrammePick(rules, programmes[0], Inside(companies, programmes[0], programmeOf));
      mine + ProgrammePicks(rules, programmes[1..], companies, programmeOf)
  }

  /** The answers of companies that stand for themselves. */
  function CompanyPicks(rules: seq<Rule>, companies: seq<Group>): (picks: seq<Pick>)
    ensures PicksIn(rules, picks)
  {
    if companies == [] then [] else PickOf(rules, Naming(rules, companies[0], 0)) + CompanyPicks(rules, companies[1..])
  }

  function InsertPick(p: Pick, sorted: seq<Pick>): (all: seq<Pick>)
    ensures forall q :: q in all <==> q == p || q in sorted
    ensures |all| == |sorted| + 1
  {
    if sorted == [] || p.at <= sorted[0].at then [p] + sorted
    else
      assert sorted == [sorted[0]] + sorted[1..];
      [sorted[0]] + InsertPick(p, sorted[1..])
  }

  /** Stable, by first place. */
  function SortPicks(picks: seq<Pick>): (sorted: seq<Pick>)
    ensures forall q :: q in sorted <==> q in picks
    ensures |sorted| == |picks|
  {
    if picks == [] then []
    else
      assert picks == [picks[0]] + picks[1..];
      InsertPick(picks[0], SortPicks(picks[1..]))
  }

  function Picks(rules: seq<Rule>, groups: seq<Group>, programmeOf: map<Group, Group>): (picks: seq<Pick>)
    ensures PicksIn(rules, picks)
  {
    var programmes, companies := Programmes(groups), Companies(groups);
    ProgrammePicks(rules, programmes, companies, programmeOf)
        + CompanyPicks(rules, Alone(companies, programmes, programmeOf))
  }

  function RulesOf(picks: seq<Pick>): (list: seq<nat>)
    ensures |list| == |picks| && forall a :: 0 <= a < |list| ==> list[a] == picks[a].rule
  {
    seq(|picks|, a requires 0 <= a < |picks| => picks[a].rule)
  }

  /** The rule the server applies to a member with these groups, in the order they come. */
  function Decides(rules: seq<Rule>, groups: seq<Group>, programmeOf: map<Group, Group>): Option<nat> {
    var first := FirstMatch(rules, set g | g in groups);
    if first == |rules| then None
    else
      var picks := SortPicks(Picks(rules, groups, programmeOf));
      if picks == [] then Some(first) else Some(Strictest(rules, RulesOf(picks)))
  }

  /** Rule `i` names partner group `g`, no rule naming `g` is stricter and none before it is as
      strict. */
  predicate Leads(rules: seq<Rule>, i: nat, g: Group)
    requires i < |rules|
  {
    && g in rules[i].groups && IsPartner(g)
    && forall j :: 0 <= j < |rules| && g in rules[j].groups ==>
        Rank(rules, j) < Rank(rules, i) || (j >= i && Rank(rules, j) == Rank(rules, i))
  }

  ghost predicate LeadsSomewhere(rules: seq<Rule>, i: nat) {
    i < |rules| && exists g :: g in rules[i].groups && Leads(rules, i, g)
  }

  /** The rule leads in one of these groups. */
  predicate LeadsFor(rules: seq<Rule>, i: nat, mine: seq<Group>) {
    i < |rules| && exists g :: g in mine && Leads(rules, i, g)
  }

  // ---- lemmas ----

  lemma FirstStrictestWins(rules: seq<Rule>, named: seq<nat>, a: nat, b: nat)
    requires IsFirstStrictest(rules, named, a) && b < |named| && Rising(named)
    requires Rank(rules, named[b]) <= Rank(rules, named[a])
    ensures Rank(rules, named[b]) < Rank(rules, named[a])
        || (named[b] >= named[a] && Rank(rules, named[b]) == Rank(rules, named[a]))
  {
  }

  /** The strictest rule naming one group leads in it. */
  lemma StrictestLeads(rules: seq<Rule>, g: Group, i: nat)
    requires IsPartner(g) && Naming(rules, g, 0) != [] && i == Strictest(rules, Naming(rules, g, 0))
    ensures Leads(rules, i, g)
  {
    var named := Naming(rules, g, 0);
    var a :| IsFirstStrictest(rules, named, a) && named[a] == i;
    forall j | 0 <= j < |rules| && g in rules[j].groups
      ensures Rank(rules, j) < Rank(rules, i) || (j >= i && Rank(rules, j) == Rank(rules, i))
    {
      assert j in named;
      var b :| 0 <= b < |named| && named[b] == j;
      FirstStrictestWins(rules, named, a, b);
    }
  }

  /** Where an element of the combined list came from: a group all of whose earlier rules are
      earlier in the list. */
  lemma {:induction false} NamingAnyFrom(rules: seq<Rule>, groups: seq<Group>, a: nat) returns (g: Group)
    requires a < |NamingAny(rules, groups)|
    ensures g in groups && NamingAny(rules, groups)[a] in Naming(rules, g, 0)
    ensures forall j :: j in Naming(rules, g, 0) && j < NamingAny(rules, groups)[a] ==>
        j in NamingAny(rules, groups)[..a]
    ensures forall j :: j in Naming(rules, g, 0) ==> j in NamingAny(rules, groups)
  {
    var n := |groups| - 1;
    var before, more := NamingAny(rules, groups[..n]), Naming(rules, groups[n], 0);
    assert groups == groups[..n] + [groups[n]];
    if a < |before| {
      g := NamingAnyFrom(rules, groups[..n], a);
      assert NamingAny(rules, groups)[..a] == before[..a];
    } else {
      g := groups[n];
      AppendOrder(before, more, a);
    }
  }

  predicate Rising(list: seq<nat>) {
    forall x, y :: 0 <= x < y < |list| ==> list[x] < list[y]
  }

  /** In a rising list, what is smaller than an element of the front is in the front. */
  lemma SmallerIsBefore(more: seq<nat>, j: nat, k: nat)
    requires more != [] && Rising(more) && j in more && k in more[..|more| - 1] && j < k
    ensures j in more[..|more| - 1]
  {
    var n := |more| - 1;
    var x :| 0 <= x < n && more[..n][x] == k;
    assert more[x] < more[n];
    var y :| 0 <= y < |more| && more[y] == j;
    assert more[..n][y] == j;
  }

  lemma {:induction false} AppendOrder(list: seq<nat>, more: seq<nat>, a: nat)
    requires |list| <= a < |Append(list, more)| && Rising(more)
    ensures Append(list, more)[a] in more
    ensures forall j :: j in more && j < Append(list, more)[a] ==> j in Append(list, more)[..a]
  {
    var n := |more| - 1;
    var before := Append(list, more[..n]);
    assert more == more[..n] + [more[n]];
    if a < |before| {
      AppendOrder(list, more[..n], a);
      assert Append(list, more)[..a] == before[..a];
      forall j | j in more && j < before[a] ensures j in before[..a] {
        SmallerIsBefore(more, j, before[a]);
      }
    } else {
      assert Append(list, more)[..a] == before;
      forall j | j in more && j < more[n] ensures j in before { }
    }
  }

  /** A company scope's answer leads in one of its companies. */
  lemma CompaniesLead(rules: seq<Rule>, inside: seq<Group>)
    requires NamingAny(rules, inside) != [] && forall c :: c in inside ==> IsCompany(c)
    ensures LeadsFor(rules, Strictest(rules, NamingAny(rules, inside)), inside)
  {
    var list := NamingAny(rules, inside);
    var i := Strictest(rules, list);
    var a :| IsFirstStrictest(rules, list, a) && list[a] == i;
    var g := NamingAnyFrom(rules, inside, a);
    forall j | 0 <= j < |rules| && g in rules[j].groups
      ensures Rank(rules, j) < Rank(rules, i) || (j >= i && Rank(rules, j) == Rank(rules, i))
    {
      assert j in Naming(rules, g, 0);
      if j < i { assert j in list[..a]; }
    }
    assert Leads(rules, i, g);
  }

  predicate AllLead(rules: seq<Rule>, picks: seq<Pick>, mine: seq<Group>) {
    forall a :: 0 <= a < |picks| ==> LeadsFor(rules, picks[a].rule, mine)
  }

  lemma LeadsForMore(rules: seq<Rule>, i: nat, some: seq<Group>, mine: seq<Group>)
    requires LeadsFor(rules, i, some) && forall g :: g in some ==> g in mine
    ensures LeadsFor(rules, i, mine)
  {
  }

  lemma GroupPicksLead(rules: seq<Rule>, g: Group, mine: seq<Group>)
    requires IsPartner(g) && g in mine
    ensures AllLead(rules, PickOf(rules, Naming(rules, g, 0)), mine)
  {
    if Naming(rules, g, 0) != [] { StrictestLeads(rules, g, Strictest(rules, Naming(rules, g, 0))); }
  }

  lemma {:induction false} ProgrammePicksLead(rules: seq<Rule>, programmes: seq<Group>, companies: seq<Group>,
      programmeOf: map<Group, Group>, mine: seq<Group>)
    requires forall p :: p in programmes ==> IsProgramme(p) && p in mine
    requires forall c :: c in companies ==> IsCompany(c) && c in mine
    ensures AllLead(rules, ProgrammePicks(rules, programmes, companies, programmeOf), mine)
  {
    if programmes != [] {
      var p := programmes[0];
      var inside := Inside(companies, p, programmeOf);
      if NamingAny(rules, inside) != [] {
        CompaniesLead(rules, inside);
        LeadsForMore(rules, Strictest(rules, NamingAny(rules, inside)), inside, mine);
      } else {
        GroupPicksLead(rules, p, mine);
      }
      ProgrammePicksLead(rules, programmes[1..], companies, programmeOf, mine);
    }
  }

  lemma {:induction false} CompanyPicksLead(rules: seq<Rule>, companies: seq<Group>, mine: seq<Group>)
    requires forall c :: c in companies ==> IsCompany(c) && c in mine
    ensures AllLead(rules, CompanyPicks(rules, companies), mine)
  {
    if companies != [] {
      GroupPicksLead(rules, companies[0], mine);
      CompanyPicksLead(rules, companies[1..], mine);
    }
  }

  /** Every answer of a scope leads in one of the member's partner groups. */
  lemma PicksLead(rules: seq<Rule>, groups: seq<Group>, programmeOf: map<Group, Group>)
    ensures AllLead(rules, SortPicks(Picks(rules, groups, programmeOf)), groups)
  {
    var programmes, companies := Programmes(groups), Companies(groups);
    ProgrammePicksLead(rules, programmes, companies, programmeOf, groups);
    CompanyPicksLead(rules, Alone(companies, programmes, programmeOf), groups);
    var picks := Picks(rules, groups, programmeOf);
    assert AllLead(rules, picks, groups);
    var sorted := SortPicks(picks);
    forall a | 0 <= a < |sorted| ensures LeadsFor(rules, sorted[a].rule, groups) {
      assert sorted[a] in picks;
    }
  }

  /** The server's rule is the first match, or leads in one of the member's own partner groups. */
  lemma {:induction false} DecidesByOrderOrLead(rules: seq<Rule>, groups: seq<Group>, programmeOf: map<Group, Group>)
    ensures match Decides(rules, groups, programmeOf)
      case None => FirstMatch(rules, set g | g in groups) == |rules|
      case Some(i) => i == FirstMatch(rules, set g | g in groups) || LeadsFor(rules, i, groups)
  {
    PicksLead(rules, groups, programmeOf);
    var sorted := SortPicks(Picks(rules, groups, programmeOf));
    if sorted != [] {
      var i := Strictest(rules, RulesOf(sorted));
      var a :| 0 <= a < |RulesOf(sorted)| && RulesOf(sorted)[a] == i;
    }
  }

  lemma LeadIsUnique(rules: seq<Rule>, i: nat, k: nat, g: Group)
    requires i < |rules| && k < |rules| && Leads(rules, i, g) && Leads(rules, k, g)
    ensures i == k
  {
  }

  /** The only scope of a member with one partner group. */
  lemma {:induction false} OneGroupPicks(rules: seq<Rule>, g: Group, programmeOf: map<Group, Group>)
    requires IsPartner(g)
    ensures Picks(rules, [g], programmeOf) == PickOf(rules, Naming(rules, g, 0))
  {
    assert [g][1..] == [];
    assert IsProgramme(g) ==> !IsCompany(g) by { assert PROGRAMME[0] != COMPANY[0]; }
    var mine := PickOf(rules, Naming(rules, g, 0));
    if IsProgramme(g) {
      assert Programmes([g]) == [g] && Companies([g]) == [];
      assert ProgrammePicks(rules, [g], [], programmeOf) == mine + [];
    } else {
      assert Programmes([g]) == [] && Companies([g]) == [g];
      assert Alone([g], [], programmeOf) == [g];
      assert CompanyPicks(rules, [g]) == mine + [];
    }
  }

  lemma SinglePick(p: Pick)
    ensures SortPicks([p]) == [p] && RulesOf([p]) == [p.rule]
  {
    assert [p][1..] == [];
  }

  lemma NamedAlone(rules: seq<Rule>, i: nat, g: Group)
    requires i < |rules| && g in rules[i].groups
    ensures FirstMatch(rules, set h | h in [g]) < |rules|
  {
    assert g in (set h | h in [g]);
    assert Matches(rules[i].groups, set h | h in [g]);
  }

  /** A member with one partner group gets the rule that leads in it. */
  lemma {:induction false} OneGroupDecides(rules: seq<Rule>, i: nat, g: Group, programmeOf: map<Group, Group>)
    requires i < |rules| && Leads(rules, i, g)
    ensures Decides(rules, [g], programmeOf) == Some(i)
  {
    var named := Naming(rules, g, 0);
    assert i in named;
    StrictestLeads(rules, g, Strictest(rules, named));
    LeadIsUnique(rules, i, Strictest(rules, named), g);
    NamedAlone(rules, i, g);
    OneGroupPicks(rules, g, programmeOf);
    var pick := Pick(i, Least(named));
    SinglePick(pick);
    assert RulesOf([pick]) == [i] && Strictest(rules, [i]) == i;
  }

  /** The form's warnings and the server: whatever companies an instance knows, a flagged rule still
      decides for someone there exactly when it leads in a partner group. */
  lemma {:induction false} FlaggedOnServer(rules: seq<Rule>, index: nat, programmeOf: map<Group, Group>)
    requires index < |rules| && rules[index].groups != [] && Flagged(rules, index)
    ensures (exists groups :: Decides(rules, groups, programmeOf) == Some(index)) <==> LeadsSomewhere(rules, index)
  {
    FlaggedMeansDead(rules, index);
    forall groups | Decides(rules, groups, programmeOf) == Some(index) ensures LeadsSomewhere(rules, index) {
      DecidesByOrderOrLead(rules, groups, programmeOf);
    }
    if LeadsSomewhere(rules, index) {
      var g :| g in rules[index].groups && Leads(rules, index, g);
      OneGroupDecides(rules, index, g, programmeOf);
    }
  }

  lemma NotBoth(g: Group)
    ensures !(IsProgramme(g) && IsCompany(g))
  {
    assert PROGRAMME[0] != COMPANY[0];
  }

  /** The kinds of a list, one group at a time. */
  lemma KindsStep(g: Group, rest: seq<Group>)
    ensures Programmes([g] + rest) == (if IsProgramme(g) then [g] else []) + Programmes(rest)
    ensures Companies([g] + rest) == (if IsCompany(g) then [g] else []) + Companies(rest)
  {
    assert ([g] + rest)[1..] == rest;
  }

  lemma InsideStep(c: Group, rest: seq<Group>, p: Group, programmeOf: map<Group, Group>)
    requires BelongsTo(c, p, programmeOf)
    ensures Inside([c] + rest, p, programmeOf) == [c] + Inside(rest, p, programmeOf)
    ensures Alone([c] + rest, [p], programmeOf) == Alone(rest, [p], programmeOf)
  {
    assert ([c] + rest)[1..] == rest;
  }

  /** The kinds among a programme and two of its companies. */
  lemma KindsOfThree(p: Group, x: Group, y: Group, programmeOf: map<Group, Group>)
    requires IsProgramme(p) && IsCompany(x) && IsCompany(y) && BelongsTo(x, p, programmeOf)
        && BelongsTo(y, p, programmeOf)
    ensures Programmes([p, x, y]) == [p] && Companies([p, x, y]) == [x, y]
    ensures Inside([x, y], p, programmeOf) == [x, y] && Alone([x, y], [p], programmeOf) == []
  {
    NotBoth(p);
    NotBoth(x);
    NotBoth(y);
    assert [p, x, y] == [p] + ([x] + ([y] + [])) && [x, y] == [x] + ([y] + []);
    KindsStep(p, [x] + ([y] + []));
    KindsStep(x, [y] + []);
    KindsStep(y, []);
    InsideStep(x, [y] + [], p, programmeOf);
    InsideStep(y, [], p, programmeOf);
  }

  lemma AppendOne(list: seq<nat>, i: nat)
    requires i !in list
    ensures Append(list, [i]) == list + [i]
  {
    assert [i][..0] == [];
    assert Append(list, []) == list;
  }

  lemma NamingAnyStep(rules: seq<Rule>, groups: seq<Group>, g: Group)
    ensures NamingAny(rules, groups + [g]) == Append(NamingAny(rules, groups), Naming(rules, g, 0))
  {
    assert (groups + [g])[..|groups|] == groups;
  }

  lemma NamingFirst(rules: seq<Rule>, x: Group, i: nat)
    requires Naming(rules, x, 0) == [i]
    ensures NamingAny(rules, [x]) == [i]
  {
    NamingAnyStep(rules, [], x);
    AppendOne([], i);
    assert [] + [x] == [x];
  }

  lemma NamingTwo(rules: seq<Rule>, x: Group, y: Group, i: nat, j: nat)
    requires Naming(rules, x, 0) == [i] && Naming(rules, y, 0) == [j] && i != j
    ensures NamingAny(rules, [x] + [y]) == [i] + [j]
  {
    NamingFirst(rules, x, i);
    NamingAnyStep(rules, [x], y);
    AppendOne([i], j);
  }

  /** A group that one rule names. */
  lemma {:induction false} NamingOne(rules: seq<Rule>, g: Group, i: nat, from: nat)
    requires i < |rules| && forall j :: 0 <= j < |rules| ==> (g in rules[j].groups <==> j == i)
    ensures Naming(rules, g, from) == if from <= i then [i] else []
    decreases |rules| - from
  {
    if from < |rules| { NamingOne(rules, g, i, from + 1); }
  }

  /** Two companies of one programme, each named by one rule, in the order x, y. */
  lemma {:induction false} CompaniesInOrder(rules: seq<Rule>, p: Group, x: Group, y: Group, i: nat, j: nat,
      programmeOf: map<Group, Group>)
    requires IsProgramme(p) && IsCompany(x) && IsCompany(y) && i != j && Rank(rules, i) == Rank(rules, j)
    requires Naming(rules, x, 0) == [i] && Naming(rules, y, 0) == [j]
    requires BelongsTo(x, p, programmeOf) && BelongsTo(y, p, programmeOf)
    ensures Decides(rules, [p, x, y], programmeOf) == Some(i)
  {
    KindsOfThree(p, x, y, programmeOf);
    NamingTwo(rules, x, y, i, j);
    PickOfTwo(rules, i, j);
    var pick := Pick(i, Least([i, j]));
    assert [x] + [y] == [x, y] && [i] + [j] == [i, j] && [p][1..] == [];
    assert ProgrammePicks(rules, [p], [x, y], programmeOf) == [pick];
    assert Picks(rules, [p, x, y], programmeOf) == [pick];
    NamedAmong(rules, x, i, [p, x, y]);
    OnePickDecides(rules, [p, x, y], programmeOf, pick);
  }

  lemma {:induction false} OnePickDecides(rules: seq<Rule>, groups: seq<Group>, programmeOf: map<Group, Group>,
      pick: Pick)
    requires Picks(rules, groups, programmeOf) == [pick] && pick.rule < |rules|
    requires FirstMatch(rules, set g | g in groups) < |rules|
    ensures Decides(rules, groups, programmeOf) == Some(pick.rule)
  {
    SinglePick(pick);
    assert RulesOf([pick]) == [pick.rule] && Strictest(rules, [pick.rule]) == pick.rule;
  }

  lemma NamedAmong(rules: seq<Rule>, g: Group, i: nat, groups: seq<Group>)
    requires i in Naming(rules, g, 0) && g in groups
    ensures FirstMatch(rules, set h | h in groups) < |rules|
  {
    assert Matches(rules[i].groups, set h | h in groups);
  }

  lemma PickOfTwo(rules: seq<Rule>, i: nat, j: nat)
    requires i < |rules| && j < |rules| && Rank(rules, i) == Rank(rules, j)
    ensures PickOf(rules, [i, j]) == [Pick(i, Least([i, j]))]
  {
    assert [i, j][..1] == [i] && Strictest(rules, [i]) == i;
    assert Strictest(rules, [i, j]) == i;
  }

  /** An order that matters: equally strict rules of two companies of one programme. */
  lemma GroupOrderDecides(rules: seq<Rule>, p: Group, c: Group, d: Group, programmeOf: map<Group, Group>)
    requires IsProgramme(p) && IsCompany(c) && IsCompany(d) && c != d
    requires BelongsTo(c, p, programmeOf) && BelongsTo(d, p, programmeOf)
    requires rules == [Rule([d], Locked, []), Rule([c], Locked, [])]
    ensures Decides(rules, [p, c, d], programmeOf) == Some(1)
    ensures Decides(rules, [p, d, c], programmeOf) == Some(0)
  {
    NamingOne(rules, c, 1, 0);
    NamingOne(rules, d, 0, 0);
    CompaniesInOrder(rules, p, c, d, 1, 0, programmeOf);
    CompaniesInOrder(rules, p, d, c, 0, 1, programmeOf);
  }
}
