/** Whose word decides among a partner's rules: the scopes of a member, the first rule of each, and
    the group that speaks for the one that wins. */
module PartnerScopes {
  import opened Wrappers
  import opened JsText
  import opened JsonStrings
  import opened PolicyRules
  import opened PartnerPolicy

  // ---- the first rule of a rank ----

  function FirstAt(rules: seq<Rule>, list: seq<nat>, rank: nat): (r: Option<nat>)
    ensures r.Some? ==> r.value in list && Rank(rules, r.value) == rank
    ensures r.None? ==> forall i :: i in list ==> Rank(rules, i) != rank
  {
    if list == [] then None
    else
      assert list == [list[0]] + list[1..];
      if Rank(rules, list[0]) == rank then Some(list[0]) else FirstAt(rules, list[1..], rank)
  }

  lemma {:induction false} FirstAtAdds(rules: seq<Rule>, a: seq<nat>, b: seq<nat>, rank: nat)
    ensures FirstAt(rules, a + b, rank) == if FirstAt(rules, a, rank).Some? then FirstAt(rules, a, rank)
        else FirstAt(rules, b, rank)
  {
    if a == [] {
      assert a + b == b;
    } else {
      FirstAtAdds(rules, a[1..], b, rank);
      assert (a + b)[1..] == a[1..] + b && (a + b)[0] == a[0];
    }
  }

  lemma {:induction false} FirstAtAppend(rules: seq<Rule>, list: seq<nat>, more: seq<nat>, rank: nat)
    ensures FirstAt(rules, Append(list, more), rank) ==
      if FirstAt(rules, list, rank).Some? then FirstAt(rules, list, rank) else FirstAt(rules, more, rank)
  {
    if more != [] {
      var n := |more| - 1;
      FirstAtAppend(rules, list, more[..n], rank);
      assert more == more[..n] + [more[n]];
      FirstAtAdds(rules, more[..n], [more[n]], rank);
      FirstAtAdds(rules, Append(list, more[..n]), [more[n]], rank);
    }
  }

  lemma {:induction false} FirstAtIs(rules: seq<Rule>, list: seq<nat>, a: nat)
    requires IsFirstStrictest(rules, list, a)
    ensures FirstAt(rules, list, Rank(rules, list[a])) == Some(list[a])
    decreases a
  {
    if a > 0 {
      assert IsFirstStrictest(rules, list[1..], a - 1);
      FirstAtIs(rules, list[1..], a - 1);
    }
  }

  /** The strictest of a list is its first rule of the top rank. */
  lemma StrictestIsFirst(rules: seq<Rule>, list: seq<nat>)
    requires list != [] && InRules(rules, list)
    ensures FirstAt(rules, list, Rank(rules, Strictest(rules, list))) == Some(Strictest(rules, list))
  {
    var a: nat :| IsFirstStrictest(rules, list, a) && list[a] == Strictest(rules, list);
    FirstAtIs(rules, list, a);
  }

  /** The first rule of a rank that names a group. */
  function Answer(rules: seq<Rule>, g: Group, rank: nat): Option<nat> {
    FirstAt(rules, Naming(rules, g, 0), rank)
  }

  lemma {:induction false} FirstAtRises(rules: seq<Rule>, list: seq<nat>, rank: nat)
    requires Rising(list) && FirstAt(rules, list, rank).Some?
    ensures forall j :: j in list && Rank(rules, j) == rank ==> FirstAt(rules, list, rank).value <= j
  {
    if Rank(rules, list[0]) == rank {
      forall j | j in list ensures list[0] <= j { var x :| 0 <= x < |list| && list[x] == j; }
    } else {
      FirstAtRises(rules, list[1..], rank);
      assert list == [list[0]] + list[1..];
    }
  }

  /** The answer is the least rule of the rank that names the group. */
  lemma AnswerIsLeast(rules: seq<Rule>, g: Group, rank: nat)
    ensures Answer(rules, g, rank).Some? <==>
        exists j :: 0 <= j < |rules| && g in rules[j].groups && Rank(rules, j) == rank
    ensures Answer(rules, g, rank).Some? ==>
      var i := Answer(rules, g, rank).value;
      && i < |rules| && g in rules[i].groups && Rank(rules, i) == rank
      && forall j :: 0 <= j < |rules| && g in rules[j].groups && Rank(rules, j) == rank ==> i <= j
  {
    var named := Naming(rules, g, 0);
    if Answer(rules, g, rank).Some? {
      FirstAtRises(rules, named, rank);
      forall j | 0 <= j < |rules| && g in rules[j].groups && Rank(rules, j) == rank
          ensures Answer(rules, g, rank).value <= j {
        assert j in named;
      }
    } else {
      forall j | 0 <= j < |rules| && g in rules[j].groups ensures Rank(rules, j) != rank { assert j in named; }
    }
  }

  // ---- several groups ----

  /** The first of some groups that a rule of the rank names. */
  function FirstVoice(rules: seq<Rule>, voices: seq<Group>, rank: nat): (g: Option<Group>)
    ensures g.Some? ==> g.value in voices && Answer(rules, g.value, rank).Some?
  {
    if voices == [] then None
    else if FirstVoice(rules, voices[..|voices| - 1], rank).Some? then FirstVoice(rules, voices[..|voices| - 1], rank)
    else if Answer(rules, voices[|voices| - 1], rank).Some? then Some(voices[|voices| - 1])
    else None
  }

  function AnswerOf(rules: seq<Rule>, voices: seq<Group>, rank: nat): Option<nat> {
    match FirstVoice(rules, voices, rank) case None => None case Some(g) => Answer(rules, g, rank)
  }

  /** The combined list of several groups starts, at any rank, with the answer of the first group
      that has one. */
  lemma {:induction false} VoicesAnswer(rules: seq<Rule>, voices: seq<Group>, rank: nat)
    ensures FirstAt(rules, NamingAny(rules, voices), rank) == AnswerOf(rules, voices, rank)
  {
    if voices != [] {
      var n := |voices| - 1;
      VoicesAnswer(rules, voices[..n], rank);
      FirstAtAppend(rules, NamingAny(rules, voices[..n]), Naming(rules, voices[n], 0), rank);
    }
  }

  lemma {:induction false} VoiceInFront(rules: seq<Rule>, voices: seq<Group>, rank: nat)
    requires voices != [] && Answer(rules, voices[0], rank).Some?
    ensures FirstVoice(rules, voices, rank) == Some(voices[0])
  {
    if |voices| > 1 { VoiceInFront(rules, voices[..|voices| - 1], rank); }
  }

  lemma {:induction false} NamingAnyHolds(rules: seq<Rule>, voices: seq<Group>, i: nat)
    ensures i in NamingAny(rules, voices) <==> i < |rules| && exists g :: g in voices && g in rules[i].groups
  {
    if voices != [] {
      var n := |voices| - 1;
      NamingAnyHolds(rules, voices[..n], i);
      assert voices == voices[..n] + [voices[n]];
      if i < |rules| && exists g :: g in voices && g in rules[i].groups {
        var g :| g in voices && g in rules[i].groups;
        assert g in voices[..n] || g == voices[n];
      }
    }
  }

  lemma {:induction false} AppendToNone(more: seq<nat>)
    requires Rising(more)
    ensures Append([], more) == more
  {
    if more != [] {
      AppendToNone(more[..|more| - 1]);
      assert more == more[..|more| - 1] + [more[|more| - 1]];
    }
  }

  lemma NamingAnyOne(rules: seq<Rule>, g: Group)
    ensures NamingAny(rules, [g]) == Naming(rules, g, 0)
  {
    NamingAnyStep(rules, [], g);
    assert [] + [g] == [g];
    AppendToNone(Naming(rules, g, 0));
  }

  lemma {:induction false} LeastMeans(list: seq<nat>)
    requires list != []
    ensures Least(list) in list && forall j :: j in list ==> Least(list) <= j
  {
    assert list == [list[0]] + list[1..];
    if |list| > 1 { LeastMeans(list[1..]); }
  }

  // ---- the scopes of a member ----

  /** A programme with the groups that speak for it, or a company that stands for itself. */
  datatype Scope = Scope(key: Group, voices: seq<Group>)

  /** A programme's companies speak for it if a rule names one of them. */
  function ProgrammeVoices(rules: seq<Rule>, p: Group, companies: seq<Group>,
      programmeOf: map<Group, Group>): seq<Group> {
    var inside := Inside(companies, p, programmeOf);
    if NamingAny(rules, inside) != [] then inside else [p]
  }

  function ProgrammeScope(rules: seq<Rule>, p: Group, companies: seq<Group>, programmeOf: map<Group, Group>): Scope {
    Scope(p, ProgrammeVoices(rules, p, companies, programmeOf))
  }

  function ProgrammeScopes(rules: seq<Rule>, programmes: seq<Group>, companies: seq<Group>,
      programmeOf: map<Group, Group>): seq<Scope> {
    seq(|programmes|, k requires 0 <= k < |programmes| => ProgrammeScope(rules, programmes[k], companies, programmeOf))
  }

  function CompanyScopes(companies: seq<Group>): seq<Scope> {
    seq(|companies|, k requires 0 <= k < |companies| => Scope(companies[k], [companies[k]]))
  }

  function AloneOf(groups: seq<Group>, programmeOf: map<Group, Group>): seq<Group> {
    Alone(Companies(groups), Programmes(groups), programmeOf)
  }

  function Scopes(rules: seq<Rule>, groups: seq<Group>, programmeOf: map<Group, Group>): seq<Scope> {
    ProgrammeScopes(rules, Programmes(groups), Companies(groups), programmeOf)
        + CompanyScopes(AloneOf(groups, programmeOf))
  }

  function Listed(rules: seq<Rule>, s: Scope): (list: seq<nat>)
    ensures InRules(rules, list)
  {
    NamingAny(rules, s.voices)
  }

  function PickIn(rules: seq<Rule>, s: Scope): seq<Pick> {
    PickOf(rules, Listed(rules, s))
  }

  type Picker = Scope -> seq<Pick>

  function Flat(pick: Picker, scopes: seq<Scope>): seq<Pick> {
    if scopes == [] then [] else pick(scopes[0]) + Flat(pick, scopes[1..])
  }

  lemma PicksAssoc(a: seq<Pick>, b: seq<Pick>, c: seq<Pick>)
    ensures a + (b + c) == (a + b) + c
  {
  }

  lemma {:induction false} FlatAdds(pick: Picker, a: seq<Scope>, b: seq<Scope>)
    ensures Flat(pick, a + b) == Flat(pick, a) + Flat(pick, b)
  {
    if a == [] {
      assert a + b == b;
    } else {
      FlatAdds(pick, a[1..], b);
      assert (a + b)[1..] == a[1..] + b && (a + b)[0] == a[0];
      PicksAssoc(pick(a[0]), Flat(pick, a[1..]), Flat(pick, b));
    }
  }

  function PickerOf(rules: seq<Rule>): Picker {
    s => PickIn(rules, s)
  }

  function PicksOf(rules: seq<Rule>, scopes: seq<Scope>): seq<Pick> {
    Flat(PickerOf(rules), scopes)
  }

  lemma PicksStep(rules: seq<Rule>, s: Scope, rest: seq<Scope>)
    ensures PicksOf(rules, [s] + rest) == PickIn(rules, s) + PicksOf(rules, rest)
  {
    assert ([s] + rest)[1..] == rest;
  }

  lemma {:induction false} ProgrammePicksAre(rules: seq<Rule>, programmes: seq<Group>, companies: seq<Group>,
      programmeOf: map<Group, Group>)
    ensures PicksOf(rules, ProgrammeScopes(rules, programmes, companies, programmeOf)) ==
        ProgrammePicks(rules, programmes, companies, programmeOf)
  {
    if programmes != [] {
      ProgrammeScopesStep(rules, programmes, companies, programmeOf);
      PicksStep(rules, ProgrammeScope(rules, programmes[0], companies, programmeOf),
        ProgrammeScopes(rules, programmes[1..], companies, programmeOf));
      ProgrammePickIs(rules, programmes[0], companies, programmeOf);
      ProgrammePicksAre(rules, programmes[1..], companies, programmeOf);
    }
  }

  lemma ProgrammeScopesStep(rules: seq<Rule>, programmes: seq<Group>, companies: seq<Group>,
      programmeOf: map<Group, Group>)
    requires programmes != []
    ensures ProgrammeScopes(rules, programmes, companies, programmeOf) ==
      [ProgrammeScope(rules, programmes[0], companies, programmeOf)]
        + ProgrammeScopes(rules, programmes[1..], companies, programmeOf)
  {
  }

  lemma ProgrammePickIs(rules: seq<Rule>, p: Group, companies: seq<Group>, programmeOf: map<Group, Group>)
    ensures PickIn(rules, ProgrammeScope(rules, p, companies, programmeOf)) ==
      ProgrammePick(rules, p, Inside(companies, p, programmeOf))
  {
    NamingAnyOne(rules, p);
  }

  lemma {:induction false} CompanyPicksAre(rules: seq<Rule>, companies: seq<Group>)
    ensures PicksOf(rules, CompanyScopes(companies)) == CompanyPicks(rules, companies)
  {
    if companies != [] {
      var s, rest := Scope(companies[0], [companies[0]]), CompanyScopes(companies[1..]);
      assert CompanyScopes(companies) == [s] + rest;
      PicksStep(rules, s, rest);
      NamingAnyOne(rules, companies[0]);
      CompanyPicksAre(rules, companies[1..]);
    }
  }

  lemma PicksAreOfScopes(rules: seq<Rule>, groups: seq<Group>, programmeOf: map<Group, Group>)
    ensures Picks(rules, groups, programmeOf) == PicksOf(rules, Scopes(rules, groups, programmeOf))
  {
    ProgrammePicksAre(rules, Programmes(groups), Companies(groups), programmeOf);
    CompanyPicksAre(rules, AloneOf(groups, programmeOf));
    FlatAdds(PickerOf(rules), ProgrammeScopes(rules, Programmes(groups), Companies(groups), programmeOf),
        CompanyScopes(AloneOf(groups, programmeOf)));
  }

  // ---- the scope that wins ----

  /** The pick of a rank with the earliest place, the first of those. */
  function Best(rules: seq<Rule>, picks: seq<Pick>, rank: nat): (best: Option<Pick>)
    ensures best.Some? ==> best.value in picks && Rank(rules, best.value.rule) == rank
  {
    if picks == [] then None
    else
      assert picks == [picks[0]] + picks[1..];
      Better(rules, picks[0], Best(rules, picks[1..], rank), rank)
  }

  function Better(rules: seq<Rule>, p: Pick, rest: Option<Pick>, rank: nat): Option<Pick> {
    if Rank(rules, p.rule) == rank && (rest.None? || p.at <= rest.value.at) then Some(p) else rest
  }

  predicate ByPlace(picks: seq<Pick>) {
    forall a, b :: 0 <= a < b < |picks| ==> picks[a].at <= picks[b].at
  }

  function FirstPick(rules: seq<Rule>, picks: seq<Pick>, rank: nat): (p: Option<Pick>)
    ensures p.Some? ==> p.value in picks
  {
    if picks == [] then None
    else
      assert picks == [picks[0]] + picks[1..];
      if Rank(rules, picks[0].rule) == rank then Some(picks[0]) else FirstPick(rules, picks[1..], rank)
  }

  lemma {:induction false} InsertByPlace(p: Pick, sorted: seq<Pick>)
    requires ByPlace(sorted)
    ensures ByPlace(InsertPick(p, sorted))
  {
    if sorted != [] && p.at > sorted[0].at {
      var head, rest := sorted[0], sorted[1..];
      assert sorted == [head] + rest;
      InsertByPlace(p, rest);
      var all := InsertPick(p, rest);
      forall b | 0 <= b < |all| ensures head.at <= all[b].at {
        assert all[b] in all;
        if all[b] != p { assert all[b] in rest; }
      }
    }
  }

  lemma {:induction false} InsertFinds(rules: seq<Rule>, p: Pick, sorted: seq<Pick>, rank: nat)
    requires ByPlace(sorted)
    ensures FirstPick(rules, InsertPick(p, sorted), rank) == Better(rules, p, FirstPick(rules, sorted, rank), rank)
  {
    if sorted == [] {
      assert [p][1..] == [];
    } else if p.at <= sorted[0].at {
      assert ([p] + sorted)[1..] == sorted;
      PlacesRise(rules, sorted, rank);
    } else {
      InsertFinds(rules, p, sorted[1..], rank);
      assert ([sorted[0]] + InsertPick(p, sorted[1..]))[1..] == InsertPick(p, sorted[1..]);
    }
  }

  lemma PlacesRise(rules: seq<Rule>, sorted: seq<Pick>, rank: nat)
    requires ByPlace(sorted) && sorted != []
    ensures FirstPick(rules, sorted, rank).Some? ==> sorted[0].at <= FirstPick(rules, sorted, rank).value.at
  {
  }

  lemma {:induction false} SortFindsBest(rules: seq<Rule>, picks: seq<Pick>, rank: nat)
    ensures ByPlace(SortPicks(picks)) && FirstPick(rules, SortPicks(picks), rank) == Best(rules, picks, rank)
  {
    if picks != [] {
      SortFindsBest(rules, picks[1..], rank);
      InsertByPlace(picks[0], SortPicks(picks[1..]));
      InsertFinds(rules, picks[0], SortPicks(picks[1..]), rank);
    }
  }

  lemma {:induction false} FirstPickIs(rules: seq<Rule>, picks: seq<Pick>, rank: nat)
    ensures FirstAt(rules, RulesOf(picks), rank) ==
      match FirstPick(rules, picks, rank) case None => None case Some(p) => Some(p.rule)
  {
    if picks != [] {
      FirstPickIs(rules, picks[1..], rank);
      assert RulesOf(picks)[1..] == RulesOf(picks[1..]);
    }
  }

  /** Scope `w` has a rule of the rank, and none that has comes before it by its first rule or, with
      the same first rule, in the list. */
  predicate Wins(rules: seq<Rule>, scopes: seq<Scope>, w: nat, rank: nat) {
    && w < |scopes| && HasTop(rules, scopes[w], rank)
    && forall j :: 0 <= j < |scopes| && HasTop(rules, scopes[j], rank) ==>
        Least(Listed(rules, scopes[w])) < Least(Listed(rules, scopes[j]))
        || (Least(Listed(rules, scopes[w])) == Least(Listed(rules, scopes[j])) && w <= j)
  }

  predicate HasTop(rules: seq<Rule>, s: Scope, rank: nat) {
    Listed(rules, s) != [] && Rank(rules, Strictest(rules, Listed(rules, s))) == rank
  }

  function Top(rules: seq<Rule>, s: Scope): Pick
    requires Listed(rules, s) != []
  {
    Pick(Strictest(rules, Listed(rules, s)), Least(Listed(rules, s)))
  }

  /** `w` is where the best pick comes from, if there is one. */
  ghost predicate BestIs(rules: seq<Rule>, scopes: seq<Scope>, rank: nat, w: nat) {
    match Best(rules, PicksOf(rules, scopes), rank)
    case None => forall j :: 0 <= j < |scopes| ==> !HasTop(rules, scopes[j], rank)
    case Some(best) => Wins(rules, scopes, w, rank) && best == Top(rules, scopes[w])
  }

  /** A scope without a rule of the rank, or with a later first rule, in front of a winner. */
  lemma WinsStill(rules: seq<Rule>, s: Scope, rest: seq<Scope>, w: nat, rank: nat)
    requires Wins(rules, rest, w, rank)
    requires HasTop(rules, s, rank) ==> Least(Listed(rules, s)) > Least(Listed(rules, rest[w]))
    ensures Wins(rules, [s] + rest, w + 1, rank)
  {
    forall j | 0 <= j < |[s] + rest| && HasTop(rules, ([s] + rest)[j], rank)
      ensures Least(Listed(rules, rest[w])) < Least(Listed(rules, ([s] + rest)[j]))
        || (Least(Listed(rules, rest[w])) == Least(Listed(rules, ([s] + rest)[j])) && w + 1 <= j)
    {
      if j > 0 { assert ([s] + rest)[j] == rest[j - 1]; }
    }
  }

  lemma WinsAtOnce(rules: seq<Rule>, s: Scope, rest: seq<Scope>, w: nat, rank: nat)
    requires HasTop(rules, s, rank)
    requires (exists j :: 0 <= j < |rest| && HasTop(rules, rest[j], rank)) ==>
      Wins(rules, rest, w, rank) && Least(Listed(rules, s)) <= Least(Listed(rules, rest[w]))
    ensures Wins(rules, [s] + rest, 0, rank)
  {
    var all := [s] + rest;
    assert all[0] == s;
    forall j | 0 < j < |all| && HasTop(rules, all[j], rank)
        ensures Least(Listed(rules, s)) <= Least(Listed(rules, all[j])) {
      assert all[j] == rest[j - 1];
      assert Least(Listed(rules, rest[w])) <= Least(Listed(rules, rest[j - 1]));
    }
  }

  lemma BestStep(rules: seq<Rule>, s: Scope, rest: seq<Scope>, rank: nat)
    ensures Listed(rules, s) == [] ==>
        Best(rules, PicksOf(rules, [s] + rest), rank) == Best(rules, PicksOf(rules, rest), rank)
    ensures Listed(rules, s) != [] ==>
      Best(rules, PicksOf(rules, [s] + rest), rank) ==
          Better(rules, Top(rules, s), Best(rules, PicksOf(rules, rest), rank), rank)
  {
    PicksStep(rules, s, rest);
    var others := PicksOf(rules, rest);
    if Listed(rules, s) == [] {
      assert [] + others == others;
    } else {
      assert ([Top(rules, s)] + others)[1..] == others;
    }
  }

  lemma {:induction false} BestWins(rules: seq<Rule>, scopes: seq<Scope>, rank: nat) returns (w: nat)
    ensures BestIs(rules, scopes, rank, w)
  {
    w := 0;
    if scopes != [] {
      var s, rest := scopes[0], scopes[1..];
      assert scopes == [s] + rest;
      var later := BestWins(rules, rest, rank);
      BestStep(rules, s, rest, rank);
      var best := Best(rules, PicksOf(rules, rest), rank);
      if HasTop(rules, s, rank) && (best.None? || Least(Listed(rules, s)) <= best.value.at) {
        WinsAtOnce(rules, s, rest, later, rank);
      } else if best.Some? {
        WinsStill(rules, s, rest, later, rank);
        w := later + 1;
      }
    }
  }
}
