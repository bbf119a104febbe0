/** The access a partner finally gets: the rule that decides, with the choices that are left after
    both comparisons. */
module PartnerAccess {
  import opened Wrappers
  import opened JsonStrings
  import opened PolicyRules
  import opened PartnerPolicy
  import opened PartnerScopes
  import opened PartnerOrder
  import S = StrictestRule

  /** What each rule lets choose; absent for rules that are no choice. */
  type Choices = nat -> seq<string>

  function EntryAt(rules: seq<Rule>, allow: Choices, i: nat): S.Entry
    requires i < |rules|
  {
    S.Entry(rules[i].level, allow(i))
  }

  function EntriesOf(rules: seq<Rule>, allow: Choices, list: seq<nat>): (es: seq<S.Entry>)
    requires InRules(rules, list)
    ensures |es| == |list|
  {
    seq(|list|, a requires 0 <= a < |list| => EntryAt(rules, allow, list[a]))
  }

  /** The entries of a rank start with that of the first rule of the rank. */
  lemma {:induction false} LevelStarts(rules: seq<Rule>, allow: Choices, list: seq<nat>, rank: nat)
    requires InRules(rules, list)
    ensures var at := S.AtLevel(EntriesOf(rules, allow, list), rank);
      && (at == [] <==> FirstAt(rules, list, rank).None?)
      && (at != [] ==>
          FirstAt(rules, list, rank).value < |rules| && at[0] ==
          EntryAt(rules, allow, FirstAt(rules, list, rank).value))
  {
    if list != [] {
      assert EntriesOf(rules, allow, list)[1..] == EntriesOf(rules, allow, list[1..]);
      LevelStarts(rules, allow, list[1..], rank);
    }
  }

  /** The two readings of "strictest" agree: the entry that is narrowed is that of the rule picked. */
  lemma StrictestAgrees(rules: seq<Rule>, allow: Choices, list: seq<nat>)
    requires InRules(rules, list) && list != []
    ensures var es, i := EntriesOf(rules, allow, list), Strictest(rules, list);
      && S.Top(es) == Rank(rules, i) && S.AtLevel(es, S.Top(es)) != []
      && S.AtLevel(es, S.Top(es))[0] == EntryAt(rules, allow, i)
      && S.Strictest(es).level == rules[i].level
  {
    var es, i := EntriesOf(rules, allow, list), Strictest(rules, list);
    S.StrictestBounds(es);
    StrictestIsFirst(rules, list);
    LevelStarts(rules, allow, list, Rank(rules, i));
    LevelStarts(rules, allow, list, S.Top(es));
    var a :| 0 <= a < |list| && list[a] == i;
    assert es[a] in es;
    assert S.AtLevel(es, S.Top(es))[0] in S.AtLevel(es, S.Top(es));
  }

  // ---- the scopes in the order of their first rules ----

  predicate ListsIn(rules: seq<Rule>, lists: seq<seq<nat>>) {
    forall j :: 0 <= j < |lists| ==> lists[j] != [] && InRules(rules, lists[j])
  }

  function InsertList(l: seq<nat>, sorted: seq<seq<nat>>): seq<seq<nat>>
    requires l != [] && forall j :: 0 <= j < |sorted| ==> sorted[j] != []
  {
    if sorted == [] || Least(l) <= Least(sorted[0]) then [l] + sorted else [sorted[0]] + InsertList(l, sorted[1..])
  }

  /** picks.sort((a, b) => a.at - b.at), with the rules each pick was made from. */
  function SortedLists(rules: seq<Rule>, scopes: seq<Scope>): (lists: seq<seq<nat>>)
    ensures ListsIn(rules, lists)
  {
    if scopes == [] then []
    else
      var rest := SortedLists(rules, scopes[1..]);
      if Listed(rules, scopes[0]) == [] then rest
      else
        InsertStaysIn(rules, Listed(rules, scopes[0]), rest);
        InsertList(Listed(rules, scopes[0]), rest)
  }

  lemma {:induction false} InsertStaysIn(rules: seq<Rule>, l: seq<nat>, sorted: seq<seq<nat>>)
    requires ListsIn(rules, sorted) && l != [] && InRules(rules, l)
    ensures ListsIn(rules, InsertList(l, sorted))
    ensures forall x :: x in InsertList(l, sorted) <==> x == l || x in sorted
  {
    if sorted != [] && Least(l) > Least(sorted[0]) {
      InsertStaysIn(rules, l, sorted[1..]);
      assert sorted == [sorted[0]] + sorted[1..];
    }
  }

  function PickFrom(rules: seq<Rule>, l: seq<nat>): Pick
    requires l != [] && InRules(rules, l)
  {
    Pick(Strictest(rules, l), Least(l))
  }

  function PicksFrom(rules: seq<Rule>, lists: seq<seq<nat>>): (picks: seq<Pick>)
    requires ListsIn(rules, lists)
    ensures |picks| == |lists|
  {
    seq(|lists|, j requires 0 <= j < |lists| => PickFrom(rules, lists[j]))
  }

  lemma PicksFromStep(rules: seq<Rule>, l: seq<nat>, rest: seq<seq<nat>>)
    requires ListsIn(rules, rest) && l != [] && InRules(rules, l)
    ensures ListsIn(rules, [l] + rest) && PicksFrom(rules, [l] + rest) == [PickFrom(rules, l)] + PicksFrom(rules, rest)
  {
  }

  lemma {:induction false} InsertAlike(rules: seq<Rule>, l: seq<nat>, sorted: seq<seq<nat>>)
    requires ListsIn(rules, sorted) && l != [] && InRules(rules, l)
    ensures ListsIn(rules, InsertList(l, sorted))
    ensures PicksFrom(rules, InsertList(l, sorted)) == InsertPick(PickFrom(rules, l), PicksFrom(rules, sorted))
  {
    InsertStaysIn(rules, l, sorted);
    PicksFromStep(rules, l, sorted);
    if sorted != [] {
      var rest := sorted[1..];
      PicksFromStep(rules, sorted[0], rest);
      assert [sorted[0]] + rest == sorted;
      if Least(l) > Least(sorted[0]) {
        InsertAlike(rules, l, rest);
        PicksFromStep(rules, sorted[0], InsertList(l, rest));
        InsertPickStep(PickFrom(rules, l), PickFrom(rules, sorted[0]), PicksFrom(rules, rest));
      }
    }
  }

  lemma InsertPickStep(p: Pick, q: Pick, rest: seq<Pick>)
    requires p.at > q.at
    ensures InsertPick(p, [q] + rest) == [q] + InsertPick(p, rest)
  {
    assert ([q] + rest)[1..] == rest;
  }

  /** The lists are sorted as the server sorts the picks made from them. */
  lemma {:induction false} SortedAlike(rules: seq<Rule>, scopes: seq<Scope>)
    ensures PicksFrom(rules, SortedLists(rules, scopes)) == SortPicks(PicksOf(rules, scopes))
  {
    if scopes != [] {
      var s, rest := scopes[0], scopes[1..];
      SortedAlike(rules, rest);
      PicksStep(rules, s, rest);
      assert [s] + rest == scopes;
      if Listed(rules, s) == [] {
        assert [] + PicksOf(rules, rest) == PicksOf(rules, rest);
      } else {
        InsertAlike(rules, Listed(rules, s), SortedLists(rules, rest));
        assert ([PickFrom(rules, Listed(rules, s))] + PicksOf(rules, rest))[1..] == PicksOf(rules, rest);
      }
    }
  }

  lemma {:induction false} SortedHolds(rules: seq<Rule>, scopes: seq<Scope>, l: seq<nat>)
    ensures l in SortedLists(rules, scopes) <==>
        l != [] && exists j :: 0 <= j < |scopes| && Listed(rules, scopes[j]) == l
  {
    if scopes != [] {
      var rest := scopes[1..];
      SortedHolds(rules, rest, l);
      assert forall j :: 0 < j < |scopes| ==> scopes[j] == rest[j - 1];
      if Listed(rules, scopes[0]) != [] { InsertStaysIn(rules, Listed(rules, scopes[0]), SortedLists(rules, rest)); }
      if j :| 0 <= j < |rest| && Listed(rules, rest[j]) == l { assert scopes[j + 1] == rest[j]; }
    }
  }

  // ---- the access ----

  function ScopeEntries(rules: seq<Rule>, allow: Choices, lists: seq<seq<nat>>): (scopes: seq<seq<S.Entry>>)
    requires ListsIn(rules, lists)
    ensures |scopes| == |lists| && S.Filled(scopes)
  {
    seq(|lists|, j requires 0 <= j < |lists| => EntriesOf(rules, allow, lists[j]))
  }

  predicate ListAllows(rules: seq<Rule>, allow: Choices, list: seq<nat>, v: string, rank: nat) {
    forall i :: i in list && Rank(rules, i) == rank ==> v in allow(i)
  }

  predicate ListsAllow(rules: seq<Rule>, allow: Choices, lists: seq<seq<nat>>, v: string, rank: nat) {
    forall l :: l in lists ==> ListAllows(rules, allow, l, v, rank)
  }

  lemma {:induction false} FlatHolds(rules: seq<Rule>, allow: Choices, lists: seq<seq<nat>>, v: string, rank: nat)
    requires ListsIn(rules, lists)
    ensures S.AllAllow(v, S.AtLevel(S.Flat(ScopeEntries(rules, allow, lists)), rank)) <==>
        ListsAllow(rules, allow, lists, v, rank)
  {
    if lists != [] {
      var scopes := ScopeEntries(rules, allow, lists);
      assert scopes[1..] == ScopeEntries(rules, allow, lists[1..]);
      FlatHolds(rules, allow, lists[1..], v, rank);
      S.AtLevelAdds(scopes[0], S.Flat(scopes[1..]), rank);
      S.AllAllowAdds(v, S.AtLevel(scopes[0], rank), S.AtLevel(S.Flat(scopes[1..]), rank));
      ListHolds(rules, allow, lists[0], v, rank);
      ListsAllowStep(rules, allow, lists[0], lists[1..], v, rank);
      assert lists == [lists[0]] + lists[1..];
    }
  }

  lemma ListsAllowStep(rules: seq<Rule>, allow: Choices, l: seq<nat>, rest: seq<seq<nat>>, v: string, rank: nat)
    ensures ListsAllow(rules, allow, [l] + rest, v, rank) <==>
        ListAllows(rules, allow, l, v, rank) && ListsAllow(rules, allow, rest, v, rank)
  {
    assert l in [l] + rest;
    assert forall x :: x in rest ==> x in [l] + rest;
  }

  lemma ListHolds(rules: seq<Rule>, allow: Choices, list: seq<nat>, v: string, rank: nat)
    requires InRules(rules, list)
    ensures S.AllAllow(v, S.AtLevel(EntriesOf(rules, allow, list), rank)) <==> ListAllows(rules, allow, list, v, rank)
  {
    var es := EntriesOf(rules, allow, list);
    var at := S.AtLevel(es, rank);
    if S.AllAllow(v, at) {
      forall i | i in list && Rank(rules, i) == rank ensures v in allow(i) {
        var a :| 0 <= a < |list| && list[a] == i;
        assert es[a] in es && es[a] in at;
      }
    }
    if ListAllows(rules, allow, list, v, rank) {
      forall e | e in at ensures v in e.allow {
        assert e in es;
        var a :| 0 <= a < |es| && es[a] == e;
        assert list[a] in list;
      }
    }
  }

  /** The entry a partner gets, from the scopes of the groups in their order. */
  function Access(rules: seq<Rule>, allow: Choices, groups: seq<Group>,
      programmeOf: map<Group, Group>): Option<S.Entry> {
    var lists := SortedLists(rules, Scopes(rules, groups, programmeOf));
    if lists == [] then None else Some(S.Strictest(S.PicksOf(ScopeEntries(rules, allow, lists))))
  }

  /** The first rule of a rank among the rules picked from the lists is picked from the leading list. */
  lemma {:induction false} LeaderIsFirst(rules: seq<Rule>, allow: Choices, lists: seq<seq<nat>>, rank: nat)
    requires ListsIn(rules, lists)
    ensures FirstAt(rules, RulesOf(PicksFrom(rules, lists)), rank) ==
        Led(rules, lists, S.Leader(ScopeEntries(rules, allow, lists), rank))
  {
    if lists != [] {
      FirstRuleStep(rules, lists, rank);
      LeaderStep(rules, allow, lists, rank);
      LeaderIsFirst(rules, allow, lists[1..], rank);
    }
  }

  lemma FirstRuleStep(rules: seq<Rule>, lists: seq<seq<nat>>, rank: nat)
    requires ListsIn(rules, lists) && lists != []
    ensures var first := Strictest(rules, lists[0]);
      FirstAt(rules, RulesOf(PicksFrom(rules, lists)), rank) ==
        if Rank(rules, first) == rank then Some(first) else FirstAt(rules, RulesOf(PicksFrom(rules, lists[1..])), rank)
  {
    RulesStep(rules, lists);
    FirstAtStep(rules, Strictest(rules, lists[0]), RulesOf(PicksFrom(rules, lists[1..])), rank);
  }

  lemma {:induction false} LeaderStep(rules: seq<Rule>, allow: Choices, lists: seq<seq<nat>>, rank: nat)
    requires ListsIn(rules, lists) && lists != []
    ensures var first, later := Strictest(rules, lists[0]), S.Leader(ScopeEntries(rules, allow, lists[1..]), rank);
      Led(rules, lists, S.Leader(ScopeEntries(rules, allow, lists), rank)) ==
        if Rank(rules, first) == rank then Some(first) else Led(rules, lists[1..], later)
  {
    var later := S.Leader(ScopeEntries(rules, allow, lists[1..]), rank);
    EntriesStep(rules, allow, lists);
    StrictestAgrees(rules, allow, lists[0]);
    LedStep(rules, lists, later);
  }

  lemma {:induction false} NoneAbove(rules: seq<Rule>, allow: Choices, lists: seq<seq<nat>>, rank: nat)
    requires ListsIn(rules, lists) && S.Top(S.Flat(ScopeEntries(rules, allow, lists))) <= rank
    ensures forall i :: i in RulesOf(PicksFrom(rules, lists)) ==> Rank(rules, i) <= rank
  {
    if lists != [] {
      EntriesStep(rules, allow, lists);
      RulesStep(rules, lists);
      StrictestAgrees(rules, allow, lists[0]);
      S.TopsOf(ScopeEntries(rules, allow, lists));
      NoneAbove(rules, allow, lists[1..], rank);
    }
  }

  /** The rule picked from list `k`. */
  function Led(rules: seq<Rule>, lists: seq<seq<nat>>, k: nat): Option<nat>
    requires ListsIn(rules, lists)
  {
    if k < |lists| then Some(Strictest(rules, lists[k])) else None
  }

  lemma LedStep(rules: seq<Rule>, lists: seq<seq<nat>>, k: nat)
    requires ListsIn(rules, lists) && lists != []
    ensures Led(rules, lists, k + 1) == Led(rules, lists[1..], k)
  {
  }

  lemma EntriesStep(rules: seq<Rule>, allow: Choices, lists: seq<seq<nat>>)
    requires ListsIn(rules, lists) && lists != []
    ensures ScopeEntries(rules, allow, lists)[1..] == ScopeEntries(rules, allow, lists[1..])
  {
  }

  lemma RulesStep(rules: seq<Rule>, lists: seq<seq<nat>>)
    requires ListsIn(rules, lists) && lists != []
    ensures RulesOf(PicksFrom(rules, lists)) == [Strictest(rules, lists[0])] + RulesOf(PicksFrom(rules, lists[1..]))
  {
    var picks := PicksFrom(rules, lists);
    assert [lists[0]] + lists[1..] == lists;
    PicksFromStep(rules, lists[0], lists[1..]);
    RulesOfStep(PickFrom(rules, lists[0]), PicksFrom(rules, lists[1..]));
  }

  lemma RulesOfStep(p: Pick, rest: seq<Pick>)
    ensures RulesOf([p] + rest) == [p.rule] + RulesOf(rest)
  {
  }

  lemma FirstAtStep(rules: seq<Rule>, i: nat, rest: seq<nat>, rank: nat)
    ensures FirstAt(rules, [i] + rest, rank) == if Rank(rules, i) == rank then Some(i) else FirstAt(rules, rest, rank)
  {
    assert ([i] + rest)[1..] == rest;
  }

  lemma PickedInRules(rules: seq<Rule>, lists: seq<seq<nat>>)
    requires ListsIn(rules, lists)
    ensures InRules(rules, RulesOf(PicksFrom(rules, lists)))
  {
    var list := RulesOf(PicksFrom(rules, lists));
    forall a | 0 <= a < |list| ensures list[a] < |rules| { assert list[a] == Strictest(rules, lists[a]); }
  }

  /** A list whose first rule of some rank is `i`, and in which no rule is stricter. */
  lemma {:induction false} StrictestIs(rules: seq<Rule>, list: seq<nat>, i: nat, rank: nat)
    requires InRules(rules, list) && FirstAt(rules, list, rank) == Some(i)
    requires forall j :: j in list ==> Rank(rules, j) <= rank
    ensures list != [] && Strictest(rules, list) == i && Rank(rules, i) == rank
  {
    StrictestIsFirst(rules, list);
    assert i in list && Rank(rules, i) == rank;
    assert Rank(rules, Strictest(rules, list)) == rank;
  }

  lemma LeaderDecides(rules: seq<Rule>, allow: Choices, lists: seq<seq<nat>>) returns (k: nat, rank: nat)
    requires ListsIn(rules, lists) && lists != []
    ensures var scopes := ScopeEntries(rules, allow, lists);
      && rank == S.Top(S.Flat(scopes)) && S.Flat(scopes) != [] && S.AtLevel(S.Flat(scopes), rank) != []
      && k == S.Leader(scopes, rank) && k < |lists|
    ensures InRules(rules, RulesOf(PicksFrom(rules, lists))) && RulesOf(PicksFrom(rules, lists)) != []
    ensures Strictest(rules, RulesOf(PicksFrom(rules, lists))) == Strictest(rules, lists[k])
    ensures Rank(rules, Strictest(rules, lists[k])) == rank
  {
    var scopes := ScopeEntries(rules, allow, lists);
    rank := S.Top(S.Flat(scopes));
    assert S.Flat(scopes) != [] by { assert scopes[0] != []; }
    S.TopIsReached(S.Flat(scopes));
    k := S.Leader(scopes, rank);
    S.LeaderFirst(scopes, rank);
    LeaderIsFirst(rules, allow, lists, rank);
    NoneAbove(rules, allow, lists, rank);
    PickedInRules(rules, lists);
    StrictestIs(rules, RulesOf(PicksFrom(rules, lists)), Strictest(rules, lists[k]), rank);
  }

  lemma {:induction false} PartnerHasLists(rules: seq<Rule>, groups: seq<Group>, programmeOf: map<Group, Group>)
    requires Counts(StandingOf(rules, groups, programmeOf))
    ensures var lists := SortedLists(rules, Scopes(rules, groups, programmeOf));
      && lists != [] && InRules(rules, RulesOf(PicksFrom(rules, lists)))
      && Decides(rules, groups, programmeOf) == Some(Strictest(rules, RulesOf(PicksFrom(rules, lists))))
  {
    var st := StandingOf(rules, groups, programmeOf);
    var lists := SortedLists(rules, Scopes(rules, groups, programmeOf));
    SomethingListed(st, groups);
    SomethingMatches(st, groups);
    SortedAlike(rules, Scopes(rules, groups, programmeOf));
    PickedInRules(rules, lists);
    assert |SortPicks(Picks(rules, groups, programmeOf))| > 0;
  }

  /** What a partner gets is as strict as the rule that decides, and offers only what that rule
      offers, and something if that rule offers something. */
  lemma {:induction false} AccessBounds(rules: seq<Rule>, allow: Choices, groups: seq<Group>,
      programmeOf: map<Group, Group>)
    requires Counts(StandingOf(rules, groups, programmeOf))
    ensures var i, got := Decides(rules, groups, programmeOf), Access(rules, allow, groups, programmeOf);
      && got.Some? && i.Some? && i.value < |rules| && got.value.level == rules[i.value].level
      && (forall v :: v in got.value.allow ==> v in allow(i.value))
      && (allow(i.value) != [] ==> got.value.allow != [])
  {
    PartnerHasLists(rules, groups, programmeOf);
    var lists := SortedLists(rules, Scopes(rules, groups, programmeOf));
    var scopes := ScopeEntries(rules, allow, lists);
    var k, rank := LeaderDecides(rules, allow, lists);
    S.LeaderFirst(scopes, rank);
    StrictestAgrees(rules, allow, lists[k]);
    S.StrictestBounds(scopes[k]);
    S.SameTop(scopes);
    S.StrictestBounds(S.PicksOf(scopes));
    LevelIsRank(S.Strictest(S.PicksOf(scopes)).level, rules[Strictest(rules, lists[k])].level);
  }

  lemma LevelIsRank(a: Level, b: Level)
    requires Strictness(a) == Strictness(b)
    ensures a == b
  {
  }

  /** A choice is offered by every one of the strictest rules that count. */
  ghost predicate OfferedByAll(st: Standing, allow: Choices, rank: nat, v: string) {
    forall k, i :: st.IsKey(k) && st.Says(k, i) && Rank(st.rules, i) == rank ==> v in allow(i)
  }

  lemma {:induction false} OfferedInLists(st: Standing, allow: Choices, groups: seq<Group>, rank: nat, v: string)
    requires st.member == MemberOf(groups)
    ensures OfferedByAll(st, allow, rank, v) <==>
      S.AllAllow(v, S.AtLevel(S.Flat(ScopeEntries(st.rules, allow,
          SortedLists(st.rules, Scopes(st.rules, groups, st.programmeOf)))), rank))
  {
    var scopes := Scopes(st.rules, groups, st.programmeOf);
    var lists := SortedLists(st.rules, scopes);
    FlatHolds(st.rules, allow, lists, v, rank);
    if OfferedByAll(st, allow, rank, v) {
      forall l | l in lists ensures ListAllows(st.rules, allow, l, v, rank) {
        SortedHolds(st.rules, scopes, l);
        var j: nat :| j < |scopes| && Listed(st.rules, scopes[j]) == l;
        ScopeIs(st, groups, j);
        forall i | i in l && Rank(st.rules, i) == rank ensures v in allow(i) { ListedSays(st, groups, j, i); }
      }
    }
    if ListsAllow(st.rules, allow, lists, v, rank) {
      forall k, i | st.IsKey(k) && st.Says(k, i) && Rank(st.rules, i) == rank ensures v in allow(i) {
        var j := ScopeAt(st, groups, k);
        ListedSays(st, groups, j, i);
        SortedHolds(st.rules, scopes, Listed(st.rules, scopes[j]));
      }
    }
  }

  /** Where the strictest rules that count are choices and share something, a partner is offered
      exactly what all of them offer, whatever the order of the groups. */
  lemma {:induction false} SharedIsOffered(rules: seq<Rule>, allow: Choices, groups: seq<Group>,
      programmeOf: map<Group, Group>, w: string)
    requires var st := StandingOf(rules, groups, programmeOf);
      st.IsTop(Strictness(Choice)) && OfferedByAll(st, allow, Strictness(Choice), w)
    ensures var st, got := StandingOf(rules, groups, programmeOf), Access(rules, allow, groups, programmeOf);
      got.Some? && got.value.level == Choice && forall v :: v in got.value.allow <==>
          OfferedByAll(st, allow, Strictness(Choice), v)
  {
    var st := StandingOf(rules, groups, programmeOf);
    assert Counts(st);
    PartnerHasLists(rules, groups, programmeOf);
    var lists := SortedLists(rules, Scopes(rules, groups, programmeOf));
    var scopes := ScopeEntries(rules, allow, lists);
    var k, rank := LeaderDecides(rules, allow, lists);
    TopOfDecides(rules, groups, programmeOf, rank);
    OfferedInLists(st, allow, groups, rank, w);
    S.TwiceIsOnce(scopes, w);
    S.SharedIsKept(S.Flat(scopes), w);
    S.StrictestBounds(S.Flat(scopes));
    LevelIsRank(S.Strictest(S.Flat(scopes)).level, Choice);
    forall v ensures v in Access(rules, allow, groups, programmeOf).value.allow <==> OfferedByAll(st, allow, rank, v) {
      OfferedInLists(st, allow, groups, rank, v);
    }
  }

  /** The rank of the rule that decides is the top rank. */
  lemma TopOfDecides(rules: seq<Rule>, groups: seq<Group>, programmeOf: map<Group, Group>, rank: nat)
    requires Counts(StandingOf(rules, groups, programmeOf))
    requires Decides(rules, groups, programmeOf).Some? && Rank(rules, Decides(rules, groups, programmeOf).value) == rank
    ensures forall top :: StandingOf(rules, groups, programmeOf).IsTop(top) ==> top == rank
  {
    var st := StandingOf(rules, groups, programmeOf);
    var r := TopDecides(rules, groups, programmeOf);
    forall top | st.IsTop(top) ensures top == rank { TopIsOne(st, top, r); }
  }
}
