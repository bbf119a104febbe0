/** When the order of a member's groups, or of the overlay's rules, decides among a partner's rules:
    said without any order, and then proved of the server's computation. */
module PartnerOrder {
  import opened Wrappers
  import opened JsText
  import opened JsonStrings
  import opened PolicyRules
  import opened PartnerPolicy
  import opened PartnerScopes

  function MemberOf(groups: seq<Group>): set<Group> {
    set g | g in groups
  }

  /** The rules of one input and a member's groups, in no order. */
  datatype Standing = Standing(rules: seq<Rule>, member: set<Group>, programmeOf: map<Group, Group>) {
    /** A scope of the member: a programme, or a company of none of the member's programmes. */
    predicate IsKey(k: Group) {
      k in member && (IsProgramme(k) || (IsCompany(k) && !(k in programmeOf && programmeOf[k] in member
          && IsProgramme(programmeOf[k]))))
    }

    predicate Named(g: Group) {
      exists i :: 0 <= i < |rules| && g in rules[i].groups
    }

    predicate CompanySpeaks(k: Group) {
      exists c :: c in member && IsCompany(c) && BelongsTo(c, k, programmeOf) && Named(c)
    }

    /** The groups whose rules count in a scope. */
    predicate VoiceIn(k: Group, g: Group) {
      if IsProgramme(k) && CompanySpeaks(k) then g in member && IsCompany(g) && BelongsTo(g, k, programmeOf) else g == k
    }

    /** Rule `i` counts in scope `k`. */
    ghost predicate Says(k: Group, i: nat) {
      i < |rules| && exists g :: g in rules[i].groups && VoiceIn(k, g)
    }

    /** The rank of the strictest rules that count. */
    ghost predicate IsTop(rank: nat) {
      && (exists k, i :: IsKey(k) && Says(k, i) && Rank(rules, i) == rank)
      && forall k, i :: IsKey(k) && Says(k, i) ==> Rank(rules, i) <= rank
    }

    ghost predicate TopIn(k: Group, rank: nat) {
      IsKey(k) && exists i :: Says(k, i) && Rank(rules, i) == rank
    }

    /** The first rule that counts in a scope. */
    ghost predicate StartsAt(k: Group, a: nat) {
      Says(k, a) && forall i :: Says(k, i) ==> a <= i
    }

    /** Scope `k` comes out first in some order of the groups: its first rule is as early as any, and
        no programme shares that rule with a company. */
    ghost predicate CanWin(k: Group, rank: nat, a: nat) {
      && TopIn(k, rank) && StartsAt(k, a)
      && forall l, b :: TopIn(l, rank) && StartsAt(l, b) ==> a < b || (a == b && (IsProgramme(k) || !IsProgramme(l)))
    }

    /** Group `g` can speak for the member: a voice of a scope that can win, named by one of the
        strictest rules. */
    ghost predicate Speaker(g: Group, k: Group, rank: nat) {
      VoiceIn(k, g) && Answer(rules, g, rank).Some? && exists a :: CanWin(k, rank, a)
    }
  }

  function StandingOf(rules: seq<Rule>, groups: seq<Group>, programmeOf: map<Group, Group>): Standing {
    Standing(rules, MemberOf(groups), programmeOf)
  }

  // ---- the scopes in order are the scopes in no order ----

  lemma {:induction false} InsideSpeaks(st: Standing, groups: seq<Group>, k: Group)
    requires st.member == MemberOf(groups)
    ensures NamingAny(st.rules, Inside(Companies(groups), k, st.programmeOf)) != [] <==> st.CompanySpeaks(k)
  {
    var inside := Inside(Companies(groups), k, st.programmeOf);
    var list := NamingAny(st.rules, inside);
    if list != [] {
      NamingAnyHolds(st.rules, inside, list[0]);
      assert list[0] in list;
    }
    if st.CompanySpeaks(k) {
      var c :| c in st.member && IsCompany(c) && BelongsTo(c, k, st.programmeOf) && st.Named(c);
      var i :| 0 <= i < |st.rules| && c in st.rules[i].groups;
      NamingAnyHolds(st.rules, inside, i);
      assert c in inside;
    }
  }

  /** What the scope at a place is. */
  lemma {:induction false} ScopeIs(st: Standing, groups: seq<Group>, j: nat)
    requires st.member == MemberOf(groups) && j < |Scopes(st.rules, groups, st.programmeOf)|
    ensures var s := Scopes(st.rules, groups, st.programmeOf)[j];
      && st.IsKey(s.key) && (IsProgramme(s.key) <==> j < |Programmes(groups)|)
      && forall g :: g in s.voices <==> st.VoiceIn(s.key, g)
  {
    var s := Scopes(st.rules, groups, st.programmeOf)[j];
    if j < |Programmes(groups)| {
      assert s.key in Programmes(groups);
      InsideSpeaks(st, groups, s.key);
    } else {
      var alone := AloneOf(groups, st.programmeOf);
      assert s == Scope(alone[j - |Programmes(groups)|], [alone[j - |Programmes(groups)|]]) && s.key in alone;
      NotBoth(s.key);
    }
  }

  /** Every scope has a place. */
  lemma ScopeAt(st: Standing, groups: seq<Group>, k: Group) returns (j: nat)
    requires st.member == MemberOf(groups) && st.IsKey(k)
    ensures j < |Scopes(st.rules, groups, st.programmeOf)| && Scopes(st.rules, groups, st.programmeOf)[j].key == k
  {
    if IsProgramme(k) {
      assert k in Programmes(groups);
      j :| 0 <= j < |Programmes(groups)| && Programmes(groups)[j] == k;
    } else {
      var alone := AloneOf(groups, st.programmeOf);
      assert k in alone;
      var i: nat :| i < |alone| && alone[i] == k;
      j := |Programmes(groups)| + i;
    }
  }

  /** The rules listed for a scope are those that count in it. */
  lemma ListedSays(st: Standing, groups: seq<Group>, j: nat, i: nat)
    requires st.member == MemberOf(groups) && j < |Scopes(st.rules, groups, st.programmeOf)|
    ensures var s := Scopes(st.rules, groups, st.programmeOf)[j]; i in Listed(st.rules, s) <==> st.Says(s.key, i)
  {
    ScopeIs(st, groups, j);
    NamingAnyHolds(st.rules, Scopes(st.rules, groups, st.programmeOf)[j].voices, i);
  }

  /** The strictest and the first rule of a scope, at the top rank. */
  lemma TopMeans(st: Standing, groups: seq<Group>, j: nat, rank: nat)
    requires st.member == MemberOf(groups) && j < |Scopes(st.rules, groups, st.programmeOf)| && st.IsTop(rank)
    ensures var s := Scopes(st.rules, groups, st.programmeOf)[j];
      && (HasTop(st.rules, s, rank) <==> st.TopIn(s.key, rank))
      && (Listed(st.rules, s) != [] ==> st.StartsAt(s.key, Least(Listed(st.rules, s))))
  {
    var s := Scopes(st.rules, groups, st.programmeOf)[j];
    var list := Listed(st.rules, s);
    ScopeIs(st, groups, j);
    forall i: nat ensures i in list <==> st.Says(s.key, i) { ListedSays(st, groups, j, i); }
    if list != [] { LeastMeans(list); }
  }

  lemma StartIsOne(st: Standing, k: Group, a: nat, b: nat)
    requires st.StartsAt(k, a) && st.StartsAt(k, b)
    ensures a == b
  {
  }

  // ---- who decides ----

  /** Whether any partner rule counts. */
  ghost predicate Counts(st: Standing) {
    exists k, i :: st.IsKey(k) && st.Says(k, i)
  }

  lemma {:induction false} NoPicks(rules: seq<Rule>, scopes: seq<Scope>)
    requires forall j :: 0 <= j < |scopes| ==> Listed(rules, scopes[j]) == []
    ensures PicksOf(rules, scopes) == []
  {
    if scopes != [] {
      NoPicks(rules, scopes[1..]);
      PicksStep(rules, scopes[0], scopes[1..]);
      assert [scopes[0]] + scopes[1..] == scopes;
    }
  }

  /** Scope `w` wins in this order, and `g` speaks in it. */
  predicate Speaks(rules: seq<Rule>, scopes: seq<Scope>, w: nat, rank: nat, g: Group) {
    Wins(rules, scopes, w, rank) && FirstVoice(rules, scopes[w].voices, rank) == Some(g)
  }

  lemma {:induction false} TopIsPicked(rules: seq<Rule>, scopes: seq<Scope>, j: nat)
    requires j < |scopes| && Listed(rules, scopes[j]) != []
    ensures Top(rules, scopes[j]) in PicksOf(rules, scopes)
  {
    PicksStep(rules, scopes[0], scopes[1..]);
    assert [scopes[0]] + scopes[1..] == scopes;
    if j == 0 {
      assert Top(rules, scopes[0]) in PickIn(rules, scopes[0]);
    } else {
      TopIsPicked(rules, scopes[1..], j - 1);
    }
  }

  predicate NoneStricter(rules: seq<Rule>, scopes: seq<Scope>, rank: nat) {
    forall j :: 0 <= j < |scopes| && Listed(rules, scopes[j]) != [] ==>
        Rank(rules, Strictest(rules, Listed(rules, scopes[j]))) <= rank
  }

  /** Among the picks in order, the winning scope's first voice gives the answer. */
  lemma {:induction false} PicksDecide(rules: seq<Rule>, scopes: seq<Scope>) returns (w: nat, rank: nat, g: Group)
    requires PicksOf(rules, scopes) != [] && PicksIn(rules, PicksOf(rules, scopes))
    ensures Speaks(rules, scopes, w, rank, g) && NoneStricter(rules, scopes, rank)
    ensures Answer(rules, g, rank) == Some(Strictest(rules, RulesOf(SortPicks(PicksOf(rules, scopes)))))
  {
    var picks := PicksOf(rules, scopes);
    var sorted := SortPicks(picks);
    var list := RulesOf(sorted);
    assert InRules(rules, list) by {
      forall a | 0 <= a < |list| ensures list[a] < |rules| { assert sorted[a] in picks; }
    }
    var i := Strictest(rules, list);
    rank := Rank(rules, i);
    StrictestIsFirst(rules, list);
    FirstPickIs(rules, sorted, rank);
    SortFindsBest(rules, picks, rank);
    w := BestWins(rules, scopes, rank);
    StrictestIsFirst(rules, Listed(rules, scopes[w]));
    VoicesAnswer(rules, scopes[w].voices, rank);
    g := FirstVoice(rules, scopes[w].voices, rank).value;
    forall j | 0 <= j < |scopes| && Listed(rules, scopes[j]) != []
        ensures Rank(rules, Strictest(rules, Listed(rules, scopes[j]))) <= rank {
      TopIsPicked(rules, scopes, j);
      PickedIsListed(sorted, Top(rules, scopes[j]));
    }
  }

  lemma PickedIsListed(picks: seq<Pick>, p: Pick)
    requires p in picks
    ensures p.rule in RulesOf(picks)
  {
    var a :| 0 <= a < |picks| && picks[a] == p;
    assert RulesOf(picks)[a] == p.rule;
  }

  /** The rank that decides is the top rank. */
  lemma WinnerIsTop(st: Standing, groups: seq<Group>, w: nat, rank: nat)
    requires st.member == MemberOf(groups)
    requires var scopes := Scopes(st.rules, groups, st.programmeOf);
      Wins(st.rules, scopes, w, rank) && NoneStricter(st.rules, scopes, rank)
    ensures st.IsTop(rank)
  {
    var scopes := Scopes(st.rules, groups, st.programmeOf);
    forall k, i | st.IsKey(k) && st.Says(k, i) ensures Rank(st.rules, i) <= rank {
      var j := ScopeAt(st, groups, k);
      ListedSays(st, groups, j, i);
    }
    var i := Strictest(st.rules, Listed(st.rules, scopes[w]));
    ScopeIs(st, groups, w);
    ListedSays(st, groups, w, i);
  }

  /** A scope that wins in some order can win. */
  lemma {:induction false} WinnerCanWin(st: Standing, groups: seq<Group>, w: nat, rank: nat)
    requires st.member == MemberOf(groups) && st.IsTop(rank)
        && Wins(st.rules, Scopes(st.rules, groups, st.programmeOf), w, rank)
    ensures var s := Scopes(st.rules, groups, st.programmeOf)[w]; st.CanWin(s.key, rank, Least(Listed(st.rules, s)))
  {
    var scopes := Scopes(st.rules, groups, st.programmeOf);
    TopMeans(st, groups, w, rank);
    ScopeIs(st, groups, w);
    var k, a := scopes[w].key, Least(Listed(st.rules, scopes[w]));
    forall l, b | st.TopIn(l, rank) && st.StartsAt(l, b)
        ensures a < b || (a == b && (IsProgramme(k) || !IsProgramme(l))) {
      var j := ScopeAt(st, groups, l);
      TopMeans(st, groups, j, rank);
      StartIsOne(st, l, b, Least(Listed(st.rules, scopes[j])));
      ScopeIs(st, groups, j);
    }
  }

  lemma SomethingListed(st: Standing, groups: seq<Group>)
    requires st.member == MemberOf(groups) && Counts(st)
    ensures Picks(st.rules, groups, st.programmeOf) != []
        && Picks(st.rules, groups, st.programmeOf) == PicksOf(st.rules, Scopes(st.rules, groups, st.programmeOf))
  {
    PicksAreOfScopes(st.rules, groups, st.programmeOf);
    var k: Group, i: nat :| st.IsKey(k) && st.Says(k, i);
    var j := ScopeAt(st, groups, k);
    ListedSays(st, groups, j, i);
    TopIsPicked(st.rules, Scopes(st.rules, groups, st.programmeOf), j);
  }

  lemma SomethingMatches(st: Standing, groups: seq<Group>)
    requires st.member == MemberOf(groups) && Counts(st)
    ensures FirstMatch(st.rules, st.member) < |st.rules|
  {
    var k: Group, i: nat :| st.IsKey(k) && st.Says(k, i);
    var g :| g in st.rules[i].groups && st.VoiceIn(k, g);
    assert Matches(st.rules[i].groups, st.member);
  }

  /** Who speaks for a member with these groups in this order: a group that can, and its answer is
      the rule that decides. */
  lemma {:induction false} SpeakerDecides(rules: seq<Rule>, groups: seq<Group>, programmeOf: map<Group, Group>)
      returns (w: nat, rank: nat, g: Group)
    requires Counts(StandingOf(rules, groups, programmeOf))
    ensures Speaks(rules, Scopes(rules, groups, programmeOf), w, rank, g)
    ensures var st := StandingOf(rules, groups, programmeOf);
      st.IsTop(rank) && st.Speaker(g, Scopes(rules, groups, programmeOf)[w].key, rank)
    ensures Answer(rules, g, rank).Some? && Decides(rules, groups, programmeOf) == Answer(rules, g, rank)
  {
    var st := StandingOf(rules, groups, programmeOf);
    SomethingListed(st, groups);
    SomethingMatches(st, groups);
    w, rank, g := PicksDecide(rules, Scopes(rules, groups, programmeOf));
    WinnerIsTop(st, groups, w, rank);
    WinnerCanWin(st, groups, w, rank);
    ScopeIs(st, groups, w);
  }

  lemma TopIsOne(st: Standing, a: nat, b: nat)
    requires st.IsTop(a) && st.IsTop(b)
    ensures a == b
  {
  }

  // ---- every speaker has an order ----

  function ToFront(groups: seq<Group>, g: Group): (front: seq<Group>)
    requires g in groups
    ensures multiset(front) == multiset(groups) && front[0] == g
  {
    if groups[0] == g then groups
    else
      assert groups == [groups[0]] + groups[1..];
      var rest := ToFront(groups[1..], g);
      assert rest == [rest[0]] + rest[1..];
      [g, groups[0]] + rest[1..]
  }

  lemma SameMember(a: seq<Group>, b: seq<Group>)
    requires multiset(a) == multiset(b)
    ensures MemberOf(a) == MemberOf(b)
  {
    forall g ensures g in a <==> g in b { assert g in multiset(a) <==> g in multiset(b); }
  }

  /** The order that lets `g` speak: its scope first, then the group itself. */
  function SpeakingOrder(groups: seq<Group>, g: Group, k: Group): (order: seq<Group>)
    requires g in groups && k in groups
    ensures multiset(order) == multiset(groups)
  {
    var front := ToFront(groups, g);
    assert k in multiset(front);
    ToFront(front, k)
  }

  lemma SpeakingOrderStarts(groups: seq<Group>, g: Group, k: Group)
    requires g in groups && k in groups
    ensures var order := SpeakingOrder(groups, g, k); order[0] == k && (g != k ==> |order| > 1 && order[1] == g)
  {
    var front := ToFront(groups, g);
    assert k in multiset(front);
    if g != k { ToFrontKeeps(front, k); }
  }

  lemma ToFrontKeeps(groups: seq<Group>, k: Group)
    requires k in groups && groups[0] != k
    ensures |ToFront(groups, k)| > 1 && ToFront(groups, k)[1] == groups[0]
  {
  }

  lemma {:induction false} FrontScopes(st: Standing, order: seq<Group>, g: Group, k: Group)
    requires st.member == MemberOf(order) && st.IsKey(k) && st.VoiceIn(k, g)
    requires order != [] && order[0] == k && (g != k ==> |order| > 1 && order[1] == g)
    ensures var scopes, at := Scopes(st.rules, order, st.programmeOf), if IsProgramme(k) then 0
        else |Programmes(order)|;
      at < |scopes| && scopes[at].key == k && scopes[at].voices != [] && scopes[at].voices[0] == g
  {
    NotBoth(k);
    NotBoth(g);
    KindsStep(order[0], order[1..]);
    assert order == [order[0]] + order[1..];
    if IsProgramme(k) {
      InsideSpeaks(st, order, k);
      if st.CompanySpeaks(k) {
        KindsStep(order[1], order[2..]);
        assert order[1..] == [order[1]] + order[2..];
        assert Companies(order)[0] == g;
      }
    } else {
      var alone := AloneOf(order, st.programmeOf);
      assert Companies(order)[0] == k;
      assert alone[0] == k;
    }
  }

  /** A scope that can win, put as far in front as it gets, wins. */
  lemma FrontWins(st: Standing, order: seq<Group>, k: Group, at: nat, w: nat, rank: nat)
    requires st.member == MemberOf(order) && st.IsTop(rank) && (exists a :: st.CanWin(k, rank, a))
    requires var scopes := Scopes(st.rules, order, st.programmeOf);
        Wins(st.rules, scopes, w, rank) && at < |scopes| && scopes[at].key == k
    requires at == if IsProgramme(k) then 0 else |Programmes(order)|
    ensures w == at
  {
    var scopes := Scopes(st.rules, order, st.programmeOf);
    var a :| st.CanWin(k, rank, a);
    TopMeans(st, order, at, rank);
    TopMeans(st, order, w, rank);
    ScopeIs(st, order, w);
    StartIsOne(st, k, a, Least(Listed(st.rules, scopes[at])));
    assert st.TopIn(scopes[w].key, rank) && st.StartsAt(scopes[w].key, Least(Listed(st.rules, scopes[w])));
  }

  /** Every group that can speak does speak in some order of the same groups. */
  lemma {:induction false} SpeakerCanDecide(rules: seq<Rule>, groups: seq<Group>, programmeOf: map<Group, Group>,
      g: Group, k: Group,
      rank: nat)
    requires var st := StandingOf(rules, groups, programmeOf); st.IsTop(rank) && st.Speaker(g, k, rank)
    ensures g in groups && k in groups
    ensures Decides(rules, SpeakingOrder(groups, g, k), programmeOf) == Answer(rules, g, rank)
  {
    var st := StandingOf(rules, groups, programmeOf);
    var order := SpeakingOrder(groups, g, k);
    SpeakingOrderStarts(groups, g, k);
    SameMember(groups, order);
    assert Counts(st);
    var w, top, h := SpeakerDecides(rules, order, programmeOf);
    TopIsOne(st, rank, top);
    FrontScopes(st, order, g, k);
    FrontWins(st, order, k, if IsProgramme(k) then 0 else |Programmes(order)|, w, rank);
    VoiceInFront(rules, Scopes(rules, order, programmeOf)[w].voices, rank);
  }

  // ---- the main results ----

  ghost predicate OrderIsFree(rules: seq<Rule>, groups: seq<Group>, programmeOf: map<Group, Group>) {
    forall other :: multiset(other) == multiset(groups) ==>
        Decides(rules, other, programmeOf) == Decides(rules, groups, programmeOf)
  }

  ghost predicate SpeakersAgree(st: Standing) {
    forall rank, g, h, k, l :: st.IsTop(rank) && st.Speaker(g, k, rank) && st.Speaker(h, l, rank) ==>
      Answer(st.rules, g, rank) == Answer(st.rules, h, rank)
  }

  /** The order of a member's groups does not matter exactly if all groups that can speak have the
      same first rule among the strictest. */
  lemma {:induction false} GroupOrderMatters(rules: seq<Rule>, groups: seq<Group>, programmeOf: map<Group, Group>)
    ensures OrderIsFree(rules, groups, programmeOf) <==> SpeakersAgree(StandingOf(rules, groups, programmeOf))
  {
    var st := StandingOf(rules, groups, programmeOf);
    if SpeakersAgree(st) {
      forall other | multiset(other) == multiset(groups)
          ensures Decides(rules, other, programmeOf) == Decides(rules, groups, programmeOf) {
        SameMember(groups, other);
        if Counts(st) {
          var w, rank, g := SpeakerDecides(rules, groups, programmeOf);
          var x, top, h := SpeakerDecides(rules, other, programmeOf);
          TopIsOne(st, rank, top);
        } else {
          NothingCounts(st, groups);
          NothingCounts(st, other);
        }
      }
    }
    if OrderIsFree(rules, groups, programmeOf) {
      forall rank, g, h, k, l | st.IsTop(rank) && st.Speaker(g, k, rank) && st.Speaker(h, l, rank)
        ensures Answer(rules, g, rank) == Answer(rules, h, rank)
      {
        SpeakerCanDecide(rules, groups, programmeOf, g, k, rank);
        SpeakerCanDecide(rules, groups, programmeOf, h, l, rank);
      }
    }
  }

  /** Without a partner rule that counts, the first match decides, in any order. */
  lemma NothingCounts(st: Standing, groups: seq<Group>)
    requires st.member == MemberOf(groups) && !Counts(st)
    ensures Decides(st.rules, groups, st.programmeOf) ==
      if FirstMatch(st.rules, st.member) == |st.rules| then None else Some(FirstMatch(st.rules, st.member))
  {
    var scopes := Scopes(st.rules, groups, st.programmeOf);
    forall j | 0 <= j < |scopes| ensures Listed(st.rules, scopes[j]) == [] {
      ScopeIs(st, groups, j);
      if Listed(st.rules, scopes[j]) != [] {
        assert Listed(st.rules, scopes[j])[0] in Listed(st.rules, scopes[j]);
        ListedSays(st, groups, j, Listed(st.rules, scopes[j])[0]);
      }
    }
    NoPicks(st.rules, scopes);
    PicksAreOfScopes(st.rules, groups, st.programmeOf);
  }

  /** Rule `m` is the first, in the overlay's order, of the strictest rules that count. */
  ghost predicate FirstOfStrictest(st: Standing, m: nat, rank: nat) {
    && st.IsTop(rank) && Rank(st.rules, m) == rank && (exists k :: st.IsKey(k) && st.Says(k, m))
    && forall k, i :: st.IsKey(k) && st.Says(k, i) && Rank(st.rules, i) == rank ==> m <= i
  }

  /** A speaker's answer is the first of the strictest exactly if that rule names the speaker. */
  lemma {:induction false} SpeakerIsNamed(st: Standing, m: nat, rank: nat, g: Group, k: Group)
    requires FirstOfStrictest(st, m, rank) && st.Speaker(g, k, rank)
    ensures Answer(st.rules, g, rank) == Some(m) <==> g in st.rules[m].groups
  {
    AnswerIsLeast(st.rules, g, rank);
    var i := Answer(st.rules, g, rank).value;
    assert st.IsKey(k) && st.Says(k, i);
  }

  /** In a given order, the overlay's order is kept among the strictest exactly if the first of them
      names the group that speaks. */
  lemma {:induction false} OverlayOrderHolds(rules: seq<Rule>, groups: seq<Group>, programmeOf: map<Group, Group>,
      m: nat)
      returns (w: nat, rank: nat, g: Group)
    requires Counts(StandingOf(rules, groups, programmeOf))
    requires exists top :: FirstOfStrictest(StandingOf(rules, groups, programmeOf), m, top)
    ensures Speaks(rules, Scopes(rules, groups, programmeOf), w, rank, g)
    ensures StandingOf(rules, groups, programmeOf).IsTop(rank)
    ensures Decides(rules, groups, programmeOf) == Some(m) <==> g in rules[m].groups
  {
    var st := StandingOf(rules, groups, programmeOf);
    var top :| FirstOfStrictest(st, m, top);
    w, rank, g := SpeakerDecides(rules, groups, programmeOf);
    TopIsOne(st, rank, top);
    SpeakerIsNamed(st, m, rank, g, Scopes(rules, groups, programmeOf)[w].key);
  }

  /** It is kept in every order exactly if that rule names every group that can speak. */
  lemma {:induction false} OverlayOrderHoldsAlways(rules: seq<Rule>, groups: seq<Group>,
      programmeOf: map<Group, Group>, m: nat, rank: nat)
    requires FirstOfStrictest(StandingOf(rules, groups, programmeOf), m, rank)
    ensures (forall other :: multiset(other) == multiset(groups) ==> Decides(rules, other, programmeOf) == Some(m))
       <==> forall g, k :: StandingOf(rules, groups, programmeOf).Speaker(g, k, rank) ==> g in rules[m].groups
  {
    var st := StandingOf(rules, groups, programmeOf);
    assert Counts(st);
    if forall other :: multiset(other) == multiset(groups) ==> Decides(rules, other, programmeOf) == Some(m) {
      forall g, k | st.Speaker(g, k, rank) ensures g in rules[m].groups {
        SpeakerCanDecide(rules, groups, programmeOf, g, k, rank);
        SpeakerIsNamed(st, m, rank, g, k);
      }
    }
    if forall g, k :: st.Speaker(g, k, rank) ==> g in rules[m].groups {
      forall other | multiset(other) == multiset(groups) ensures Decides(rules, other, programmeOf) == Some(m) {
        SameMember(groups, other);
        var w, top, g := SpeakerDecides(rules, other, programmeOf);
        TopIsOne(st, rank, top);
        SpeakerIsNamed(st, m, rank, g, Scopes(rules, other, programmeOf)[w].key);
      }
    }
  }

  // ---- the level ----

  /** A rule that counts in one overlay counts in every reordering of it. */
  lemma SaysIn(a: Standing, b: Standing, k: Group, i: nat) returns (j: nat)
    requires a.member == b.member && a.programmeOf == b.programmeOf && multiset(a.rules) == multiset(b.rules)
    requires a.IsKey(k) && a.Says(k, i)
    ensures b.IsKey(k) && b.Says(k, j) && Rank(b.rules, j) == Rank(a.rules, i)
  {
    assert a.rules[i] in multiset(b.rules);
    j :| 0 <= j < |b.rules| && b.rules[j] == a.rules[i];
    forall c ensures a.Named(c) <==> b.Named(c) {
      NamedIn(a.rules, b.rules, c, a.programmeOf);
      NamedIn(b.rules, a.rules, c, a.programmeOf);
    }
    assert a.CompanySpeaks(k) <==> b.CompanySpeaks(k);
    var g :| g in a.rules[i].groups && a.VoiceIn(k, g);
    assert b.VoiceIn(k, g);
  }

  lemma NamedIn(a: seq<Rule>, b: seq<Rule>, c: Group, programmeOf: map<Group, Group>)
    requires multiset(a) == multiset(b)
    ensures Standing(a, {}, programmeOf).Named(c) ==> Standing(b, {}, programmeOf).Named(c)
  {
    if Standing(a, {}, programmeOf).Named(c) {
      var i :| 0 <= i < |a| && c in a[i].groups;
      assert a[i] in multiset(b);
      var j :| 0 <= j < |b| && b[j] == a[i];
    }
  }

  /** Where partner rules count, the level depends on neither order. */
  lemma {:induction false} LevelIgnoresOrder(rules: seq<Rule>, groups: seq<Group>, others: seq<Rule>, order: seq<Group>,
      programmeOf: map<Group, Group>)
    requires multiset(rules) == multiset(others) && MemberOf(groups) == MemberOf(order)
    requires Counts(StandingOf(rules, groups, programmeOf))
    ensures var a, b := Decides(rules, groups, programmeOf), Decides(others, order, programmeOf);
      a.Some? && b.Some? && a.value < |rules| && b.value < |others| && rules[a.value].level == others[b.value].level
  {
    var a, b := StandingOf(rules, groups, programmeOf), StandingOf(others, order, programmeOf);
    var rank := TopDecides(rules, groups, programmeOf);
    SameTop(a, b, rank);
    var top := TopDecides(others, order, programmeOf);
    TopIsOne(b, rank, top);
    SameLevel(rules, Decides(rules, groups, programmeOf).value, others, Decides(others, order, programmeOf).value);
  }

  lemma {:induction false} SameLevel(a: seq<Rule>, i: nat, b: seq<Rule>, j: nat)
    requires i < |a| && j < |b| && Rank(a, i) == Rank(b, j)
    ensures a[i].level == b[j].level
  {
  }

  /** The rule that decides is one of the strictest that count. */
  lemma TopDecides(rules: seq<Rule>, groups: seq<Group>, programmeOf: map<Group, Group>) returns (rank: nat)
    requires Counts(StandingOf(rules, groups, programmeOf))
    ensures StandingOf(rules, groups, programmeOf).IsTop(rank)
    ensures var i := Decides(rules, groups, programmeOf);
      i.Some? && i.value < |rules| && Rank(rules, i.value) == rank
  {
    var w, top, g := SpeakerDecides(rules, groups, programmeOf);
    rank := top;
    AnswerIsLeast(rules, g, rank);
  }

  lemma SameTop(a: Standing, b: Standing, rank: nat)
    requires a.member == b.member && a.programmeOf == b.programmeOf && multiset(a.rules) == multiset(b.rules)
        && a.IsTop(rank)
    ensures b.IsTop(rank) && Counts(b)
  {
    var k: Group, i: nat :| a.IsKey(k) && a.Says(k, i) && Rank(a.rules, i) == rank;
    var j := SaysIn(a, b, k, i);
    forall l, x | b.IsKey(l) && b.Says(l, x) ensures Rank(b.rules, x) <= rank {
      var y := SaysIn(b, a, l, x);
    }
  }

  // ---- where the overlay's order is not kept ----

  function Three(p: Group, q: Group): seq<Rule> {
    [Rule([p], Editable, []), Rule([q], Locked, []), Rule([p], Locked, [])]
  }

  /** Two programmes and no company: each speaks for itself. */
  lemma ProgrammesSpeak(st: Standing, p: Group, q: Group, k: Group, i: nat)
    requires st.member == {p, q} && IsProgramme(p) && IsProgramme(q) && p != q && st.rules == Three(p, q)
    ensures st.IsKey(k) <==> k == p || k == q
    ensures st.IsKey(k) ==> (st.Says(k, i) <==> (k == p && (i == 0 || i == 2)) || (k == q && i == 1))
    ensures st.IsKey(k) ==> forall g :: st.VoiceIn(k, g) <==> g == k
  {
    NotBoth(p);
    NotBoth(q);
    if st.IsKey(k) {
      assert !st.CompanySpeaks(k);
      assert st.Says(k, i) <==> i < 3 && k in st.rules[i].groups;
    }
  }

  lemma {:induction false} TwoProgrammesStand(st: Standing, p: Group, q: Group)
    requires st.member == {p, q} && IsProgramme(p) && IsProgramme(q) && p != q && st.rules == Three(p, q)
    ensures FirstOfStrictest(st, 1, 2) && Counts(st)
    ensures st.TopIn(p, 2) && st.StartsAt(p, 0) && st.StartsAt(q, 1)
  {
    forall k, i: nat ensures st.IsKey(k) <==> k == p || k == q
      ensures st.IsKey(k) ==> (st.Says(k, i) <==> (k == p && (i == 0 || i == 2)) || (k == q && i == 1))
    {
      ProgrammesSpeak(st, p, q, k, i);
    }
    assert Rank(st.rules, 0) == 0 && Rank(st.rules, 1) == 2 && Rank(st.rules, 2) == 2;
    assert st.IsKey(p) && st.IsKey(q) && st.Says(p, 0) && st.Says(q, 1) && st.Says(p, 2);
  }

  /** Two programmes: the one whose rules start earlier decides, with a later rule than the other's. */
  lemma {:induction false} TwoProgrammes(p: Group, q: Group, programmeOf: map<Group, Group>, groups: seq<Group>)
    requires IsProgramme(p) && IsProgramme(q) && p != q && MemberOf(groups) == {p, q}
    ensures FirstOfStrictest(StandingOf(Three(p, q), groups, programmeOf), 1, 2)
    ensures Decides(Three(p, q), groups, programmeOf) == Some(2)
  {
    var st := StandingOf(Three(p, q), groups, programmeOf);
    TwoProgrammesStand(st, p, q);
    var w, rank, g := SpeakerDecides(Three(p, q), groups, programmeOf);
    TopIsOne(st, rank, 2);
    var k := Scopes(Three(p, q), groups, programmeOf)[w].key;
    ProgrammesSpeak(st, p, q, k, 0);
    OnlyFirstWins(st, p, q, k);
    ThreeAnswers(p, q);
  }

  lemma {:induction false} ThreeAnswers(p: Group, q: Group)
    requires p != q
    ensures Answer(Three(p, q), p, 2) == Some(2)
  {
    AnswerIsLeast(Three(p, q), p, 2);
    assert Three(p, q)[2].groups == [p] && Rank(Three(p, q), 2) == 2 && Rank(Three(p, q), 0) == 0;
    assert q !in [p] && Three(p, q)[1].groups == [q];
  }

  lemma OnlyFirstWins(st: Standing, p: Group, q: Group, k: Group)
    requires st.TopIn(p, 2) && st.StartsAt(p, 0) && st.StartsAt(q, 1) && (k == p || k == q)
    requires exists a :: st.CanWin(k, 2, a)
    ensures k == p
  {
    var a :| st.CanWin(k, 2, a);
    assert a <= 0;
  }
}
