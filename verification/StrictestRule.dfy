/** Which of several matching rules holds: the strictest, and of equally strict choices what they
    share. The server compares twice, inside each partner scope and then across scopes. */
module StrictestRule {
  import opened PolicyRules
  import opened PartnerPolicy

  /** A rule as the comparison sees it; choices are compared by their JSON text. */
  datatype Entry = Entry(level: Level, allow: seq<string>)

  function Top(matched: seq<Entry>): (top: nat)
    ensures forall e :: e in matched ==> Strictness(e.level) <= top
  {
    if matched == [] then 0
    else
      var rest := Top(matched[1..]);
      assert matched == [matched[0]] + matched[1..];
      if Strictness(matched[0].level) > rest then Strictness(matched[0].level) else rest
  }

  function AtLevel(matched: seq<Entry>, rank: nat): (at: seq<Entry>)
    ensures forall e :: e in at <==> e in matched && Strictness(e.level) == rank
  {
    if matched == [] then []
    else
      var rest := AtLevel(matched[1..], rank);
      assert matched == [matched[0]] + matched[1..];
      if Strictness(matched[0].level) == rank then [matched[0]] + rest else rest
  }

  predicate AllAllow(choice: string, list: seq<Entry>) {
    forall e :: e in list ==> choice in e.allow
  }

  /** The choices that every entry of the list allows, in the order given. */
  function Keep(choices: seq<string>, list: seq<Entry>): (kept: seq<string>)
    ensures forall v :: v in kept <==> v in choices && AllAllow(v, list)
  {
    if choices == [] then []
    else
      var rest := Keep(choices[1..], list);
      assert choices == [choices[0]] + choices[1..];
      if AllAllow(choices[0], list) then [choices[0]] + rest else rest
  }

  lemma {:induction false} TopIsReached(matched: seq<Entry>)
    requires matched != []
    ensures AtLevel(matched, Top(matched)) != []
  {
    if |matched| > 1 && Strictness(matched[0].level) <= Top(matched[1..]) { TopIsReached(matched[1..]); }
  }

  /** strictest(matched) */
  function Strictest(matched: seq<Entry>): (r: Entry)
    requires matched != []
  {
    TopIsReached(matched);
    var atLevel := AtLevel(matched, Top(matched));
    var chosen := atLevel[0];
    if !chosen.level.Choice? || |atLevel| < 2 then chosen
    else
      var shared := Keep(chosen.allow, atLevel);
      if shared != [] then chosen.(allow := shared) else chosen
  }

  /** No rule is stricter, and nothing is offered that the first of the strictest does not allow. */
  lemma StrictestBounds(matched: seq<Entry>)
    requires matched != []
    ensures Strictness(Strictest(matched).level) == Top(matched)
    ensures AtLevel(matched, Top(matched)) != []
    ensures forall v :: v in Strictest(matched).allow ==> v in AtLevel(matched, Top(matched))[0].allow
    ensures AtLevel(matched, Top(matched))[0].allow != [] ==> Strictest(matched).allow != []
  {
    TopIsReached(matched);
    assert AtLevel(matched, Top(matched))[0] in AtLevel(matched, Top(matched));
  }

  lemma {:induction false} KeepAll(choices: seq<string>, list: seq<Entry>)
    requires forall v :: v in choices ==> AllAllow(v, list)
    ensures Keep(choices, list) == choices
  {
    if choices != [] { KeepAll(choices[1..], list); }
  }

  lemma {:induction false} KeepTwice(choices: seq<string>, a: seq<Entry>, b: seq<Entry>, both: seq<Entry>)
    requires forall v :: AllAllow(v, both) <==> AllAllow(v, a) && AllAllow(v, b)
    ensures Keep(Keep(choices, a), b) == Keep(choices, both)
  {
    if choices != [] {
      KeepTwice(choices[1..], a, b, both);
      var rest := Keep(choices[1..], a);
      assert ([choices[0]] + rest)[1..] == rest;
    }
  }

  /** Some choice is allowed by every rule that is as strict as the strictest. */
  predicate Shares(matched: seq<Entry>, w: string) {
    Top(matched) == Strictness(Choice) ==> AllAllow(w, AtLevel(matched, Top(matched)))
  }

  /** Where choices share something, exactly what they share is offered. */
  lemma {:induction false} SharedIsKept(matched: seq<Entry>, w: string)
    requires matched != [] && Top(matched) == Strictness(Choice) && Shares(matched, w)
    ensures var atLevel := AtLevel(matched, Top(matched));
      atLevel != [] && Strictest(matched) == atLevel[0].(allow := Keep(atLevel[0].allow, atLevel))
    ensures forall v :: v in Strictest(matched).allow <==> AllAllow(v, AtLevel(matched, Top(matched)))
  {
    TopIsReached(matched);
    var atLevel := AtLevel(matched, Top(matched));
    assert atLevel[0] in atLevel;
    if |atLevel| == 1 {
      assert forall e :: e in atLevel ==> e == atLevel[0];
      KeepAll(atLevel[0].allow, atLevel);
    } else {
      assert w in Keep(atLevel[0].allow, atLevel);
    }
  }

  // ---- twice is once ----

  /** Scopes that have a rule. */
  predicate Filled(scopes: seq<seq<Entry>>) {
    forall i :: 0 <= i < |scopes| ==> scopes[i] != []
  }

  function PicksOf(scopes: seq<seq<Entry>>): seq<Entry>
    requires Filled(scopes)
  {
    if scopes == [] then [] else [Strictest(scopes[0])] + PicksOf(scopes[1..])
  }

  function Flat(scopes: seq<seq<Entry>>): seq<Entry> {
    if scopes == [] then [] else scopes[0] + Flat(scopes[1..])
  }

  lemma {:induction false} TopAdds(a: seq<Entry>, b: seq<Entry>)
    ensures Top(a + b) == if Top(a) >= Top(b) then Top(a) else Top(b)
  {
    if a == [] {
      assert a + b == b;
    } else {
      TopAdds(a[1..], b);
      assert (a + b)[1..] == a[1..] + b;
    }
  }

  lemma {:induction false} AtLevelAdds(a: seq<Entry>, b: seq<Entry>, rank: nat)
    ensures AtLevel(a + b, rank) == AtLevel(a, rank) + AtLevel(b, rank)
  {
    if a == [] {
      assert a + b == b;
    } else {
      AtLevelAdds(a[1..], b, rank);
      assert (a + b)[1..] == a[1..] + b;
    }
  }

  lemma {:induction false} AboveIsEmpty(a: seq<Entry>, rank: nat)
    requires Top(a) < rank
    ensures AtLevel(a, rank) == []
  {
    if a != [] { AboveIsEmpty(a[1..], rank); }
  }

  lemma TopOfOne(e: Entry, rank: nat)
    ensures Top([e]) == Strictness(e.level)
    ensures AtLevel([e], rank) == if Strictness(e.level) == rank then [e] else []
  {
    assert [e][1..] == [];
  }

  lemma {:induction false} SameTop(scopes: seq<seq<Entry>>)
    requires Filled(scopes)
    ensures Top(PicksOf(scopes)) == Top(Flat(scopes))
  {
    if scopes != [] {
      SameTop(scopes[1..]);
      StrictestBounds(scopes[0]);
      TopAdds(scopes[0], Flat(scopes[1..]));
      TopOfOne(Strictest(scopes[0]), 0);
      TopAdds([Strictest(scopes[0])], PicksOf(scopes[1..]));
    }
  }

  /** The levels of the first scope and of the others. */
  lemma TopsOf(scopes: seq<seq<Entry>>)
    requires scopes != []
    ensures Top(Flat(scopes[1..])) <= Top(Flat(scopes)) && Top(scopes[0]) <= Top(Flat(scopes))
  {
    TopAdds(scopes[0], Flat(scopes[1..]));
  }

  lemma LevelsOf(scopes: seq<seq<Entry>>, rank: nat)
    requires Filled(scopes) && scopes != []
    ensures AtLevel(Flat(scopes), rank) == AtLevel(scopes[0], rank) + AtLevel(Flat(scopes[1..]), rank)
    ensures AtLevel(PicksOf(scopes), rank) ==
      (if Top(scopes[0]) == rank then [Strictest(scopes[0])] else []) + AtLevel(PicksOf(scopes[1..]), rank)
    ensures Top(Flat(scopes[1..])) <= Top(Flat(scopes)) && Top(scopes[0]) <= Top(Flat(scopes))
  {
    TopsOf(scopes);
    AtLevelAdds(scopes[0], Flat(scopes[1..]), rank);
    StrictestBounds(scopes[0]);
    TopOfOne(Strictest(scopes[0]), rank);
    AtLevelAdds([Strictest(scopes[0])], PicksOf(scopes[1..]), rank);
  }

  /** At a level without choices, the first rule is the same after the first comparison. */
  lemma {:induction false} SameFirst(scopes: seq<seq<Entry>>, rank: nat)
    requires Filled(scopes) && Top(Flat(scopes)) <= rank && rank != Strictness(Choice)
    ensures var p, f := AtLevel(PicksOf(scopes), rank), AtLevel(Flat(scopes), rank);
      (p == [] <==> f == []) && (p != [] ==> p[0] == f[0])
  {
    if scopes != [] {
      LevelsOf(scopes, rank);
      SameFirst(scopes[1..], rank);
      if Top(scopes[0]) == rank {
        StrictestBounds(scopes[0]);
        assert AtLevel(scopes[0], rank)[0] in AtLevel(scopes[0], rank);
      } else {
        AboveIsEmpty(scopes[0], rank);
      }
    }
  }

  lemma AllAllowAdds(v: string, a: seq<Entry>, b: seq<Entry>)
    ensures AllAllow(v, a + b) <==> AllAllow(v, a) && AllAllow(v, b)
  {
    if AllAllow(v, a + b) {
      forall e | e in a ensures v in e.allow { assert e in a + b; }
      forall e | e in b ensures v in e.allow { assert e in a + b; }
    }
  }

  lemma ChoiceStep(own: seq<Entry>, others: seq<Entry>, pick: Entry, picks: seq<Entry>, v: string)
    requires v in pick.allow <==> AllAllow(v, own)
    requires AllAllow(v, picks) <==> AllAllow(v, others)
    ensures AllAllow(v, [pick] + picks) <==> AllAllow(v, own + others)
    ensures AllAllow(v, own + others) ==> AllAllow(v, own)
  {
    AllAllowAdds(v, [pick], picks);
    AllAllowAdds(v, own, others);
    assert AllAllow(v, [pick]) <==> v in pick.allow;
  }

  /** Among choices that share something, the same is allowed by all after the first comparison,
      and the first one was narrowed only to what `narrowed` allows. */
  lemma {:induction false} SameChoices(scopes: seq<seq<Entry>>, w: string) returns (narrowed: seq<Entry>)
    requires Filled(scopes) && Top(Flat(scopes)) <= 1 && AllAllow(w, AtLevel(Flat(scopes), 1))
    ensures var p, f := AtLevel(PicksOf(scopes), 1), AtLevel(Flat(scopes), 1);
      && (p == [] <==> f == [])
      && (p != [] ==> p[0] == f[0].(allow := Keep(f[0].allow, narrowed)))
    ensures forall v :: AllAllow(v, AtLevel(PicksOf(scopes), 1)) <==> AllAllow(v, AtLevel(Flat(scopes), 1))
    ensures forall v :: AllAllow(v, AtLevel(Flat(scopes), 1)) ==> AllAllow(v, narrowed)
  {
    narrowed := [];
    if scopes != [] {
      LevelsOf(scopes, 1);
      var own, others := AtLevel(scopes[0], 1), AtLevel(Flat(scopes[1..]), 1);
      AllAllowAdds(w, own, others);
      var later := SameChoices(scopes[1..], w);
      if Top(scopes[0]) == 1 {
        narrowed := own;
        SharedIsKept(scopes[0], w);
        var picks := AtLevel(PicksOf(scopes[1..]), 1);
        forall v ensures AllAllow(v, [Strictest(scopes[0])] + picks) <==> AllAllow(v, own + others)
          ensures AllAllow(v, own + others) ==> AllAllow(v, own)
        {
          ChoiceStep(own, others, Strictest(scopes[0]), picks, v);
        }
      } else {
        AboveIsEmpty(scopes[0], 1);
        narrowed := later;
      }
    }
  }

  /** Comparing inside each scope and then across scopes is comparing all the rules at once, unless
      choices decide and have nothing in common. */
  lemma TwiceIsOnce(scopes: seq<seq<Entry>>, w: string)
    requires Filled(scopes) && scopes != []
    requires Shares(Flat(scopes), w)
    ensures PicksOf(scopes) != [] && Flat(scopes) != [] && Strictest(PicksOf(scopes)) == Strictest(Flat(scopes))
  {
    var picks, flat := PicksOf(scopes), Flat(scopes);
    SameTop(scopes);
    TopIsReached(flat);
    TopIsReached(picks);
    if Top(flat) == Strictness(Choice) {
      var narrowed := SameChoices(scopes, w);
      SharedIsKept(flat, w);
      SharedIsKept(picks, w);
      var p, f := AtLevel(picks, 1), AtLevel(flat, 1);
      KeepTwice(f[0].allow, narrowed, p, f);
    } else {
      SameFirst(scopes, Top(flat));
      assert AtLevel(flat, Top(flat))[0] in AtLevel(flat, Top(flat));
    }
  }

  /** The choices of the first strictest rule are cut, but not all of them. */
  predicate Narrows(matched: seq<Entry>) {
    var atLevel := AtLevel(matched, Top(matched));
    atLevel != [] && |Keep(atLevel[0].allow, atLevel)| < |atLevel[0].allow| && Keep(atLevel[0].allow, atLevel) != []
  }

  lemma {:induction false} KeepShortens(choices: seq<string>, list: seq<Entry>)
    ensures |Keep(choices, list)| <= |choices|
    ensures |Keep(choices, list)| == |choices| ==> Keep(choices, list) == choices
  {
    if choices != [] { KeepShortens(choices[1..], list); }
  }

  lemma {:induction false} KeepsNothing(choices: seq<string>, list: seq<Entry>)
    requires forall v :: v in choices ==> !AllAllow(v, list)
    ensures Keep(choices, list) == []
  {
    if choices != [] { KeepsNothing(choices[1..], list); }
  }

  /** The first strictest rule comes out whole exactly if its choices are not cut. */
  lemma {:induction false} WholeUnlessNarrowed(matched: seq<Entry>)
    requires matched != [] && Top(matched) == Strictness(Choice)
    ensures var atLevel := AtLevel(matched, Top(matched));
      && atLevel != [] && Strictest(matched) == atLevel[0].(allow := Strictest(matched).allow)
      && |Strictest(matched).allow| <= |atLevel[0].allow|
      && (|Strictest(matched).allow| == |atLevel[0].allow| <==> !Narrows(matched))
      && (!Narrows(matched) ==> Strictest(matched) == atLevel[0])
  {
    TopIsReached(matched);
    var atLevel := AtLevel(matched, Top(matched));
    assert atLevel[0] in atLevel;
    KeepShortens(atLevel[0].allow, atLevel);
    if |atLevel| == 1 {
      assert forall e :: e in atLevel ==> e == atLevel[0];
      KeepAll(atLevel[0].allow, atLevel);
    }
  }

  /** The first scope that has a rule of the top rank. */
  function Leader(scopes: seq<seq<Entry>>, rank: nat): (k: nat)
    ensures k <= |scopes| && (k < |scopes| ==> Top(scopes[k]) == rank)
  {
    if scopes == [] || Top(scopes[0]) == rank then 0 else 1 + Leader(scopes[1..], rank)
  }

  lemma {:induction false} LeaderFirst(scopes: seq<seq<Entry>>, rank: nat)
    requires Filled(scopes) && Top(Flat(scopes)) <= rank && AtLevel(Flat(scopes), rank) != []
    ensures var k := Leader(scopes, rank);
      && k < |scopes| && AtLevel(scopes[k], rank) != [] && AtLevel(PicksOf(scopes), rank) != []
      && AtLevel(Flat(scopes), rank)[0] == AtLevel(scopes[k], rank)[0]
      && AtLevel(PicksOf(scopes), rank)[0] == Strictest(scopes[k])
  {
    LevelsOf(scopes, rank);
    if Top(scopes[0]) == rank {
      StrictestBounds(scopes[0]);
    } else {
      AboveIsEmpty(scopes[0], rank);
      LeaderFirst(scopes[1..], rank);
    }
  }

  /** Choices with nothing in common: comparing twice is comparing once exactly if neither the leading
      scope nor the comparison across scopes cuts some choices and not all. */
  lemma NothingInCommon(scopes: seq<seq<Entry>>)
    requires Filled(scopes) && scopes != [] && Top(Flat(scopes)) == Strictness(Choice)
    requires forall w :: !AllAllow(w, AtLevel(Flat(scopes), Top(Flat(scopes))))
    ensures PicksOf(scopes) != [] && Flat(scopes) != [] && Leader(scopes, Strictness(Choice)) < |scopes|
    ensures Strictest(PicksOf(scopes)) == Strictest(Flat(scopes)) <==>
      !Narrows(scopes[Leader(scopes, Strictness(Choice))]) && !Narrows(PicksOf(scopes))
  {
    var picks, flat := PicksOf(scopes), Flat(scopes);
    TopIsReached(flat);
    LeaderFirst(scopes, 1);
    var k := Leader(scopes, 1);
    SameTop(scopes);
    WholeUnlessNarrowed(flat);
    WholeUnlessNarrowed(scopes[k]);
    WholeUnlessNarrowed(picks);
    var f := AtLevel(flat, 1);
    KeepsNothing(f[0].allow, f);
  }

  lemma TwoChoices(x: Entry, y: Entry)
    requires x.level.Choice? && y.level.Choice?
    ensures Top([x, y]) == 1 && AtLevel([x, y], 1) == [x, y]
    ensures Strictest([x, y]) == if Keep(x.allow, [x, y]) != [] then x.(allow := Keep(x.allow, [x, y])) else x
  {
    TopOfOne(y, 1);
    assert [x, y][1..] == [y];
  }

  lemma KeepTwo(list: seq<Entry>)
    ensures Keep(["a", "b"], list) == (if AllAllow("a", list) then ["a"] else [])
        + (if AllAllow("b", list) then ["b"] else [])
    ensures Keep(["b"], list) == if AllAllow("b", list) then ["b"] else []
  {
    var two, one := ["a", "b"], ["b"];
    assert two[1..] == one && one[1..] == [];
    assert Keep(one[1..], list) == [];
    assert Keep(two, list) == if AllAllow("a", list) then ["a"] + Keep(one, list) else Keep(one, list);
  }

  const A_OR_B := Entry(Choice, ["a", "b"])
  const B_ONLY := Entry(Choice, ["b"])
  const A_ONLY := Entry(Choice, ["a"])

  lemma Refused(list: seq<Entry>, e: Entry, v: string)
    requires e in list && v !in e.allow
    ensures !AllAllow(v, list)
  {
  }

  lemma {:induction false} ScopeByScope()
    ensures Strictest([Strictest([A_OR_B, B_ONLY]), Strictest([A_ONLY])]) == B_ONLY
  {
    var first, both := [A_OR_B, B_ONLY], [B_ONLY, A_ONLY];
    TwoChoices(A_OR_B, B_ONLY);
    assert first[1] == B_ONLY && both[1] == A_ONLY;
    Refused(first, B_ONLY, "a");
    KeepTwo(first);
    assert AllAllow("b", first);
    TopOfOne(A_ONLY, 1);
    TwoChoices(B_ONLY, A_ONLY);
    Refused(both, A_ONLY, "b");
    KeepTwo(both);
  }

  lemma {:induction false} AllAtOnce()
    ensures Strictest([A_OR_B, B_ONLY, A_ONLY]) == A_OR_B
  {
    var all := [A_OR_B, B_ONLY, A_ONLY];
    TwoChoices(B_ONLY, A_ONLY);
    assert all[1..] == [B_ONLY, A_ONLY];
    assert AtLevel(all, 1) == all && Top(all) == 1;
    assert all[1] == B_ONLY && all[2] == A_ONLY;
    Refused(all, B_ONLY, "a");
    Refused(all, A_ONLY, "b");
    KeepTwo(all);
  }

  /** A case in which they differ. */
  lemma NarrowedByOrder()
    ensures Strictest([Strictest([A_OR_B, B_ONLY]), Strictest([A_ONLY])]) != Strictest([A_OR_B, B_ONLY, A_ONLY])
  {
    ScopeByScope();
    AllAtOnce();
  }
}
