/** A one-line text control: what it keeps of the text it is given. */
module TextControl {
  import opened Wrappers
  import opened JsText
  import opened JsonStrings
  import opened GroupText

  predicate IsBreak(u: Unit) {
    u == 0x0A || u == 0x0D
  }

  predicate OneLine(t: Text) {
    forall i :: 0 <= i < |t| ==> !IsBreak(t[i])
  }

  /** Value sanitization of a text input: line feeds and carriage returns are taken out. */
  function Kept(t: Text): (kept: Text)
    ensures OneLine(kept) && |kept| <= |t|
  {
    if t == [] then [] else KeptUnit(t[0]) + Kept(t[1..])
  }

  function KeptUnit(u: Unit): Text {
    if IsBreak(u) then [] else [u]
  }

  function KeptAll(groups: seq<Text>): seq<Text> {
    seq(|groups|, i requires 0 <= i < |groups| => Kept(groups[i]))
  }

  /** A text comes through whole exactly if it is one line. */
  lemma {:induction false} KeptWhole(t: Text)
    ensures Kept(t) == t <==> OneLine(t)
    ensures |Kept(t)| == |t| ==> Kept(t) == t
  {
    if t != [] {
      KeptWhole(t[1..]);
      if !IsBreak(t[0]) {
        assert Kept(t)[1..] == Kept(t[1..]);
        assert OneLine(t) <==> OneLine(t[1..]) by { assert forall i :: 0 < i < |t| ==> t[i] == t[1..][i - 1]; }
      } else {
        assert |Kept(t)| < |t|;
      }
    }
  }

  lemma {:induction false} KeptAdds(a: Text, b: Text)
    ensures Kept(a + b) == Kept(a) + Kept(b)
  {
    if a == [] {
      assert a + b == b;
    } else {
      KeptAdds(a[1..], b);
      assert (a + b)[1..] == a[1..] + b && (a + b)[0] == a[0];
      Assoc(KeptUnit(a[0]), Kept(a[1..]), Kept(b));
    }
  }

  /** Ink at the start stays at the start. */
  lemma KeptStart(t: Text)
    requires t != [] && !IsSpace(t[0])
    ensures Kept(t) != [] && Kept(t)[0] == t[0] && Trim(Kept(t)) != [] && Trim(Kept(t))[0] == t[0]
  {
    TrimSkipsSpace(Kept(t));
  }

  lemma {:induction false} TrimOneLine(t: Text)
    requires OneLine(t)
    ensures OneLine(Trim(t))
  {
    TrimStartOneLine(t);
    TrimEndOneLine(TrimStart(t));
  }

  lemma {:induction false} TrimStartOneLine(t: Text)
    requires OneLine(t)
    ensures OneLine(TrimStart(t))
  {
    if t != [] { TrimStartOneLine(t[1..]); }
  }

  lemma {:induction false} TrimEndOneLine(t: Text)
    requires OneLine(t)
    ensures OneLine(TrimEnd(t))
  {
    if t != [] { TrimEndOneLine(t[..|t| - 1]); }
  }

  // ---- a list of groups in such a control ----

  lemma {:induction false} KeptJoin(groups: seq<Text>)
    ensures Kept(Join(groups, [COMMA, SPACE])) == Join(KeptAll(groups), [COMMA, SPACE])
  {
    if |groups| > 1 {
      KeptJoin(groups[1..]);
      assert KeptAll(groups)[1..] == KeptAll(groups[1..]);
      var sep: Text := [COMMA, SPACE];
      KeptWhole(sep);
      KeptAdds(groups[0] + sep, Join(groups[1..], sep));
      KeptAdds(groups[0], sep);
    }
  }

  lemma OneLineAdds(a: Text, b: Text)
    ensures OneLine(a + b) <==> OneLine(a) && OneLine(b)
  {
    if OneLine(a + b) {
      assert forall i :: 0 <= i < |a| ==> (a + b)[i] == a[i];
      assert forall i :: 0 <= i < |b| ==> (a + b)[|a| + i] == b[i];
    }
  }

  lemma {:induction false} QuotedOneLine(s: Text)
    ensures OneLine(QuoteUnits(s))
  {
    if s == [] {
    } else if |s| >= 2 && IsHigh(s[0]) && IsLow(s[1]) {
      QuotedOneLine(s[2..]);
      OneLineAdds(s[..2], QuoteUnits(s[2..]));
    } else {
      QuotedOneLine(s[1..]);
      OneLineAdds(QuoteUnit(s[0]), QuoteUnits(s[1..]));
    }
  }

  lemma {:induction false} JoinOneLine(items: seq<Text>, sep: Text)
    requires OneLine(sep) && forall i :: 0 <= i < |items| ==> OneLine(items[i])
    ensures OneLine(Join(items, sep))
  {
    if |items| > 1 {
      JoinOneLine(items[1..], sep);
      OneLineAdds(items[0] + sep, Join(items[1..], sep));
      OneLineAdds(items[0], sep);
    }
  }

  /** The JSON form holds no line break: strings escape theirs. */
  lemma StringifyOneLine(items: seq<Text>)
    ensures OneLine(Stringify(items))
  {
    var quoted := seq(|items|, i requires 0 <= i < |items| => Quote(items[i]));
    forall i | 0 <= i < |items| ensures OneLine(quoted[i]) {
      QuotedOneLine(items[i]);
      OneLineAdds([QUOTE] + QuoteUnits(items[i]), [QUOTE]);
      OneLineAdds([QUOTE], QuoteUnits(items[i]));
    }
    JoinOneLine(quoted, [COMMA]);
    OneLineAdds([OPEN] + Join(quoted, [COMMA]), [CLOSE]);
    OneLineAdds([OPEN], Join(quoted, [COMMA]));
  }

  predicate NeedJson(groups: seq<Text>) {
    exists i :: 0 <= i < |groups| && NeedsJson(groups[i])
  }

  /** The groups that are read from a control which was given a list of groups. */
  function AsShown(groups: seq<Text>): seq<Text> {
    if NeedJson(groups) then groups else Clean(KeptAll(groups))
  }

  lemma KeptNeedsNoJson(g: Text)
    requires g != [] && Trim(g) == g && !NeedsJson(g)
    ensures !NeedsJson(Kept(g)) && Trim(Kept(g)) != []
  {
    TrimTwice(g);
    KeptStart(g);
    KeptHasNoMore(g, COMMA);
    TrimSkipsSpace(g);
  }

  lemma {:induction false} KeptHasNoMore(t: Text, u: Unit)
    requires u !in t
    ensures u !in Kept(t)
  {
    if t != [] { KeptHasNoMore(t[1..], u); }
  }

  /** What the control holds is read as `AsShown`, and its text is the one it was given exactly if
      that is one line. */
  lemma {:induction false} ShownReadsBack(groups: seq<Text>)
    requires IsClean(groups) && groups != []
    ensures GroupsOf(Kept(ShowGroups(groups))) == Some(AsShown(groups))
    ensures AsShown(groups) != [] && IsClean(AsShown(groups))
  {
    if NeedJson(groups) {
      StringifyOneLine(groups);
      KeptWhole(Stringify(groups));
      ShowThenRead(groups);
      CleanIsClean(groups);
    } else {
      forall i | 0 <= i < |groups| ensures !NeedsJson(KeptAll(groups)[i]) && Trim(KeptAll(groups)[i]) != [] {
        KeptNeedsNoJson(groups[i]);
      }
      KeptJoin(groups);
      ShowThenRead(KeptAll(groups));
      CleanIsClean(KeptAll(groups));
      DistinctMeans(TrimAll(KeptAll(groups)));
      assert TrimAll(KeptAll(groups))[0] in TrimAll(KeptAll(groups));
      assert TrimAll(KeptAll(groups))[0] in AsShown(groups);
    }
  }

  /** Exactly then nothing is lost. */
  lemma ShownWhole(groups: seq<Text>)
    requires IsClean(groups) && groups != []
    ensures AsShown(groups) == groups <==> OneLine(ShowGroups(groups))
  {
    ShownReadsBack(groups);
    if NeedJson(groups) {
      StringifyOneLine(groups);
    } else if OneLine(ShowGroups(groups)) {
      KeptWhole(ShowGroups(groups));
      ShowThenRead(groups);
      CleanIsClean(groups);
    } else if AsShown(groups) == groups {
      forall i | 0 <= i < |groups| ensures OneLine(groups[i]) {
        assert groups[i] in AsShown(groups);
        CleanedOneLine(groups, groups[i]);
      }
      JoinOneLine(groups, [COMMA, SPACE]);
    }
  }

  lemma CleanedOneLine(groups: seq<Text>, g: Text)
    requires g in Clean(KeptAll(groups))
    ensures OneLine(g)
  {
    var trimmed := TrimAll(KeptAll(groups));
    DistinctMeans(trimmed);
    var k :| 0 <= k < |trimmed| && trimmed[k] == g;
    TrimOneLine(KeptAll(groups)[k]);
  }
}
