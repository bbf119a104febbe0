/** The text form of a list of group names: comma separated, or JSON when a name needs it. */
module GroupText {
  import opened Wrappers
  import opened JsText
  import opened JsonStrings

  /** Whether a name cannot stand in the comma form. */
  predicate NeedsJson(group: Text) {
    COMMA in group || InkStartsWith(group, OPEN)
  }

  function ShowGroups(groups: seq<Text>): Text {
    if exists i :: 0 <= i < |groups| && NeedsJson(groups[i]) then Stringify(groups)
    else Join(groups, [COMMA, SPACE])
  }

  function TrimAll(groups: seq<Text>): seq<Text> {
    seq(|groups|, i requires 0 <= i < |groups| => Trim(groups[i]))
  }

  /** [...new Set(list without empty names)]: first occurrences, in order. */
  function Distinct(groups: seq<Text>): seq<Text> {
    if groups == [] then []
    else
      var rest := Distinct(groups[..|groups| - 1]);
      var last := groups[|groups| - 1];
      if last == [] || last in rest then rest else rest + [last]
  }

  /** Names trimmed, without empty ones and without repeats. */
  function Clean(groups: seq<Text>): seq<Text> {
    Distinct(TrimAll(groups))
  }

  /** groupsOf(text): None where a JSON form does not hold an array of strings. */
  function GroupsOf(text: Text): Option<seq<Text>> {
    if InkStartsWith(text, OPEN) then
      match Parse(text) case None => None case Some(groups) => Some(Clean(groups))
    else Some(Clean(Split(text, COMMA)))
  }

  /** groupsOf(text) where no control is there to report to. */
  function GroupsOrNone(text: Text): seq<Text> {
    match GroupsOf(text) case None => [] case Some(groups) => groups
  }

  /** What Distinct keeps: every name but the empty one, once, at its first place. */
  lemma {:induction false} DistinctMeans(groups: seq<Text>)
    ensures forall g :: g in Distinct(groups) <==> g in groups && g != []
    ensures forall i, j :: 0 <= i < j < |Distinct(groups)| ==> Distinct(groups)[i] != Distinct(groups)[j]
  {
    if groups != [] {
      DistinctMeans(groups[..|groups| - 1]);
      assert groups == groups[..|groups| - 1] + [groups[|groups| - 1]];
    }
  }

  /** Names come in the order in which they first appear. */
  lemma {:induction false} DistinctKeepsOrder(groups: seq<Text>, i: nat, j: nat) returns (p: nat, q: nat)
    requires i < j < |groups| && groups[i] != [] && groups[j] != []
    requires groups[i] !in groups[..i] && groups[j] !in groups[..j]
    ensures p < q < |Distinct(groups)| && Distinct(groups)[p] == groups[i] && Distinct(groups)[q] == groups[j]
  {
    var k := |groups| - 1;
    DistinctMeans(groups[..k]);
    if j < k {
      assert groups[..k][..i] == groups[..i] && groups[..k][..j] == groups[..j];
      p, q := DistinctKeepsOrder(groups[..k], i, j);
    } else {
      assert groups[..k][i] in groups[..k];
      assert groups[i] in Distinct(groups[..k]);
      p :| 0 <= p < |Distinct(groups[..k])| && Distinct(groups[..k])[p] == groups[i];
      q := |Distinct(groups[..k])|;
    }
  }

  /** A list that is clean already stays as it is. */
  lemma {:induction false} DistinctTwice(groups: seq<Text>)
    requires [] !in groups && forall i, j :: 0 <= i < j < |groups| ==> groups[i] != groups[j]
    ensures Distinct(groups) == groups
  {
    if groups != [] {
      DistinctTwice(groups[..|groups| - 1]);
    }
  }

  predicate IsClean(groups: seq<Text>) {
    && (forall i :: 0 <= i < |groups| ==> groups[i] != [] && Trim(groups[i]) == groups[i])
    && forall i, j :: 0 <= i < j < |groups| ==> groups[i] != groups[j]
  }

  /** Cleaning gives a clean list and leaves a clean list alone. */
  lemma CleanIsClean(groups: seq<Text>)
    ensures IsClean(Clean(groups))
    ensures IsClean(groups) ==> Clean(groups) == groups
  {
    var trimmed := TrimAll(groups);
    DistinctMeans(trimmed);
    forall i | 0 <= i < |Clean(groups)| ensures Clean(groups)[i] != [] && Trim(Clean(groups)[i]) == Clean(groups)[i] {
      assert Clean(groups)[i] in trimmed;
      var k :| 0 <= k < |trimmed| && trimmed[k] == Clean(groups)[i];
      TrimTwice(groups[k]);
    }
    if IsClean(groups) {
      assert trimmed == groups;
      DistinctTwice(groups);
    }
  }

  lemma CommaForm(first: Text, others: Text)
    ensures first + [COMMA, SPACE] + others == first + [COMMA] + ([SPACE] + others)
    ensures [SPACE] + (first + [COMMA, SPACE] + others) == ([SPACE] + first) + [COMMA] + ([SPACE] + others)
  {
    assert [COMMA, SPACE] == [COMMA] + [SPACE];
    Assoc(first, [COMMA], [SPACE]);
    Assoc(first + [COMMA], [SPACE], others);
    Assoc([SPACE], first + [COMMA], [SPACE] + others);
    Assoc([SPACE], first, [COMMA]);
  }

  lemma TrimAllSplit(first: Text, rest: Text)
    requires COMMA !in first
    ensures TrimAll(Split(first + [COMMA] + rest, COMMA)) == [Trim(first)] + TrimAll(Split(rest, COMMA))
  {
    SplitAfter(first, COMMA, rest);
    TrimAllCons(first, Split(rest, COMMA));
  }

  lemma TrimAllCons(first: Text, rest: seq<Text>)
    ensures TrimAll([first] + rest) == [Trim(first)] + TrimAll(rest)
  {
  }

  /** Splitting the comma form gives the names back, but for the spaces put between them. */
  lemma {:induction false} SplitJoin(groups: seq<Text>)
    requires groups != [] && forall i :: 0 <= i < |groups| ==> COMMA !in groups[i]
    ensures TrimAll(Split(Join(groups, [COMMA, SPACE]), COMMA)) == TrimAll(groups)
    ensures TrimAll(Split([SPACE] + Join(groups, [COMMA, SPACE]), COMMA)) == TrimAll(groups)
  {
    var first := groups[0];
    var spaced := [SPACE] + first;
    TrimSkipsSpace(spaced);
    assert spaced[1..] == first;
    assert groups == [first] + groups[1..];
    TrimAllCons(first, groups[1..]);
    if |groups| == 1 {
      SplitAfter(first, COMMA, []);
      SplitAfter(spaced, COMMA, []);
      TrimAllCons(spaced, []);
    } else {
      var others := Join(groups[1..], [COMMA, SPACE]);
      SplitJoin(groups[1..]);
      CommaForm(first, others);
      TrimAllSplit(first, [SPACE] + others);
      TrimAllSplit(spaced, [SPACE] + others);
    }
  }

  /** The comma form of names that do not need JSON is never taken for JSON. */
  lemma {:induction false} CommaFormIsNotJson(groups: seq<Text>)
    requires forall i :: 0 <= i < |groups| ==> !NeedsJson(groups[i])
    ensures !InkStartsWith(Join(groups, [COMMA, SPACE]), OPEN)
  {
    if |groups| > 1 {
      var rest := [COMMA, SPACE] + Join(groups[1..], [COMMA, SPACE]);
      assert Join(groups, [COMMA, SPACE]) == groups[0] + rest;
      InkOfConcat(groups[0], rest, OPEN);
      TrimSkipsSpace(rest);
    }
  }

  /** Round trip: for every list of names, reading what is shown gives the names, cleaned. */
  lemma ShowThenRead(groups: seq<Text>)
    ensures GroupsOf(ShowGroups(groups)) == Some(Clean(groups))
  {
    if exists i :: 0 <= i < |groups| && NeedsJson(groups[i]) {
      ParseStringify(groups);
      TrimSkipsSpace(Stringify(groups));
    } else {
      CommaFormIsNotJson(groups);
      if groups == [] {
        var one: seq<Text> := [[]];
        assert TrimAll(one) == one && one[..0] == [] && Distinct(one) == [];
      } else {
        SplitJoin(groups);
      }
    }
  }

  /** Reading, showing and reading again gives the same names. */
  lemma ReadShowRead(text: Text)
    ensures GroupsOf(text).Some? ==> GroupsOf(ShowGroups(GroupsOf(text).value)) == GroupsOf(text)
  {
    if GroupsOf(text).Some? {
      var groups := GroupsOf(text).value;
      ShowThenRead(groups);
      if InkStartsWith(text, OPEN) {
        CleanIsClean(Parse(text).value);
      } else {
        CleanIsClean(Split(text, COMMA));
      }
      CleanIsClean(groups);
    }
  }
}
