/** A token set as it is written, nested, and as it is used: one flat map from dotted names. */
module TokenSets {
  import opened Wrappers
  import opened Strings
  import opened AliasChains

  /** A value that is no object; a token, with whatever else its object holds; or a group. The
      members of a group come in the order in which they are written. */
  datatype Node =
    | Scalar
    | Token(raw: Raw, ownType: Option<string>)
    | Group(groupType: Option<string>, members: seq<(string, Node)>)

  /** A flattened token, with its own type or the nearest one above it. */
  datatype Entry = Entry(raw: Raw, kind: Option<string>)

  type Path = seq<string>

  function Typed(own: Option<string>, inherited: Option<string>): Option<string> {
    if own.Some? then own else inherited
  }

  predicate IsMeta(name: string) {
    name != "" && name[0] == '$'
  }

  function Dotted(path: Path): string {
    if path == [] then ""
    else if |path| == 1 then path[0]
    else path[0] + "." + Dotted(path[1..])
  }

  /** The tokens under a node in the order in which they are met, each with its path. */
  function Tokens(node: Node, path: Path, inherited: Option<string>): seq<(Path, Entry)>
    decreases node, 0
  {
    match node
    case Scalar => []
    case Token(raw, own) => [(path, Entry(raw, Typed(own, inherited)))]
    case Group(own, members) => TokensOf(node, members, path, Typed(own, inherited))
  }

  function TokensOf(group: Node, members: seq<(string, Node)>, path: Path, inherited: Option<string>): seq<(Path,
      Entry)>
    requires forall m :: m in members ==> m.1 < group
    decreases group, 0, |members|
  {
    if members == [] then []
    else
      var n := |members| - 1;
      assert members[n] in members;
      var (name, member) := members[n];
      TokensOf(group, members[..n], path, inherited) +
      if IsMeta(name) then [] else Tokens(member, path + [name], inherited)
  }

  /** Each token is put under its dotted name; a later one replaces an earlier one. */
  function Put(out: map<string, Entry>, tokens: seq<(Path, Entry)>): map<string, Entry> {
    if tokens == [] then out
    else
      var n := |tokens| - 1;
      Put(out, tokens[..n])[Dotted(tokens[n].0) := tokens[n].1]
  }

  lemma {:induction false} PutAdds(out: map<string, Entry>, a: seq<(Path, Entry)>, b: seq<(Path, Entry)>)
    ensures Put(out, a + b) == Put(Put(out, a), b)
  {
    if b == [] {
      assert a + b == a;
    } else {
      var n := |b| - 1;
      PutAdds(out, a, b[..n]);
      assert (a + b)[..|a + b| - 1] == a + b[..n];
    }
  }

  lemma TokensStep(group: Node, members: seq<(string, Node)>, i: nat, path: Path, inherited: Option<string>)
    requires (forall m :: m in members ==> m.1 < group) && i < |members|
    ensures var before := TokensOf(group, members[..i], path, inherited);
      TokensOf(group, members[..i + 1], path, inherited) ==
      if IsMeta(members[i].0) then before else before + Tokens(members[i].1, path + [members[i].0], inherited)
  {
    var now := members[..i + 1];
    assert now[..|now| - 1] == members[..i] && now[|now| - 1] == members[i];
  }

  /** flattenTokenSet(node, path, inheritedType, out) */
  method Flatten(node: Node, path: Path, inherited: Option<string>, out: map<string, Entry>)
      returns (after: map<string, Entry>)
    ensures after == Put(out, Tokens(node, path, inherited))
    decreases node
  {
    match node
    case Scalar =>
      after := out;
    case Token(raw, own) =>
      after := out[Dotted(path) := Entry(raw, Typed(own, inherited))];
      var one := [(path, Entry(raw, Typed(own, inherited)))];
      assert one[..0] == [];
    case Group(own, members) =>
      var kind := Typed(own, inherited);
      after := out;
      for i := 0 to |members|
        invariant after == Put(out, TokensOf(node, members[..i], path, kind))
      {
        var (name, member) := members[i];
        assert members[i] in members;
        TokensStep(node, members, i, path, kind);
        if !IsMeta(name) {
          PutAdds(out, TokensOf(node, members[..i], path, kind), Tokens(member, path + [name], kind));
          after := Flatten(member, path + [name], kind, after);
        }
      }
      assert members[..|members|] == members;
  }

  // ---- what the flat map means ----

  predicate LastAt(tokens: seq<(Path, Entry)>, key: string, i: nat) {
    && i < |tokens| && Dotted(tokens[i].0) == key
    && forall j :: i < j < |tokens| ==> Dotted(tokens[j].0) != key
  }

  /** A name is in the map exactly if some token has it, with the last such token. */
  lemma {:induction false} PutTakesLast(tokens: seq<(Path, Entry)>, key: string) returns (i: nat)
    ensures key in Put(map[], tokens) <==> exists j :: 0 <= j < |tokens| && Dotted(tokens[j].0) == key
    ensures key in Put(map[], tokens) ==> LastAt(tokens, key, i) && Put(map[], tokens)[key] == tokens[i].1
  {
    i := 0;
    if tokens != [] {
      var n := |tokens| - 1;
      var before := tokens[..n];
      assert forall j :: 0 <= j < n ==> tokens[j] == before[j];
      if Dotted(tokens[n].0) == key { i := n; } else { i := PutTakesLast(before, key); }
    }
  }

  /** The token that a path leads to: members by name, a later one of the same name first, past
      no token and into no metadata. */
  function At(node: Node, path: Path, inherited: Option<string>): Option<Entry>
    decreases node, 0
  {
    match node
    case Scalar => None
    case Token(raw, own) => if path == [] then Some(Entry(raw, Typed(own, inherited))) else None
    case Group(own, members) =>
      if path == [] || IsMeta(path[0]) then None else AtMember(node, members, path, Typed(own, inherited))
  }

  function AtMember(group: Node, members: seq<(string, Node)>, path: Path, inherited: Option<string>): Option<Entry>
    requires path != [] && forall m :: m in members ==> m.1 < group
    decreases group, 0, |members|
  {
    if members == [] then None
    else
      var n := |members| - 1;
      assert members[n] in members;
      if members[n].0 == path[0] then At(members[n].1, path[1..], inherited)
      else AtMember(group, members[..n], path, inherited)
  }

  /** Names written once in their group, as in every JSON object. */
  predicate Once(members: seq<(string, Node)>) {
    forall i, j :: 0 <= i < j < |members| ==> members[i].0 != members[j].0
  }

  predicate WellFormed(node: Node)
    decreases node
  {
    node.Group? ==> Once(node.members) && forall m :: m in node.members ==> WellFormed(m.1)
  }

  /** Every token met below a path has a path that goes on from it. */
  lemma {:induction false} TokensGoOn(node: Node, base: Path, inherited: Option<string>, t: (Path, Entry))
    requires t in Tokens(node, base, inherited)
    ensures base <= t.0
    decreases node, 0
  {
    if node.Group? { MembersGoOn(node, node.members, base, Typed(node.groupType, inherited), t); }
  }

  lemma {:induction false} MembersGoOn(group: Node, members: seq<(string, Node)>, base: Path,
      inherited: Option<string>, t: (Path, Entry))
    requires (forall m :: m in members ==> m.1 < group) && t in TokensOf(group, members, base, inherited)
    ensures base <= t.0
    decreases group, 0, |members|
  {
    var n := |members| - 1;
    assert members[n] in members;
    if t in TokensOf(group, members[..n], base, inherited) {
      MembersGoOn(group, members[..n], base, inherited, t);
    } else {
      TokensGoOn(members[n].1, base + [members[n].0], inherited, t);
      assert base <= base + [members[n].0];
    }
  }

  lemma {:induction false} NoSuchMember(group: Node, members: seq<(string, Node)>, path: Path,
      inherited: Option<string>)
    requires path != [] && (forall m :: m in members ==> m.1 < group && m.0 != path[0])
    ensures AtMember(group, members, path, inherited).None?
    decreases |members|
  {
    if members != [] {
      assert members[|members| - 1] in members;
      NoSuchMember(group, members[..|members| - 1], path, inherited);
    }
  }

  /** Whether a token met below one member can be the one at `path`. */
  lemma OnlyBelow(name: string, member: Node, base: Path, inherited: Option<string>, path: Path, e: Entry)
    requires (base + path, e) in Tokens(member, base + [name], inherited)
    ensures path != [] && path[0] == name
  {
    TokensGoOn(member, base + [name], inherited, (base + path, e));
    assert (base + [name])[|base|] == name;
  }

  /** The tokens met are exactly those that paths lead to. */
  lemma {:induction false} MetIsFound(node: Node, base: Path, inherited: Option<string>, path: Path, e: Entry)
    requires WellFormed(node)
    ensures (base + path, e) in Tokens(node, base, inherited) <==> At(node, path, inherited) == Some(e)
    decreases node, 0
  {
    match node
    case Scalar =>
    case Token(raw, own) =>
      if base + path == base { assert |path| == 0; }
    case Group(own, members) =>
      MembersFound(node, members, base, Typed(own, inherited), path, e);
  }

  lemma {:induction false} MembersFound(group: Node, members: seq<(string, Node)>, base: Path,
      inherited: Option<string>, path: Path, e: Entry)
    requires (forall m :: m in members ==> m.1 < group && WellFormed(m.1)) && Once(members)
    ensures (base + path, e) in TokensOf(group, members, base, inherited) <==>
      path != [] && !IsMeta(path[0]) && AtMember(group, members, path, inherited) == Some(e)
    decreases group, 0, |members|
  {
    if members != [] {
      var n := |members| - 1;
      assert members[n] in members;
      var (name, member) := members[n];
      MembersFound(group, members[..n], base, inherited, path, e);
      if path != [] && path[0] == name {
        NoSuchMember(group, members[..n], path, inherited);
        assert base + path == (base + [name]) + path[1..];
        MetIsFound(member, base + [name], inherited, path[1..], e);
      } else if (base + path, e) in Tokens(member, base + [name], inherited) {
        OnlyBelow(name, member, base, inherited, path, e);
      }
    }
  }

  // ---- dotted names ----

  predicate Dotless(name: string) {
    '.' !in name
  }

  ghost predicate NoDots(node: Node)
    decreases node
  {
    node.Group? ==> forall m :: m in node.members ==> Dotless(m.0) && NoDots(m.1)
  }

  predicate PlainPath(path: Path) {
    forall i :: 0 <= i < |path| ==> Dotless(path[i])
  }

  lemma HasDot(path: Path)
    requires |path| > 1
    ensures '.' in Dotted(path)
  {
    assert Dotted(path)[|path[0]|] == '.';
  }

  /** Paths of names without dots keep apart when they are dotted. */
  lemma {:induction false} DottedApart(p: Path, q: Path)
    requires PlainPath(p) && PlainPath(q) && p != [] && q != [] && Dotted(p) == Dotted(q)
    ensures p == q
  {
    if |p| == 1 {
      if |q| > 1 { HasDot(q); }
    } else {
      HasDot(p);
      if |q| > 1 {
        FirstMark(p[0], q[0], '.', Dotted(p[1..]), Dotted(q[1..]));
        DottedApart(p[1..], q[1..]);
        assert p == [p[0]] + p[1..] && q == [q[0]] + q[1..];
      }
    }
  }

  lemma {:induction false} PathsArePlain(node: Node, path: Path, inherited: Option<string>)
    requires NoDots(node) && At(node, path, inherited).Some?
    ensures PlainPath(path)
    decreases node, 0
  {
    if node.Group? { MemberPathsArePlain(node, node.members, path, Typed(node.groupType, inherited)); }
  }

  lemma {:induction false} MemberPathsArePlain(group: Node, members: seq<(string, Node)>, path: Path,
      inherited: Option<string>)
    requires path != [] && forall m :: m in members ==> m.1 < group && Dotless(m.0) && NoDots(m.1)
    requires AtMember(group, members, path, inherited).Some?
    ensures PlainPath(path)
    decreases group, 0, |members|
  {
    var n := |members| - 1;
    assert members[n] in members;
    if members[n].0 == path[0] {
      PathsArePlain(members[n].1, path[1..], inherited);
      assert path == [path[0]] + path[1..];
    } else {
      MemberPathsArePlain(group, members[..n], path, inherited);
    }
  }

  /** In a set whose names hold no dots, a name in the flat map is a path in the set, and the map
      holds exactly the token that the path leads to. */
  lemma FlatIsNested(members: seq<(string, Node)>, own: Option<string>, path: Path)
    requires var node := Group(own, members); WellFormed(node) && NoDots(node)
    requires path != [] && PlainPath(path)
    ensures var node := Group(own, members);
      var flat := Put(map[], Tokens(node, [], None));
      if Dotted(path) in flat then At(node, path, None) == Some(flat[Dotted(path)]) else At(node, path, None) == None
  {
    var node := Group(own, members);
    var tokens := Tokens(node, [], None);
    var i := PutTakesLast(tokens, Dotted(path));
    if Dotted(path) in Put(map[], tokens) {
      var (met, e) := tokens[i];
      assert [] + met == met && (met, e) in tokens;
      MetIsFound(node, [], None, met, e);
      PathsArePlain(node, met, None);
      DottedApart(met, path);
    } else {
      assert [] + path == path;
      forall e ensures At(node, path, None) != Some(e) { MetIsFound(node, [], None, path, e); }
    }
  }
}
