/** Links between documents: a link is resolved like a file path, against the directory of the page
    that holds it. */
module DocPaths {
  import opened JsText

  const SLASH: Unit := 0x2F
  const DOT: Unit := 0x2E

  predicate Skipped(part: Text) {
    part == [] || part == [DOT]
  }

  predicate Up(part: Text) {
    part == [DOT, DOT]
  }

  /** Where the parts lead from a place: up never leaves the root. */
  function Walk(place: seq<Text>, parts: seq<Text>): seq<Text>
    decreases |parts|
  {
    if parts == [] then place
    else
      var next := if Skipped(parts[0]) then place
                  else if Up(parts[0]) then (if place == [] then [] else place[..|place| - 1])
                  else place + [parts[0]];
      Walk(next, parts[1..])
  }

  function Parts(dir: Text, href: Text): seq<Text> {
    (if dir == [] then [] else Split(dir, SLASH)) + Split(href, SLASH)
  }

  function Resolved(dir: Text, href: Text): Text {
    Join(Walk([], Parts(dir, href)), [SLASH])
  }

  method ResolveDocPath(dir: Text, href: Text) returns (path: Text)
    ensures path == Resolved(dir, href)
  {
    var parts := Parts(dir, href);
    var out: seq<Text> := [];
    for i := 0 to |parts|
      invariant Walk([], parts) == Walk(out, parts[i..])
    {
      assert parts[i..][1..] == parts[i + 1..];
      var p := parts[i];
      if p == [] || p == [DOT] { continue; }
      if p == [DOT, DOT] {
        if out != [] { out := out[..|out| - 1]; }
        continue;
      }
      out := out + [p];
    }
    path := Join(out, [SLASH]);
  }

  // ---- what is promised ----

  /** A place: named parts only. */
  predicate Plain(place: seq<Text>) {
    forall p :: p in place ==> !Skipped(p) && !Up(p) && SLASH !in p
  }

  lemma {:induction false} WalkIsPlain(place: seq<Text>, parts: seq<Text>)
    requires Plain(place) && forall p :: p in parts ==> SLASH !in p
    ensures Plain(Walk(place, parts))
    decreases |parts|
  {
    if parts != [] {
      var next := if Skipped(parts[0]) then place
                  else if Up(parts[0]) then (if place == [] then [] else place[..|place| - 1])
                  else place + [parts[0]];
      WalkIsPlain(next, parts[1..]);
    }
  }

  /** Walking on is walking from where the first walk ended. */
  lemma {:induction false} WalkOn(place: seq<Text>, a: seq<Text>, b: seq<Text>)
    ensures Walk(place, a + b) == Walk(Walk(place, a), b)
    decreases |a|
  {
    if a == [] {
      assert a + b == b;
    } else {
      assert (a + b)[0] == a[0] && (a + b)[1..] == a[1..] + b;
      var next := if Skipped(a[0]) then place
                  else if Up(a[0]) then (if place == [] then [] else place[..|place| - 1])
                  else place + [a[0]];
      WalkOn(next, a[1..], b);
    }
  }

  lemma {:induction false} WalkPlain(place: seq<Text>, parts: seq<Text>)
    requires Plain(parts)
    ensures Walk(place, parts) == place + parts
    decreases |parts|
  {
    if parts == [] {
      assert place + parts == place;
    } else {
      WalkPlain(place + [parts[0]], parts[1..]);
      assert place + [parts[0]] + parts[1..] == place + parts;
    }
  }

  lemma {:induction false} SplitHasNoSep(t: Text, sep: Unit)
    ensures forall p :: p in Split(t, sep) ==> sep !in p
  {
    if t != [] { SplitHasNoSep(t[1..], sep); }
  }

  lemma JoinStep(parts: seq<Text>)
    requires |parts| > 1
    ensures Join(parts, [SLASH]) == parts[0] + [SLASH] + Join(parts[1..], [SLASH])
  {
  }

  lemma {:induction false} SplitJoin(parts: seq<Text>)
    requires parts != [] && forall i :: 0 <= i < |parts| ==> SLASH !in parts[i]
    ensures Split(Join(parts, [SLASH]), SLASH) == parts
  {
    if |parts| == 1 {
      SplitAfter(parts[0], SLASH, []);
      assert parts == [parts[0]];
    } else {
      SplitJoin(parts[1..]);
      JoinStep(parts);
      SplitAfter(parts[0], SLASH, Join(parts[1..], [SLASH]));
      assert parts == [parts[0]] + parts[1..];
    }
  }

  lemma EmptyPart(place: seq<Text>)
    ensures Walk(place, [[]]) == place
  {
    var one: seq<Text> := [[]];
    assert one[1..] == [];
  }

  lemma PartsOfPlace(place: seq<Text>)
    requires Plain(place)
    ensures Walk([], Parts([], Join(place, [SLASH]))) == place
    ensures Join(place, [SLASH]) == [] ==> place == []
  {
    assert Split([], SLASH) == [[]];
    if place == [] {
      assert Parts([], []) == [[]];
      EmptyPart([]);
    } else {
      SplitJoin(place);
      assert Parts([], Join(place, [SLASH])) == place;
      WalkPlain([], place);
      assert place != [[]] by { assert place[0] in place; }
    }
  }

  /** A resolved path is a plain place: resolving it again changes nothing, and a link read in its
      directory means the same as walking there first. */
  lemma ResolvedIsPlain(dir: Text, href: Text)
    ensures Plain(Walk([], Parts(dir, href)))
    ensures Resolved([], Resolved(dir, href)) == Resolved(dir, href)
  {
    SplitHasNoSep(dir, SLASH);
    SplitHasNoSep(href, SLASH);
    WalkIsPlain([], Parts(dir, href));
    PartsOfPlace(Walk([], Parts(dir, href)));
  }

  /** A link means the same whether the page's directory is written plainly or with detours. */
  lemma DetoursDoNotMatter(dir: Text, href: Text)
    ensures Resolved(Resolved([], dir), href) == Resolved(dir, href)
  {
    SplitHasNoSep(dir, SLASH);
    var place := Walk([], Split(dir, SLASH));
    WalkIsPlain([], Split(dir, SLASH));
    assert Parts([], dir) == Split(dir, SLASH);
    PartsOfPlace(place);
    var text := Join(place, [SLASH]);
    var rest := Split(href, SLASH);
    assert Resolved([], dir) == text;
    if dir == [] {
      assert Split(dir, SLASH) == [[]];
      EmptyPart([]);
      assert Parts(dir, href) == rest;
    } else {
      assert Parts(dir, href) == Split(dir, SLASH) + rest;
      WalkOn([], Split(dir, SLASH), rest);
    }
    assert Walk([], Parts(dir, href)) == Walk(place, rest);
    if text != [] {
      SplitJoin(place);
      WalkPlain([], place);
      WalkOn([], place, rest);
      assert [] + place == place;
      assert Parts(text, href) == place + rest;
    } else {
      assert Parts(text, href) == rest;
    }
  }
}
