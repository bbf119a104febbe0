/** Inline Markdown: code, strong, links and emphasis, the leftmost match first. */
module MarkdownInline {
  import opened Wrappers
  import opened JsText
  import opened JsonStrings

  const TICK: Unit := 0x60
  const ASTERISK: Unit := 0x2A
  const LPAREN: Unit := 0x28
  const RPAREN: Unit := 0x29

  datatype Node =
    | Plain(text: Text)
    | Code(text: Text)
    | Strong(text: Text)
    | Em(text: Text)
    | Link(kids: seq<Node>, href: Text)

  /** What one match of the inline pattern captures. */
  datatype Span = CodeSpan(text: Text) | StrongSpan(text: Text) | LinkSpan(text: Text, href: Text) | EmSpan(text: Text)

  /** The text a match covers. */
  function SpanSource(s: Span): Text {
    match s
    case CodeSpan(t) => [TICK] + t + [TICK]
    case StrongSpan(t) => [ASTERISK, ASTERISK] + t + [ASTERISK, ASTERISK]
    case LinkSpan(t, href) => [OPEN] + t + [CLOSE, LPAREN] + href + [RPAREN]
    case EmSpan(t) => [ASTERISK] + t + [ASTERISK]
  }

  // ---- the pattern ----

  /** The longest run from the start of `t` without `stop`, and without spaces if `ink`. */
  function Run(t: Text, stop: Unit, ink: bool): (run: Text)
    ensures run <= t && stop !in run
    ensures |run| < |t| ==> t[|run|] == stop || (ink && IsSpace(t[|run|]))
    ensures ink ==> forall u :: u in run ==> !IsSpace(u)
  {
    if t == [] || t[0] == stop || (ink && IsSpace(t[0])) then [] else [t[0]] + Run(t[1..], stop, ink)
  }

  /** opener, one or more units other than `stop`, closer. */
  function Delimited(t: Text, opener: Text, stop: Unit, closer: Text): (inner: Option<Text>)
    ensures inner.Some? ==> inner.value != [] && stop !in inner.value && opener + inner.value + closer <= t
  {
    if !(opener <= t) then None
    else
      var run := Run(t[|opener|..], stop, false);
      var end := |opener| + |run|;
      if run != [] && closer <= t[end..] then
        assert t == t[..|opener|] + t[|opener|..end] + t[end..];
        Some(run)
      else None
  }

  lemma LinkCovers(t: Text, inner: Text, at: nat, end: nat)
    requires at <= end < |t| && t[end] == RPAREN && t[..at] == [OPEN] + inner + [CLOSE, LPAREN]
    ensures SpanSource(LinkSpan(inner, t[at..end])) == t[..end + 1]
  {
    assert t[..end + 1] == t[..at] + t[at..end] + [t[end]];
  }

  function LinkHere(t: Text): (link: Option<Span>)
    ensures link.Some? ==> link.value.LinkSpan? && link.value.text != [] && SpanSource(link.value) <= t
  {
    var heading := Delimited(t, [OPEN], CLOSE, [CLOSE, LPAREN]);
    if heading.None? then None
    else
      var at := |heading.value| + 3;
      var href := Run(t[at..], RPAREN, true);
      var end := at + |href|;
      if href != [] && end < |t| && t[end] == RPAREN then
        assert t[..at] == [OPEN] + heading.value + [CLOSE, LPAREN];
        assert t[at..end] == href;
        LinkCovers(t, heading.value, at, end);
        Some(LinkSpan(heading.value, href))
      else None
  }

  /** The pattern's alternatives, tried in turn at the start of `t`. */
  function MatchHere(t: Text): (m: Option<Span>)
    ensures m.Some? ==> SpanSource(m.value) <= t && m.value.text != []
  {
    var code := Delimited(t, [TICK], TICK, [TICK]);
    var strong := Delimited(t, [ASTERISK, ASTERISK], ASTERISK, [ASTERISK, ASTERISK]);
    var em := Delimited(t, [ASTERISK], ASTERISK, [ASTERISK]);
    if code.Some? then Some(CodeSpan(code.value))
    else if strong.Some? then Some(StrongSpan(strong.value))
    else if LinkHere(t).Some? then LinkHere(t)
    else if em.Some? then Some(EmSpan(em.value))
    else None
  }

  // ---- scanning with a pattern ----

  type Pattern = Text -> Option<Span>

  /** A match covers a text that is there. */
  ghost predicate Sound(p: Pattern) {
    forall t :: p(t).Some? ==> SpanSource(p(t).value) <= t
  }

  lemma MatchHereIsSound()
    ensures Sound(MatchHere)
  {
  }

  /** Where the leftmost match at or after `i` starts, or the end. */
  function NextMatch(p: Pattern, t: Text, i: nat): (at: nat)
    requires i <= |t|
    ensures i <= at <= |t| && (at < |t| ==> p(t[at..]).Some?)
    decreases |t| - i
  {
    if i == |t| || p(t[i..]).Some? then i else NextMatch(p, t, i + 1)
  }

  /** No gap before a match hides another one. */
  lemma {:induction false} NextMatchIsFirst(p: Pattern, t: Text, i: nat, j: nat)
    requires i <= |t| && i <= j < NextMatch(p, t, i)
    ensures p(t[j..]).None?
    decreases |t| - i
  {
    if j > i { NextMatchIsFirst(p, t, i + 1, j); }
  }

  function Gap(t: Text): seq<Node> {
    if t == [] then [] else [Plain(t)]
  }

  /** The node of a match; a link's label is read in turn. */
  function NodeOf(p: Pattern, s: Span): Node
    requires Sound(p)
    decreases |SpanSource(s)|, 0
  {
    match s
    case CodeSpan(t) => Node.Code(t)
    case StrongSpan(t) => Strong(t)
    case LinkSpan(t, href) => Link(Inline(p, t, 0), href)
    case EmSpan(t) => Em(t)
  }

  /** Where the match that starts at `at` ends. */
  function AfterMatch(p: Pattern, t: Text, at: nat): (after: nat)
    requires Sound(p) && at < |t| && p(t[at..]).Some?
    ensures at + 2 <= after <= |t|
  {
    at + |SpanSource(p(t[at..]).value)|
  }

  /** The inline nodes of a text from `last` on: gap, match, and the rest. */
  function Inline(p: Pattern, t: Text, last: nat): seq<Node>
    requires Sound(p) && last <= |t|
    decreases |t|, 1, |t| - last
  {
    var at := NextMatch(p, t, last);
    if at == |t| then Gap(t[last..])
    else Gap(t[last..at]) + [NodeOf(p, p(t[at..]).value)] + Inline(p, t, AfterMatch(p, t, at))
  }

  // ---- nothing is lost ----

  /** The Markdown a list of nodes was read from. */
  function Source(nodes: seq<Node>): Text {
    if nodes == [] then [] else NodeSource(nodes[0]) + Source(nodes[1..])
  }

  function NodeSource(n: Node): Text {
    match n
    case Plain(t) => t
    case Code(t) => SpanSource(CodeSpan(t))
    case Strong(t) => SpanSource(StrongSpan(t))
    case Em(t) => SpanSource(EmSpan(t))
    case Link(kids, href) => SpanSource(LinkSpan(Source(kids), href))
  }

  lemma {:induction false} SourceAdd(a: seq<Node>, b: seq<Node>)
    ensures Source(a + b) == Source(a) + Source(b)
  {
    if a == [] {
      assert a + b == b;
    } else {
      SourceAdd(a[1..], b);
      assert (a + b)[0] == a[0] && (a + b)[1..] == a[1..] + b;
      Assoc(NodeSource(a[0]), Source(a[1..]), Source(b));
    }
  }

  lemma SourceOne(n: Node)
    ensures Source([n]) == NodeSource(n)
  {
    assert [n][1..] == [];
  }

  lemma GapSource(t: Text)
    ensures Source(Gap(t)) == t
  {
    if t != [] { SourceOne(Plain(t)); }
  }

  lemma SplitAtMatch(t: Text, last: nat, at: nat, n: nat)
    requires last <= at && at + n <= |t|
    ensures t[last..] == (t[last..at] + t[at..][..n]) + t[at + n..]
  {
  }

  lemma SourceThree(gap: Text, n: Node, rest: seq<Node>)
    ensures Source(Gap(gap) + [n] + rest) == (gap + NodeSource(n)) + Source(rest)
  {
    SourceAdd(Gap(gap) + [n], rest);
    SourceAdd(Gap(gap), [n]);
    SourceOne(n);
    GapSource(gap);
  }

  /** One gap and one match further. */
  lemma InlineStep(p: Pattern, t: Text, last: nat)
    requires Sound(p) && last <= |t| && NextMatch(p, t, last) < |t|
    ensures var at := NextMatch(p, t, last);
      Inline(p, t, last) == Gap(t[last..at]) + [NodeOf(p, p(t[at..]).value)] + Inline(p, t, AfterMatch(p, t, at))
  {
  }

  /** The text of a match is where it was found. */
  lemma MatchIsThere(p: Pattern, t: Text, at: nat)
    requires Sound(p) && at < |t| && p(t[at..]).Some?
    ensures var n := |SpanSource(p(t[at..]).value)|; at + n <= |t| && t[at..][..n] == SpanSource(p(t[at..]).value)
  {
  }

  /** Every text is tiled by its inline nodes: writing their sources one after the other gives
      the text back, links with their labels included. */
  lemma {:induction false} InlineTiles(p: Pattern, t: Text, last: nat)
    requires Sound(p) && last <= |t|
    ensures Source(Inline(p, t, last)) == t[last..]
    decreases |t|, 1, |t| - last
  {
    var at := NextMatch(p, t, last);
    if at < |t| {
      var s := p(t[at..]).value;
      var after := AfterMatch(p, t, at);
      MatchIsThere(p, t, at);
      NodeTiles(p, s);
      InlineTiles(p, t, after);
      InlineStep(p, t, last);
      SourceThree(t[last..at], NodeOf(p, s), Inline(p, t, after));
      SplitAtMatch(t, last, at, |SpanSource(s)|);
    } else {
      GapSource(t[last..]);
    }
  }

  lemma {:induction false} NodeTiles(p: Pattern, s: Span)
    requires Sound(p)
    ensures NodeSource(NodeOf(p, s)) == SpanSource(s)
    decreases |SpanSource(s)|, 0
  {
    if s.LinkSpan? { InlineTiles(p, s.text, 0); }
  }

  /** The node of one match, its label read by a call of its own. */
  method ReadNode(p: Pattern, s: Span) returns (node: Node)
    requires Sound(p)
    ensures node == NodeOf(p, s)
    decreases |SpanSource(s)|, 0
  {
    match s
    case CodeSpan(t) => return Node.Code(t);
    case StrongSpan(t) => return Strong(t);
    case EmSpan(t) => return Em(t);
    case LinkSpan(t, href) =>
      var kids := ReadInline(p, t);
      return Link(kids, href);
  }

  /** mdInline(text): one scan, pushing a gap and a node for every match. */
  method ReadInline(p: Pattern, text: Text) returns (out: seq<Node>)
    requires Sound(p)
    ensures out == Inline(p, text, 0)
    decreases |text|, 1
  {
    out := [];
    var last := 0;
    var at := NextMatch(p, text, 0);
    while at < |text|
      invariant last <= at <= |text| && at == NextMatch(p, text, last)
      invariant Inline(p, text, 0) == out + Inline(p, text, last)
      decreases |text| - last
    {
      var s := p(text[at..]).value;
      ghost var before, gap := out, Gap(text[last..at]);
      if at > last { out := out + [Plain(text[last..at])]; }
      assert out == before + gap;
      var node := ReadNode(p, s);
      out := out + [node];
      last := AfterMatch(p, text, at);
      Regroup(before, gap, [node], Inline(p, text, last));
      at := NextMatch(p, text, last);
    }
    if last < |text| { out := out + [Plain(text[last..])]; }
  }

  lemma Regroup(a: seq<Node>, b: seq<Node>, c: seq<Node>, d: seq<Node>)
    ensures a + (b + c + d) == a + b + c + d
  {
  }

  /** The console's reader: its nodes tile the text. */
  method MdInline(text: Text) returns (out: seq<Node>)
    ensures Sound(MatchHere) && out == Inline(MatchHere, text, 0)
    ensures Source(out) == text
  {
    MatchHereIsSound();
    InlineTiles(MatchHere, text, 0);
    out := ReadInline(MatchHere, text);
  }
}
