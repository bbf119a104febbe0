/** The accent of a token pack: which token is taken, in which modes it is used, and the text
    colour put on it. */
module Accent {
  import opened Wrappers

  /** A channel of a colour, as CSS computes it. */
  type Channel = c: real | 0.0 <= c <= 255.0

  datatype Colour = Colour(r: Channel, g: Channel, b: Channel)

  const BLACK := Colour(0.0, 0.0, 0.0)
  const WHITE := Colour(255.0, 255.0, 255.0)

  /** The transfer of one channel to light: between 0 and 1, and nothing and all at the ends. */
  type Transfer = Channel -> real

  ghost predicate IsTransfer(lin: Transfer) {
    lin(0.0) == 0.0 && lin(255.0) == 1.0 && forall c :: 0.0 <= lin(c) <= 1.0
  }

  function Luminance(lin: Transfer, c: Colour): real {
    0.2126 * lin(c.r) + 0.7152 * lin(c.g) + 0.0722 * lin(c.b)
  }

  function Ratio(x: real, y: real): real
    requires x >= 0.0 && y >= 0.0
  {
    if x >= y then (x + 0.05) / (y + 0.05) else (y + 0.05) / (x + 0.05)
  }

  lemma LuminanceInRange(lin: Transfer, c: Colour)
    requires IsTransfer(lin)
    ensures 0.0 <= Luminance(lin, c) <= 1.0
    ensures Luminance(lin, BLACK) == 0.0 && Luminance(lin, WHITE) == 1.0
  {
  }

  function ContrastRatio(lin: Transfer, a: Colour, b: Colour): real
    requires IsTransfer(lin)
  {
    LuminanceInRange(lin, a);
    LuminanceInRange(lin, b);
    Ratio(Luminance(lin, a), Luminance(lin, b))
  }

  lemma QuotientAtLeast(p: real, q: real, k: real)
    requires q > 0.0
    ensures p / q >= k <==> p >= k * q
    ensures p / q <= k <==> p <= k * q
  {
    var d := p / q;
    assert d * q == p;
    assert (d - k) * q == p - k * q;
  }

  lemma RatioInRange(x: real, y: real)
    requires 0.0 <= x <= 1.0 && 0.0 <= y <= 1.0
    ensures 1.0 <= Ratio(x, y) <= 21.0 && Ratio(x, y) == Ratio(y, x)
  {
    var top, bottom := if x >= y then x + 0.05 else y + 0.05, if x >= y then y + 0.05 else x + 0.05;
    assert Ratio(x, y) == top / bottom;
    QuotientAtLeast(top, bottom, 1.0);
    QuotientAtLeast(top, bottom, 21.0);
  }

  /** Contrast is symmetric and between 1 and 21. */
  lemma ContrastInRange(lin: Transfer, a: Colour, b: Colour)
    requires IsTransfer(lin)
    ensures 1.0 <= ContrastRatio(lin, a, b) <= 21.0
    ensures ContrastRatio(lin, a, b) == ContrastRatio(lin, b, a)
  {
    LuminanceInRange(lin, a);
    LuminanceInRange(lin, b);
    RatioInRange(Luminance(lin, a), Luminance(lin, b));
  }

  function OnAccent(lin: Transfer, accent: Colour): Colour
    requires IsTransfer(lin)
  {
    if ContrastRatio(lin, accent, BLACK) >= ContrastRatio(lin, accent, WHITE) then BLACK else WHITE
  }

  /** Against black and against white the contrasts multiply to exactly 21. */
  lemma BlackTimesWhite(lin: Transfer, accent: Colour)
    requires IsTransfer(lin)
    ensures ContrastRatio(lin, accent, BLACK) * ContrastRatio(lin, accent, WHITE) == 21.0
  {
    LuminanceInRange(lin, accent);
    var l := Luminance(lin, accent) + 0.05;
    var black, white := ContrastRatio(lin, accent, BLACK), ContrastRatio(lin, accent, WHITE);
    assert black == l / 0.05 == 20.0 * l;
    assert white == 1.05 / l;
    assert white * l == 1.05;
    assert black * white == 20.0 * (white * l);
  }

  lemma SquareGrows(r: real, k: real)
    requires 0.0 <= r <= k
    ensures r * r <= k * k
  {
    assert r * r <= r * k && r * k <= k * k;
  }

  /** The text colour picked has a contrast of at least the square root of 21, so it always passes
      4.5 to 1. */
  lemma {:induction false} TextIsLegible(lin: Transfer, accent: Colour)
    requires IsTransfer(lin)
    ensures var r := ContrastRatio(lin, accent, OnAccent(lin, accent)); r * r >= 21.0 && r > 4.58
  {
    BlackTimesWhite(lin, accent);
    var black, white := ContrastRatio(lin, accent, BLACK), ContrastRatio(lin, accent, WHITE);
    ContrastInRange(lin, accent, BLACK);
    ContrastInRange(lin, accent, WHITE);
    var r := if black >= white then black else white;
    var other := if black >= white then white else black;
    assert r * r == r * other + r * (r - other);
    if r <= 4.58 { SquareGrows(r, 4.58); }
  }

  // ---- the choice ----

  /** A token: how well its name suits, and its colour if it is an opaque one. */
  datatype Token = Token(isColour: bool, score: real, colour: Option<Colour>)

  predicate Candidate(t: Token) {
    t.isColour && t.score > 0.0 && t.colour.Some?
  }

  /** The first of the best candidates. */
  predicate Best(tokens: seq<Token>, i: nat) {
    && i < |tokens| && Candidate(tokens[i])
    && (forall j :: 0 <= j < |tokens| && Candidate(tokens[j]) ==> tokens[j].score <= tokens[i].score)
    && (forall j :: 0 <= j < i && Candidate(tokens[j]) ==> tokens[j].score < tokens[i].score)
  }

  ghost predicate BestColour(tokens: seq<Token>, c: Colour) {
    exists i: nat :: Best(tokens, i) && tokens[i].colour == Some(c)
  }

  lemma OneBestColour(tokens: seq<Token>, c: Colour, d: Colour)
    requires BestColour(tokens, c) && BestColour(tokens, d)
    ensures c == d
  {
    var i: nat :| Best(tokens, i) && tokens[i].colour == Some(c);
    var j: nat :| Best(tokens, j) && tokens[j].colour == Some(d);
    assert i == j;
  }

  method PickAccent(tokens: seq<Token>) returns (accent: Option<Colour>)
    ensures accent.None? <==> forall j :: 0 <= j < |tokens| ==> !Candidate(tokens[j])
    ensures accent.Some? ==> BestColour(tokens, accent.value)
  {
    var best: Option<(real, Colour)> := None;
    ghost var at := 0;
    for i := 0 to |tokens|
      invariant best.None? ==> forall j :: 0 <= j < i ==> !Candidate(tokens[j])
      invariant best.Some? ==>
          at < i && Best(tokens[..i], at) && best.value.0 == tokens[at].score && Some(best.value.1) == tokens[at].colour
    {
      var t := tokens[i];
      assert forall j :: 0 <= j < i ==> tokens[..i + 1][j] == tokens[..i][j];
      if !t.isColour { continue; }
      if t.score <= 0.0 || (best.Some? && t.score <= best.value.0) { continue; }
      if t.colour.None? { continue; }
      best, at := Some((t.score, t.colour.value)), i;
    }
    assert tokens[..|tokens|] == tokens;
    accent := if best.Some? then Some(best.value.1) else None;
  }

  /** An accent in use, with the text colour put on it. */
  datatype Use = Use(accent: Colour, text: Colour)

  const LIGHT_PLANE := WHITE
  const DARK_PLANE := Colour(3.0, 7.0, 17.0)

  ghost predicate Legible(lin: Transfer, u: Use, plane: Colour) {
    IsTransfer(lin) && ContrastRatio(lin, u.accent, plane) >= 3.0 && ContrastRatio(lin, u.accent, u.text) > 4.58
  }

  /** The best of a mode's own tokens, or of the other mode's if it has no candidate. */
  ghost predicate Chosen(own: seq<Token>, other: seq<Token>, c: Colour) {
    BestColour(own, c) || ((forall j :: 0 <= j < |own| ==> !Candidate(own[j])) && BestColour(other, c))
  }

  lemma OneChosen(own: seq<Token>, other: seq<Token>, c: Colour, d: Colour)
    requires Chosen(own, other, c) && Chosen(own, other, d)
    ensures c == d
  {
    if BestColour(own, c) { OneBestColour(own, c, d); } else { OneBestColour(other, c, d); }
  }

  /** A mode uses its accent exactly if it stands out against the plane, with legible text on it. */
  method UseIn(lin: Transfer, own: seq<Token>, other: seq<Token>, accent: Option<Colour>, plane: Colour)
      returns (used: Option<Use>)
    requires IsTransfer(lin)
    requires accent.Some? ==> Chosen(own, other, accent.value)
    requires accent.None? ==> forall c :: !Chosen(own, other, c)
    ensures used.Some? ==> Chosen(own, other, used.value.accent) && Legible(lin, used.value, plane)
    ensures used.None? ==> forall c :: Chosen(own, other, c) ==> ContrastRatio(lin, c, plane) < 3.0
  {
    used := None;
    if accent.Some? {
      forall c | Chosen(own, other, c) ensures c == accent.value { OneChosen(own, other, c, accent.value); }
      if ContrastRatio(lin, accent.value, plane) >= 3.0 {
        TextIsLegible(lin, accent.value);
        used := Some(Use(accent.value, OnAccent(lin, accent.value)));
      }
    }
  }

  /** Each mode takes its own accent, or else the other's. */
  method Apply(lin: Transfer, light: seq<Token>, dark: seq<Token>) returns (inLight: Option<Use>, inDark: Option<Use>)
    requires IsTransfer(lin)
    ensures inLight.Some? ==> Chosen(light, dark, inLight.value.accent) && Legible(lin, inLight.value, LIGHT_PLANE)
    ensures inDark.Some? ==> Chosen(dark, light, inDark.value.accent) && Legible(lin, inDark.value, DARK_PLANE)
    ensures inLight.None? ==> forall c :: Chosen(light, dark, c) ==> ContrastRatio(lin, c, LIGHT_PLANE) < 3.0
    ensures inDark.None? ==> forall c :: Chosen(dark, light, c) ==> ContrastRatio(lin, c, DARK_PLANE) < 3.0
  {
    var accentLight := PickAccent(light);
    var accentDark := PickAccent(dark);
    inLight := UseIn(lin, light, dark, if accentLight.Some? then accentLight else accentDark, LIGHT_PLANE);
    inDark := UseIn(lin, dark, light, if accentDark.Some? then accentDark else accentLight, DARK_PLANE);
  }
}
