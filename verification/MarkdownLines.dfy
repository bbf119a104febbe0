/** What kind of block a Markdown line starts, and what each line carries. */
module MarkdownLines {
  import opened Wrappers
  import opened JsText
  import opened JsonStrings
  import opened MarkdownInline

  /** ASCII text as code units. */
  function Ascii(s: string): Text {
    seq(|s|, i requires 0 <= i < |s| => s[i] as int % 0x10000)
  }

  const HASH: Unit := 0x23
  const PIPE: Unit := 0x7C
  const RANGLE: Unit := 0x3E
  const MINUS: Unit := 0x2D
  const DOT: Unit := 0x2E

  function LeadSpaces(t: Text): (n: nat)
    ensures n <= |t|
  {
    if t != [] && IsSpace(t[0]) then 1 + LeadSpaces(t[1..]) else 0
  }

  function Ink(t: Text): Text {
    t[LeadSpaces(t)..]
  }

  predicate InkIs(t: Text, u: Unit) {
    Ink(t) != [] && Ink(t)[0] == u
  }

  function CountLeading(t: Text, u: Unit): (n: nat)
    ensures n <= |t|
  {
    if t != [] && t[0] == u then 1 + CountLeading(t[1..], u) else 0
  }

  predicate IsDigit(u: Unit) {
    0x30 <= u <= 0x39
  }

  function CountDigits(t: Text): (n: nat)
    ensures n <= |t|
  {
    if t != [] && IsDigit(t[0]) then 1 + CountDigits(t[1..]) else 0
  }

  /** What a dot matches: no line terminator. */
  predicate NoBreak(t: Text) {
    forall u :: u in t ==> u != 0x0A && u != 0x0D && u != 0x2028 && u != 0x2029
  }

  predicate IsFence(t: Text) {
    [TICK, TICK, TICK] <= t
  }

  predicate IdUnit(u: Unit) {
    0x61 <= u <= 0x7A || IsDigit(u) || u == MINUS
  }

  /** An anchor alone on its line. */
  function AnchorId(t: Text): Option<Text> {
    var open, close := Ascii("<a id=\""), Ascii("\"></a>");
    var ink := Trim(t);
    if |ink| > |open| + |close| && open <= ink && ink[|ink| - |close|..] == close then
      var id := ink[|open|..|ink| - |close|];
      if id[0] != MINUS && (forall u :: u in id ==> IdUnit(u)) then Some(id) else None
    else None
  }

  /** One to four hashes, white space and the rest. */
  function HeadingOf(t: Text): (h: Option<(nat, Text)>)
    ensures h.Some? ==> 1 <= h.value.0 <= 4
  {
    var n := CountLeading(t, HASH);
    if 1 <= n <= 4 && n < |t| && IsSpace(t[n]) && NoBreak(Ink(t[n..])) then Some((n, Ink(t[n..]))) else None
  }

  /** A bullet or a number with a dot, white space and the rest. */
  function ItemOf(t: Text): Option<(bool, Text)> {
    var ink := Ink(t);
    var digits := CountDigits(ink);
    var marker :=
      if ink != [] && (ink[0] == MINUS || ink[0] == ASTERISK) then 1
      else if digits > 0 && digits < |ink| && ink[digits] == DOT then digits + 1
      else 0;
    if marker > 0 && marker < |ink| && IsSpace(ink[marker]) && NoBreak(Ink(ink[marker..]))
    then Some((digits > 0, Ink(ink[marker..]))) else None
  }

  predicate IsContinuation(t: Text) {
    2 <= LeadSpaces(t) < |t|
  }

  predicate IsTable(t: Text) {
    InkIs(t, PIPE)
  }

  predicate IsQuote(t: Text) {
    InkIs(t, RANGLE)
  }

  /** A quoted line without its mark and one space. */
  function QuoteText(t: Text): Text {
    if !IsQuote(t) then t
    else
      var rest := Ink(t)[1..];
      if rest != [] && IsSpace(rest[0]) then rest[1..] else rest
  }

  predicate IsRule(t: Text) {
    var ink := Trim(t);
    |ink| >= 3 && (CountLeading(ink, MINUS) == |ink| || CountLeading(ink, ASTERISK) == |ink|)
  }

  /** An image whose source starts with `folder`, and what follows it. */
  function ImageAt(t: Text, folder: Text): (image: Option<((Text, Text), Text)>)
    ensures image.Some? ==> |image.value.1| < |t|
  {
    if !(Ascii("![") <= t) then None
    else
      var alt := Run(t[2..], CLOSE, false);
      var rest := t[2 + |alt|..];
      var link := [CLOSE, LPAREN] + folder;
      if !(link <= rest) then None
      else
        var src := Run(rest[|link|..], RPAREN, true);
        var end := rest[|link| + |src|..];
        if src != [] && end != [] && end[0] == RPAREN then Some(((alt, src), end[1..])) else None
  }

  /** Images one after the other to the end of the line, with white space between. */
  function ImagesTo(t: Text, folder: Text): Option<seq<(Text, Text)>>
    decreases |t|
  {
    match ImageAt(t, folder)
    case None => None
    case Some((image, end)) =>
      var rest := Ink(end);
      if rest == [] then Some([image])
      else match ImagesTo(rest, folder)
        case None => None
        case Some(more) => Some([image] + more)
  }

  function LogosOf(t: Text): Option<seq<(Text, Text)>> {
    ImagesTo(Ink(t), Ascii("img/"))
  }

  /** A screenshot alone on its line. */
  function ShotOf(t: Text): Option<(Text, Text)> {
    match ImageAt(Ink(t), [])
    case None => None
    case Some((image, end)) => if Ink(end) == [] then Some(image) else None
  }

  datatype Kind = FenceK | AnchorK | HeadK | TableK | ListK | QuoteK | RuleK | LogosK | ShotK | BlankK | TextK

  /** What a line starts where a block may start: the first test that holds. */
  function KindOf(t: Text): Kind {
    if IsFence(t) then FenceK
    else if AnchorId(t).Some? then AnchorK
    else if HeadingOf(t).Some? then HeadK
    else if IsTable(t) then TableK
    else if ItemOf(t).Some? then ListK
    else if IsQuote(t) then QuoteK
    else if IsRule(t) then RuleK
    else if LogosOf(t).Some? then LogosK
    else if ShotOf(t).Some? then ShotK
    else if Trim(t) == [] then BlankK
    else TextK
  }
}
