/** JSON arrays of strings: JSON.stringify and JSON.parse on that shape, after section 7 of
    RFC 8259 and the well-formed stringify of ECMAScript. */
module JsonStrings {
  import opened Wrappers
  import opened JsText

  const QUOTE: Unit := 0x22
  const BACKSLASH: Unit := 0x5C
  const OPEN: Unit := 0x5B
  const CLOSE: Unit := 0x5D

  // ---- printing ----

  /** A lower-case hexadecimal digit. */
  function HexDigit(d: int): Unit
    requires 0 <= d < 16
  {
    if d < 10 then 0x30 + d else 0x61 + (d - 10)
  }

  function UnicodeEscape(u: Unit): Text {
    [BACKSLASH, 0x75, HexDigit(u / 16 / 16 / 16), HexDigit(u / 16 / 16 % 16), HexDigit(u / 16 % 16), HexDigit(u % 16)]
  }

  predicate IsHigh(u: Unit) {
    0xD800 <= u <= 0xDBFF
  }

  predicate IsLow(u: Unit) {
    0xDC00 <= u <= 0xDFFF
  }

  /** How one unit is printed when it is not half of a surrogate pair. */
  function QuoteUnit(u: Unit): Text {
    if u == QUOTE || u == BACKSLASH then [BACKSLASH, u]
    else if u == 0x08 then [BACKSLASH, 0x62]
    else if u == 0x0C then [BACKSLASH, 0x66]
    else if u == 0x0A then [BACKSLASH, 0x6E]
    else if u == 0x0D then [BACKSLASH, 0x72]
    else if u == 0x09 then [BACKSLASH, 0x74]
    else if u < 0x20 || IsHigh(u) || IsLow(u) then UnicodeEscape(u)
    else [u]
  }

  /** The characters of a string literal, without its quotes: pairs stay as they are, lone
      surrogates are escaped. */
  function QuoteUnits(s: Text): Text {
    if s == [] then []
    else if |s| >= 2 && IsHigh(s[0]) && IsLow(s[1]) then s[..2] + QuoteUnits(s[2..])
    else QuoteUnit(s[0]) + QuoteUnits(s[1..])
  }

  function Quote(s: Text): Text {
    [QUOTE] + QuoteUnits(s) + [QUOTE]
  }

  /** JSON.stringify of an array of strings. */
  function Stringify(items: seq<Text>): Text {
    [OPEN] + Join(seq(|items|, i requires 0 <= i < |items| => Quote(items[i])), [COMMA]) + [CLOSE]
  }

  // ---- parsing ----

  function HexValue(u: Unit): Option<int> {
    if 0x30 <= u <= 0x39 then Some(u - 0x30)
    else if 0x61 <= u <= 0x66 then Some(u - 0x61 + 10)
    else if 0x41 <= u <= 0x46 then Some(u - 0x41 + 10)
    else None
  }

  /** Four hexadecimal digits. */
  function HexUnit(t: Text): (u: Option<Unit>)
    requires |t| >= 4
  {
    match (HexValue(t[0]), HexValue(t[1]), HexValue(t[2]), HexValue(t[3]))
    case (Some(a), Some(b), Some(c), Some(d)) =>
      if 0 <= a < 16 && 0 <= b < 16 && 0 <= c < 16 && 0 <= d < 16
      then Some(a * 0x1000 + b * 0x100 + c * 0x10 + d) else None
    case _ => None
  }

  /** The unit a one-letter escape stands for. */
  function EscapeUnit(u: Unit): Option<Unit> {
    if u == QUOTE || u == BACKSLASH || u == 0x2F then Some(u)
    else if u == 0x62 then Some(0x08)
    else if u == 0x66 then Some(0x0C)
    else if u == 0x6E then Some(0x0A)
    else if u == 0x72 then Some(0x0D)
    else if u == 0x74 then Some(0x09)
    else None
  }

  /** The rest of a string literal after its opening quote, and what follows the literal. */
  function ParseUnits(t: Text): (r: Option<(Text, Text)>)
    ensures r.Some? ==> |r.value.1| < |t|
    decreases |t|
  {
    if t == [] || t[0] < 0x20 then None
    else if t[0] == QUOTE then Some(([], t[1..]))
    else if t[0] != BACKSLASH then Prepend(t[0], ParseUnits(t[1..]))
    else if |t| >= 6 && t[1] == 0x75 then
      match HexUnit(t[2..])
      case Some(u) => Prepend(u, ParseUnits(t[6..]))
      case None => None
    else if |t| >= 2 then
      match EscapeUnit(t[1])
      case Some(u) => Prepend(u, ParseUnits(t[2..]))
      case None => None
    else None
  }

  function Prepend(u: Unit, r: Option<(Text, Text)>): (p: Option<(Text, Text)>)
    ensures p.Some? <==> r.Some?
    ensures r.Some? ==> p.value == ([u] + r.value.0, r.value.1)
  {
    match r case None => None case Some((s, rest)) => Some(([u] + s, rest))
  }

  /** JSON's own white space, which is less than trim takes away. */
  function SkipBlank(t: Text): (r: Text)
    ensures |r| <= |t|
  {
    if t != [] && (t[0] == 0x20 || t[0] == 0x09 || t[0] == 0x0A || t[0] == 0x0D) then SkipBlank(t[1..]) else t
  }

  /** One or more string literals up to the closing bracket, and what follows it. */
  function ParseItems(t: Text): Option<(seq<Text>, Text)>
    decreases |t|
  {
    if t == [] || t[0] != QUOTE then None
    else match ParseUnits(t[1..])
      case None => None
      case Some((s, rest)) =>
        var after := SkipBlank(rest);
        if after == [] then None
        else if after[0] == CLOSE then Some(([s], after[1..]))
        else if after[0] != COMMA then None
        else match ParseItems(SkipBlank(after[1..]))
          case None => None
          case Some((more, end)) => Some(([s] + more, end))
  }

  /** JSON.parse, as far as the result is an array of strings; every other text gives None. */
  function Parse(t: Text): Option<seq<Text>> {
    var body := SkipBlank(t);
    if body == [] || body[0] != OPEN then None
    else
      var inner := SkipBlank(body[1..]);
      if inner != [] && inner[0] == CLOSE then
        (if SkipBlank(inner[1..]) == [] then Some([]) else None)
      else match ParseItems(inner)
        case None => None
        case Some((items, end)) => if SkipBlank(end) == [] then Some(items) else None
  }

  // ---- round trip ----

  lemma DigitRoundTrip(d: int)
    requires 0 <= d < 16
    ensures HexValue(HexDigit(d)) == Some(d)
  {
  }

  lemma HexRoundTrip(u: Unit, rest: Text)
    ensures HexUnit((UnicodeEscape(u) + rest)[2..]) == Some(u)
  {
    var t := (UnicodeEscape(u) + rest)[2..];
    var u1 := u / 16;
    var u2 := u1 / 16;
    assert t[0] == HexDigit(u2 / 16) && t[1] == HexDigit(u2 % 16) && t[2] == HexDigit(u1 % 16)
        && t[3] == HexDigit(u % 16);
    DigitRoundTrip(u2 / 16);
    DigitRoundTrip(u2 % 16);
    DigitRoundTrip(u1 % 16);
    DigitRoundTrip(u % 16);
  }

  /** Reading back one printed unit. */
  lemma {:induction false} UnitRoundTrip(u: Unit, rest: Text)
    ensures ParseUnits(QuoteUnit(u) + rest) == Prepend(u, ParseUnits(rest))
  {
    var q := QuoteUnit(u);
    var t := q + rest;
    assert forall i :: 0 <= i < |q| ==> t[i] == q[i];
    assert t[|q|..] == rest;
    if q == UnicodeEscape(u) { HexRoundTrip(u, rest); }
  }

  lemma Assoc(a: Text, b: Text, c: Text)
    ensures (a + b) + c == a + (b + c)
  {
  }

  /** A unit printed as it is, read back. */
  lemma PlainRoundTrip(u: Unit, rest: Text)
    requires u >= 0x20 && u != QUOTE && u != BACKSLASH
    ensures ParseUnits([u] + rest) == Prepend(u, ParseUnits(rest))
  {
    assert ([u] + rest)[1..] == rest;
  }

  lemma {:induction false} UnitsRoundTrip(s: Text, tail: Text)
    requires tail != [] && tail[0] == QUOTE
    ensures ParseUnits(QuoteUnits(s) + tail) == Some((s, tail[1..]))
  {
    if s == [] {
      assert QuoteUnits(s) + tail == tail;
    } else if |s| >= 2 && IsHigh(s[0]) && IsLow(s[1]) {
      UnitsRoundTrip(s[2..], tail);
      PairRoundTrip(s, tail);
    } else {
      UnitsRoundTrip(s[1..], tail);
      SingleRoundTrip(s, tail);
    }
  }

  /** Two plain units, read back before whatever follows them. */
  lemma TwoPlain(a: Unit, b: Unit, inner: Text, back: Text, end: Text)
    requires IsHigh(a) && IsLow(b) && ParseUnits(inner) == Some((back, end))
    ensures ParseUnits([a] + ([b] + inner)) == Some(([a] + ([b] + back), end))
  {
    PlainRoundTrip(b, inner);
    PlainRoundTrip(a, [b] + inner);
  }

  lemma PairRoundTrip(s: Text, tail: Text)
    requires |s| >= 2 && IsHigh(s[0]) && IsLow(s[1]) && tail != []
    requires ParseUnits(QuoteUnits(s[2..]) + tail) == Some((s[2..], tail[1..]))
    ensures ParseUnits(QuoteUnits(s) + tail) == Some((s, tail[1..]))
  {
    TwoPlain(s[0], s[1], QuoteUnits(s[2..]) + tail, s[2..], tail[1..]);
    TwoFirst(s[..2], QuoteUnits(s[2..]), tail);
    TwoFirst(s[..2], s[2..], []);
    assert s[..2] + s[2..] == s;
  }

  lemma TwoFirst(two: Text, more: Text, tail: Text)
    requires |two| == 2
    ensures two + more + tail == [two[0]] + ([two[1]] + (more + tail))
    ensures two + more == [two[0]] + ([two[1]] + more)
  {
  }

  lemma SingleRoundTrip(s: Text, tail: Text)
    requires s != [] && !(|s| >= 2 && IsHigh(s[0]) && IsLow(s[1])) && tail != []
    requires ParseUnits(QuoteUnits(s[1..]) + tail) == Some((s[1..], tail[1..]))
    ensures ParseUnits(QuoteUnits(s) + tail) == Some((s, tail[1..]))
  {
    var inner := QuoteUnits(s[1..]) + tail;
    Assoc(QuoteUnit(s[0]), QuoteUnits(s[1..]), tail);
    UnitRoundTrip(s[0], inner);
    assert s == [s[0]] + s[1..];
  }

  function Quoted(items: seq<Text>): Text {
    Join(seq(|items|, i requires 0 <= i < |items| => Quote(items[i])), [COMMA])
  }

  lemma QuotedStep(items: seq<Text>)
    requires items != []
    ensures Quoted(items) == if |items| == 1 then Quote(items[0]) else Quote(items[0]) + [COMMA] + Quoted(items[1..])
  {
    var all := seq(|items|, i requires 0 <= i < |items| => Quote(items[i]));
    assert all[1..] == seq(|items[1..]|, i requires 0 <= i < |items[1..]| => Quote(items[1..][i]));
  }

  /** One literal read back, with what follows it. */
  lemma LiteralRoundTrip(s: Text, tail: Text)
    ensures var t := Quote(s) + tail; t[0] == QUOTE && ParseUnits(t[1..]) == Some((s, tail))
  {
    var t := Quote(s) + tail;
    var end := [QUOTE] + tail;
    assert t[1..] == QuoteUnits(s) + end;
    UnitsRoundTrip(s, end);
    assert end[1..] == tail;
  }

  lemma {:induction false} ItemsRoundTrip(items: seq<Text>, rest: Text)
    requires items != []
    ensures ParseItems(Quoted(items) + [CLOSE] + rest) == Some((items, rest))
  {
    QuotedStep(items);
    var t := Quoted(items) + [CLOSE] + rest;
    if |items| == 1 {
      var tail := [CLOSE] + rest;
      assert t == Quote(items[0]) + tail;
      LiteralRoundTrip(items[0], tail);
      assert SkipBlank(tail) == tail && tail[1..] == rest;
      assert items == [items[0]];
    } else {
      ItemsRoundTrip(items[1..], rest);
      MoreItems(items, rest);
    }
  }

  /** An item and a comma before items that are read back. */
  lemma {:induction false} ItemThenComma(item: Text, next: Text, items: seq<Text>, rest: Text)
    requires ParseItems(next) == Some((items, rest)) && next != [] && next[0] == QUOTE
    ensures ParseItems(Quote(item) + ([COMMA] + next)) == Some(([item] + items, rest))
  {
    var tail := [COMMA] + next;
    LiteralRoundTrip(item, tail);
    assert SkipBlank(tail) == tail && tail[1..] == next && SkipBlank(next) == next;
  }

  lemma FourParts(a: Text, b: Text, c: Text, d: Text, e: Text)
    ensures (a + b + c) + d + e == a + (b + (c + d + e))
  {
  }

  lemma {:induction false} MoreItems(items: seq<Text>, rest: Text)
    requires |items| > 1
    requires ParseItems(Quoted(items[1..]) + [CLOSE] + rest) == Some((items[1..], rest))
    ensures ParseItems(Quoted(items) + [CLOSE] + rest) == Some((items, rest))
  {
    QuotedStep(items);
    QuotedStep(items[1..]);
    var next := Quoted(items[1..]) + [CLOSE] + rest;
    assert next[0] == QUOTE;
    ItemThenComma(items[0], next, items[1..], rest);
    FourParts(Quote(items[0]), [COMMA], Quoted(items[1..]), [CLOSE], rest);
    assert [items[0]] + items[1..] == items;
  }

  /** JSON.parse gives back every array of strings that JSON.stringify printed. */
  lemma {:induction false} ParseStringify(items: seq<Text>)
    ensures Parse(Stringify(items)) == Some(items)
  {
    var t := Stringify(items);
    assert t == [OPEN] + Quoted(items) + [CLOSE];
    assert SkipBlank(t) == t && t[1..] == Quoted(items) + [CLOSE];
    if items == [] {
      assert t[1..] == [CLOSE];
      assert SkipBlank(t[1..][1..]) == [];
    } else {
      QuotedStep(items);
      ItemsRoundTrip(items, []);
      assert Quoted(items) + [CLOSE] + [] == t[1..];
      assert SkipBlank(t[1..]) == t[1..];
    }
  }
}
