/** JavaScript strings as sequences of UTF-16 code units, and the operations on them that the
    console uses. */
module JsText {
  type Unit = u: int | 0 <= u < 0x10000
  type Text = seq<Unit>

  const COMMA: Unit := 0x2C
  const SPACE: Unit := 0x20

  /** White space and line terminators, as String.prototype.trim knows them. */
  predicate IsSpace(u: Unit) {
    || 0x09 <= u <= 0x0D || u == 0x20 || u == 0xA0 || u == 0x1680 || 0x2000 <= u <= 0x200A
    || u == 0x2028 || u == 0x2029 || u == 0x202F || u == 0x205F || u == 0x3000 || u == 0xFEFF
  }

  function TrimStart(t: Text): Text {
    if t != [] && IsSpace(t[0]) then TrimStart(t[1..]) else t
  }

  function TrimEnd(t: Text): Text {
    if t != [] && IsSpace(t[|t| - 1]) then TrimEnd(t[..|t| - 1]) else t
  }

  function Trim(t: Text): Text {
    TrimEnd(TrimStart(t))
  }

  /** text.split(sep) for a one-unit separator. */
  function Split(t: Text, sep: Unit): (parts: seq<Text>)
    ensures parts != []
  {
    if t == [] then [[]]
    else
      var rest := Split(t[1..], sep);
      if t[0] == sep then [[]] + rest else [[t[0]] + rest[0]] + rest[1..]
  }

  function Join(parts: seq<Text>, sep: Text): Text {
    if parts == [] then []
    else if |parts| == 1 then parts[0]
    else parts[0] + sep + Join(parts[1..], sep)
  }

  /** trimmed.startsWith(u) */
  predicate InkStartsWith(t: Text, u: Unit) {
    Trim(t) != [] && Trim(t)[0] == u
  }

  // ---- lemmas ----

  /** Trimming starts at the first unit that is no space. */
  lemma {:induction false} TrimSkipsSpace(t: Text)
    ensures t != [] && IsSpace(t[0]) ==> Trim(t) == Trim(t[1..])
    ensures t != [] && !IsSpace(t[0]) ==> Trim(t) != [] && Trim(t)[0] == t[0]
  {
    if t != [] && !IsSpace(t[0]) { TrimEndKeepsInk(t); }
  }

  lemma {:induction false} TrimEndKeepsInk(t: Text)
    requires t != [] && !IsSpace(t[0])
    ensures TrimEnd(t) != [] && TrimEnd(t)[0] == t[0]
  {
    if IsSpace(t[|t| - 1]) { TrimEndKeepsInk(t[..|t| - 1]); }
  }

  /** What follows does not change how ink starts; without ink, what follows decides. */
  lemma {:induction false} InkOfConcat(a: Text, b: Text, u: Unit)
    ensures InkStartsWith(a + b, u) <==> if Trim(a) != [] then InkStartsWith(a, u) else InkStartsWith(b, u)
  {
    if a == [] {
      assert a + b == b;
    } else {
      TrimSkipsSpace(a);
      TrimSkipsSpace(a + b);
      if IsSpace(a[0]) {
        InkOfConcat(a[1..], b, u);
        assert (a + b)[1..] == a[1..] + b;
      }
    }
  }

  /** Trimmed text has no space at either end, and trimming it again changes nothing. */
  lemma {:induction false} TrimTwice(t: Text)
    ensures Trim(Trim(t)) == Trim(t)
    ensures Trim(t) != [] ==> !IsSpace(Trim(t)[0]) && !IsSpace(Trim(t)[|Trim(t)| - 1])
  {
    TrimStartEnds(t);
    TrimEndEnds(TrimStart(t));
    var mid := TrimStart(t);
    if mid != [] { TrimEndKeepsInk(mid); }
  }

  lemma {:induction false} TrimStartEnds(t: Text)
    ensures TrimStart(t) != [] ==> !IsSpace(TrimStart(t)[0])
  {
    if t != [] && IsSpace(t[0]) { TrimStartEnds(t[1..]); }
  }

  lemma {:induction false} TrimEndEnds(t: Text)
    ensures TrimEnd(t) != [] ==> !IsSpace(TrimEnd(t)[|TrimEnd(t)| - 1])
  {
    if t != [] && IsSpace(t[|t| - 1]) { TrimEndEnds(t[..|t| - 1]); }
  }

  /** Splitting a text that starts with a piece free of the separator. */
  lemma {:induction false} SplitAfter(piece: Text, sep: Unit, rest: Text)
    requires sep !in piece
    ensures Split(piece + [sep] + rest, sep) == [piece] + Split(rest, sep)
    ensures Split(piece, sep) == [piece]
  {
    var whole := piece + [sep] + rest;
    if piece == [] {
      assert whole[1..] == rest;
    } else {
      SplitAfter(piece[1..], sep, rest);
      assert whole[1..] == piece[1..] + [sep] + rest;
      assert piece == [piece[0]] + piece[1..];
    }
  }
}
