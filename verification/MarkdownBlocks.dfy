/** Markdown blocks: one pass with inner loops over the lines, against a plain cutting of the
    lines into pieces. */
module MarkdownBlocks {
  import opened Wrappers
  import opened JsText
  import opened JsonStrings
  import opened MarkdownLines

  datatype Block =
    | Pre(body: seq<Text>)
    | Anchor(id: Text)
    | Head(level: nat, text: Text)
    | Table(rows: seq<Text>)
    | List(ordered: bool, items: seq<Text>)
    | Quote(quoted: seq<Text>)
    | Rule
    | Logos(images: seq<(Text, Text)>)
    | Shot(alt: Text, src: Text)
    | Para(words: seq<Text>)

  /** Lines `from` up to `to`, and the block they make, if any. */
  datatype Piece = Piece(from: nat, to: nat, block: Option<Block>)

  // ---- where a block ends ----

  type Test = Text -> bool

  /** The first line from `i` on that fails a test, or the number of lines. */
  function RunEnd(p: Test, lines: seq<Text>, i: nat): (at: nat)
    requires i <= |lines|
    ensures i <= at <= |lines| && (at < |lines| ==> !p(lines[at]))
    decreases |lines| - i
  {
    if i == |lines| || !p(lines[i]) then i else RunEnd(p, lines, i + 1)
  }

  /** A run ends where the test first fails, and nowhere before. */
  lemma {:induction false} RunEndIsFirst(p: Test, lines: seq<Text>, i: nat, j: nat)
    requires i <= |lines| && i <= j < RunEnd(p, lines, i)
    ensures p(lines[j])
    decreases |lines| - i
  {
    if j > i { RunEndIsFirst(p, lines, i + 1, j); }
  }

  predicate NoFence(t: Text) {
    !IsFence(t)
  }

  predicate InList(t: Text) {
    ItemOf(t).Some? || IsContinuation(t)
  }

  predicate IsText(t: Text) {
    KindOf(t) == TextK
  }

  // ---- what a block holds ----

  function Trimmed(lines: seq<Text>): (out: seq<Text>)
    ensures |out| == |lines|
  {
    seq(|lines|, i requires 0 <= i < |lines| => Trim(lines[i]))
  }

  type Grow = (seq<Text>, Text) -> seq<Text>

  /** What is gathered from lines, one after the other. */
  function Gather(grow: Grow, lines: seq<Text>): seq<Text> {
    if lines == [] then [] else grow(Gather(grow, lines[..|lines| - 1]), lines[|lines| - 1])
  }

  function WithQuoted(quoted: seq<Text>, t: Text): seq<Text> {
    quoted + [QuoteText(t)]
  }

  /** One more line of a list: a new item, or more of the last one. */
  function WithItem(items: seq<Text>, t: Text): seq<Text> {
    if ItemOf(t).Some? then items + [ItemOf(t).value.1]
    else if items == [] then []
    else items[|items| - 1 := items[|items| - 1] + [SPACE] + Trim(t)]
  }

  /** A list that starts with an item always has one for a later line to continue. */
  lemma {:induction false} ListHasItem(lines: seq<Text>)
    requires lines != [] && ItemOf(lines[0]).Some?
    ensures Gather(WithItem, lines) != []
  {
    if |lines| > 1 {
      var before := lines[..|lines| - 1];
      assert before[0] == lines[0];
      ListHasItem(before);
    }
  }

  function Level(hashes: nat): nat {
    if hashes == 1 then 2 else if hashes + 1 < 4 then hashes + 1 else 4
  }

  predicate SpansLines(kind: Kind) {
    kind.FenceK? || kind.TableK? || kind.ListK? || kind.QuoteK? || kind.TextK?
  }

  /** The block of a line that stands for itself. The document's own title is taken without one. */
  function OneLine(t: Text, dropTitle: bool): Option<Block>
    requires !SpansLines(KindOf(t))
  {
    match KindOf(t)
    case AnchorK => Some(Anchor(AnchorId(t).value))
    case HeadK =>
      var (n, text) := HeadingOf(t).value;
      if n == 1 && dropTitle then None else Some(Head(Level(n), text))
    case RuleK => Some(Rule)
    case LogosK => Some(Logos(LogosOf(t).value))
    case ShotK => Some(Shot(ShotOf(t).value.0, ShotOf(t).value.1))
    case BlankK => None
  }

  /** A fence takes the lines up to the next one, and that one too. */
  function FencePiece(lines: seq<Text>, i: nat): (piece: Piece)
    requires i < |lines|
    ensures piece.from == i < piece.to <= |lines|
  {
    var end := RunEnd(NoFence, lines, i + 1);
    Piece(i, if end < |lines| then end + 1 else end, Some(Pre(lines[i + 1..end])))
  }

  function TablePiece(lines: seq<Text>, i: nat): (piece: Piece)
    requires i < |lines|
    ensures piece.from == i < piece.to <= |lines|
  {
    var end := RunEnd(IsTable, lines, i + 1);
    Piece(i, end, Some(Table(lines[i..end])))
  }

  function ListPiece(lines: seq<Text>, i: nat): (piece: Piece)
    requires i < |lines| && ItemOf(lines[i]).Some?
    ensures piece.from == i < piece.to <= |lines|
  {
    var end := RunEnd(InList, lines, i + 1);
    Piece(i, end, Some(List(ItemOf(lines[i]).value.0, Gather(WithItem, lines[i..end]))))
  }

  function QuotePiece(lines: seq<Text>, i: nat): (piece: Piece)
    requires i < |lines|
    ensures piece.from == i < piece.to <= |lines|
  {
    var end := RunEnd(IsQuote, lines, i + 1);
    Piece(i, end, Some(Quote(Gather(WithQuoted, lines[i..end]))))
  }

  function TextPiece(lines: seq<Text>, i: nat): (piece: Piece)
    requires i < |lines|
    ensures piece.from == i < piece.to <= |lines|
  {
    var end := RunEnd(IsText, lines, i + 1);
    Piece(i, end, Some(Para(Trimmed(lines[i..end]))))
  }

  /** The piece that starts at line `i`: it ends before the first line that does not belong. */
  function PieceAt(lines: seq<Text>, i: nat, dropTitle: bool): (piece: Piece)
    requires i < |lines|
    ensures piece.from == i < piece.to <= |lines|
  {
    var kind := KindOf(lines[i]);
    if kind.FenceK? then FencePiece(lines, i)
    else if kind.TableK? then TablePiece(lines, i)
    else if kind.ListK? then ListPiece(lines, i)
    else if kind.QuoteK? then QuotePiece(lines, i)
    else if kind.TextK? then TextPiece(lines, i)
    else Piece(i, i + 1, OneLine(lines[i], dropTitle))
  }

  /** Whether the title is still to be dropped after this piece. */
  predicate StillDrops(lines: seq<Text>, i: nat, dropTitle: bool)
    requires i < |lines|
  {
    dropTitle && !(KindOf(lines[i]).HeadK? && HeadingOf(lines[i]).value.0 == 1)
  }

  /** The pieces of the lines from `i` on. */
  function Pieces(lines: seq<Text>, i: nat, dropTitle: bool): seq<Piece>
    requires i <= |lines|
    decreases |lines| - i
  {
    if i == |lines| then []
    else
      var piece := PieceAt(lines, i, dropTitle);
      [piece] + Pieces(lines, piece.to, StillDrops(lines, i, dropTitle))
  }

  function Blocks(pieces: seq<Piece>): seq<Block> {
    if pieces == [] then []
    else (if pieces[0].block.Some? then [pieces[0].block.value] else []) + Blocks(pieces[1..])
  }

  predicate Tiles(pieces: seq<Piece>, from: nat, to: nat) {
    if pieces == [] then from == to
    else pieces[0].from == from < pieces[0].to && Tiles(pieces[1..], pieces[0].to, to)
  }

  /** Every line belongs to exactly one piece, and the pieces come in order. */
  lemma {:induction false} PiecesTile(lines: seq<Text>, i: nat, dropTitle: bool)
    requires i <= |lines|
    ensures Tiles(Pieces(lines, i, dropTitle), i, |lines|)
    decreases |lines| - i
  {
    if i < |lines| {
      var piece := PieceAt(lines, i, dropTitle);
      var rest := Pieces(lines, piece.to, StillDrops(lines, i, dropTitle));
      PiecesTile(lines, piece.to, StillDrops(lines, i, dropTitle));
      assert ([piece] + rest)[1..] == rest;
    }
  }

  /** A line belongs to exactly one piece. */
  lemma {:induction false} LineInOnePiece(pieces: seq<Piece>, from: nat, to: nat, line: nat) returns (k: nat)
    requires Tiles(pieces, from, to) && from <= line < to
    ensures k < |pieces| && pieces[k].from <= line < pieces[k].to
    ensures forall j :: 0 <= j < |pieces| && j != k ==> !(pieces[j].from <= line < pieces[j].to)
  {
    if line < pieces[0].to {
      k := 0;
      LaterPieces(pieces[1..], pieces[0].to, to);
      assert forall j :: 0 < j < |pieces| ==> pieces[j] == pieces[1..][j - 1];
    } else {
      k := LineInOnePiece(pieces[1..], pieces[0].to, to, line);
      k := k + 1;
      assert forall j :: 0 < j < |pieces| ==> pieces[j] == pieces[1..][j - 1];
    }
  }

  lemma {:induction false} LaterPieces(pieces: seq<Piece>, from: nat, to: nat)
    requires Tiles(pieces, from, to)
    ensures forall j :: 0 <= j < |pieces| ==> from <= pieces[j].from < pieces[j].to <= to
    ensures from <= to
  {
    if pieces != [] {
      LaterPieces(pieces[1..], pieces[0].to, to);
      assert forall j :: 0 < j < |pieces| ==> pieces[j] == pieces[1..][j - 1];
    }
  }

  /** What is left to read: the blocks of the lines from `i` on. */
  function BlocksFrom(lines: seq<Text>, i: nat, dropTitle: bool): seq<Block>
    requires i <= |lines|
  {
    Blocks(Pieces(lines, i, dropTitle))
  }

  lemma BlocksStep(lines: seq<Text>, i: nat, dropTitle: bool)
    requires i < |lines|
    ensures var piece := PieceAt(lines, i, dropTitle);
      BlocksFrom(lines, i, dropTitle) ==
      (if piece.block.Some? then [piece.block.value] else [])
          + BlocksFrom(lines, piece.to, StillDrops(lines, i, dropTitle))
  {
    var piece := PieceAt(lines, i, dropTitle);
    var rest := Pieces(lines, piece.to, StillDrops(lines, i, dropTitle));
    assert ([piece] + rest)[1..] == rest;
  }
}
