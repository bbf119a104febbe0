/** The block reader: one loop over the lines with inner loops that read ahead, a paragraph kept
    aside until something ends it, and the document's own title dropped once. */
module MarkdownReader {
  import opened Wrappers
  import opened JsText
  import opened JsonStrings
  import opened MarkdownLines
  import opened MarkdownBlocks

  const CR: Unit := 0x0D
  const LF: Unit := 0x0A

  /** text.replace(/\r\n/g, '\n') */
  function PlainEnds(t: Text): Text {
    if t == [] then []
    else if [CR, LF] <= t then [LF] + PlainEnds(t[2..])
    else [t[0]] + PlainEnds(t[1..])
  }

  function LinesOf(t: Text): seq<Text> {
    Split(PlainEnds(t), LF)
  }

  // ---- the inner loops: each reads from line `i` and stops at the first line that does not belong ----

  /** The lines that pass a test, as they are: the rows of a table, the body of a fence. */
  method ReadRun(p: Test, lines: seq<Text>, i: nat) returns (run: seq<Text>, at: nat)
    requires i <= |lines|
    ensures at == RunEnd(p, lines, i) && run == lines[i..at]
  {
    run, at := [], i;
    while at < |lines| && p(lines[at])
      invariant i <= at <= |lines| && run == lines[i..at]
      invariant RunEnd(p, lines, i) == RunEnd(p, lines, at)
    {
      run := run + [lines[at]];
      at := at + 1;
    }
  }

  lemma GatherStep(grow: Grow, lines: seq<Text>, i: nat, at: nat)
    requires i <= at < |lines|
    ensures Gather(grow, lines[i..at + 1]) == grow(Gather(grow, lines[i..at]), lines[at])
  {
    var now := lines[i..at + 1];
    assert now[..|now| - 1] == lines[i..at] && now[|now| - 1] == lines[at];
  }

  /** What is made of the lines that pass a test: the items of a list, the text of a quote. */
  method ReadWhile(p: Test, grow: Grow, lines: seq<Text>, i: nat) returns (got: seq<Text>, at: nat)
    requires i <= |lines|
    ensures at == RunEnd(p, lines, i) && got == Gather(grow, lines[i..at])
  {
    got, at := [], i;
    while at < |lines| && p(lines[at])
      invariant i <= at <= |lines| && RunEnd(p, lines, i) == RunEnd(p, lines, at)
      invariant got == Gather(grow, lines[i..at])
    {
      GatherStep(grow, lines, i, at);
      got := grow(got, lines[at]);
      at := at + 1;
    }
  }

  /** A block of several lines that is no paragraph, and the line after it. */
  method ReadLines(lines: seq<Text>, i: nat, kind: Kind) returns (block: Option<Block>, next: nat)
    requires i < |lines| && SpansLines(kind) && !kind.TextK?
    requires kind.TableK? ==> IsTable(lines[i])
    requires kind.ListK? ==> ItemOf(lines[i]).Some?
    requires kind.QuoteK? ==> IsQuote(lines[i])
    ensures kind.FenceK? ==> Piece(i, next, block) == FencePiece(lines, i)
    ensures kind.TableK? ==> Piece(i, next, block) == TablePiece(lines, i)
    ensures kind.ListK? ==> Piece(i, next, block) == ListPiece(lines, i)
    ensures kind.QuoteK? ==> Piece(i, next, block) == QuotePiece(lines, i)
  {
    if kind.FenceK? {
      var body, at := ReadRun(NoFence, lines, i + 1);
      block, next := Some(Pre(body)), if at < |lines| then at + 1 else at;
    } else if kind.TableK? {
      var rows, at := ReadRun(IsTable, lines, i);
      block, next := Some(Table(rows)), at;
    } else if kind.ListK? {
      var items, at := ReadWhile(InList, WithItem, lines, i);
      block, next := Some(List(ItemOf(lines[i]).value.0, items)), at;
    } else {
      var quoted, at := ReadWhile(IsQuote, WithQuoted, lines, i);
      block, next := Some(Quote(quoted)), at;
    }
  }

  /** One block that is no paragraph, the line after it, and whether the title is still to be
      dropped. */
  method ReadBlock(lines: seq<Text>, i: nat, dropTitle: bool) returns (block: Option<Block>, next: nat, drop: bool)
    requires i < |lines| && !IsText(lines[i])
    ensures PieceAt(lines, i, dropTitle) == Piece(i, next, block)
    ensures drop == StillDrops(lines, i, dropTitle)
  {
    var kind := KindOf(lines[i]);
    drop := dropTitle && !(kind.HeadK? && HeadingOf(lines[i]).value.0 == 1);
    if SpansLines(kind) {
      block, next := ReadLines(lines, i, kind);
    } else {
      block, next := OneLine(lines[i], dropTitle), i + 1;
    }
  }

  // ---- the loop ----

  lemma BlocksAssoc(a: seq<Block>, b: seq<Block>, c: seq<Block>)
    ensures (a + b) + c == a + (b + c)
  {
  }

  function Flushed(para: seq<Text>): seq<Block> {
    if para == [] then [] else [Para(para)]
  }

  function Made(block: Option<Block>): seq<Block> {
    if block.Some? then [block.value] else []
  }

  /** Where the reader stands: the nodes so far, then the paragraph open since line `start`, then
      the lines from `i` on, make up the whole document. */
  ghost predicate Stands(lines: seq<Text>, skipTitle: bool, nodes: seq<Block>, para: seq<Text>, start: nat, i: nat,
      drop: bool) {
    && start <= i <= |lines|
    && para == Trimmed(lines[start..i])
    && AllPass(IsText, lines, start, i)
    && BlocksFrom(lines, 0, skipTitle) == nodes + BlocksFrom(lines, start, drop)
  }

  predicate AllPass(p: Test, lines: seq<Text>, from: nat, to: nat)
    requires to <= |lines|
  {
    forall j :: from <= j < to ==> p(lines[j])
  }

  predicate StopsAt(p: Test, lines: seq<Text>, i: nat)
    requires i <= |lines|
  {
    i == |lines| || !p(lines[i])
  }

  lemma {:induction false} RunsTo(p: Test, lines: seq<Text>, from: nat, i: nat)
    requires from <= i <= |lines| && AllPass(p, lines, from, i) && StopsAt(p, lines, i)
    ensures RunEnd(p, lines, from) == i
    decreases i - from
  {
    if from < i { RunsTo(p, lines, from + 1, i); }
  }

  lemma TextIsPiece(lines: seq<Text>, i: nat, drop: bool)
    requires i < |lines| && IsText(lines[i])
    ensures PieceAt(lines, i, drop) == TextPiece(lines, i)
    ensures StillDrops(lines, i, drop) == drop
  {
  }

  lemma TextBlocks(lines: seq<Text>, start: nat, i: nat, drop: bool)
    requires start < |lines| && IsText(lines[start]) && RunEnd(IsText, lines, start + 1) == i
    ensures BlocksFrom(lines, start, drop) == Flushed(Trimmed(lines[start..i])) + BlocksFrom(lines, i, drop)
  {
    TextIsPiece(lines, start, drop);
    BlocksStep(lines, start, drop);
  }

  lemma RunOf(p: Test, lines: seq<Text>, start: nat, i: nat)
    requires start < i <= |lines| && AllPass(p, lines, start, i) && StopsAt(p, lines, i)
    ensures p(lines[start]) && RunEnd(p, lines, start + 1) == i
  {
    RunsTo(p, lines, start + 1, i);
  }

  lemma NothingFlushed(rest: seq<Block>)
    ensures Flushed(Trimmed([])) + rest == rest
  {
  }

  /** An open paragraph that a line ends is exactly one piece. */
  lemma {:induction false} ParaIsOnePiece(lines: seq<Text>, start: nat, i: nat, drop: bool)
    requires start <= i <= |lines| && AllPass(IsText, lines, start, i) && StopsAt(IsText, lines, i)
    ensures BlocksFrom(lines, start, drop) == Flushed(Trimmed(lines[start..i])) + BlocksFrom(lines, i, drop)
  {
    if start < i {
      RunOf(IsText, lines, start, i);
      TextBlocks(lines, start, i, drop);
    } else {
      NothingFlushed(BlocksFrom(lines, i, drop));
    }
  }

  lemma {:induction false} AfterFlush(lines: seq<Text>, skipTitle: bool, nodes: seq<Block>, para: seq<Text>,
      start: nat, i: nat, drop: bool)
    requires Stands(lines, skipTitle, nodes, para, start, i, drop) && StopsAt(IsText, lines, i)
    ensures Stands(lines, skipTitle, nodes + Flushed(para), [], i, i, drop)
  {
    ParaIsOnePiece(lines, start, i, drop);
    BlocksAssoc(nodes, Flushed(para), BlocksFrom(lines, i, drop));
  }

  lemma {:induction false} AfterBlock(lines: seq<Text>, skipTitle: bool, nodes: seq<Block>, i: nat, drop: bool)
    requires Stands(lines, skipTitle, nodes, [], i, i, drop) && i < |lines|
    ensures var piece := PieceAt(lines, i, drop);
      Stands(lines, skipTitle, nodes + Made(piece.block), [], piece.to, piece.to, StillDrops(lines, i, drop))
  {
    var piece := PieceAt(lines, i, drop);
    BlocksStep(lines, i, drop);
    BlocksAssoc(nodes, Made(piece.block), BlocksFrom(lines, piece.to, StillDrops(lines, i, drop)));
  }

  lemma TrimmedStep(lines: seq<Text>, start: nat, i: nat)
    requires start <= i < |lines|
    ensures Trimmed(lines[start..i + 1]) == Trimmed(lines[start..i]) + [Trim(lines[i])]
  {
  }

  lemma {:induction false} AfterText(lines: seq<Text>, skipTitle: bool, nodes: seq<Block>, para: seq<Text>,
      start: nat, i: nat, drop: bool)
    requires Stands(lines, skipTitle, nodes, para, start, i, drop)
    requires i < |lines| && IsText(lines[i])
    ensures Stands(lines, skipTitle, nodes, para + [Trim(lines[i])], start, i + 1, drop)
  {
    TrimmedStep(lines, start, i);
  }

  /** The reader makes the blocks of the pieces that tile the lines. */
  method MdToNodes(text: Text, skipTitle: bool) returns (nodes: seq<Block>)
    ensures nodes == Blocks(Pieces(LinesOf(text), 0, skipTitle))
    ensures Tiles(Pieces(LinesOf(text), 0, skipTitle), 0, |LinesOf(text)|)
  {
    var lines := LinesOf(text);
    nodes := [];
    var para, drop, i := [], skipTitle, 0;
    ghost var start := 0;
    while i < |lines|
      invariant Stands(lines, skipTitle, nodes, para, start, i, drop)
    {
      if IsText(lines[i]) {
        AfterText(lines, skipTitle, nodes, para, start, i, drop);
        para := para + [Trim(lines[i])];
        i := i + 1;
      } else {
        AfterFlush(lines, skipTitle, nodes, para, start, i, drop);
        nodes, para := nodes + Flushed(para), [];
        AfterBlock(lines, skipTitle, nodes, i, drop);
        var block, next, still := ReadBlock(lines, i, drop);
        nodes, i, drop, start := nodes + Made(block), next, still, next;
      }
    }
    AfterFlush(lines, skipTitle, nodes, para, start, i, drop);
    nodes := nodes + Flushed(para);
    PiecesTile(lines, 0, skipTitle);
  }
}
