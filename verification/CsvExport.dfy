/** The table's CSV export, and a reader of RFC 4180 section 2 that gets the cells back. */
module CsvExport {
  import opened Wrappers
  import opened JsText
  import opened JsonStrings
  import opened TableView

  const CR: Unit := 0x0D
  const LF: Unit := 0x0A
  const BOM: Unit := 0xFEFF

  // ---- printing ----

  /** Every double quote twice. */
  function Doubled(s: Text): Text {
    if s == [] then [] else (if s[0] == QUOTE then [QUOTE, QUOTE] else [s[0]]) + Doubled(s[1..])
  }

  /** Quotes where they are needed. */
  function Esc(s: Text): Text {
    if QUOTE in s || COMMA in s || LF in s then [QUOTE] + Doubled(s) + [QUOTE] else s
  }

  function PrintRecord(cells: seq<Text>): Text {
    if cells == [] then []
    else if |cells| == 1 then Esc(cells[0])
    else Esc(cells[0]) + ([COMMA] + PrintRecord(cells[1..]))
  }

  function PrintRecords(records: seq<seq<Text>>): Text {
    if records == [] then []
    else if |records| == 1 then PrintRecord(records[0])
    else PrintRecord(records[0]) + ([CR, LF] + PrintRecords(records[1..]))
  }

  // ---- reading ----

  /** Where a field or a record may end. */
  predicate AtBreak(t: Text) {
    |t| >= 2 && t[0] == CR && t[1] == LF
  }

  predicate AtEnd(t: Text) {
    t == [] || t[0] == COMMA || AtBreak(t)
  }

  /** A field without quotes, and what follows it. */
  function ReadPlain(t: Text): (r: (Text, Text))
    ensures |r.1| <= |t|
  {
    if AtEnd(t) then ([], t)
    else
      var (s, rest) := ReadPlain(t[1..]);
      ([t[0]] + s, rest)
  }

  /** The rest of a quoted field, and what follows its closing quote. */
  function ReadQuoted(t: Text): (r: Option<(Text, Text)>)
    ensures r.Some? ==> |r.value.1| < |t|
    decreases |t|
  {
    if t == [] then None
    else if t[0] != QUOTE then Prepend(t[0], ReadQuoted(t[1..]))
    else if |t| >= 2 && t[1] == QUOTE then Prepend(QUOTE, ReadQuoted(t[2..]))
    else Some(([], t[1..]))
  }

  function ReadField(t: Text): (r: Option<(Text, Text)>)
    ensures r.Some? ==> |r.value.1| <= |t|
  {
    if t != [] && t[0] == QUOTE then ReadQuoted(t[1..]) else Some(ReadPlain(t))
  }

  /** One record, and what follows it. */
  function ReadRecord(t: Text): (r: Option<(seq<Text>, Text)>)
    ensures r.Some? ==> |r.value.1| <= |t|
    decreases |t|
  {
    match ReadField(t)
    case None => None
    case Some((field, rest)) =>
      if rest != [] && rest[0] == COMMA then
        match ReadRecord(rest[1..])
        case None => None
        case Some((more, end)) => Some(([field] + more, end))
      else if rest == [] || AtBreak(rest) then Some(([field], rest))
      else None
  }

  /** All records; the last may or may not end with a line break. */
  function Read(t: Text): Option<seq<seq<Text>>>
    decreases |t|
  {
    match ReadRecord(t)
    case None => None
    case Some((record, rest)) =>
      if |rest| <= 2 then Some([record])
      else
        match Read(rest[2..])
        case None => None
        case Some(more) => Some([record] + more)
  }

  // ---- round trip ----

  lemma {:induction false} PlainReadsBack(s: Text, tail: Text)
    requires QUOTE !in s && COMMA !in s && LF !in s && AtEnd(tail)
    ensures ReadPlain(s + tail) == (s, tail)
  {
    if s == [] {
      assert s + tail == tail;
    } else {
      PlainReadsBack(s[1..], tail);
      assert (s + tail)[1..] == s[1..] + tail;
      assert |s + tail| >= 2 ==> (s + tail)[1] == if |s| > 1 then s[1] else tail[0];
      assert s == [s[0]] + s[1..];
    }
  }

  lemma {:induction false} QuotedReadsBack(s: Text, tail: Text)
    requires tail == [] || tail[0] != QUOTE
    ensures ReadQuoted(Doubled(s) + ([QUOTE] + tail)) == Some((s, tail))
  {
    var end := [QUOTE] + tail;
    if s == [] {
      assert Doubled(s) + end == end && end[1..] == tail;
    } else {
      QuotedReadsBack(s[1..], tail);
      var first := if s[0] == QUOTE then [QUOTE, QUOTE] else [s[0]];
      var t := Doubled(s) + end;
      Assoc(first, Doubled(s[1..]), end);
      assert t[|first|..] == Doubled(s[1..]) + end;
      assert s == [s[0]] + s[1..];
    }
  }

  lemma FieldReadsBack(s: Text, tail: Text)
    requires AtEnd(tail)
    ensures ReadField(Esc(s) + tail) == Some((s, tail))
  {
    if QUOTE in s || COMMA in s || LF in s {
      QuotedReadsBack(s, tail);
      Assoc([QUOTE], Doubled(s), [QUOTE]);
      Assoc([QUOTE], Doubled(s) + [QUOTE], tail);
      Assoc(Doubled(s), [QUOTE], tail);
      assert (Esc(s) + tail)[1..] == Doubled(s) + ([QUOTE] + tail);
    } else {
      PlainReadsBack(s, tail);
      assert s + tail != [] ==> (s + tail)[0] == if s == [] then tail[0] else s[0];
    }
  }

  /** A cell and a comma before a record that is read back. */
  lemma CellThenMore(cell: Text, printed: Text, cells: seq<Text>, end: Text)
    requires ReadRecord(printed) == Some((cells, end))
    ensures ReadRecord(Esc(cell) + ([COMMA] + printed)) == Some(([cell] + cells, end))
  {
    var rest := [COMMA] + printed;
    FieldReadsBack(cell, rest);
    assert rest[1..] == printed;
  }

  lemma CellsRegroup(a: Text, b: Text, c: Text)
    ensures (a + ([COMMA] + b)) + c == a + ([COMMA] + (b + c))
  {
  }

  lemma {:induction false} RecordReadsBack(cells: seq<Text>, tail: Text)
    requires cells != [] && (tail == [] || AtBreak(tail))
    ensures ReadRecord(PrintRecord(cells) + tail) == Some((cells, tail))
  {
    if |cells| == 1 {
      FieldReadsBack(cells[0], tail);
      assert cells == [cells[0]];
    } else {
      RecordReadsBack(cells[1..], tail);
      CellThenMore(cells[0], PrintRecord(cells[1..]) + tail, cells[1..], tail);
      CellsRegroup(Esc(cells[0]), PrintRecord(cells[1..]), tail);
      assert cells == [cells[0]] + cells[1..];
    }
  }

  predicate Records(records: seq<seq<Text>>) {
    records != [] && forall i :: 0 <= i < |records| ==> records[i] != []
  }

  /** A last record that is one empty cell prints as nothing after the line break before it. */
  predicate EndsBlank(records: seq<seq<Text>>) {
    |records| > 1 && records[|records| - 1] == [[]]
  }

  lemma PrintsNothing(cells: seq<Text>)
    requires cells != []
    ensures PrintRecord(cells) == [] <==> cells == [[]]
  {
  }

  /** What the reader should give back. */
  function Kept(records: seq<seq<Text>>): seq<seq<Text>> {
    if EndsBlank(records) then records[..|records| - 1] else records
  }

  lemma KeptStep(first: seq<Text>, others: seq<seq<Text>>)
    requires others != [] && others != [[[]]]
    ensures Kept([first] + others) == [first] + Kept(others)
  {
    var records := [first] + others;
    assert records[|records| - 1] == others[|others| - 1];
    if EndsBlank(records) { assert records[..|records| - 1] == [first] + others[..|others| - 1]; }
  }

  /** A record and a line break before records that are read back. */
  lemma RecordThenMore(first: seq<Text>, printed: Text, kept: seq<seq<Text>>)
    requires first != [] && printed != [] && Read(printed) == Some(kept)
    ensures Read(PrintRecord(first) + ([CR, LF] + printed)) == Some([first] + kept)
  {
    var rest := [CR, LF] + printed;
    RecordReadsBack(first, rest);
    assert rest[2..] == printed;
  }

  lemma LastRecord(first: seq<Text>)
    requires first != []
    ensures Read(PrintRecord(first)) == Some([first])
    ensures Read(PrintRecord(first) + [CR, LF]) == Some([first])
  {
    RecordReadsBack(first, []);
    RecordReadsBack(first, [CR, LF]);
    assert PrintRecord(first) + [] == PrintRecord(first);
  }

  /** The reader gets every record back, except a last one that is a single empty cell. */
  lemma {:induction false} ReadsBack(records: seq<seq<Text>>)
    requires Records(records)
    ensures Read(PrintRecords(records)) == Some(Kept(records))
  {
    var first := records[0];
    LastRecord(first);
    if |records| == 1 {
      assert records == [first];
    } else {
      var others := records[1..];
      assert records == [first] + others;
      PrintsNothing(others[0]);
      if others == [[[]]] {
        assert [CR, LF] + [] == [CR, LF];
        assert records[..1] == [first];
      } else {
        ReadsBack(others);
        PrintsSomething(others);
        RecordThenMore(first, PrintRecords(others), Kept(others));
        KeptStep(first, others);
      }
    }
  }

  lemma PrintsSomething(records: seq<seq<Text>>)
    requires Records(records) && records != [[[]]]
    ensures PrintRecords(records) != []
  {
    PrintsNothing(records[0]);
    if |records| == 1 { assert records == [records[0]]; }
  }

  // ---- what is exported ----

  /** A cell's text with every run of white space made one space, trimmed. */
  function Collapse(t: Text): Text {
    Trim(Squeeze(t))
  }

  function Squeeze(t: Text): Text {
    if t == [] then []
    else if !IsSpace(t[0]) then [t[0]] + Squeeze(t[1..])
    else if |t| > 1 && IsSpace(t[1]) then Squeeze(t[1..])
    else [SPACE] + Squeeze(t[1..])
  }

  function Lower(u: Unit): Unit {
    if 0x41 <= u <= 0x5A then u + 0x20 else u
  }

  /** "actions", of which "action" is a prefix. */
  const ACTIONS: Text := [0x61, 0x63, 0x74, 0x69, 0x6F, 0x6E, 0x73]

  /** A heading that is "action" or "actions" in any case. */
  predicate IsActions(heading: Text) {
    6 <= |heading| <= 7 && forall i :: 0 <= i < |heading| ==> Lower(heading[i]) == ACTIONS[i]
  }

  /** The sort caret characters are not part of a heading. */
  function Heading(c: Column): Text {
    Trim(WithoutCarets(c.heading))
  }

  function WithoutCarets(t: Text): Text {
    if t == [] then [] else (if t[0] == 0x25B2 || t[0] == 0x25BC then [] else [t[0]]) + WithoutCarets(t[1..])
  }

  predicate ColumnsOf(t: Table, cols: seq<nat>) {
    forall i :: 0 <= i < |cols| ==> cols[i] < |t.cols|
  }

  function ExportColumns(t: Table, col: nat): (cols: seq<nat>)
    ensures ColumnsOf(t, cols)
    decreases |t.cols| - col
  {
    if col >= |t.cols| then []
    else
      var rest := ExportColumns(t, col + 1);
      if Heading(t.cols[col]) != [] && !IsActions(Heading(t.cols[col])) then [col] + rest else rest
  }

  function Headings(t: Table, cols: seq<nat>): (cells: seq<Text>)
    requires ColumnsOf(t, cols)
    ensures |cells| == |cols|
  {
    seq(|cols|, i requires 0 <= i < |cols| => Heading(t.cols[cols[i]]))
  }

  predicate CellsIn(t: Table, row: nat, cols: seq<nat>) {
    row < |t.rows| && forall i :: 0 <= i < |cols| ==> cols[i] < |t.rows[row].cells|
  }

  /** Every row of the view has a cell in every exported column. */
  predicate HasCells(t: Table, list: seq<nat>, cols: seq<nat>) {
    forall a :: 0 <= a < |list| ==> CellsIn(t, list[a], cols)
  }

  function RowCells(t: Table, row: nat, cols: seq<nat>): (cells: seq<Text>)
    requires CellsIn(t, row, cols)
    ensures |cells| == |cols|
  {
    seq(|cols|, i requires 0 <= i < |cols| => Collapse(t.rows[row].cells[cols[i]]))
  }

  function RowRecords(t: Table, list: seq<nat>, cols: seq<nat>): (records: seq<seq<Text>>)
    requires HasCells(t, list, cols)
    ensures |records| == |list| && forall a :: 0 <= a < |records| ==> |records[a]| == |cols|
  {
    seq(|list|, a requires 0 <= a < |list| => RowCells(t, list[a], cols))
  }

  /** The header and the rows of the current view. */
  function ExportRecords(t: Table, list: seq<nat>): (records: seq<seq<Text>>)
    requires HasCells(t, list, ExportColumns(t, 0))
    ensures |records| == |list| + 1 && forall a :: 0 <= a < |records| ==> |records[a]| == |ExportColumns(t, 0)|
  {
    var cols := ExportColumns(t, 0);
    [Headings(t, cols)] + RowRecords(t, list, cols)
  }

  /** The exported text of a view. */
  function ExportText(t: Table, list: seq<nat>): Text
    requires HasCells(t, list, ExportColumns(t, 0))
  {
    [BOM] + PrintRecords(ExportRecords(t, list))
  }

  /** Reading an export after its byte-order mark gives exactly the headings and cells of the
      view, unless the table exports one column and its last cell is blank. */
  lemma ExportReadsBack(t: Table, list: seq<nat>)
    requires ExportColumns(t, 0) != [] && HasCells(t, list, ExportColumns(t, 0))
    ensures Read(ExportText(t, list)[1..]) == Some(ExportRecords(t, list)) <==>
      !(list != [] && |ExportColumns(t, 0)| == 1 && ExportRecords(t, list)[|list|][0] == [])
  {
    var records := ExportRecords(t, list);
    ReadsBack(records);
    assert ExportText(t, list)[1..] == PrintRecords(records);
    var last := records[|list|];
    if |last| == 1 && last[0] == [] { assert last == [[]]; }
    assert EndsBlank(records) ==> |records[..|records| - 1]| != |records|;
  }
}
