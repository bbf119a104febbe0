/** The console's table: search, sort and page over one list of rows. */
module TableView {
  import opened Wrappers
  import opened JsText
  import opened JsonStrings
  import opened TableSort

  /** A row: its whole text in lower case, what each cell sorts by, and each cell's text. */
  datatype Row = Row(lower: Text, sorts: seq<Text>, cells: seq<Text>)

  datatype Column = Column(heading: Text, sort: SortType, sortable: bool)

  datatype Table = Table(cols: seq<Column>, rows: seq<Row>, k: Coercer)

  // ---- search ----

  predicate OccursAt(text: Text, q: Text, i: int) {
    0 <= i <= |text| - |q| && text[i..i + |q|] == q
  }

  /** text.includes(q) */
  predicate Includes(text: Text, q: Text) {
    exists i :: 0 <= i <= |text| && OccursAt(text, q, i)
  }

  predicate IsMatch(t: Table, q: Text, i: nat)
    requires i < |t.rows|
  {
    q == [] || Includes(t.rows[i].lower, q)
  }

  /** The rows from `i` on that survive the search, in the original order. */
  function MatchingFrom(t: Table, q: Text, i: nat): (list: seq<nat>)
    ensures forall j :: j in list <==> i <= j < |t.rows| && IsMatch(t, q, j)
    ensures forall a, b :: 0 <= a < b < |list| ==> list[a] < list[b]
    decreases |t.rows| - i
  {
    if i >= |t.rows| then []
    else
      var rest := MatchingFrom(t, q, i + 1);
      assert forall a :: 0 <= a < |rest| ==> rest[a] in rest;
      if IsMatch(t, q, i) then [i] + rest else rest
  }

  // ---- sort ----

  /** What a cell sorts by; a missing cell is blank. */
  function SortValue(t: Table, i: nat, col: nat): Text {
    if i < |t.rows| && col < |t.rows[i].sorts| then t.rows[i].sorts[col] else []
  }

  function SortTypeOf(t: Table, col: nat): SortType {
    if col < |t.cols| then t.cols[col].sort else Auto
  }

  /** The order of two rows: blanks last whatever the direction, ties in the original order. */
  function Order(t: Table, col: nat, dir: int, i: nat, j: nat): real {
    var a, b := SortValue(t, i, col), SortValue(t, j, col);
    var tie := (i - j) as real;
    if IsBlank(a) && IsBlank(b) then tie
    else if IsBlank(a) then 1.0
    else if IsBlank(b) then -1.0
    else
      var d := CompareValues(t.k, a, b, SortTypeOf(t, col));
      if d != 0.0 then d * (dir as real) else tie
  }

  function Insert(t: Table, col: nat, dir: int, i: nat, sorted: seq<nat>): seq<nat> {
    if sorted == [] || Order(t, col, dir, i, sorted[0]) <= 0.0 then [i] + sorted
    else [sorted[0]] + Insert(t, col, dir, i, sorted[1..])
  }

  /** list.sort(order) */
  function Sort(t: Table, col: nat, dir: int, list: seq<nat>): seq<nat> {
    if list == [] then [] else Insert(t, col, dir, list[0], Sort(t, col, dir, list[1..]))
  }

  /** currentRows() */
  function View(t: Table, q: Text, col: int, dir: int): seq<nat> {
    var list := MatchingFrom(t, q, 0);
    if dir == 0 || col < 0 then list else Sort(t, col, dir, list)
  }

  function ColumnValues(t: Table, col: nat): set<Text> {
    set i | 0 <= i < |t.rows| :: SortValue(t, i, col)
  }

  // ---- the order is total where the column has ranks ----

  /** What `Order` means on a column with ranks. */
  predicate Precedes(t: Table, col: nat, dir: int, rank: Text -> real, i: nat, j: nat) {
    var a, b := SortValue(t, i, col), SortValue(t, j, col);
    if IsBlank(a) || IsBlank(b) then IsBlank(b) && (!IsBlank(a) || i < j)
    else if rank(a) != rank(b) then (if dir > 0 then rank(a) < rank(b) else rank(a) > rank(b))
    else i < j
  }

  lemma OrderMeans(t: Table, col: nat, dir: int, rank: Text -> real, i: nat, j: nat)
    requires RankedBy(t.k, ColumnValues(t, col), SortTypeOf(t, col), rank) && (dir == 1 || dir == -1)
    requires i < |t.rows| && j < |t.rows| && i != j
    ensures Order(t, col, dir, i, j) < 0.0 <==> Precedes(t, col, dir, rank, i, j)
    ensures Order(t, col, dir, i, j) > 0.0 <==> Precedes(t, col, dir, rank, j, i)
    ensures Order(t, col, dir, i, j) != 0.0
  {
    assert SortValue(t, i, col) in ColumnValues(t, col) && SortValue(t, j, col) in ColumnValues(t, col);
  }

  predicate RowsOf(t: Table, list: seq<nat>) {
    && (forall a :: 0 <= a < |list| ==> list[a] < |t.rows|)
    && forall a, b :: 0 <= a < b < |list| ==> list[a] != list[b]
  }

  predicate AllPrecede(t: Table, col: nat, dir: int, rank: Text -> real, list: seq<nat>) {
    forall a, b :: 0 <= a < b < |list| ==> Precedes(t, col, dir, rank, list[a], list[b])
  }

  lemma {:induction false} InsertKeeps(t: Table, col: nat, dir: int, i: nat, sorted: seq<nat>)
    ensures multiset(Insert(t, col, dir, i, sorted)) == multiset{i} + multiset(sorted)
  {
    if sorted != [] {
      InsertKeeps(t, col, dir, i, sorted[1..]);
      assert sorted == [sorted[0]] + sorted[1..];
    }
  }

  /** Sorting neither loses nor repeats a row, whatever the comparison does. */
  lemma {:induction false} SortKeeps(t: Table, col: nat, dir: int, list: seq<nat>)
    ensures multiset(Sort(t, col, dir, list)) == multiset(list)
  {
    if list != [] {
      SortKeeps(t, col, dir, list[1..]);
      InsertKeeps(t, col, dir, list[0], Sort(t, col, dir, list[1..]));
      assert list == [list[0]] + list[1..];
    }
  }

  lemma {:induction false} InsertInOrder(t: Table, col: nat, dir: int, rank: Text -> real, i: nat, sorted: seq<nat>)
    requires RankedBy(t.k, ColumnValues(t, col), SortTypeOf(t, col), rank) && (dir == 1 || dir == -1)
    requires RowsOf(t, [i] + sorted) && AllPrecede(t, col, dir, rank, sorted)
    ensures AllPrecede(t, col, dir, rank, Insert(t, col, dir, i, sorted))
    ensures forall j :: j in Insert(t, col, dir, i, sorted) <==> j == i || j in sorted
  {
    var out := Insert(t, col, dir, i, sorted);
    if sorted == [] {
    } else {
      var all := [i] + sorted;
      assert all[0] == i && all[1] == sorted[0];
      OrderMeans(t, col, dir, rank, i, sorted[0]);
      assert sorted == [sorted[0]] + sorted[1..];
      if Order(t, col, dir, i, sorted[0]) > 0.0 {
        assert RowsOf(t, [i] + sorted[1..]) by {
          assert forall a :: 0 < a < |sorted| ==> ([i] + sorted[1..])[a] == all[a + 1];
        }
        InsertInOrder(t, col, dir, rank, i, sorted[1..]);
        var rest := Insert(t, col, dir, i, sorted[1..]);
        forall b | 0 <= b < |rest| ensures Precedes(t, col, dir, rank, sorted[0], rest[b]) {
          assert rest[b] in rest;
          if rest[b] != i {
            var c :| 0 <= c < |sorted[1..]| && sorted[1..][c] == rest[b];
            assert Precedes(t, col, dir, rank, sorted[0], sorted[c + 1]);
          }
        }
      } else {
        forall b | 0 <= b < |sorted| ensures Precedes(t, col, dir, rank, i, sorted[b]) {
          if b > 0 { assert Precedes(t, col, dir, rank, sorted[0], sorted[b]); }
        }
      }
    }
  }

  lemma {:induction false} SortInOrder(t: Table, col: nat, dir: int, rank: Text -> real, list: seq<nat>)
    requires RankedBy(t.k, ColumnValues(t, col), SortTypeOf(t, col), rank) && (dir == 1 || dir == -1)
    requires RowsOf(t, list)
    ensures AllPrecede(t, col, dir, rank, Sort(t, col, dir, list))
    ensures forall j :: j in Sort(t, col, dir, list) <==> j in list
  {
    if list != [] {
      assert list == [list[0]] + list[1..];
      SortInOrder(t, col, dir, rank, list[1..]);
      SortKeepsRows(t, col, dir, list);
      InsertInOrder(t, col, dir, rank, list[0], Sort(t, col, dir, list[1..]));
    }
  }

  /** The head of a list and the sorted rest are still distinct rows. */
  lemma SortKeepsRows(t: Table, col: nat, dir: int, list: seq<nat>)
    requires list != [] && RowsOf(t, list)
    ensures RowsOf(t, [list[0]] + Sort(t, col, dir, list[1..]))
  {
    var rest := Sort(t, col, dir, list[1..]);
    SortKeeps(t, col, dir, list[1..]);
    assert list == [list[0]] + list[1..];
    SameRows(t, list, [list[0]] + rest);
  }

  lemma SameRows(t: Table, list: seq<nat>, other: seq<nat>)
    requires RowsOf(t, list) && multiset(list) == multiset(other)
    ensures RowsOf(t, other)
  {
    forall a | 0 <= a < |other| ensures other[a] < |t.rows| {
      assert other[a] in multiset(list);
    }
    forall a, b | 0 <= a < b < |other| ensures other[a] != other[b] {
      if other[a] == other[b] {
        assert other == other[..a] + [other[a]] + other[a + 1..b] + [other[b]] + other[b + 1..];
        assert multiset(other)[other[a]] >= 2;
        DistinctOnce(list, other[a]);
        assert false;
      }
    }
  }

  lemma {:induction false} DistinctOnce(list: seq<nat>, j: nat)
    requires forall a, b :: 0 <= a < b < |list| ==> list[a] != list[b]
    ensures multiset(list)[j] <= 1
  {
    if list != [] {
      DistinctOnce(list[1..], j);
      assert list == [list[0]] + list[1..];
      if list[0] == j && j in list[1..] { assert false; }
    }
  }

  /** Any correct sort shows the rows in this one order. */
  lemma {:induction false} OrderIsUnique(t: Table, col: nat, dir: int, rank: Text -> real, x: seq<nat>, y: seq<nat>)
    requires AllPrecede(t, col, dir, rank, x) && AllPrecede(t, col, dir, rank, y) && multiset(x) == multiset(y)
    ensures x == y
  {
    assert |multiset(x)| == |x| && |multiset(y)| == |y|;
    if x != [] {
      SameHead(t, col, dir, rank, x, y);
      assert x == [x[0]] + x[1..] && y == [y[0]] + y[1..];
      assert multiset(x[1..]) == multiset(x) - multiset{x[0]} == multiset(y[1..]);
      OrderIsUnique(t, col, dir, rank, x[1..], y[1..]);
    }
  }

  lemma HeadPrecedes(t: Table, col: nat, dir: int, rank: Text -> real, x: seq<nat>, j: nat)
    requires AllPrecede(t, col, dir, rank, x) && j in x
    ensures x[0] == j || Precedes(t, col, dir, rank, x[0], j)
  {
    var a :| 0 <= a < |x| && x[a] == j;
  }

  lemma SameHead(t: Table, col: nat, dir: int, rank: Text -> real, x: seq<nat>, y: seq<nat>)
    requires AllPrecede(t, col, dir, rank, x) && AllPrecede(t, col, dir, rank, y)
    requires multiset(x) == multiset(y) && x != [] && y != []
    ensures x[0] == y[0]
  {
    assert x[0] in multiset(y) && y[0] in multiset(x);
    HeadPrecedes(t, col, dir, rank, x, y[0]);
    HeadPrecedes(t, col, dir, rank, y, x[0]);
  }

  // ---- pages ----

  /** How many pages a list takes; one page when all rows are shown. */
  function Pages(count: nat, size: Option<nat>): (pages: nat)
    ensures pages >= 1
  {
    if size.None? || size.value == 0 || count == 0 then 1 else (count - 1) / size.value + 1
  }

  function At(p: nat, size: nat, count: nat): nat {
    if p * size < count then p * size else count
  }

  /** The rows on page `page`, counted from 1. */
  function PageRows(list: seq<nat>, size: Option<nat>, page: nat): seq<nat>
    requires page >= 1
  {
    if size.None? then list else PageSlice(list, size.value, page)
  }

  function PageSlice(list: seq<nat>, size: nat, page: nat): seq<nat>
    requires page >= 1
  {
    var from := At(page - 1, size, |list|);
    list[from..if from + size < |list| then from + size else |list|]
  }

  /** Pages 1 to `n`, one after the other. */
  function FirstPages(list: seq<nat>, size: Option<nat>, n: nat): seq<nat> {
    if n == 0 then [] else FirstPages(list, size, n - 1) + PageRows(list, size, n)
  }

  lemma {:induction false} FirstPagesAre(list: seq<nat>, size: nat, n: nat)
    ensures FirstPages(list, Some(size), n) == list[..At(n, size, |list|)]
  {
    if n > 0 {
      FirstPagesAre(list, size, n - 1);
      assert n * size == (n - 1) * size + size;
    }
  }

  lemma TimesGrow(a: nat, b: nat, n: nat)
    requires a <= b
    ensures a * n <= b * n
  {
  }

  /** The last page starts before the end of the list and reaches it. */
  lemma LastPage(count: nat, size: nat)
    requires size > 0 && count > 0
    ensures var pages := Pages(count, Some(size)); (pages - 1) * size < count <= pages * size
  {
    var q := (count - 1) / size;
    assert q * size <= count - 1 < q * size + size;
    assert (q + 1) * size == q * size + size;
  }

  /** All pages, one after the other, are the list. */
  lemma PagesTile(list: seq<nat>, size: Option<nat>)
    requires size.Some? ==> size.value > 0
    ensures FirstPages(list, size, Pages(|list|, size)) == list
  {
    if size.None? {
      assert FirstPages(list, size, 0) == [];
      assert FirstPages(list, size, 1) == [] + list;
    } else {
      FirstPagesAre(list, size.value, Pages(|list|, size));
      if list != [] { LastPage(|list|, size.value); }
    }
  }

  /** No page that exists is empty, unless there is nothing to show. */
  lemma PagesHaveRows(list: seq<nat>, size: nat, page: nat)
    requires size > 0 && list != [] && 1 <= page <= Pages(|list|, Some(size))
    ensures PageRows(list, Some(size), page) != []
  {
    LastPage(|list|, size);
    TimesGrow(page - 1, Pages(|list|, Some(size)) - 1, size);
  }
}
