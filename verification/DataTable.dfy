/** The table's controls: what each does to the view, and that the view stays faithful. */
module DataTable {
  import opened Wrappers
  import opened JsText
  import opened JsonStrings
  import opened TableSort
  import opened TableView

  const FIRST_PAGE_SIZE: nat := 25

  datatype Action = Search(q: Text) | ClickHeader(col: nat) | PickSort(at: int, dir: int)
    | Prev | Next | SetPageSize(size: Option<nat>)

  class DataTable {
    const t: Table
    var q: Text
    var sIdx: int
    var sDir: int
    var page: nat
    var pageSize: Option<nat>
    var shown: seq<nat>

    function List(): seq<nat>
      reads this
    {
      View(t, q, sIdx, sDir)
    }

    /** The state between two actions: a page that exists is shown, and shown as it is. */
    ghost predicate Valid()
      reads this
    {
      && (pageSize.Some? ==> pageSize.value > 0)
      && -1 <= sDir <= 1 && (sDir != 0 ==> 0 <= sIdx < |t.cols|)
      && 1 <= page <= Pages(|List()|, pageSize)
      && shown == PageRows(List(), pageSize, page)
    }

    /** `size` is the first page size that is asked for; 0 asks for none. */
    constructor (t: Table, hasPager: bool, size: nat)
      ensures Valid() && this.t == t && q == [] && sDir == 0 && page == 1
      ensures pageSize == if !hasPager then None else Some(if size != 0 then size else FIRST_PAGE_SIZE)
    {
      this.t := t;
      q, sIdx, sDir, page := [], -1, 0, 1;
      pageSize := if !hasPager then None else Some(if size != 0 then size else FIRST_PAGE_SIZE);
      shown := [];
      new;
      Apply();
    }

    /** apply(): back to the last page if there are fewer now, and show the page. */
    method Apply()
      requires page >= 1 && (pageSize.Some? ==> pageSize.value > 0)
      requires -1 <= sDir <= 1 && (sDir != 0 ==> 0 <= sIdx < |t.cols|)
      modifies this`page, this`shown
      ensures Valid()
      ensures page == if old(page) > Pages(|List()|, pageSize) then Pages(|List()|, pageSize) else old(page)
    {
      var list := View(t, q, sIdx, sDir);
      var pages := Pages(|list|, pageSize);
      if page > pages { page := pages; }
      shown := PageRows(list, pageSize, page);
    }

    method SearchFor(text: Text)
      requires Valid()
      modifies this
      ensures Valid() && q == text && page == 1 && (sIdx, sDir, pageSize) == old((sIdx, sDir, pageSize))
    {
      q, page := text, 1;
      Apply();
    }

    predicate CanSort(col: nat)
      reads this
    {
      col < |t.cols| && t.cols[col].sortable
    }

    /** onSort(col): ascending, descending, original order and round again. */
    method SortBy(col: nat)
      requires Valid()
      modifies this
      ensures Valid() && (q, pageSize) == old((q, pageSize))
      ensures !CanSort(col) ==> (sIdx, sDir, page) == old((sIdx, sDir, page))
      ensures CanSort(col) ==> sIdx == col && page == 1
      ensures CanSort(col) ==>
          sDir == if old(sIdx) != col || old(sDir) == 0 then 1 else if old(sDir) == 1 then -1 else 0
    {
      if !CanSort(col) { return; }
      if sIdx == col {
        sDir := if sDir == 1 then -1 else if sDir == -1 then 0 else 1;
      } else {
        sIdx, sDir := col, 1;
      }
      page := 1;
      Apply();
    }

    /** The sort menu of the card layout: a column with a direction, or the original order. */
    method PickOrder(col: int, dir: int)
      requires Valid() && -1 <= dir <= 1 && (dir != 0 ==> 0 <= col < |t.cols|)
      modifies this
      ensures Valid() && (q, pageSize) == old((q, pageSize)) && sIdx == col && sDir == dir && page == 1
    {
      sIdx, sDir, page := col, dir, 1;
      Apply();
    }

    /** The previous-page button, disabled on the first page. */
    method PrevPage()
      requires Valid()
      modifies this
      ensures Valid() && (q, sIdx, sDir, pageSize) == old((q, sIdx, sDir, pageSize))
      ensures page == if old(page) > 1 then old(page) - 1 else old(page)
    {
      if page <= 1 { return; }
      page := page - 1;
      Apply();
    }

    /** The next-page button, disabled once the last row is shown. */
    method NextPage()
      requires Valid()
      modifies this
      ensures Valid() && (q, sIdx, sDir, pageSize) == old((q, sIdx, sDir, pageSize))
      ensures page == if old(page) < Pages(|List()|, pageSize) then old(page) + 1 else old(page)
    {
      var list := View(t, q, sIdx, sDir);
      var start := if pageSize.Some? then (page - 1) * pageSize.value else 0;
      if pageSize.Some? { LastPageEnds(list, pageSize.value, page); }
      if start + |shown| >= |list| { return; }
      page := page + 1;
      Apply();
    }

    method SetSize(size: Option<nat>)
      requires Valid() && (size.Some? ==> size.value > 0)
      modifies this
      ensures Valid() && (q, sIdx, sDir) == old((q, sIdx, sDir)) && pageSize == size && page == 1
    {
      pageSize, page := size, 1;
      Apply();
    }

    /** Any sequence of actions keeps the view faithful. */
    method Play(actions: seq<Action>)
      requires Valid()
      modifies this
      ensures Valid()
    {
      for i := 0 to |actions|
        invariant Valid()
      {
        match actions[i]
        case Search(text) => SearchFor(text);
        case ClickHeader(col) => SortBy(col);
        case PickSort(col, dir) =>
          if -1 <= dir <= 1 && (dir != 0 ==> 0 <= col < |t.cols|) { PickOrder(col, dir); }
        case Prev => PrevPage();
        case Next => NextPage();
        case SetPageSize(size) => if size != Some(0) { SetSize(size); }
      }
    }

    /** Three clicks on a header: from an unsorted table, or one sorted by another column, back
        to the original order; from one sorted by this column, back to the same order. */
    method ClickThrice(col: nat)
      requires Valid() && CanSort(col)
      modifies this
      ensures Valid() && q == old(q)
      ensures old(sIdx) != col || old(sDir) == 0 ==> sDir == 0 && List() == MatchingFrom(t, q, 0)
      ensures old(sIdx) == col && old(sDir) != 0 ==> List() == old(List())
    {
      SortBy(col);
      SortBy(col);
      SortBy(col);
    }

    /** What the pages show, all together: exactly the matching rows, each once; the original
        order when unsorted; on a column that has ranks, blanks last in both directions, ranks
        in the chosen direction and ties in the original order, as any correct sort would. */
    lemma ViewIsFaithful(rank: Text -> real)
      requires Valid()
      ensures FirstPages(List(), pageSize, Pages(|List()|, pageSize)) == List()
      ensures multiset(List()) == multiset(MatchingFrom(t, q, 0))
      ensures sDir == 0 ==> List() == MatchingFrom(t, q, 0)
      ensures sDir != 0 && RankedBy(t.k, ColumnValues(t, sIdx), SortTypeOf(t, sIdx), rank) ==>
        AllPrecede(t, sIdx, sDir, rank, List())
    {
      PagesTile(List(), pageSize);
      var list := MatchingFrom(t, q, 0);
      if sDir != 0 {
        SortKeeps(t, sIdx, sDir, list);
        if RankedBy(t.k, ColumnValues(t, sIdx), SortTypeOf(t, sIdx), rank) {
          assert forall a :: 0 <= a < |list| ==> list[a] in list;
          SortInOrder(t, sIdx, sDir, rank, list);
        }
      }
    }
  }

  /** The last row is on this page exactly when this is the last page. */
  lemma LastPageEnds(list: seq<nat>, size: nat, page: nat)
    requires size > 0 && 1 <= page <= Pages(|list|, Some(size))
    ensures (page - 1) * size + |PageRows(list, Some(size), page)| >= |list| <==> page == Pages(|list|, Some(size))
  {
    if list != [] {
      var pages := Pages(|list|, Some(size));
      LastPage(|list|, size);
      TimesGrow(page - 1, pages - 1, size);
      if page < pages {
        TimesGrow(page, pages - 1, size);
        assert page * size == (page - 1) * size + size;
      } else {
        assert pages * size == (pages - 1) * size + size;
      }
    }
  }
}
