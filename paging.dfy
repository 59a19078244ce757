/** The pagination both table pages share (client/src/pages/ColorFrom.jsx and
    client/src/pages/WordFrom.jsx): five rows a page, a page count that is never zero,
    the page slice taken with `Array.prototype.slice`, and Prev/Next buttons that clamp. */
module Paging {
  /** `PAGE_SIZE` */
  const PageSize: nat := 5

  /** `Math.max(1, Math.ceil(n / PAGE_SIZE))`: the fewest pages of five that hold `n`
      rows, and one page for none. */
  function TotalPages(n: nat): (total: nat)
    ensures total >= 1
    ensures n <= total * PageSize
    ensures n == 0 || (total - 1) * PageSize < n
    ensures n == 0 ==> total == 1
  {
    if n == 0 then 1 else (n + PageSize - 1) / PageSize
  }

  /** A `slice` bound: negative counts back from the end, and both ends clamp to the
      length. */
  function SliceBound(len: nat, i: int): (b: nat)
    ensures b <= len
  {
    if i < 0 then (if len + i < 0 then 0 else len + i) else if i > len then len else i
  }

  /** `s.slice(start, end)` */
  function JsSlice<T>(s: seq<T>, start: int, end: int): (r: seq<T>)
  {
    var from, to := SliceBound(|s|, start), SliceBound(|s|, end);
    if from < to then s[from..to] else []
  }

  /** `filtered.slice((currentPage - 1) * PAGE_SIZE, currentPage * PAGE_SIZE)` */
  function PageItems<T>(s: seq<T>, page: int): (r: seq<T>)
    ensures |r| <= PageSize
    ensures page >= 1 && (page - 1) * PageSize < |s| ==> |r| >= 1
    ensures page >= 1 ==> forall k :: 0 <= k < |r| ==> (page - 1) * PageSize + k < |s| && r[k] == s[(page - 1) * PageSize + k]
  {
    JsSlice(s, (page - 1) * PageSize, page * PageSize)
  }

  /** The number in the row's first cell: `(currentPage - 1) * PAGE_SIZE + idx + 1`. */
  function RowNumber(page: int, idx: nat): int
  {
    (page - 1) * PageSize + idx + 1
  }

  /** Every row has exactly one place: row `i` of the filtered list is at position
      `i % 5` of page `i / 5 + 1`, that page exists, and its number cell reads `i + 1`. */
  lemma RowPlacement<T>(s: seq<T>, i: nat)
    requires i < |s|
    ensures var page := i / PageSize + 1;
      && 1 <= page <= TotalPages(|s|)
      && i % PageSize < |PageItems(s, page)|
      && PageItems(s, page)[i % PageSize] == s[i]
      && RowNumber(page, i % PageSize) == i + 1
  {
    var page := i / PageSize + 1;
    var total := TotalPages(|s|);
    assert (page - 1) * PageSize == i - i % PageSize;
    var from, to := SliceBound(|s|, (page - 1) * PageSize), SliceBound(|s|, page * PageSize);
    assert from == i - i % PageSize;
    assert to > i;
  }

  /** A page past the last one shows no rows. */
  lemma PagePastEndIsEmpty<T>(s: seq<T>, page: int)
    requires page > TotalPages(|s|)
    ensures PageItems(s, page) == []
  {
    assert (page - 1) * PageSize >= TotalPages(|s|) * PageSize;
  }

  /** Prev: `Math.max(1, p - 1)` */
  function PrevPage(page: int): (p: int)
    ensures p >= 1
  {
    if page - 1 > 1 then page - 1 else 1
  }

  /** Next: `Math.min(totalPages, p + 1)` */
  function NextPage(page: int, totalPages: nat): (p: int)
    ensures p <= totalPages
  {
    if page + 1 < totalPages then page + 1 else totalPages
  }

  /** The buttons keep a page inside `[1, totalPages]`: from a page in range both land
      in range, and each moves by at most one. */
  lemma NavigationStaysInRange(page: int, totalPages: nat)
    requires 1 <= page <= totalPages
    ensures 1 <= PrevPage(page) <= totalPages && 1 <= NextPage(page, totalPages) <= totalPages
    ensures PrevPage(page) == (if page > 1 then page - 1 else 1)
    ensures NextPage(page, totalPages) == (if page < totalPages then page + 1 else totalPages)
  {
  }

  /** The page hook: starts at 1, moves with Prev and Next, and returns to 1 whenever
      the search text changes. */
  class PageCursor {
    var currentPage: int

    predicate Valid()
      reads this
    {
      currentPage >= 1
    }

    constructor ()
      ensures currentPage == 1 && Valid()
    {
      currentPage := 1;
    }

    /** Prev, a button disabled on page 1 and below. */
    method Prev()
      modifies this
      ensures old(currentPage) > 1 ==> currentPage == PrevPage(old(currentPage)) == old(currentPage) - 1
      ensures old(currentPage) <= 1 ==> currentPage == old(currentPage)
      ensures old(Valid()) ==> Valid()
    {
      if currentPage > 1 {
        currentPage := PrevPage(currentPage);
      }
    }

    /** Next, against the page count of the list as it is filtered now: a button
        disabled on the last page and past it, so a page left past the end by a shrinking
        list stays where it is. */
    method Next(totalPages: nat)
      requires Valid()
      modifies this
      ensures old(currentPage) < totalPages ==> currentPage == NextPage(old(currentPage), totalPages) == old(currentPage) + 1
      ensures old(currentPage) >= totalPages ==> currentPage == old(currentPage)
      ensures currentPage <= totalPages || currentPage == old(currentPage)
      ensures Valid()
    {
      if currentPage < totalPages {
        currentPage := NextPage(currentPage, totalPages);
      }
    }

    /** The effect that runs on every change of the search text. */
    method SearchChanged()
      modifies this
      ensures currentPage == 1 && Valid()
    {
      currentPage := 1;
    }
  }
}
