/** The shared pagination control (src/components/Pagination.jsx) and the page
    slicing the list pages do with it: page count, page buttons, Previous and
    Next, the page-size choices, and `Array.prototype.slice`. */
module Pagination {

  /** The page sizes offered by the selector, in display order. */
  const PageSizeOptions: seq<int> := [5, 10, 20, 25]

  /** Every offered size is positive, so a size chosen in the selector is a
      valid divisor, and the choices are listed in increasing order. */
  lemma PageSizeOptionsArePositive()
    ensures forall i :: 0 <= i < |PageSizeOptions| ==> PageSizeOptions[i] > 0
    ensures forall i, j :: 0 <= i < j < |PageSizeOptions| ==> PageSizeOptions[i] < PageSizeOptions[j]
  {
  }

  /** The selector reports the chosen option as a number: picking option `i`
      yields exactly that size. */
  function SelectPageSize(i: nat): (n: int)
    requires i < |PageSizeOptions|
    ensures n in PageSizeOptions && n > 0
    ensures n == 5 || n == 10 || n == 20 || n == 25
  {
    PageSizeOptions[i]
  }

  /** `Math.ceil(totalItems / itemsPerPage)`: the least number of pages of
      `perPage` items that hold every item. */
  function TotalPages(totalItems: nat, perPage: int): (t: nat)
    requires perPage > 0
    ensures t * perPage >= totalItems
    ensures t == 0 || (t - 1) * perPage < totalItems
  {
    (totalItems + perPage - 1) / perPage
  }

  /** `Array.from({ length: totalPages }, (_, i) => i + 1)` */
  function PageNumbers(t: nat): (r: seq<int>)
    ensures |r| == t
    ensures forall i :: 0 <= i < |r| ==> r[i] == i + 1
    ensures forall p :: p in r <==> 1 <= p <= t
    ensures forall i, j :: 0 <= i < j < |r| ==> r[i] < r[j]
  {
    if t == 0 then [] else PageNumbers(t - 1) + [t]
  }

  /** The page button styled as current. */
  predicate Highlighted(current: int, number: int) {
    current == number
  }

  /** Exactly one page button is highlighted when the current page is a real
      page, and none otherwise. */
  lemma ExactlyOneHighlighted(t: nat, current: int)
    ensures (exists i :: 0 <= i < t && Highlighted(current, PageNumbers(t)[i])) <==> 1 <= current <= t
    ensures forall i, j ::
              (0 <= i < t && 0 <= j < t && Highlighted(current, PageNumbers(t)[i])
               && Highlighted(current, PageNumbers(t)[j])) ==> i == j
  {
    var r := PageNumbers(t);
    if 1 <= current <= t {
      assert Highlighted(current, r[current - 1]);
    }
  }

  /** A navigation button: whether it is disabled, and the page it asks for. */
  datatype NavButton = NavButton(disabled: bool, requests: int)

  /** The Previous button. */
  function Previous(current: int): (b: NavButton)
    ensures b.disabled <==> current == 1
    ensures b.requests == current - 1
  {
    NavButton(current == 1, current - 1)
  }

  /** The Next button: disabled only on exactly the last page. */
  function Next(current: int, t: nat): (b: NavButton)
    ensures b.disabled <==> current == t
    ensures b.requests == current + 1
  {
    NavButton(current == t, current + 1)
  }

  /** From a real page, an enabled Previous or Next button asks for another
      real page. */
  lemma EnabledNavStaysInRange(current: int, t: nat)
    requires 1 <= current <= t
    ensures !Previous(current).disabled ==> 1 <= Previous(current).requests <= t
    ensures !Next(current, t).disabled ==> 1 <= Next(current, t).requests <= t
  {
  }

  /** With nothing to list there are no page buttons, yet Next stays enabled
      on page 1 (the count is 0, not 1) and asks for page 2. */
  lemma EmptyListLeavesNextEnabled(perPage: int)
    requires perPage > 0
    ensures TotalPages(0, perPage) == 0 && PageNumbers(0) == []
    ensures !Next(1, TotalPages(0, perPage)).disabled && Next(1, TotalPages(0, perPage)).requests == 2
  {
  }

  // ---------------------------------------------------------------------------
  // Slicing
  // ---------------------------------------------------------------------------

  /** A relative index of `slice` resolved against a length: negative values
      count from the end, and the result is clamped to `[0, len]`. */
  function ResolveIndex(k: int, len: nat): (r: nat)
    ensures r <= len
    ensures k < 0 ==> r == (if len + k < 0 then 0 else len + k)
    ensures k >= 0 ==> r == (if k < len then k else len)
  {
    if k < 0 then (if len + k < 0 then 0 else len + k)
    else if k < len then k else len
  }

  /** `s.slice(start, end)` */
  function JsSlice<T>(s: seq<T>, start: int, end: int): (r: seq<T>)
    ensures var a := ResolveIndex(start, |s|);
            var b := ResolveIndex(end, |s|);
            r == if a < b then s[a..b] else []
  {
    var a := ResolveIndex(start, |s|);
    var b := ResolveIndex(end, |s|);
    if a < b then s[a..b] else []
  }

  /** The items shown on page `page`: `items.slice(page*n - n, page*n)`. For a
      real page number this is the `page`-th run of `n` items, cut short by
      the end of the list. */
  function PageSlice<T>(items: seq<T>, page: int, n: int): (r: seq<T>)
    requires n > 0
    ensures page >= 1 ==>
              var lo := (page - 1) * n;
              var hi := page * n;
              && 0 <= lo && hi == lo + n
              && r == if lo >= |items| then [] else items[lo..if hi < |items| then hi else |items|]
    ensures page == 0 ==> r == []
    ensures |r| <= n
    ensures forall i :: 0 <= i < |r| ==> r[i] in items
  {
    var last := page * n;
    SliceWindow(items, last - n, last);
    if page >= 1 then
      PageBounds(page, n);
      JsSlice(items, last - n, last)
    else if page == 0 then
      assert last == 0;
      JsSlice(items, last - n, last)
    else
      JsSlice(items, last - n, last)
  }

  /** A window of positions `lo` to `hi`: at most `hi - lo` items of the list;
      from a non-negative start the run of items it covers, and nothing when
      it ends exactly at the start of the list. */
  lemma SliceWindow<T>(items: seq<T>, lo: int, hi: int)
    requires lo < hi
    ensures var r := JsSlice(items, lo, hi);
            && |r| <= hi - lo
            && (forall i :: 0 <= i < |r| ==> r[i] in items)
            && (lo >= 0 ==> r == if lo >= |items| then [] else items[lo..if hi < |items| then hi else |items|])
            && (hi == 0 ==> r == [])
  {
  }

  /** The bounds of a real page: `page*n - n` is `(page-1)*n`, not negative
      and below `page*n`. */
  lemma PageBounds(page: int, n: int)
    requires page >= 1 && n > 0
    ensures 0 <= page * n - n == (page - 1) * n < page * n
  {
    ScaleMono(1, page, n);
  }

  /** Multiplying by a positive page size keeps order. */
  lemma ScaleMono(a: int, b: int, n: int)
    requires a <= b && n > 0
    ensures a * n <= b * n
  {
  }

  /** Pages 1 to `k`, laid end to end. */
  function FirstPages<T>(items: seq<T>, n: int, k: nat): seq<T>
    requires n > 0
  {
    if k == 0 then [] else FirstPages(items, n, k - 1) + PageSlice(items, k, n)
  }

  /** The prefix ending at `lo`, followed by the run of up to `n` items from
      `lo`, is the prefix ending at `lo + n`. */
  lemma PrefixThenRun<T>(items: seq<T>, lo: nat, n: nat)
    ensures var top := if lo + n < |items| then lo + n else |items|;
            items[..if lo < |items| then lo else |items|]
              + (if lo >= |items| then [] else items[lo..top])
            == items[..top]
  {
    var top := if lo + n < |items| then lo + n else |items|;
    if lo < |items| {
      assert items[..lo] + items[lo..top] == items[..top];
    }
  }

  /** The first `k` pages are the first `k * n` items. */
  lemma {:induction false} FirstPagesArePrefix<T>(items: seq<T>, n: int, k: nat)
    requires n > 0
    ensures FirstPages(items, n, k) == items[..if k * n < |items| then k * n else |items|]
  {
    if k > 0 {
      FirstPagesArePrefix(items, n, k - 1);
      PageBounds(k, n);
      var lo := (k - 1) * n;
      assert k * n == lo + n;
      PrefixThenRun(items, lo, n);
    }
  }

  /** The pages 1 to `TotalPages` together list every item exactly once and in
      order: paging loses and repeats nothing. */
  lemma PagesCoverList<T>(items: seq<T>, n: int)
    requires n > 0
    ensures FirstPages(items, n, TotalPages(|items|, n)) == items
  {
    FirstPagesArePrefix(items, n, TotalPages(|items|, n));
  }

  /** Every real page is non-empty, and pages past the last are empty. */
  lemma PagesNonEmptyExactlyInRange<T>(items: seq<T>, page: int, n: int)
    requires n > 0
    requires page >= 0
    ensures PageSlice(items, page, n) != [] <==> 1 <= page <= TotalPages(|items|, n)
  {
    var t := TotalPages(|items|, n);
    if page >= 1 {
      if page <= t {
        ScaleMono(page - 1, t - 1, n);
      } else {
        ScaleMono(t, page - 1, n);
      }
    }
  }

  // ---------------------------------------------------------------------------
  // Page state of a paged list
  // ---------------------------------------------------------------------------

  /** The current page and page size of a paged list. */
  datatype PageView = PageView(page: int, perPage: int)

  /** The initial view: page 1 of 10 items. */
  const InitialView := PageView(1, 10)

  /** `handleItemsPerPageChange`: the new size takes effect and the view goes
      back to page 1. */
  function ChangePageSize(v: PageView, n: int): (r: PageView)
    ensures r.perPage == n && r.page == 1
  {
    PageView(1, n)
  }

  /** `handlePageChange`: only the page changes. */
  function ChangePage(v: PageView, p: int): (r: PageView)
    ensures r.perPage == v.perPage && r.page == p
  {
    v.(page := p)
  }

  /** After a page-size change the list shows its first `n` items (or all of
      them, when there are fewer), whatever page was shown before. */
  lemma PageSizeChangeShowsFirstItems<T>(items: seq<T>, v: PageView, n: int)
    requires n > 0
    ensures var r := ChangePageSize(v, n);
            PageSlice(items, r.page, r.perPage) == items[..if n < |items| then n else |items|]
  {
    assert (1 - 1) * n == 0 && 1 * n == n;
  }
}
