/** The page-window calculators: which page numbers a paginator shows around
    the current page. The first class (init_links) has a leading and an
    interior branch; the later class (_init_paginator) adds a trailing branch
    and the right-hand cluster holding the last page. */
module Window {
  import opened Outcomes
  import opened PySeq

  const LEADING_PAGE_RANGE_DISPLAYED: int := 8
  const TRAILING_PAGE_RANGE_DISPLAYED: int := 8
  const ADJACENT_PAGES: int := 2
  const LEADING_PAGE_RANGE: int := LEADING_PAGE_RANGE_DISPLAYED - ADJACENT_PAGES
  const TRAILING_PAGE_RANGE: int := TRAILING_PAGE_RANGE_DISPLAYED - ADJACENT_PAGES
  const MAX_OBJECTS: int := 1000

  /** A displayed page number and the anchor (pk) its link carries. */
  datatype Entry = Entry(page: int, pk: Option<int>)

  /** A `previous` or `next` attribute of the first class and its keyset
      subclass: None, a (page, pk) pair, or the bare int 0 that `if self.next`
      leaves unwrapped when the current page is -1. */
  datatype Nav = NoNav | BareZero | NavTo(entry: Entry)

  /** `add_fake_pk`: page numbers paired with no anchor. */
  function Unanchored(pages: seq<int>): (r: seq<Entry>)
    ensures |r| == |pages|
    ensures forall i :: 0 <= i < |pages| ==> r[i] == Entry(pages[i], None)
  {
    seq(|pages|, i requires 0 <= i < |pages| => Entry(pages[i], None))
  }

  /** How init_links stores a neighbour page: wrapped as (page, None) when it
      is a true value, left as is otherwise. */
  function NavOf(n: Option<int>): (r: Nav)
    ensures n.None? ==> r == NoNav
    ensures n.Some? && n.value != 0 ==> r == NavTo(Entry(n.value, None))
    ensures n == Some(0) ==> r == BareZero
  {
    match n
    case None => NoNav
    case Some(p) => if p == 0 then BareZero else NavTo(Entry(p, None))
  }

  /** Page numbers of a window, before anchors are attached. */
  datatype PageWindow = PageWindow(
    left: seq<int>, middle: seq<int>, right: seq<int>,
    previous: Option<int>, next: Option<int>)

  function Neighbours(page: int, pages: int): (r: (Option<int>, Option<int>))
    ensures r.0 == (if page > 1 then Some(page - 1) else None)
    ensures r.1 == (if page < pages then Some(page + 1) else None)
  {
    (if page > 1 then Some(page - 1) else None, if page < pages then Some(page + 1) else None)
  }

  /** init_links of the first Paginator class: no trailing branch (it is
      commented out in the source) and the right-hand cluster is never filled. */
  function WindowV1(page: int, pages: int): PageWindow
  {
    var (previous, next) := Neighbours(page, pages);
    if pages <= LEADING_PAGE_RANGE_DISPLAYED then
      PageWindow([], Range(1, pages + 1), [], previous, next)
    else if page <= LEADING_PAGE_RANGE then
      PageWindow([], Range(1, Min(Max(LEADING_PAGE_RANGE_DISPLAYED + 1, page + ADJACENT_PAGES + 1), pages + 1)),
        [], previous, next)
    else
      PageWindow([1], Range(Max(1, page - ADJACENT_PAGES), Min(pages + 1, page + ADJACENT_PAGES + 1)),
        [], previous, next)
  }

  /** _init_paginator of the later Paginator class, with the trailing branch
      and the right-hand cluster [pages], which is shown only while the count
      does not exceed MAX_OBJECTS. */
  function WindowV2(page: int, pages: int, count: int): PageWindow
  {
    var (previous, next) := Neighbours(page, pages);
    var last := if count <= MAX_OBJECTS then [pages] else [];
    if pages <= LEADING_PAGE_RANGE_DISPLAYED then
      PageWindow([], Range(1, pages + 1), [], previous, next)
    else if page <= LEADING_PAGE_RANGE then
      PageWindow([], Range(1, Min(LEADING_PAGE_RANGE_DISPLAYED + 1, pages + 1)), last, previous, next)
    else if page > pages - TRAILING_PAGE_RANGE then
      PageWindow([1], Range(pages - TRAILING_PAGE_RANGE_DISPLAYED + 1, pages + 1), [], previous, next)
    else
      PageWindow([1], Range(Max(1, page - ADJACENT_PAGES), Min(pages + 1, page + ADJACENT_PAGES + 1)),
        last, previous, next)
  }

  /** Consecutive, increasing page numbers within [lo, hi]. */
  predicate Consecutive(s: seq<int>)
  {
    forall i :: 0 <= i < |s| - 1 ==> s[i + 1] == s[i] + 1
  }

  predicate Within(s: seq<int>, lo: int, hi: int)
  {
    forall i :: 0 <= i < |s| ==> lo <= s[i] <= hi
  }

  /** Every page of a that is displayed before every page of b. */
  predicate Before(a: seq<int>, b: seq<int>)
  {
    forall i, j :: 0 <= i < |a| && 0 <= j < |b| ==> a[i] < b[j]
  }

  /** The shape of the first class's window: the middle cluster is a run of
      consecutive pages inside 1..pages, holding the current page whenever it
      exists, at most 8 long; the left cluster is [1] exactly when there are
      more than 8 pages and the page lies past the leading range, and then an
      ellipsis separates it from the middle; the right cluster stays empty. */
  lemma WindowV1Shape(page: int, pages: int)
    ensures var w := WindowV1(page, pages);
      && Consecutive(w.middle)
      && Within(w.middle, 1, pages)
      && |w.middle| <= LEADING_PAGE_RANGE_DISPLAYED
      && (1 <= page <= pages ==> page in w.middle)
      && (w.left == [] <==> pages <= LEADING_PAGE_RANGE_DISPLAYED || page <= LEADING_PAGE_RANGE)
      && (w.left != [] ==> w.left == [1] && forall i :: 0 <= i < |w.middle| ==> w.middle[i] > 2)
      && w.right == []
      && (w.previous.Some? <==> page > 1) && (w.previous.Some? ==> w.previous.value == page - 1)
      && (w.next.Some? <==> page < pages) && (w.next.Some? ==> w.next.value == page + 1)
  {
    var w := WindowV1(page, pages);
    if 1 <= page <= pages {
      assert w.middle[page - w.middle[0]] == page;
    }
  }

  /** The later class's window: clusters are consecutive runs inside 1..pages
      in strictly increasing order (left before middle before right); the
      current page is always in the middle; left is [1] exactly when the page
      is past the leading range of a window of more than 8 pages; right is
      [pages] exactly when, in such a window, the page is in the leading range
      or before the trailing range, and count <= MAX_OBJECTS; a trailing page shows the last 8 pages. */
  lemma WindowV2Shape(page: int, pages: int, count: int)
    ensures var w := WindowV2(page, pages, count);
      && Consecutive(w.middle)
      && Within(w.middle, 1, pages)
      && |w.middle| <= LEADING_PAGE_RANGE_DISPLAYED
      && (1 <= page <= pages ==> page in w.middle)
      && Before(w.left, w.middle) && Before(w.middle, w.right) && Before(w.left, w.right)
      && (w.left == [] <==> pages <= LEADING_PAGE_RANGE_DISPLAYED || page <= LEADING_PAGE_RANGE)
      && (w.left != [] ==> w.left == [1])
      && (w.right != [] <==>
            && pages > LEADING_PAGE_RANGE_DISPLAYED
            && (page <= LEADING_PAGE_RANGE || page <= pages - TRAILING_PAGE_RANGE)
            && count <= MAX_OBJECTS)
      && (w.right != [] ==> w.right == [pages])
      && (pages > LEADING_PAGE_RANGE_DISPLAYED && page > LEADING_PAGE_RANGE && page > pages - TRAILING_PAGE_RANGE ==>
            w.middle == Range(pages - TRAILING_PAGE_RANGE_DISPLAYED + 1, pages + 1))
      && (w.previous.Some? <==> page > 1) && (w.previous.Some? ==> w.previous.value == page - 1)
      && (w.next.Some? <==> page < pages) && (w.next.Some? ==> w.next.value == page + 1)
  {
    WindowV2Middle(page, pages, count);
    WindowV2Clusters(page, pages, count);
  }

  /** The middle cluster of the later class's window. */
  lemma WindowV2Middle(page: int, pages: int, count: int)
    ensures var w := WindowV2(page, pages, count);
      && Consecutive(w.middle)
      && Within(w.middle, 1, pages)
      && |w.middle| <= LEADING_PAGE_RANGE_DISPLAYED
      && (1 <= page <= pages ==> page in w.middle)
  {
    var w := WindowV2(page, pages, count);
    if 1 <= page <= pages {
      assert w.middle[page - w.middle[0]] == page;
    }
  }

  /** The left and right clusters of the later class's window and their
      order around the middle. */
  lemma WindowV2Clusters(page: int, pages: int, count: int)
    ensures var w := WindowV2(page, pages, count);
      && Before(w.left, w.middle) && Before(w.middle, w.right) && Before(w.left, w.right)
      && (w.left == [] <==> pages <= LEADING_PAGE_RANGE_DISPLAYED || page <= LEADING_PAGE_RANGE)
      && (w.left != [] ==> w.left == [1])
      && (w.right != [] <==>
            && pages > LEADING_PAGE_RANGE_DISPLAYED
            && (page <= LEADING_PAGE_RANGE || page <= pages - TRAILING_PAGE_RANGE)
            && count <= MAX_OBJECTS)
      && (w.right != [] ==> w.right == [pages])
  {
  }

  /** The two calculators agree except on the trailing range and on the
      right-hand cluster. */
  lemma WindowsAgreeOutsideTrailing(page: int, pages: int, count: int)
    requires pages <= LEADING_PAGE_RANGE_DISPLAYED || page <= pages - TRAILING_PAGE_RANGE
    ensures WindowV1(page, pages).left == WindowV2(page, pages, count).left
    ensures WindowV1(page, pages).middle == WindowV2(page, pages, count).middle
  {
  }

  /** Doctest values at paginator.py:92-118 for 50 objects, 2 per page, as the
      code computes them: page 10 gives left [1] and middle 8..12; page 25
      gives 23..25 (the doctest's 18..25 belongs to the disabled trailing
      branch) while the later class's trailing branch gives 18..25. */
  lemma WindowExamples()
    ensures WindowV1(10, 25) == PageWindow([1], [8, 9, 10, 11, 12], [], Some(9), Some(11))
    ensures WindowV1(25, 25) == PageWindow([1], [23, 24, 25], [], Some(24), None)
    ensures WindowV1(1, 25) == PageWindow([], [1, 2, 3, 4, 5, 6, 7, 8], [], None, Some(2))
    ensures WindowV2(25, 25, 50).middle == [18, 19, 20, 21, 22, 23, 24, 25]
    ensures WindowV2(1, 25, 50).right == [25]
  {
    assert Range(8, 13) == [8, 9, 10, 11, 12];
    assert Range(23, 26) == [23, 24, 25];
    assert Range(1, 9) == [1, 2, 3, 4, 5, 6, 7, 8];
    assert Range(18, 26) == [18, 19, 20, 21, 22, 23, 24, 25];
  }
}
