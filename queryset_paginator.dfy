/** QuerySetPaginator and SmartQuerySetPaginator
    (tcc/templatetags/paginator.py:376-627): paginators over a Django
    queryset. The queryset is first unwrapped (see Unwrap); the rows the raw
    queryset yields are passed in as the keys of its rows in the queryset's
    order. SmartQuerySetPaginator pages by pk anchor (see Keyset) when the
    ordering field is unique. The inherited state lives in a first-class
    Paginator, as in SolrPaging. */
module QuerySetPaging {
  import opened Outcomes
  import opened PySeq
  import opened RequestCodec
  import opened Window
  import opened Keyset
  import opened Unwrap
  import opened PaginatorV1

  /** The count QuerySetPaginator.init_count settles on: a short page fixes
      it, then a supplied count, then a count capped at max_count, then the
      full count. */
  function QuerySetCount(rows: seq<int>, first: int, sliced: seq<int>, perPage: int,
                         count: Option<int>, maxCount: int): int
  {
    if |sliced| < perPage then |sliced| + first
    else if count.Some? then count.value
    else if maxCount != 0 then |Take(rows, maxCount)|
    else |rows|
  }

  /** QuerySetPaginator.init_count. The emptiness test runs before the rows
      are sliced, so it reads the rows an earlier call left behind (`prior`)
      and raises AttributeError on an object that never sliced any. Offsets
      are not clamped to the count. */
  function QuerySetCountSpec(prior: Option<seq<int>>, rows: seq<int>, page: int, perPage: int,
                             count: Option<int>, maxCount: int): Result<CountState>
  {
    var first := (page - 1) * perPage;
    var last := page * perPage;
    if prior.None? then Err(AttributeError)
    else if |prior.value| == 0 && page > 1 then Err(Http404(page))
    else
      var sliced := SlicedObjects(rows, first, last, count);
      Ok(CountState(first, last, sliced, QuerySetCount(rows, first, sliced, perPage, count, maxCount)))
  }

  /** When the rows left behind are those of the same page, a page from 1 on
      without a supplied count is refused exactly when it lies beyond page 1
      and past the data; otherwise the count is exact when the data fits
      under a non-negative max_count, and lies between the cap and the
      exact count when it does not. */
  lemma QuerySetCountMeaning(rows: seq<int>, page: int, perPage: int, maxCount: int)
    requires perPage > 0 && page >= 1 && maxCount >= 0
    ensures var sliced := SlicedObjects(rows, (page - 1) * perPage, page * perPage, None);
      var r := QuerySetCountSpec(Some(sliced), rows, page, perPage, None, maxCount);
      && (r.Err? <==> page > 1 && (page - 1) * perPage >= |rows|)
      && (r.Err? ==> r.error == Http404(page))
      && (r.Ok? ==> r.value.sliced == sliced)
      && (r.Ok? && (maxCount == 0 || |rows| <= maxCount) ==> r.value.count == |rows|)
      && (r.Ok? ==> Min(maxCount, |rows|) <= r.value.count <= |rows|)
  {
    PageRows(rows, page, perPage, None);
    CountWithoutSuppliedCount(rows, page, perPage);
    if maxCount > 0 {
      SliceFacts(rows, 0, maxCount);
      assert |Take(rows, maxCount)| == Min(maxCount, |rows|);
    }
  }

  /** The stale emptiness test: three rows, two per page, page 5 is empty
      yet served with the count 8 when an earlier call left a non-empty
      page behind; with that page's own rows it is refused. */
  lemma QuerySetStaleEmptinessTest()
    ensures QuerySetCountSpec(Some([7]), [1, 2, 3], 5, 2, None, 0) == Ok(CountState(8, 10, [], 8))
    ensures QuerySetCountSpec(Some([]), [1, 2, 3], 5, 2, None, 0) == Err(Http404(5))
    ensures QuerySetCountSpec(None, [1, 2, 3], 1, 2, None, 0) == Err(AttributeError)
  {
  }

  /** The state SmartQuerySetPaginator.init_count leaves behind. */
  datatype SmartState = SmartState(first: int, last: int, sliced: seq<int>, count: int,
                                   pk: int, prePks: seq<int>, postPks: seq<int>, maxCount: int)

  /** How many pages before the current one get an anchor. */
  function LeadPages(page: int): int
  {
    if page <= LEADING_PAGE_RANGE_DISPLAYED then page - 2 else ADJACENT_PAGES
  }

  /** How many pages after the current one get an anchor. */
  function TrailPages(page: int): (n: int)
    ensures n >= ADJACENT_PAGES
  {
    if page <= LEADING_PAGE_RANGE_DISPLAYED then Max(ADJACENT_PAGES, TRAILING_PAGE_RANGE_DISPLAYED - page)
    else ADJACENT_PAGES
  }

  /** The anchors and estimated count of the keyset branch of init_count. */
  datatype Anchors = Anchors(pk: int, prePks: seq<int>, postPks: seq<int>, count: int)

  /** The keyset branch: the following anchors are read from the filtered
      rows at a stride of perPage (only the requested anchor when the page is
      short); the preceding ones from the rows up to the anchor in reverse
      order, skipping the current page. Without an anchor all of them are
      read forwards from the start and split at the current page. The first
      following anchor becomes the current one, and the count is estimated
      from the pages the anchors reach. */
  function KeysetAnchors(view: seq<int>, desc: bool, filtered: seq<int>, sliced: seq<int>,
                         page: int, reqPk: int, perPage: int): Anchors
    requires perPage > 0
  {
    var post0 := FollowingRead(filtered, sliced, page, reqPk, perPage);
    var pre := if reqPk != 0 then PrecedingOf(view, desc, page, reqPk, perPage) else Take(post0, page - 1);
    var post1 := if reqPk != 0 then post0 else Drop(post0, page - 1);
    TakeCurrent(pre, post1, |sliced| > 0, page, perPage)
  }

  /** The first following anchor becomes the current one (none when there
      is none), and the count is estimated from the pages the remaining
      following anchors reach (0 when the page is empty). */
  function TakeCurrent(pre: seq<int>, post1: seq<int>, nonEmpty: bool, page: int, perPage: int): Anchors
  {
    var pk := if |post1| > 0 then post1[0] else 0;
    var post := if |post1| > 0 then post1[1..] else [];
    Anchors(pk, pre, post, if nonEmpty then Estimate(|post|, page, perPage) else 0)
  }

  /** The count a keyset page reports: perPage rows for the current page,
      every page before it and every following anchor. */
  function Estimate(following: int, page: int, perPage: int): int
  {
    (following + page) * perPage
  }

  /** The following anchors read from the filtered rows at a stride of
      perPage, up to the trailing range; only the requested anchor when the
      page is short. */
  function FollowingRead(filtered: seq<int>, sliced: seq<int>, page: int, reqPk: int, perPage: int): seq<int>
    requires perPage > 0
  {
    if |sliced| < perPage then [reqPk] else Stride(filtered, 0, TrailPages(page) * perPage + 1, perPage)
  }

  /** The preceding anchors of a page at an anchor: the rows up to it in
      reverse order, skipping the current page, at a stride of perPage, up
      to the leading range. */
  function PrecedingOf(view: seq<int>, desc: bool, page: int, pk: int, perPage: int): seq<int>
    requires perPage > 0
  {
    PrecedingFrom(BeforeReversed(view, desc, pk), page, perPage)
  }

  /** The preceding anchors read from `back`, the rows up to the anchor in
      reverse order. */
  function PrecedingFrom(back: seq<int>, page: int, perPage: int): seq<int>
    requires perPage > 0
  {
    var leadLimit := LeadPages(page) * perPage + 1;
    if leadLimit > 1 then Stride(back, perPage, leadLimit, perPage) else []
  }

  /** SmartQuerySetPaginator.init_count. `unique` says the ordering field is
      unique; a max_count or optional_max_count of False or None is 0. With
      an anchor the page is the perPage rows from the anchor on. A
      non-unique ordering without a count or a max count fails the
      assertion. */
  function SmartCountSpec(view: seq<int>, desc: bool, unique: bool, page: int, reqPk: int, perPage: int,
                          count: Option<int>, maxCount: int, optionalMaxCount: int): Result<SmartState>
    requires perPage > 0
  {
    var first := if reqPk != 0 then 0 else (page - 1) * perPage;
    var last := if reqPk != 0 then perPage else page * perPage;
    var mc := if !unique && optionalMaxCount != 0 then optionalMaxCount else maxCount;
    var keyed := unique || (count.None? && mc == 0);
    if keyed && !unique then Err(AssertionError)
    else
      var filtered := if keyed && reqPk != 0 then AtOrAfter(view, desc, reqPk) else view;
      var sliced := SlicedObjects(filtered, first, last, count);
      if |sliced| == 0 && page > 1 then Err(Http404(page))
      else if count.Some? && !unique then Ok(SmartState(first, last, sliced, count.value, reqPk, [], [], mc))
      else if mc != 0 then Ok(SmartState(first, last, sliced, |Take(view, mc)|, reqPk, [], [], mc))
      else
        var a := KeysetAnchors(view, desc, filtered, sliced, page, reqPk, perPage);
        Ok(SmartState(first, last, sliced, a.count, a.pk, a.prePks, a.postPks, mc))
  }

  /** A non-unique ordering needs a count or a max count; a unique one never
      fails the assertion. With a non-unique ordering an optional max count
      replaces max_count, and a capped count never exceeds the cap. */
  lemma SmartNeedsUniqueOrdering(view: seq<int>, desc: bool, unique: bool, page: int, reqPk: int,
                                 perPage: int, count: Option<int>, maxCount: int, optionalMaxCount: int)
    requires perPage > 0
    ensures var r := SmartCountSpec(view, desc, unique, page, reqPk, perPage, count, maxCount, optionalMaxCount);
      var mc := if !unique && optionalMaxCount != 0 then optionalMaxCount else maxCount;
      && ((r.Err? && r.error == AssertionError) <==> !unique && count.None? && mc == 0)
      && (r.Ok? ==> r.value.maxCount == mc)
      && (r.Ok? && mc > 0 && (unique || count.None?) ==> r.value.count == Min(mc, |view|))
  {
  }

  /** With a unique ordering and an anchor, the page is the first perPage
      rows at or after the anchor, whatever the page number; it fails with
      Http404 only when there are none and the page number is beyond 1. */
  lemma SmartAnchoredSlice(view: seq<int>, desc: bool, page: int, pk: int, perPage: int,
                           count: Option<int>, optionalMaxCount: int)
    requires perPage > 0 && pk != 0 && count != Some(0)
    ensures var r := SmartCountSpec(view, desc, true, page, pk, perPage, count, 0, optionalMaxCount);
      var rows := Take(AtOrAfter(view, desc, pk), perPage);
      && (r.Err? <==> |rows| == 0 && page > 1)
      && (r.Err? ==> r.error == Http404(page))
      && (r.Ok? ==> r.value.sliced == rows && r.value.first == 0 && r.value.last == perPage)
  {
  }

  /** The first perPage rows at or after the key of row j are the perPage
      rows from row j on, clamped to the data. */
  lemma AnchoredRows(view: seq<int>, desc: bool, j: int, perPage: int)
    requires perPage > 0 && Ordered(view, desc) && 0 <= j < |view|
    ensures Take(AtOrAfter(view, desc, view[j]), perPage) == view[j..Min(j + perPage, |view|)]
  {
    var fwd := view[j..];
    var n := Min(j + perPage, |view|) - j;
    AnchorOpensSuffix(view, desc, j);
    assert Take(fwd, perPage) == fwd[..n] by {
      SliceFacts(fwd, 0, perPage);
    }
    assert fwd[..n] == view[j..j + n];
  }

  /** With a unique ordering, an anchor at a row of the data shows the
      perPage rows from that row on (clamped to the data), whatever the page
      number: an anchored link opens the rows it was built from. */
  lemma AnchoredPageShowsRows(view: seq<int>, desc: bool, page: int, j: int, perPage: int,
                              count: Option<int>, optionalMaxCount: int)
    requires perPage > 0 && Ordered(view, desc) && 0 <= j < |view| && view[j] != 0 && count != Some(0)
    ensures var r := SmartCountSpec(view, desc, true, page, view[j], perPage, count, 0, optionalMaxCount);
      r.Ok? && r.value.sliced == view[j..Min(j + perPage, |view|)]
  {
    AnchoredRows(view, desc, j, perPage);
    SmartAnchoredSlice(view, desc, page, view[j], perPage, count, optionalMaxCount);
  }

  /** The keyset page at an anchor with a full page of rows after it shows
      the perPage rows from the anchor and keeps that row as its anchor; its
      following anchors are read forwards from the anchor, its preceding ones
      backwards (KeysetAnchorsAroundRow says what they mean), and its count
      is perPage times the current page plus the following anchors, so that
      (CeilDivExact) the page count is the current page plus the following
      anchors. */
  lemma SmartKeysetPage(view: seq<int>, desc: bool, page: int, i: int, perPage: int,
                        count: Option<int>, optionalMaxCount: int)
    requires perPage > 0 && Ordered(view, desc) && 0 <= i && i + perPage <= |view|
    requires view[i] != 0 && count != Some(0)
    ensures var post0 := Stride(view[i..], 0, TrailPages(page) * perPage + 1, perPage);
      && |post0| > 0
      && SmartCountSpec(view, desc, true, page, view[i], perPage, count, 0, optionalMaxCount)
           == Ok(SmartState(0, perPage, view[i..i + perPage], (|post0[1..]| + page) * perPage, view[i],
                            PrecedingOf(view, desc, page, view[i], perPage), post0[1..], 0))
  {
    AnchorOpensSuffix(view, desc, i);
    SuffixRows(view, i, perPage);
    KeysetAnchorsAtRow(view, desc, page, i, perPage);
  }

  /** The keyset branch of a full page at the anchor view[i], in terms of
      the two stride reads. */
  lemma KeysetAnchorsAtRow(view: seq<int>, desc: bool, page: int, i: int, perPage: int)
    requires perPage > 0 && 0 <= i && i + perPage <= |view| && view[i] != 0
    ensures var post0 := Stride(view[i..], 0, TrailPages(page) * perPage + 1, perPage);
      && |post0| > 0
      && KeysetAnchors(view, desc, view[i..], view[i..i + perPage], page, view[i], perPage)
           == Anchors(view[i], PrecedingOf(view, desc, page, view[i], perPage), post0[1..],
                      (|post0[1..]| + page) * perPage)
  {
    var post0 := Stride(view[i..], 0, TrailPages(page) * perPage + 1, perPage);
    var sliced := view[i..i + perPage];
    FollowingAnchorCount(view[i..], perPage, TrailPages(page));
    assert post0[0] == view[i] by { assert view[i..][0] == view[i]; }
    assert FollowingRead(view[i..], sliced, page, view[i], perPage) == post0;
    assert KeysetAnchors(view, desc, view[i..], sliced, page, view[i], perPage)
        == TakeCurrent(PrecedingOf(view, desc, page, view[i], perPage), post0, true, page, perPage)
        == Anchors(view[i], PrecedingOf(view, desc, page, view[i], perPage), post0[1..],
                   Estimate(|post0[1..]|, page, perPage));
  }

  /** What the following anchors of a keyset page at the row view[i] mean:
      page + k (k >= 1) is anchored at the row k pages further on, and those
      anchors stop only at the window's trailing range or at the end of the
      data. */
  predicate FollowingAtRow(view: seq<int>, i: int, page: int, perPage: int, pk: int, pre: seq<int>, post: seq<int>)
  {
    && 0 <= i
    && |post| <= TrailPages(page)
    && (|post| < TrailPages(page) ==> i + (|post| + 1) * perPage >= |view|)
    && (forall k :: 1 <= k <= |post| ==> 0 <= i + k * perPage < |view|)
    && (forall q :: page < q <= page + |post| ==>
          AnchorFor(q, page, pk, pre, post) == Some(view[i + (q - page) * perPage]))
  }

  /** What the preceding anchors of a keyset page at the row view[i] mean:
      page - k (k >= 1) is anchored at the row k pages back, and those
      anchors stop only at the window's leading range or at the start of the
      data. */
  predicate PrecedingAtRow(view: seq<int>, i: int, page: int, perPage: int, pk: int, pre: seq<int>, post: seq<int>)
  {
    && i < |view|
    && |pre| <= Max(0, LeadPages(page))
    && (|pre| < Max(0, LeadPages(page)) ==> (|pre| + 1) * perPage > i)
    && (forall k :: 1 <= k <= |pre| ==> 0 <= k * perPage <= i)
    && (forall q :: page - |pre| <= q < page ==>
          AnchorFor(q, page, pk, pre, post) == Some(view[i - (page - q) * perPage]))
  }

  lemma FollowingAroundRow(view: seq<int>, page: int, i: int, perPage: int, pre: seq<int>)
    requires perPage > 0 && 0 <= i < |view| && view[i] != 0
    ensures var post0 := Stride(view[i..], 0, TrailPages(page) * perPage + 1, perPage);
      && |post0| > 0
      && FollowingAtRow(view, i, page, perPage, view[i], pre, post0[1..])
  {
    var fwd := view[i..];
    var T := TrailPages(page);
    var post0 := Stride(fwd, 0, T * perPage + 1, perPage);
    var post := post0[1..];
    FollowingAnchorCount(fwd, perPage, T);
    assert fwd[0] == view[i];
    forall k | 1 <= k <= |post| ensures 0 <= i + k * perPage < |view| {
      FollowingAnchors(fwd, perPage, T * perPage + 1, page, k, pre);
      MulMonotone(0, k, perPage);
    }
    forall q | page < q <= page + |post|
      ensures AnchorFor(q, page, view[i], pre, post) == Some(view[i + (q - page) * perPage])
    {
      FollowingAnchors(fwd, perPage, T * perPage + 1, page, q - page, pre);
      MulMonotone(0, q - page, perPage);
      SuffixRows(view, i, 0);
    }
  }

  /** The preceding anchors read from the rows up to row i in reverse mean
      what PrecedingAtRow says. */
  lemma PrecedingFromReversed(view: seq<int>, i: int, page: int, perPage: int, post: seq<int>)
    requires perPage > 0 && 0 <= i < |view| && view[i] != 0
    ensures PrecedingAtRow(view, i, page, perPage, view[i], PrecedingFrom(Reverse(view[..i + 1]), page, perPage), post)
  {
    var L := LeadPages(page);
    if L > 0 {
      var back := Reverse(view[..i + 1]);
      var limit := L * perPage + 1;
      var pre := Stride(back, perPage, limit, perPage);
      MulMonotone(1, L, perPage);
      assert PrecedingFrom(back, page, perPage) == pre;
      PrecedingAnchorCount(back, perPage, L);
      forall k | 1 <= k <= |pre| ensures 0 <= k * perPage <= i {
        PrecedingAnchors(back, perPage, limit, page, view[i], k, post);
        MulMonotone(0, k, perPage);
      }
      forall q | page - |pre| <= q < page
        ensures AnchorFor(q, page, view[i], pre, post) == Some(view[i - (page - q) * perPage])
      {
        PrecedingAnchors(back, perPage, limit, page, view[i], page - q, post);
        MulMonotone(0, page - q, perPage);
      }
    } else {
      MulMonotone(L, 0, perPage);
    }
  }

  lemma PrecedingAroundRow(view: seq<int>, desc: bool, page: int, i: int, perPage: int, post: seq<int>)
    requires perPage > 0 && Ordered(view, desc) && 0 <= i < |view| && view[i] != 0
    ensures PrecedingAtRow(view, i, page, perPage, view[i], PrecedingOf(view, desc, page, view[i], perPage), post)
  {
    PrecedingRowsReversed(view, desc, i);
    PrecedingFromReversed(view, i, page, perPage, post);
  }

  /** What the anchors of a keyset page at the row view[i] with a full page
      of rows after it mean: the preceding and following anchors are those
      of PrecedingAtRow and FollowingAtRow. */
  lemma KeysetAnchorsAroundRow(view: seq<int>, desc: bool, page: int, i: int, perPage: int)
    returns (pre: seq<int>, post: seq<int>)
    requires perPage > 0 && Ordered(view, desc) && 0 <= i && i + perPage <= |view| && view[i] != 0
    ensures pre == PrecedingOf(view, desc, page, view[i], perPage)
    ensures |Stride(view[i..], 0, TrailPages(page) * perPage + 1, perPage)| > 0
    ensures post == Stride(view[i..], 0, TrailPages(page) * perPage + 1, perPage)[1..]
    ensures FollowingAtRow(view, i, page, perPage, view[i], pre, post)
    ensures PrecedingAtRow(view, i, page, perPage, view[i], pre, post)
  {
    var post0 := Stride(view[i..], 0, TrailPages(page) * perPage + 1, perPage);
    pre := PrecedingOf(view, desc, page, view[i], perPage);
    FollowingAroundRow(view, page, i, perPage, pre);
    post := post0[1..];
    PrecedingAroundRow(view, desc, page, i, perPage, post);
  }

  /** Keyset stability: a row added before the anchor leaves an anchored
      page's rows as they were, while the same page read by offset shifts by
      one row. */
  lemma SmartAnchoredPageIsStable(a: seq<int>, b: seq<int>, x: int, desc: bool, page: int, reqPk: int,
                                  perPage: int, count: Option<int>, optionalMaxCount: int)
    requires perPage > 0 && reqPk != 0
    requires if desc then x > reqPk else x < reqPk
    ensures var before := SmartCountSpec(a + b, desc, true, page, reqPk, perPage, count, 0, optionalMaxCount);
      var after := SmartCountSpec(a + [x] + b, desc, true, page, reqPk, perPage, count, 0, optionalMaxCount);
      && (before.Ok? <==> after.Ok?)
      && (before.Ok? ==> before.value.sliced == after.value.sliced)
  {
    InsertBeforeAnchorKeepsRows(a, b, x, desc, reqPk);
  }

  /** Without an anchor the preceding anchors are read forwards: 50 rows
      1..50 ascending, two per page, page 4 shows [7, 8] with anchor 7,
      preceding anchors [1, 3, 5] and following [9]; the link to page 3 gets
      the anchor 1 (the first row of page 1, not of page 3) while page 5
      gets 9 as it should. */
  lemma SmartWithoutAnchorReadsPrecedingForwards()
    ensures SmartCountSpec(Range(1, 51), false, true, 4, 0, 2, None, 0, 0)
      == Ok(SmartState(6, 8, [7, 8], 10, 7, [1, 3, 5], [9], 0))
    ensures AnchorFor(3, 4, 7, [1, 3, 5], [9]) == Some(1)
    ensures AnchorFor(5, 4, 7, [1, 3, 5], [9]) == Some(9)
  {
    var view := Range(1, 51);
    assert view[6..8] == [7, 8];
    StrideAt(view, 0, 9, 2);
    var s := Stride(view, 0, 9, 2);
    assert |s| == 5 by {
      assert Bound(0, 50) + 4 * 2 < Bound(9, 50);
    }
    assert s == [1, 3, 5, 7, 9];
    assert Take(s, 3) == [1, 3, 5];
    assert Drop(s, 3) == [7, 9];
  }

  /** The keyset branch of SmartQuerySetPaginator.init_count, statement by
      statement: the anchors and count of KeysetAnchors. */
  method KeysetBranch(view: seq<int>, desc: bool, filtered: seq<int>, sliced: seq<int>,
                      page: int, reqPk: int, perPage: int)
    returns (pk: int, pre: seq<int>, post: seq<int>, count: int)
    requires perPage > 0
    ensures Anchors(pk, pre, post, count) == KeysetAnchors(view, desc, filtered, sliced, page, reqPk, perPage)
  {
    var leadingLimit := LeadPages(page) * perPage + 1;
    var trailingLimit := TrailPages(page) * perPage + 1;
    if |sliced| < perPage {
      post := [reqPk];
    } else {
      post := Stride(filtered, 0, trailingLimit, perPage);
    }
    assert post == FollowingRead(filtered, sliced, page, reqPk, perPage);
    if reqPk != 0 {
      if leadingLimit > 1 {
        pre := Stride(BeforeReversed(view, desc, reqPk), perPage, leadingLimit, perPage);
      } else {
        pre := [];
      }
      assert pre == PrecedingOf(view, desc, page, reqPk, perPage);
    } else {
      pre := Take(post, page - 1);
      post := Drop(post, page - 1);
    }
    ghost var expected := TakeCurrent(pre, post, |sliced| > 0, page, perPage);
    assert expected == KeysetAnchors(view, desc, filtered, sliced, page, reqPk, perPage);
    // strip the current anchor off the following ones
    pk := if |post| > 0 then post[0] else 0;
    post := if |post| > 0 then post[1..] else [];
    count := if |sliced| > 0 then Estimate(|post|, page, perPage) else 0;
  }

  class SmartQuerySetPaginator {
    const base: Paginator
    var queryset: nat
    var rawQueryset: nat
    var prePks: seq<int>
    var postPks: seq<int>
    var maxCount: int

    /** init_get and init_per_page; `objects` is None on this class. */
    constructor (get: Params, perPage: int, varPrefix: string)
      requires perPage > 0
      ensures fresh(base) && base.Valid()
      ensures base.get == get && base.varPrefix == varPrefix && base.perPage == perPage && base.objects == []
      ensures base.page == ToInt(Lookup(get, PageVar(varPrefix)), 1, false)
      ensures base.pk == ToInt(Lookup(get, PkVar(varPrefix)), 0, false)
    {
      base := new Paginator([], get, perPage, varPrefix);
    }

    /** QuerySetPaginator.init_objects: keeps the queryset and its unwrapped
        raw queryset, or raises RuntimeError when the chain does not end. */
    method InitObjects(links: Links, objects: nat) returns (outcome: Outcome)
      modifies this`queryset, this`rawQueryset
      ensures var end := Walk(links, objects, MAX_QUERYSET_RECURSION - 1);
        && (outcome.Pass? <==> Terminal(links, end))
        && (outcome.Pass? ==> queryset == objects && rawQueryset == end)
        && (outcome.Fail? ==> outcome.error == RuntimeError)
    {
      var r := UnwrapQuerySet(links, objects);
      if r.Err? {
        return Fail(r.error);
      }
      queryset := objects;
      rawQueryset := r.value;
      return Pass;
    }

    /** SmartQuerySetPaginator.init_count over the keys `view` the raw
        queryset yields; on success the state is that of SmartCountSpec. */
    method InitCount(view: seq<int>, desc: bool, unique: bool,
                     count: Option<int>, maxCount: int, optionalMaxCount: int) returns (outcome: Outcome)
      requires base.Valid()
      modifies base`first, base`last, base`slicedObjects, base`count, base`pk
      modifies this`prePks, this`postPks, this`maxCount
      ensures var spec := SmartCountSpec(view, desc, unique, old(base.page), old(base.pk), old(base.perPage),
                                         count, maxCount, optionalMaxCount);
        && (outcome.Pass? <==> spec.Ok?)
        && (spec.Err? ==> outcome == Fail(spec.error) && base.count == old(base.count))
        && (spec.Ok? ==>
              && base.first == spec.value.first && base.last == spec.value.last
              && base.slicedObjects == spec.value.sliced && base.count == spec.value.count
              && base.pk == spec.value.pk && prePks == spec.value.prePks && postPks == spec.value.postPks
              && this.maxCount == spec.value.maxCount)
    {
      var page, perPage, reqPk := base.page, base.perPage, base.pk;
      ghost var spec := SmartCountSpec(view, desc, unique, page, reqPk, perPage, count, maxCount, optionalMaxCount);
      var first, last;
      if reqPk != 0 {
        first, last := 0, perPage;
      } else {
        first, last := (page - 1) * perPage, page * perPage;
      }
      base.first, base.last := first, last;
      var mc := maxCount;
      if !unique && optionalMaxCount != 0 {
        mc := optionalMaxCount;
      }
      var filtered := view;
      if unique || (count.None? && mc == 0) {
        if !unique {
          return Fail(AssertionError);
        }
        if reqPk != 0 {
          filtered := AtOrAfter(view, desc, reqPk);
        }
      }
      var sliced := SlicedObjects(filtered, first, last, count);
      base.slicedObjects := sliced;
      if |sliced| == 0 && page > 1 {
        return Fail(Http404(page));
      }
      var pre, post, pk, c := [], [], reqPk, 0;
      if count.Some? && !unique {
        c := count.value;
        assert spec == Ok(SmartState(first, last, sliced, c, pk, pre, post, mc));
      } else if mc != 0 {
        c := |Take(view, mc)|;
        assert spec == Ok(SmartState(first, last, sliced, c, pk, pre, post, mc));
      } else {
        pk, pre, post, c := KeysetBranch(view, desc, filtered, sliced, page, reqPk, perPage);
        assert spec == Ok(SmartState(first, last, sliced, c, pk, pre, post, mc));
      }
      base.pk, prePks, postPks := pk, pre, post;
      base.count := c;
      this.maxCount := mc;
      return Pass;
    }

    /** SmartQuerySetPaginator.init_links: the first class's window, then
        every non-empty range and every neighbour link paired with its
        anchor by `_add_pks`. */
    method InitLinks()
      modifies base`left, base`middle, base`right, base`next, base`previous
      ensures WindowShown()
    {
      base.InitLinks();
      var w := WindowV1(base.page, base.pages);
      if |base.left| > 0 {
        base.left := AddPks(w.left, base.page, base.pk, prePks, postPks);
      }
      if |base.middle| > 0 {
        base.middle := AddPks(w.middle, base.page, base.pk, prePks, postPks);
      }
      // right is always empty after the first class's init_links
      if base.previous.NavTo? {
        var e := AddPks([base.previous.entry.page], base.page, base.pk, prePks, postPks);
        base.previous := NavTo(e[0]);
      }
      if base.next.NavTo? {
        var e := AddPks([base.next.entry.page], base.page, base.pk, prePks, postPks);
        base.next := NavTo(e[0]);
      }
    }

    /** The paginator holds the arguments it was built from: the request,
        the prefix, the page size and the queryset as given (before
        unwrapping); the inherited `objects` stays None. */
    predicate Holds(get: Params, varPrefix: string, perPage: int, objects: nat)
      reads this, base
    {
      base.Holds(get, varPrefix, perPage, []) && queryset == objects
    }

    /** The offsets, rows, count, anchors and cap hold the state
        `init_count` settled. */
    predicate CountShown(state: SmartState)
      reads this, base
    {
      && base.first == state.first && base.last == state.last
      && base.slicedObjects == state.sliced && base.count == state.count
      && base.pk == state.pk && prePks == state.prePks && postPks == state.postPks
      && maxCount == state.maxCount
    }

    /** The window fields hold the first class's window for the current page
        and page count, every page of it paired with its anchor; right is
        never filled. */
    predicate WindowShown()
      reads this, base
    {
      var w := WindowV1(base.page, base.pages);
      && base.left == Anchored(w.left, base.page, base.pk, prePks, postPks)
      && base.middle == Anchored(w.middle, base.page, base.pk, prePks, postPks)
      && base.right == []
      && base.previous == AnchoredNav(w.previous, base.page, base.pk, prePks, postPks)
      && base.next == AnchoredNav(w.next, base.page, base.pk, prePks, postPks)
    }
  }

  /** `SmartQuerySetPaginator(objects, get, ...)` up to init_links:
      RuntimeError, AssertionError or Http404, or a paginator in the state of
      SmartCountSpec with its page count. */
  method NewSmartCounted(links: Links, objects: nat, view: seq<int>, desc: bool, unique: bool,
                         get: Params, perPage: int, varPrefix: string,
                         count: Option<int>, maxCount: int, optionalMaxCount: int)
    returns (r: Result<SmartQuerySetPaginator>)
    requires perPage > 0
    ensures var page := ToInt(Lookup(get, PageVar(varPrefix)), 1, false);
      var pk := ToInt(Lookup(get, PkVar(varPrefix)), 0, false);
      var spec := SmartCountSpec(view, desc, unique, page, pk, perPage, count, maxCount, optionalMaxCount);
      var unwrapped := Terminal(links, Walk(links, objects, MAX_QUERYSET_RECURSION - 1));
      && (r.Ok? <==> unwrapped && spec.Ok?)
      && (!unwrapped ==> r == Err(RuntimeError))
      && (unwrapped && spec.Err? ==> r == Err(spec.error))
      && (r.Ok? ==>
            && fresh(r.value) && fresh(r.value.base)
            && r.value.rawQueryset == Walk(links, objects, MAX_QUERYSET_RECURSION - 1)
            && r.value.base.Valid() && r.value.base.page == page
            && r.value.Holds(get, varPrefix, perPage, objects)
            && r.value.CountShown(spec.value)
            && r.value.base.pages == CeilDiv(spec.value.count, perPage))
  {
    var p := new SmartQuerySetPaginator(get, perPage, varPrefix);
    ghost var page, pk := p.base.page, p.base.pk;
    ghost var spec := SmartCountSpec(view, desc, unique, page, pk, perPage, count, maxCount, optionalMaxCount);
    var outcome := p.InitObjects(links, objects);
    if outcome.Fail? {
      return Err(outcome.error);
    }
    outcome := p.InitCount(view, desc, unique, count, maxCount, optionalMaxCount);
    if outcome.Fail? {
      return Err(outcome.error);
    }
    ghost var state := spec.value;
    assert p.CountShown(state);
    p.base.InitPages();
    return Ok(p);
  }

  /** `SmartQuerySetPaginator(objects, get, ...)` over a raw queryset that
      yields the keys `view`: RuntimeError, AssertionError or Http404, or a
      paginator in the state of SmartCountSpec with the anchored window. */
  method NewSmartQuerySetPaginator(links: Links, objects: nat, view: seq<int>, desc: bool, unique: bool,
                                   get: Params, perPage: int, varPrefix: string,
                                   count: Option<int>, maxCount: int, optionalMaxCount: int)
    returns (r: Result<SmartQuerySetPaginator>)
    requires perPage > 0
    ensures var page := ToInt(Lookup(get, PageVar(varPrefix)), 1, false);
      var pk := ToInt(Lookup(get, PkVar(varPrefix)), 0, false);
      var spec := SmartCountSpec(view, desc, unique, page, pk, perPage, count, maxCount, optionalMaxCount);
      var unwrapped := Terminal(links, Walk(links, objects, MAX_QUERYSET_RECURSION - 1));
      && (r.Ok? <==> unwrapped && spec.Ok?)
      && (!unwrapped ==> r == Err(RuntimeError))
      && (unwrapped && spec.Err? ==> r == Err(spec.error))
      && (r.Ok? ==>
            && fresh(r.value) && fresh(r.value.base)
            && r.value.rawQueryset == Walk(links, objects, MAX_QUERYSET_RECURSION - 1)
            && r.value.base.Valid() && r.value.base.page == page
            && r.value.Holds(get, varPrefix, perPage, objects)
            && r.value.CountShown(spec.value)
            && r.value.base.pages == CeilDiv(spec.value.count, perPage)
            && r.value.WindowShown())
  {
    r := NewSmartCounted(links, objects, view, desc, unique, get, perPage, varPrefix,
                         count, maxCount, optionalMaxCount);
    if r.Ok? {
      var p := r.value;
      ghost var held := p.Holds(get, varPrefix, perPage, objects);
      p.InitLinks();
      assert p.Holds(get, varPrefix, perPage, objects) == held;
    }
  }
}
