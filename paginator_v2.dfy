/** The later `Paginator` class (tcc/templatetags/paginator.py:628-889),
    which rebinds the name: it pages a plain list or a queryset, anchors
    the page at a primary key when the queryset is ordered by it, caps the
    count at max_objects and never refuses a page. Rows are modelled by
    their keys, in the order the objects yield them. */
module PaginatorV2 {
  import opened Outcomes
  import opened PySeq
  import opened Decimal
  import opened RequestCodec
  import opened Window
  import opened Keyset

  /** How many pages of rows the anchors are read from, before and after. */
  const PRE_PAGES: int := Max(LEADING_PAGE_RANGE, LEADING_PAGE_RANGE_DISPLAYED)
  const POST_PAGES: int := Max(TRAILING_PAGE_RANGE, TRAILING_PAGE_RANGE_DISPLAYED)

  /** The field a queryset is ordered by (its query's ordering, else its
      model's): the primary key ('pk' or 'id', descending with '-'), or any
      other field. */
  datatype Ordering = ByKey(desc: bool) | ByOtherField

  /** What the paginator is given: a plain list, or a queryset with its
      ordering. */
  datatype Objects = Items(rows: seq<int>) | QuerySet(rows: seq<int>, ordering: Ordering)

  /** The first row of the page by offset, `pk_list[start:start + 1][0]`,
      or 0 when that slice is empty (the IndexError). */
  function OffsetAnchor(view: seq<int>, page: int, perPage: int): int
  {
    var start := (page - 1) * perPage;
    var at := Slice(view, start, start + 1);
    if |at| > 0 then at[0] else 0
  }

  /** The state _init_smart_paging leaves: the current anchor (0 for None),
      the preceding and following anchors, and the rows left to page. */
  datatype SmartPaging = SmartPaging(pk: int, prePks: seq<int>, postPks: seq<int>, rows: seq<int>)

  /** _init_smart_paging of a queryset ordered by key, once the anchor pk is
      known: the anchors are read from the rows up to the anchor in reverse
      and from the rows at or after it (from every row without an anchor). */
  function SmartFrom(view: seq<int>, desc: bool, pk: int, perPage: int): SmartPaging
    requires perPage > 0
  {
    if pk != 0 then SmartRead(BeforeReversed(view, desc, pk), AtOrAfter(view, desc, pk), perPage)
    else SmartRead([], view, perPage)
  }

  /** The reads of _init_smart_paging: the preceding anchors are every
      perPage-th row of `back`, skipping the current page; of `rows`, the
      first perPage-th row becomes the current anchor and the next ones the
      following anchors; `rows` are the rows left to page. */
  function SmartRead(back: seq<int>, rows: seq<int>, perPage: int): SmartPaging
    requires perPage > 0
  {
    var pre := Stride(back, perPage, PRE_PAGES * perPage, perPage);
    var pks := Stride(rows, 0, POST_PAGES * perPage, perPage);
    if |pks| > 0 then SmartPaging(pks[0], pre, pks[1..], rows) else SmartPaging(0, pre, [], rows)
  }

  /** _init_smart_paging: nothing for a list or a queryset ordered by another
      field; otherwise the request's pk (ValueError when it is not a decimal
      integer), or the first row of the page by offset when it is false. */
  function SmartPagingSpec(objects: Objects, params: Params, pkVar: string, page: int, perPage: int)
    : Result<SmartPaging>
    requires perPage > 0
  {
    match objects
    case Items(rows) => Ok(SmartPaging(0, [], [], rows))
    case QuerySet(view, ByOtherField) => Ok(SmartPaging(0, [], [], view))
    case QuerySet(view, ByKey(desc)) =>
      match StrictPk(params, pkVar)
      case Err(e) => Err(e)
      case Ok(reqPk) => Ok(SmartFrom(view, desc, if reqPk != 0 then reqPk else OffsetAnchor(view, page, perPage), perPage))
  }

  /** _set_count: a true supplied count is kept; otherwise a queryset counts
      its rows up to max_objects, and a list gives its length (its count()
      needs an argument, and the TypeError falls back to len). An anchored
      page adds the rows of the pages before it. */
  function CountOf(objects: Objects, rows: seq<int>, supplied: Option<int>, maxObjects: int,
                   pk: int, page: int, perPage: int): int
  {
    var c := if supplied.Some? && supplied.value != 0 then supplied.value
             else if objects.QuerySet? then |Take(rows, maxObjects)|
             else |rows|;
    if pk != 0 then c + (page - 1) * perPage else c
  }

  /** The offsets of the page's rows: from the start of the anchored rows, or
      by page number; both clamped to the count. */
  function Offsets(count: int, pk: int, page: int, perPage: int): (int, int)
  {
    if pk != 0 then (0, Min(perPage, count))
    else (Min((page - 1) * perPage, count), Min(page * perPage, count))
  }

  /** What `display_count` shows: the count, with a "+" exactly when it
      equals max_objects. */
  datatype Shown = Exact(n: int) | AtLeast(n: int)

  function DisplayCount(count: int, maxObjects: int): Shown
  {
    if count == maxObjects then AtLeast(count) else Exact(count)
  }

  /** A neighbour link after `_add_pks`. */
  function AnchoredEntry(n: Option<int>, page: int, pk: int, pre: seq<int>, post: seq<int>): Option<Entry>
  {
    if n.Some? then Some(Entry(n.value, AnchorFor(n.value, page, pk, pre, post))) else None
  }

  /** Everything the constructor settles before the window, but the page
      count (the ceiling of count / perPage). */
  datatype State = State(pk: int, prePks: seq<int>, postPks: seq<int>, rows: seq<int>,
                         count: int, first: int, last: int)

  /** `Paginator(objects, get, results_per_page, var_prefix, count, slice,
      max_objects)` up to the window: the page, the smart paging, the count
      and the offsets. */
  function LaterSpec(objects: Objects, params: Params, prefix: string, perPage: int,
                     count: Option<int>, maxObjects: int): Result<State>
    requires perPage > 0
  {
    var page := LaterPage(params, PageVar(prefix));
    match SmartPagingSpec(objects, params, PkVar(prefix), page, perPage)
    case Err(e) => Err(e)
    case Ok(s) =>
      var c := CountOf(objects, s.rows, count, maxObjects, s.pk, page, perPage);
      var (first, last) := Offsets(c, s.pk, page, perPage);
      Ok(State(s.pk, s.prePks, s.postPks, s.rows, c, first, last))
  }

  /** LaterSpec once the smart paging is known. */
  lemma LaterOf(objects: Objects, params: Params, prefix: string, perPage: int,
                count: Option<int>, maxObjects: int, s: SmartPaging)
    requires perPage > 0
    requires SmartPagingSpec(objects, params, PkVar(prefix), LaterPage(params, PageVar(prefix)), perPage) == Ok(s)
    ensures var page := LaterPage(params, PageVar(prefix));
      var c := CountOf(objects, s.rows, count, maxObjects, s.pk, page, perPage);
      LaterSpec(objects, params, prefix, perPage, count, maxObjects)
        == Ok(State(s.pk, s.prePks, s.postPks, s.rows, c, Offsets(c, s.pk, page, perPage).0,
                    Offsets(c, s.pk, page, perPage).1))
  {
  }

  /** LaterSpec once the smart paging has failed. */
  lemma LaterStops(objects: Objects, params: Params, prefix: string, perPage: int,
                   count: Option<int>, maxObjects: int, e: Error)
    requires perPage > 0
    requires SmartPagingSpec(objects, params, PkVar(prefix), LaterPage(params, PageVar(prefix)), perPage) == Err(e)
    ensures LaterSpec(objects, params, prefix, perPage, count, maxObjects) == Err(e)
  {
  }

  /** The later class never raises Http404: constructing it fails only for
      a queryset ordered by key whose request pk is not a decimal integer,
      and then with ValueError. */
  lemma LaterFailsOnlyOnMalformedPk(objects: Objects, params: Params, prefix: string, perPage: int,
                                    count: Option<int>, maxObjects: int)
    requires perPage > 0
    ensures var r := LaterSpec(objects, params, prefix, perPage, count, maxObjects);
      && (r.Err? <==> objects.QuerySet? && objects.ordering.ByKey? && PkVar(prefix) in params
                      && ParseInt(params[PkVar(prefix)]).None?)
      && (r.Err? ==> r.error == ValueError)
  {
  }

  /** What the following anchors mean, in the rows `s.rows` being paged
      (which start at the current anchor): page + k is anchored at the row k
      pages further on, and they stop only after seven pages or at the end
      of the rows. */
  predicate PostAnchors(s: SmartPaging, page: int, perPage: int)
  {
    && |s.postPks| < POST_PAGES
    && (|s.postPks| < POST_PAGES - 1 ==> (|s.postPks| + 1) * perPage >= |s.rows|)
    && (forall q :: page < q <= page + |s.postPks| ==> PostAnchorAt(s, q, page, perPage))
  }

  /** Page q is anchored at the first row q - page pages into the rows. */
  predicate PostAnchorAt(s: SmartPaging, q: int, page: int, perPage: int)
  {
    && 0 <= (q - page) * perPage < |s.rows|
    && AnchorFor(q, page, s.pk, s.prePks, s.postPks) == Some(s.rows[(q - page) * perPage])
  }

  /** What the preceding anchors mean, in the rows `back` up to the current
      anchor read in reverse: page - k is anchored at the row k pages back,
      and they stop only after seven pages or at the start of the rows. */
  predicate PreAnchors(s: SmartPaging, back: seq<int>, page: int, perPage: int)
  {
    && |s.prePks| < PRE_PAGES
    && (|s.prePks| < PRE_PAGES - 1 ==> (|s.prePks| + 1) * perPage >= |back|)
    && (forall q :: page - |s.prePks| <= q < page ==> PreAnchorAt(s, back, q, page, perPage))
  }

  /** Page q is anchored at the first row page - q pages back. */
  predicate PreAnchorAt(s: SmartPaging, back: seq<int>, q: int, page: int, perPage: int)
  {
    && 0 <= (page - q) * perPage < |back|
    && AnchorFor(q, page, s.pk, s.prePks, s.postPks) == Some(back[(page - q) * perPage])
  }

  /** The anchors read forwards, at a stride of perPage, from the rows `fwd`
      that start at the current page: the first is the current anchor, and
      they stop only after eight reads or at the end of the rows. */
  lemma PostStride(fwd: seq<int>, perPage: int)
    requires perPage > 0 && |fwd| > 0
    ensures var pks := Stride(fwd, 0, POST_PAGES * perPage, perPage);
      && 0 < |pks| <= POST_PAGES && pks[0] == fwd[0]
      && (|pks| < POST_PAGES ==> |pks| * perPage >= |fwd|)
  {
    assert POST_PAGES == 8;
    var limit := POST_PAGES * perPage;
    var n := |Stride(fwd, 0, limit, perPage)|;
    var hi := Bound(limit, |fwd|);
    MulLess(1, POST_PAGES, perPage);
    StrideAt(fwd, 0, limit, perPage);
    assert 0 < n by {
      assert Bound(0, |fwd|) + 0 * perPage < hi;
    }
    assert (n - 1) * perPage < hi;
    MulLess(n - 1, POST_PAGES, perPage);
    assert !(Bound(0, |fwd|) + n * perPage < hi);
    MulLess(n, POST_PAGES, perPage);
  }

  /** Among those anchors, page + k is anchored at fwd[k * perPage], the
      first row k pages further on. */
  lemma PostStrideAt(fwd: seq<int>, perPage: int, page: int, pre: seq<int>, q: int)
    requires perPage > 0 && |fwd| > 0 && fwd[0] != 0
    requires page < q < page + |Stride(fwd, 0, POST_PAGES * perPage, perPage)|
    ensures var pks := Stride(fwd, 0, POST_PAGES * perPage, perPage);
      && 0 <= (q - page) * perPage < |fwd|
      && AnchorFor(q, page, pks[0], pre, pks[1..]) == Some(fwd[(q - page) * perPage])
  {
    var pks := Stride(fwd, 0, POST_PAGES * perPage, perPage);
    PostStride(fwd, perPage);
    StrideAt(fwd, 0, POST_PAGES * perPage, perPage);
    var k := q - page;
    assert pks[k] == fwd[Bound(0, |fwd|) + k * perPage];
    MulMonotone(0, k, perPage);
  }

  /** Any paging whose anchor and following anchors are the forward reads
      of its own rows `fwd` has the following anchors PostAnchors says. */
  lemma StridedPostAnchors(fwd: seq<int>, s: SmartPaging, page: int, perPage: int)
    requires perPage > 0 && |fwd| > 0 && fwd[0] != 0 && s.rows == fwd
    requires var pks := Stride(fwd, 0, POST_PAGES * perPage, perPage);
      |pks| > 0 && s.pk == pks[0] && s.postPks == pks[1..]
    ensures PostAnchors(s, page, perPage)
  {
    var pks := Stride(fwd, 0, POST_PAGES * perPage, perPage);
    PostStride(fwd, perPage);
    var n := |s.postPks|;
    assert n + 1 == |pks|;
    assert n < POST_PAGES - 1 ==> (n + 1) * perPage >= |fwd|;
    forall q | page < q <= page + |s.postPks|
      ensures PostAnchorAt(s, q, page, perPage)
    {
      PostStrideAt(fwd, perPage, page, s.prePks, q);
    }
    assert |s.postPks| < POST_PAGES;
    assert |s.postPks| < POST_PAGES - 1 ==> (|s.postPks| + 1) * perPage >= |s.rows|;
  }

  /** Read from rows `fwd` with a non-zero first key, the current anchor is
      that key, the rows to page are `fwd`, and the following anchors mean
      what PostAnchors says. */
  lemma SmartReadForward(back: seq<int>, fwd: seq<int>, page: int, perPage: int)
    requires perPage > 0 && |fwd| > 0 && fwd[0] != 0
    ensures var s := SmartRead(back, fwd, perPage);
      s.pk == fwd[0] && s.rows == fwd && PostAnchors(s, page, perPage)
  {
    PostStride(fwd, perPage);
    StridedPostAnchors(fwd, SmartRead(back, fwd, perPage), page, perPage);
  }

  /** The anchors read backwards, at a stride of perPage, from the rows
      `back` up to the current anchor in reverse, skipping the current page:
      at most seven, stopping short of that only at the start of the rows. */
  lemma PreStride(back: seq<int>, perPage: int)
    requires perPage > 0
    ensures var pre := Stride(back, perPage, PRE_PAGES * perPage, perPage);
      && |pre| < PRE_PAGES
      && (|pre| < PRE_PAGES - 1 ==> (|pre| + 1) * perPage >= |back|)
  {
    assert PRE_PAGES == 8;
    var limit := PRE_PAGES * perPage;
    var n := |Stride(back, perPage, limit, perPage)|;
    var lo, hi := Bound(perPage, |back|), Bound(limit, |back|);
    MulLess(1, PRE_PAGES, perPage);
    assert n > 0 ==> lo + (n - 1) * perPage < hi by {
      StrideAt(back, perPage, limit, perPage);
    }
    assert !(lo + n * perPage < hi) by {
      StrideAt(back, perPage, limit, perPage);
    }
    assert (n + 1) * perPage == perPage + n * perPage;
    MulMonotone(0, n, perPage);
    if n > 0 {
      assert perPage + (n - 1) * perPage == n * perPage;
      MulLess(n, PRE_PAGES, perPage);
    }
    MulLess(n + 1, PRE_PAGES, perPage);
  }

  /** Among those anchors, page - k is anchored at back[k * perPage], the
      first row of the page k pages back. */
  lemma PreStrideAt(back: seq<int>, perPage: int, page: int, pk: int, post: seq<int>, q: int)
    requires perPage > 0 && pk != 0
    requires page - |Stride(back, perPage, PRE_PAGES * perPage, perPage)| <= q < page
    ensures var pre := Stride(back, perPage, PRE_PAGES * perPage, perPage);
      && 0 <= (page - q) * perPage < |back|
      && AnchorFor(q, page, pk, pre, post) == Some(back[(page - q) * perPage])
  {
    var k := page - q;
    StrideAt(back, perPage, PRE_PAGES * perPage, perPage);
    assert Bound(perPage, |back|) + (k - 1) * perPage < Bound(PRE_PAGES * perPage, |back|);
    assert perPage + (k - 1) * perPage == k * perPage;
  }

  /** With a current anchor, the anchors read backwards from `back` mean
      what PreAnchors says. */
  lemma PreStrideAnchors(back: seq<int>, perPage: int, page: int, pk: int, post: seq<int>, rows: seq<int>)
    requires perPage > 0 && pk != 0
    ensures PreAnchors(SmartPaging(pk, Stride(back, perPage, PRE_PAGES * perPage, perPage), post, rows),
                       back, page, perPage)
  {
    var pre := Stride(back, perPage, PRE_PAGES * perPage, perPage);
    PreStride(back, perPage);
    forall q | page - |pre| <= q < page
      ensures PreAnchorAt(SmartPaging(pk, pre, post, rows), back, q, page, perPage)
    {
      PreStrideAt(back, perPage, page, pk, post, q);
    }
  }

  /** Read backwards from `back` and forwards from rows with a non-zero
      first key, the preceding anchors mean what PreAnchors says. */
  lemma SmartReadBackward(back: seq<int>, fwd: seq<int>, page: int, perPage: int)
    requires perPage > 0 && |fwd| > 0 && fwd[0] != 0
    ensures PreAnchors(SmartRead(back, fwd, perPage), back, page, perPage)
  {
    var s := SmartRead(back, fwd, perPage);
    PostStride(fwd, perPage);
    assert s == SmartPaging(s.pk, Stride(back, perPage, PRE_PAGES * perPage, perPage), s.postPks, s.rows);
    PreStrideAnchors(back, perPage, page, s.pk, s.postPks, s.rows);
  }

  /** Smart paging at the key of row i of an ordered queryset keeps that row
      as the anchor and the rows from it on as the rows to page; its
      following anchors are read forwards from that row and its preceding
      anchors backwards from it, in the rows up to it reversed. */
  lemma SmartFromRow(view: seq<int>, desc: bool, i: int, page: int, perPage: int)
    requires perPage > 0 && Ordered(view, desc) && 0 <= i < |view| && view[i] != 0
    ensures var s := SmartFrom(view, desc, view[i], perPage);
      && s.pk == view[i] && s.rows == view[i..]
      && PostAnchors(s, page, perPage) && PreAnchors(s, Reverse(view[..i + 1]), page, perPage)
  {
    AnchorOpensSuffix(view, desc, i);
    PrecedingRowsReversed(view, desc, i);
    assert SmartFrom(view, desc, view[i], perPage) == SmartRead(Reverse(view[..i + 1]), view[i..], perPage);
    SmartReadForward(Reverse(view[..i + 1]), view[i..], page, perPage);
    SmartReadBackward(Reverse(view[..i + 1]), view[i..], page, perPage);
  }

  /** Without a request pk, a page from 1 on anchors at its first row by
      offset, or at nothing past the data. */
  lemma OffsetAnchorOfPage(view: seq<int>, page: int, perPage: int)
    requires perPage > 0 && page >= 1
    ensures var start := (page - 1) * perPage;
      && 0 <= start
      && OffsetAnchor(view, page, perPage) == (if start < |view| then view[start] else 0)
  {
    MulMonotone(0, page - 1, perPage);
  }

  /** Page numbers are not clamped: over a Python list of keys a negative
      page anchors at a row counted from the end, as negative slice bounds
      do. This describes the list abstraction only: smart paging runs for
      querysets, and Django refuses a negative queryset index with an
      AssertionError that the IndexError handler does not catch. */
  lemma NegativePageCountsFromEnd(view: seq<int>, page: int, perPage: int)
    requires perPage > 0 && page < 0
    ensures var start := (page - 1) * perPage;
      && start < -1
      && OffsetAnchor(view, page, perPage) == (if -start <= |view| then view[|view| + start] else 0)
  {
    MulLess(page - 1, -1, perPage);
  }

  /** Smart paging at the key of row i of an ordered queryset keeps that row
      as the anchor and pages the rows from it on. */
  lemma AnchorKeepsRow(view: seq<int>, desc: bool, i: int, perPage: int)
    requires perPage > 0 && Ordered(view, desc) && 0 <= i < |view| && view[i] != 0
    ensures var s := SmartFrom(view, desc, view[i], perPage);
      s.pk == view[i] && s.rows == view[i..]
  {
    AnchorOpensSuffix(view, desc, i);
    PostStride(view[i..], perPage);
  }

  /** The count and the rows shown of a page whose anchor is row i, once
      the rows to page are known to be those from row i on. */
  lemma AnchoredCount(view: seq<int>, desc: bool, i: int, rows: seq<int>, page: int, perPage: int, maxObjects: int)
    requires perPage > 0 && 0 <= i < |view| && view[i] != 0 && rows == view[i..]
    requires page >= 1 && maxObjects >= perPage
    ensures var c := CountOf(QuerySet(view, ByKey(desc)), rows, None, maxObjects, view[i], page, perPage);
      && c == Min(maxObjects, |view| - i) + (page - 1) * perPage
      && Slice(rows, Offsets(c, view[i], page, perPage).0, Offsets(c, view[i], page, perPage).1)
           == view[i..Min(i + perPage, |view|)]
  {
    var n := |view| - i;
    assert |Take(rows, maxObjects)| == Min(maxObjects, n) by {
      SliceFacts(rows, 0, maxObjects);
    }
    var before := (page - 1) * perPage;
    assert before >= 0 by {
      MulMonotone(0, page - 1, perPage);
    }
    var c := CountOf(QuerySet(view, ByKey(desc)), rows, None, maxObjects, view[i], page, perPage);
    assert c == Min(maxObjects, n) + before;
    var last := Min(perPage, c);
    assert Offsets(c, view[i], page, perPage) == (0, last);
    if n <= perPage {
      assert n <= last;
      SliceFacts(rows, 0, last);
    } else {
      assert last == perPage;
      SuffixRows(view, i, perPage);
    }
  }

  /** A page anchored at row i whose count is not supplied and whose
      max_objects holds at least a page shows the perPage rows from row i
      on, clamped to the data, and counts the rows from the anchor (capped
      at max_objects) plus a full page for every page before it. */
  lemma AnchoredPageRows(view: seq<int>, desc: bool, i: int, page: int, perPage: int, maxObjects: int)
    requires perPage > 0 && Ordered(view, desc) && 0 <= i < |view| && view[i] != 0
    requires page >= 1 && maxObjects >= perPage
    ensures var s := SmartFrom(view, desc, view[i], perPage);
      var c := CountOf(QuerySet(view, ByKey(desc)), s.rows, None, maxObjects, s.pk, page, perPage);
      && c == Min(maxObjects, |view| - i) + (page - 1) * perPage
      && Slice(s.rows, Offsets(c, s.pk, page, perPage).0, Offsets(c, s.pk, page, perPage).1)
           == view[i..Min(i + perPage, |view|)]
  {
    AnchorKeepsRow(view, desc, i, perPage);
    var s := SmartFrom(view, desc, view[i], perPage);
    AnchoredCount(view, desc, i, s.rows, page, perPage, maxObjects);
  }

  /** The smart paging of a request whose anchor is the key of row j, either
      given as its pk or, without one, as the first row of its page. */
  lemma RequestPagingAt(view: seq<int>, desc: bool, params: Params, pkVar: string, page: int,
                        perPage: int, j: int) returns (s: SmartPaging)
    requires perPage > 0 && Ordered(view, desc) && 0 <= j < |view| && view[j] != 0
    requires || (pkVar in params && ParseInt(params[pkVar]) == Some(view[j]))
             || (pkVar !in params && page >= 1 && (page - 1) * perPage == j)
    ensures SmartPagingSpec(QuerySet(view, ByKey(desc)), params, pkVar, page, perPage) == Ok(s)
    ensures s.pk == view[j] && s.rows == view[j..]
  {
    if pkVar in params {
      assert StrictPk(params, pkVar) == Ok(view[j]);
    } else {
      OffsetAnchorOfPage(view, page, perPage);
      assert StrictPk(params, pkVar) == Ok(0) && OffsetAnchor(view, page, perPage) == view[j];
    }
    AnchorKeepsRow(view, desc, j, perPage);
    s := SmartFrom(view, desc, view[j], perPage);
  }

  /** Offset and keyset paging agree: without a request pk, a page from 1 on
      that starts inside the data shows the same rows as paging by offset,
      and counts the data exactly when the rows from the page on fit under
      max_objects. */
  lemma OffsetPageAgrees(view: seq<int>, desc: bool, params: Params, prefix: string, perPage: int, maxObjects: int)
    requires perPage > 0 && Ordered(view, desc) && PkVar(prefix) !in params
    requires LaterPage(params, PageVar(prefix)) >= 1 && maxObjects >= perPage
    requires var start := (LaterPage(params, PageVar(prefix)) - 1) * perPage;
      0 <= start < |view| && view[start] != 0
    ensures var page := LaterPage(params, PageVar(prefix));
      var start := (page - 1) * perPage;
      var r := LaterSpec(QuerySet(view, ByKey(desc)), params, prefix, perPage, None, maxObjects);
      && r.Ok?
      && Slice(r.value.rows, r.value.first, r.value.last) == view[start..Min(start + perPage, |view|)]
      && (|view| - start <= maxObjects ==> r.value.count == |view|)
  {
    var page := LaterPage(params, PageVar(prefix));
    var start := (page - 1) * perPage;
    var s := RequestPagingAt(view, desc, params, PkVar(prefix), page, perPage, start);
    LaterOf(QuerySet(view, ByKey(desc)), params, prefix, perPage, None, maxObjects, s);
    AnchoredCount(view, desc, start, s.rows, page, perPage, maxObjects);
  }

  /** A request anchored at the key of row j shows the perPage rows from
      that row on, whatever the page number. */
  lemma AnchoredRequestRows(view: seq<int>, desc: bool, params: Params, prefix: string, j: int,
                            perPage: int, maxObjects: int)
    requires perPage > 0 && Ordered(view, desc) && 0 <= j < |view| && view[j] != 0
    requires PkVar(prefix) in params && ParseInt(params[PkVar(prefix)]) == Some(view[j])
    requires LaterPage(params, PageVar(prefix)) >= 1 && maxObjects >= perPage
    ensures var r := LaterSpec(QuerySet(view, ByKey(desc)), params, prefix, perPage, None, maxObjects);
      && r.Ok? && r.value.pk == view[j]
      && Slice(r.value.rows, r.value.first, r.value.last) == view[j..Min(j + perPage, |view|)]
  {
    var page := LaterPage(params, PageVar(prefix));
    var s := RequestPagingAt(view, desc, params, PkVar(prefix), page, perPage, j);
    LaterOf(QuerySet(view, ByKey(desc)), params, prefix, perPage, None, maxObjects, s);
    AnchoredCount(view, desc, j, s.rows, page, perPage, maxObjects);
  }

  /** Keys are positive, as auto-incremented primary keys are. */
  predicate PositiveKeys(view: seq<int>)
  {
    forall k :: 0 <= k < |view| ==> view[k] > 0
  }

  /** AnchorOfPage for any paging that starts at row i with the anchors
      SmartFromRow describes. */
  lemma AnchorAtRow(view: seq<int>, i: int, s: SmartPaging, page: int, perPage: int, q: int)
    requires perPage > 0 && 0 <= i < |view| && s.pk == view[i] && s.rows == view[i..]
    requires PostAnchors(s, page, perPage) && PreAnchors(s, Reverse(view[..i + 1]), page, perPage)
    requires AnchorFor(q, page, s.pk, s.prePks, s.postPks).Some?
    ensures 0 <= i + (q - page) * perPage < |view|
    ensures AnchorFor(q, page, s.pk, s.prePks, s.postPks) == Some(view[i + (q - page) * perPage])
  {
    if q < page {
      var back := Reverse(view[..i + 1]);
      assert PreAnchorAt(s, back, q, page, perPage);
      var k := (page - q) * perPage;
      assert back[k] == view[..i + 1][i - k];
      assert (q - page) * perPage == -k;
    } else if q > page {
      assert PostAnchorAt(s, q, page, perPage);
      var k := (q - page) * perPage;
      assert s.rows[k] == view[i + k];
    } else {
      assert (q - page) * perPage == 0;
    }
  }

  /** Every page linked with an anchor from a page anchored at row i is
      anchored at the row q - page pages away from row i, forwards or
      backwards. */
  lemma AnchorOfPage(view: seq<int>, desc: bool, i: int, page: int, perPage: int, q: int)
    requires perPage > 0 && Ordered(view, desc) && 0 <= i < |view| && view[i] != 0
    requires var s := SmartFrom(view, desc, view[i], perPage);
      AnchorFor(q, page, s.pk, s.prePks, s.postPks).Some?
    ensures var s := SmartFrom(view, desc, view[i], perPage);
      && 0 <= i + (q - page) * perPage < |view|
      && AnchorFor(q, page, s.pk, s.prePks, s.postPks) == Some(view[i + (q - page) * perPage])
  {
    SmartFromRow(view, desc, i, page, perPage);
    AnchorAtRow(view, i, SmartFrom(view, desc, view[i], perPage), page, perPage, q);
  }

  /** A link to page q (not page 1, whose link drops the pk) anchored at
      the key of row j reads back as page q with that key, and the smart
      paging of that request starts at row j. */
  lemma LinkOpensRow(view: seq<int>, desc: bool, params: Params, prefix: string, j: int, perPage: int, q: int)
    requires perPage > 0 && Ordered(view, desc) && 0 <= j < |view| && view[j] > 0
    requires q != 0 && q != 1
    ensures var link := Link(params, PageVar(prefix), PkVar(prefix), q, Some(view[j]));
      && LaterPage(link, PageVar(prefix)) == q
      && SmartPagingSpec(QuerySet(view, ByKey(desc)), link, PkVar(prefix), q, perPage)
           == Ok(SmartFrom(view, desc, view[j], perPage))
      && SmartFrom(view, desc, view[j], perPage).rows == view[j..]
  {
    LaterLinkRoundTrip(params, prefix, q, Some(view[j]));
    AnchorKeepsRow(view, desc, j, perPage);
  }

  /** Following an anchored link of a page anchored at row i to page q (not
      page 1, whose link drops the pk) opens the rows from the row
      q - page pages away: the link reads back as page q with that row's
      key, and the smart paging of that request starts at that row. */
  lemma AnchoredLinkOpensRows(view: seq<int>, desc: bool, params: Params, prefix: string,
                              page: int, i: int, perPage: int, q: int)
    requires perPage > 0 && Ordered(view, desc) && PositiveKeys(view) && 0 <= i < |view|
    requires q != 0 && q != 1
    requires var s := SmartFrom(view, desc, view[i], perPage);
      AnchorFor(q, page, s.pk, s.prePks, s.postPks).Some?
    ensures var s := SmartFrom(view, desc, view[i], perPage);
      var a := AnchorFor(q, page, s.pk, s.prePks, s.postPks).value;
      var link := Link(params, PageVar(prefix), PkVar(prefix), q, Some(a));
      && 0 <= i + (q - page) * perPage < |view|
      && a == view[i + (q - page) * perPage]
      && LaterPage(link, PageVar(prefix)) == q
      && SmartPagingSpec(QuerySet(view, ByKey(desc)), link, PkVar(prefix), q, perPage)
           == Ok(SmartFrom(view, desc, a, perPage))
      && SmartFrom(view, desc, a, perPage).rows == view[i + (q - page) * perPage..]
  {
    AnchorOfPage(view, desc, i, page, perPage, q);
    var j := i + (q - page) * perPage;
    LinkOpensRow(view, desc, params, prefix, j, perPage, q);
  }

  /** The count of a list is never capped; that of a queryset not ordered by
      key is capped at max_objects; a true supplied count is taken as it is
      (plus the pages before an anchored page). */
  lemma CountSources(rows: seq<int>, supplied: Option<int>, maxObjects: int, pk: int, page: int, perPage: int)
    requires maxObjects >= 0
    ensures supplied.None? ==> CountOf(Items(rows), rows, supplied, maxObjects, 0, page, perPage) == |rows|
    ensures supplied.None? ==>
      CountOf(QuerySet(rows, ByOtherField), rows, supplied, maxObjects, 0, page, perPage) == Min(maxObjects, |rows|)
    ensures supplied.Some? && supplied.value != 0 ==>
      CountOf(QuerySet(rows, ByOtherField), rows, supplied, maxObjects, pk, page, perPage)
        == supplied.value + (if pk != 0 then (page - 1) * perPage else 0)
  {
    SliceFacts(rows, 0, maxObjects);
  }

  /** The "+" is shown exactly when the count reaches max_objects; for a
      queryset not anchored and not given a count, that is exactly when it
      holds at least max_objects rows. */
  lemma DisplayCountMeaning(rows: seq<int>, ordering: Ordering, maxObjects: int)
    requires maxObjects >= 0
    ensures var c := CountOf(QuerySet(rows, ordering), rows, None, maxObjects, 0, 1, 1);
      && DisplayCount(c, maxObjects).n == c
      && (DisplayCount(c, maxObjects).AtLeast? <==> |rows| >= maxObjects)
  {
    SliceFacts(rows, 0, maxObjects);
  }

  /** 500 rows with max_objects set to 100: the count
      is capped at 100 and shown as "100+"; 40 rows show as 40. */
  lemma DisplayCountExample()
    ensures DisplayCount(CountOf(QuerySet(Range(1, 501), ByOtherField), Range(1, 501), None, 100, 0, 1, 10), 100)
      == AtLeast(100)
    ensures DisplayCount(CountOf(QuerySet(Range(1, 41), ByOtherField), Range(1, 41), None, 100, 0, 1, 10), 100)
      == Exact(40)
  {
    SliceFacts(Range(1, 501), 0, 100);
    SliceFacts(Range(1, 41), 0, 100);
  }

  /** From page 1 on, with a count that is not negative, the offsets of a
      page without an anchor lie in order within the count and span at most
      a page; an anchored page starts at 0. */
  lemma OffsetsInOrder(count: int, pk: int, page: int, perPage: int)
    requires perPage > 0 && page >= 1 && count >= 0
    ensures var (first, last) := Offsets(count, pk, page, perPage);
      && 0 <= first <= last <= count && last - first <= perPage
      && (pk != 0 ==> first == 0)
  {
    MulMonotone(0, page - 1, perPage);
    assert page * perPage == (page - 1) * perPage + perPage;
  }

  /** The body of `_init_smart_paging`: nothing for a list or a queryset
      ordered by another field; otherwise the anchor is the request's pk, or
      the first row of the page by offset when that is false, and the
      anchors are read from the rows up to it in reverse and from the rows
      at or after it. */
  method ReadSmartPaging(objects: Objects, get: Params, pkVar: string, page: int, perPage: int)
    returns (r: Result<SmartPaging>)
    requires perPage > 0
    ensures r == SmartPagingSpec(objects, get, pkVar, page, perPage)
  {
    var prePks: seq<int>, postPks: seq<int>, pk := [], [], 0;
    var rows := objects.rows;
    if objects.QuerySet? && objects.ordering.ByKey? {
      var view, desc := objects.rows, objects.ordering.desc;
      var parsed := StrictPk(get, pkVar);
      if parsed.Err? {
        return Err(parsed.error);
      }
      var anchor := parsed.value;
      if anchor == 0 {
        var start := (page - 1) * perPage;
        var at := Slice(view, start, start + 1);
        anchor := if |at| > 0 then at[0] else 0;
      }
      var filtered := view;
      if anchor != 0 {
        prePks := Stride(BeforeReversed(view, desc, anchor), perPage, PRE_PAGES * perPage, perPage);
        filtered := AtOrAfter(view, desc, anchor);
      }
      var pks := Stride(filtered, 0, POST_PAGES * perPage, perPage);
      if |pks| > 0 {
        pk, postPks := pks[0], pks[1..];
      } else {
        pk, postPks := 0, [];
      }
      rows := filtered;
    }
    return Ok(SmartPaging(pk, prePks, postPks, rows));
  }

  /** The body of `_set_count`, on the values it reads. */
  method Counted(objects: Objects, rows: seq<int>, supplied: Option<int>, maxObjects: int,
                 pk: int, page: int, perPage: int)
    returns (count: int, pages: int, first: int, last: int)
    requires perPage > 0
    ensures count == CountOf(objects, rows, supplied, maxObjects, pk, page, perPage)
    ensures pages == CeilDiv(count, perPage)
    ensures (first, last) == Offsets(count, pk, page, perPage)
  {
    if supplied.Some? && supplied.value != 0 {
      count := supplied.value;
    } else if objects.QuerySet? {
      count := |Take(rows, maxObjects)|;
    } else {
      count := |rows|;
    }
    if pk != 0 {
      count := count + (page - 1) * perPage;
    }
    pages := CeilDiv(count, perPage);
    if pk != 0 {
      first := 0;
      last := Min(perPage, count);
    } else {
      first := Min((page - 1) * perPage, count);
      last := Min(page * perPage, count);
    }
  }

  /** The branches of `_init_paginator`: the page numbers around the
      current page, whether the current page lies in the leading or the
      trailing range, and the pages shown apart from them (the last page
      after the leading range, the first before the trailing one). Put
      together as the source does, they are the window of WindowV2. */
  method PageClusters(page: int, pages: int, count: int)
    returns (inLeading: bool, inTrailing: bool, numbers: seq<int>, outsideLeading: seq<int>, outsideTrailing: seq<int>)
    ensures var w := WindowV2(page, pages, count);
      && numbers == w.middle
      && w.left == (if inLeading then [] else outsideTrailing)
      && w.right == (if !inTrailing && count <= MAX_OBJECTS then Reverse(outsideLeading) else [])
  {
    inLeading, inTrailing := false, false;
    outsideLeading, outsideTrailing := [], [];
    if pages <= LEADING_PAGE_RANGE_DISPLAYED {
      inLeading, inTrailing := true, true;
      numbers := Range(1, pages + 1);
    } else if page <= LEADING_PAGE_RANGE {
      inLeading := true;
      numbers := Range(1, Min(LEADING_PAGE_RANGE_DISPLAYED + 1, pages + 1));
      outsideLeading := [pages];
    } else if page > pages - TRAILING_PAGE_RANGE {
      inTrailing := true;
      numbers := Range(pages - TRAILING_PAGE_RANGE_DISPLAYED + 1, pages + 1);
      outsideTrailing := Range(1, 2);
    } else {
      numbers := Range(Max(1, page - ADJACENT_PAGES), Min(pages + 1, page + ADJACENT_PAGES + 1));
      outsideLeading := [pages];
      outsideTrailing := Range(1, 2);
    }
    assert Range(1, 2) == [1];
    assert Reverse([pages]) == [pages];
  }

  /** The body of `_init_paginator`: the clusters of PageClusters passed
      through `_add_pks` (the leading cluster only outside the leading range,
      the last page only outside the trailing range and up to MAX_OBJECTS
      objects), and the neighbours of the current page. */
  method WindowEntries(page: int, pages: int, count: int, pk: int, prePks: seq<int>, postPks: seq<int>)
    returns (left: seq<Entry>, middle: seq<Entry>, right: seq<Entry>, previous: Option<Entry>, next: Option<Entry>)
    ensures var w := WindowV2(page, pages, count);
      && left == Anchored(w.left, page, pk, prePks, postPks)
      && middle == Anchored(w.middle, page, pk, prePks, postPks)
      && right == Anchored(w.right, page, pk, prePks, postPks)
      && previous == AnchoredEntry(w.previous, page, pk, prePks, postPks)
      && next == AnchoredEntry(w.next, page, pk, prePks, postPks)
  {
    var inLeading, inTrailing, numbers, outsideLeading, outsideTrailing := PageClusters(page, pages, count);
    left, right, previous, next := [], [], None, None;
    if !inLeading {
      left := AddPks(outsideTrailing, page, pk, prePks, postPks);
    }
    middle := AddPks(numbers, page, pk, prePks, postPks);
    if !inTrailing && count <= MAX_OBJECTS {
      right := AddPks(Reverse(outsideLeading), page, pk, prePks, postPks);
    }
    if page > 1 {
      var e := AddPks([page - 1], page, pk, prePks, postPks);
      previous := Some(e[0]);
    }
    if page < pages {
      var e := AddPks([page + 1], page, pk, prePks, postPks);
      next := Some(e[0]);
    }
    assert Anchored([], page, pk, prePks, postPks) == [];
  }

  class Paginator {
    var get: Params
    const varPrefix: string
    const pageVar: string
    const pkVar: string
    const page: int
    const perPage: int
    const maxObjects: int
    const slice: bool
    var objects: Objects
    var rows: seq<int>
    var slicedObjects: Option<seq<int>>
    var pk: int
    var prePks: seq<int>
    var postPks: seq<int>
    var count: int
    var pages: int
    var first: int
    var last: int
    var left: seq<Entry>
    var middle: seq<Entry>
    var right: seq<Entry>
    var previous: Option<Entry>
    var next: Option<Entry>

    /** The parameter names come from the prefix, and a page holds rows. */
    predicate Valid()
      reads this
    {
      pageVar == PageVar(varPrefix) && pkVar == PkVar(varPrefix) && perPage > 0
    }

    /** The constructor's first statements: its own copy of the parameters,
        the objects (through their setter), the page read by the page_var
        setter, and the pk parameter's name. */
    constructor (objects: Objects, get: Params, perPage: int, varPrefix: string, slice: bool, maxObjects: int)
      requires perPage > 0
      ensures Valid() && this.get == get && this.varPrefix == varPrefix && this.perPage == perPage
      ensures this.objects == objects && rows == objects.rows && slicedObjects == None
      ensures this.maxObjects == maxObjects && this.slice == slice
      ensures page == LaterPage(get, PageVar(varPrefix)) && page != 0
    {
      this.get := get;
      this.objects := objects;
      rows := objects.rows;
      slicedObjects := None;
      this.perPage := perPage;
      this.maxObjects := maxObjects;
      this.slice := slice;
      this.varPrefix := varPrefix;
      pageVar := varPrefix + "page";
      page := LaterPage(get, varPrefix + "page");
      pkVar := varPrefix + "pk";
    }

    /** `set_objects`: forgets the cached page and takes the new objects. */
    method SetObjects(objects: Objects)
      modifies this`objects, this`rows, this`slicedObjects
      ensures this.objects == objects && rows == objects.rows && slicedObjects == None
    {
      slicedObjects := None;
      this.objects := objects;
      rows := objects.rows;
    }

    /** `get_objects`: the page's rows (or every row when slicing is off),
        computed once and then served from the cache, even after the offsets
        change. */
    method GetObjects(slice: Option<bool>) returns (result: seq<int>)
      modifies this`slicedObjects
      ensures old(slicedObjects).Some? ==> result == old(slicedObjects).value
      ensures old(slicedObjects).None? ==>
        result == (if (if slice.Some? then slice.value else this.slice) then Slice(rows, first, last) else rows)
      ensures slicedObjects == Some(result)
    {
      if slicedObjects.Some? {
        return slicedObjects.value;
      }
      var doSlice := if slice.Some? then slice.value else this.slice;
      if doSlice {
        slicedObjects := Some(Slice(rows, first, last));
      } else {
        slicedObjects := Some(rows);
      }
      return slicedObjects.value;
    }

    /** `_init_smart_paging`, on the objects as the constructor set them. */
    method InitSmartPaging() returns (outcome: Outcome)
      requires perPage > 0 && rows == objects.rows
      modifies this`pk, this`prePks, this`postPks, this`rows
      ensures var spec := SmartPagingSpec(objects, get, pkVar, page, perPage);
        && (outcome.Pass? <==> spec.Ok?)
        && (spec.Err? ==> outcome == Fail(spec.error))
        && (spec.Ok? ==> pk == spec.value.pk && prePks == spec.value.prePks
                         && postPks == spec.value.postPks && rows == spec.value.rows)
    {
      var r := ReadSmartPaging(objects, get, pkVar, page, perPage);
      if r.Err? {
        return Fail(r.error);
      }
      pk, prePks, postPks, rows := r.value.pk, r.value.prePks, r.value.postPks, r.value.rows;
      return Pass;
    }

    /** The count setter `_set_count`: the count of CountOf, the page count
        as the ceiling of count / perPage, and the offsets. */
    method SetCount(count: Option<int>)
      requires perPage > 0
      modifies this`count, this`pages, this`first, this`last
      ensures this.count == CountOf(objects, rows, count, maxObjects, pk, page, perPage)
      ensures pages == CeilDiv(this.count, perPage)
      ensures (first, last) == Offsets(this.count, pk, page, perPage)
    {
      this.count, pages, first, last := Counted(objects, rows, count, maxObjects, pk, page, perPage);
    }

    /** `_init_paginator`: the window of WindowV2, with every page paired
        with its anchor by `_add_pks`. */
    method InitPaginator()
      modifies this`left, this`middle, this`right, this`previous, this`next
      ensures WindowShown()
    {
      left, middle, right, previous, next := WindowEntries(page, pages, count, pk, prePks, postPks);
    }

    /** `get_link`: updates the paginator's own parameters (so links built
        one after another share them) and returns them; they read back as
        the page linked to and its anchor. */
    method GetLink(page: int, pk: Option<int>) returns (query: Params)
      requires Valid()
      modifies this`get
      ensures PageVar(varPrefix) != PkVar(varPrefix)
      ensures get == Link(old(get), pageVar, pkVar, page, pk) && query == get
      ensures LaterPage(query, pageVar) == (if page == 0 then 1 else page)
      ensures StrictPk(query, pkVar) == Ok(if Truthy(pk) && page != 1 then pk.value else 0)
    {
      VarsDiffer(varPrefix);
      LaterLinkRoundTrip(get, varPrefix, page, pk);
      get := Link(get, pageVar, pkVar, page, pk);
      query := get;
    }

    /** The window fields hold the window of WindowV2 for the current page,
        page count and count, every page paired with its anchor. */
    predicate WindowShown()
      reads this
    {
      var w := WindowV2(page, pages, count);
      && left == Anchored(w.left, page, pk, prePks, postPks)
      && middle == Anchored(w.middle, page, pk, prePks, postPks)
      && right == Anchored(w.right, page, pk, prePks, postPks)
      && previous == AnchoredEntry(w.previous, page, pk, prePks, postPks)
      && next == AnchoredEntry(w.next, page, pk, prePks, postPks)
    }

    /** The paginator holds the arguments it was built from. */
    predicate Holds(objects: Objects, get: Params, perPage: int, varPrefix: string, slice: bool, maxObjects: int)
      reads this
    {
      && this.objects == objects && this.get == get && this.perPage == perPage
      && this.varPrefix == varPrefix && this.slice == slice && this.maxObjects == maxObjects
    }

    /** What the constructor settles before the window. */
    function Settled(): State
      reads this
    {
      State(pk, prePks, postPks, rows, count, first, last)
    }

    /** `__nonzero__` */
    predicate NonZero()
      reads this
    {
      count != 0
    }

    /** The `display_count` property. */
    function Displayed(): (d: Shown)
      reads this
      ensures d.n == count
    {
      DisplayCount(count, maxObjects)
    }
  }

  /** `Paginator(objects, get, per_page, var_prefix, count, slice,
      max_objects)` up to `_init_paginator`: ValueError from a malformed pk,
      or a paginator in the state of LaterSpec with nothing cached yet. */
  method NewSettled(objects: Objects, get: Params, perPage: int, varPrefix: string,
                    count: Option<int>, slice: bool, maxObjects: int)
    returns (r: Result<Paginator>)
    requires perPage > 0
    ensures var spec := LaterSpec(objects, get, varPrefix, perPage, count, maxObjects);
      && (r.Err? <==> spec.Err?)
      && (r.Err? ==> r.error == spec.error)
      && (r.Ok? ==>
            && fresh(r.value) && r.value.Valid()
            && r.value.Holds(objects, get, perPage, varPrefix, slice, maxObjects)
            && r.value.page == LaterPage(get, PageVar(varPrefix))
            && r.value.Settled() == spec.value
            && r.value.pages == CeilDiv(spec.value.count, perPage)
            && r.value.slicedObjects == None)
  {
    var p := new Paginator(objects, get, perPage, varPrefix, slice, maxObjects);
    ghost var smart := SmartPagingSpec(objects, get, PkVar(varPrefix), p.page, perPage);
    var outcome := p.InitSmartPaging();
    if outcome.Fail? {
      LaterStops(objects, get, varPrefix, perPage, count, maxObjects, smart.error);
      return Err(outcome.error);
    }
    LaterOf(objects, get, varPrefix, perPage, count, maxObjects, smart.value);
    p.SetCount(count);
    return Ok(p);
  }

  /** `Paginator(objects, get, per_page, var_prefix, count, slice,
      max_objects)`: ValueError from a malformed pk, or a paginator in the
      state of LaterSpec with the anchored window of WindowV2 and nothing
      cached yet. */
  method NewPaginator(objects: Objects, get: Params, perPage: int, varPrefix: string,
                      count: Option<int>, slice: bool, maxObjects: int)
    returns (r: Result<Paginator>)
    requires perPage > 0
    ensures var spec := LaterSpec(objects, get, varPrefix, perPage, count, maxObjects);
      && (r.Err? <==> spec.Err?)
      && (r.Err? ==> r.error == spec.error)
      && (r.Ok? ==>
            && fresh(r.value) && r.value.Valid()
            && r.value.Holds(objects, get, perPage, varPrefix, slice, maxObjects)
            && r.value.page == LaterPage(get, PageVar(varPrefix))
            && r.value.Settled() == spec.value
            && r.value.pages == CeilDiv(spec.value.count, perPage)
            && r.value.slicedObjects == None
            && r.value.WindowShown())
  {
    r := NewSettled(objects, get, perPage, varPrefix, count, slice, maxObjects);
    if r.Ok? {
      r.value.InitPaginator();
    }
  }
}
