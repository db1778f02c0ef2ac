/** The first `Paginator` class (tcc/templatetags/paginator.py:56-332):
    paginates any sliceable sequence by page number, with an optional count
    supplied by the caller. Items are modelled as ints. */
module PaginatorV1 {
  import opened Outcomes
  import opened PySeq
  import opened RequestCodec
  import opened Window

  /** `_get_sliced_objects`: the page's rows, or nothing when the supplied count is 0. */
  function SlicedObjects(objects: seq<int>, first: int, last: int, count: Option<int>): seq<int>
  {
    if count.None? || count.value != 0 then Slice(objects, first, last) else []
  }

  datatype CountState = CountState(first: int, last: int, sliced: seq<int>, count: int)

  /** init_count: the page's offsets and rows; Http404 for an empty page
      beyond page 1; a short page fixes the count even over a supplied one;
      otherwise the supplied count or the length; offsets clamped to the count. */
  function InitCountSpec(objects: seq<int>, page: int, perPage: int, count: Option<int>): Result<CountState>
  {
    var first := (page - 1) * perPage;
    var last := page * perPage;
    var sliced := SlicedObjects(objects, first, last, count);
    if |sliced| == 0 && page > 1 then Err(Http404(page))
    else
      var c := if |sliced| < perPage then |sliced| + first
               else if count.None? then |objects| else count.value;
      Ok(CountState(Min(first, c), Min(last, c), sliced, c))
  }

  /** A page number from 1 on, with no supplied count of 0, shows the rows at
      offsets (page - 1) * perPage up to page * perPage, clamped to the data;
      the page is refused exactly when it is beyond page 1 and past the data. */
  lemma PageRows(objects: seq<int>, page: int, perPage: int, count: Option<int>)
    requires perPage > 0 && page >= 1 && count != Some(0)
    ensures var first := (page - 1) * perPage;
      && SlicedObjects(objects, first, page * perPage, count) ==
           (if first < |objects| then objects[first..Min(page * perPage, |objects|)] else [])
      && (InitCountSpec(objects, page, perPage, count).Err? <==> page > 1 && first >= |objects|)
      && (InitCountSpec(objects, page, perPage, count).Err? ==>
            InitCountSpec(objects, page, perPage, count).error == Http404(page))
  {
    var first := (page - 1) * perPage;
    var last := page * perPage;
    assert first >= 0 && last == first + perPage by { MulMonotone(0, page - 1, perPage); }
    SlicedRows(objects, first, last, count);
  }

  /** With offsets 0 <= first <= last and no supplied count of 0, the page
      is the rows first..last clamped to the data. */
  lemma SlicedRows(objects: seq<int>, first: int, last: int, count: Option<int>)
    requires 0 <= first <= last && count != Some(0)
    ensures SlicedObjects(objects, first, last, count) ==
              (if first < |objects| then objects[first..Min(last, |objects|)] else [])
  {
    SliceFacts(objects, first, last);
  }

  /** A short, non-empty page from page 1 on gives the exact length of the
      data, whatever count the caller supplied. */
  lemma ShortPageCountIsExact(objects: seq<int>, page: int, perPage: int, count: Option<int>)
    requires perPage > 0 && page >= 1 && count != Some(0)
    requires var s := SlicedObjects(objects, (page - 1) * perPage, page * perPage, count);
      0 < |s| < perPage
    ensures InitCountSpec(objects, page, perPage, count).Ok?
    ensures InitCountSpec(objects, page, perPage, count).value.count == |objects|
  {
    PageRows(objects, page, perPage, count);
  }

  /** An offset k * perPage lies inside the data exactly when k is below the
      page count. */
  lemma OffsetInsideData(n: nat, perPage: int, k: int)
    requires perPage > 0
    ensures k * perPage < n <==> k < CeilDiv(n, perPage)
  {
    var q := CeilDiv(n, perPage);
    if k < q {
      assert k * perPage <= (q - 1) * perPage by { MulMonotone(k, q - 1, perPage); }
    } else {
      assert k * perPage >= q * perPage by { MulMonotone(q, k, perPage); }
    }
  }

  /** Without a supplied count every page that exists reports the length of
      the data as its count, first <= last <= count, and the pages that exist
      are 1 up to ceil(|objects| / perPage) (page 1 always exists). */
  lemma CountWithoutSuppliedCount(objects: seq<int>, page: int, perPage: int)
    requires perPage > 0 && page >= 1
    ensures var r := InitCountSpec(objects, page, perPage, None);
      && (r.Ok? <==> page <= Max(1, CeilDiv(|objects|, perPage)))
      && (r.Ok? ==> r.value.count == |objects| && 0 <= r.value.first <= r.value.last <= r.value.count)
  {
    PageRows(objects, page, perPage, None);
    OffsetInsideData(|objects|, perPage, page - 1);
    var first := (page - 1) * perPage;
    var last := page * perPage;
    assert last == first + perPage;
    var sliced := SlicedObjects(objects, first, last, None);
    if first < |objects| {
      if last <= |objects| {
        assert |sliced| == perPage;
      } else {
        assert |sliced| == |objects| - first;
      }
    }
  }

  /** The rows of pages 1..k laid end to end. */
  function PagesUpTo(objects: seq<int>, perPage: int, k: nat): seq<int>
  {
    if k == 0 then []
    else PagesUpTo(objects, perPage, k - 1) + SlicedObjects(objects, (k - 1) * perPage, k * perPage, None)
  }

  lemma {:induction false} PagesUpToIsPrefix(objects: seq<int>, perPage: int, k: nat)
    requires perPage > 0
    ensures PagesUpTo(objects, perPage, k) == objects[..Min(k * perPage, |objects|)]
  {
    if k > 0 {
      PagesUpToIsPrefix(objects, perPage, k - 1);
      PageRows(objects, k, perPage, None);
      var a, b := Min((k - 1) * perPage, |objects|), Min(k * perPage, |objects|);
      assert objects[..a] + objects[a..b] == objects[..b];
    }
  }

  /** Pages 1 to ceil(|objects| / perPage) together hold every row exactly
      once and in order, and none of them is refused. */
  lemma PagesPartitionObjects(objects: seq<int>, perPage: int)
    requires perPage > 0
    ensures PagesUpTo(objects, perPage, Max(0, CeilDiv(|objects|, perPage))) == objects
    ensures forall p :: 1 <= p <= CeilDiv(|objects|, perPage) ==> InitCountSpec(objects, p, perPage, None).Ok?
  {
    var q := CeilDiv(|objects|, perPage);
    PagesUpToIsPrefix(objects, perPage, q);
    assert objects[..|objects|] == objects;
    forall p | 1 <= p <= q ensures InitCountSpec(objects, p, perPage, None).Ok? {
      CountWithoutSuppliedCount(objects, p, perPage);
    }
  }

  /** Page numbers are not clamped: page 0 is served (nothing is sliced) with
      the count -perPage, which makes the page count -1. */
  lemma PageZeroIsNotClamped(objects: seq<int>, perPage: int)
    requires perPage > 0
    ensures InitCountSpec(objects, 0, perPage, None) == Ok(CountState(-perPage, -perPage, [], -perPage))
    ensures CeilDiv(-perPage, perPage) == -1
  {
  }

  /** Doctest at paginator.py:92-108: 50 objects (0..49), 2 per page, page 10
      shows [18, 19], counts 50 in 25 pages. */
  lemma DoctestPageTen()
    ensures InitCountSpec(Range(0, 50), 10, 2, None) == Ok(CountState(18, 20, [18, 19], 50))
    ensures CeilDiv(50, 2) == 25
  {
    assert Range(0, 50)[18..20] == [18, 19];
  }

  class Paginator {
    var get: Params
    var varPrefix: string
    var pageVar: string
    var page: int
    var pkVar: string
    var pk: int
    var perPage: int
    var objects: seq<int>
    var first: int
    var last: int
    var slicedObjects: seq<int>
    var count: int
    var pages: int
    var left: seq<Entry>
    var middle: seq<Entry>
    var right: seq<Entry>
    var next: Nav
    var previous: Nav

    /** The request codec's invariant: the parameter names come from the prefix. */
    predicate Valid()
      reads this
    {
      pageVar == PageVar(varPrefix) && pkVar == PkVar(varPrefix) && perPage > 0
    }

    /** init_get, init_per_page and init_objects (the logger is not modelled). */
    constructor (objects: seq<int>, get: Params, perPage: int, varPrefix: string)
      requires perPage > 0
      ensures Valid()
      ensures this.get == get && this.varPrefix == varPrefix
      ensures page == ToInt(Lookup(get, PageVar(varPrefix)), 1, false)
      ensures pk == ToInt(Lookup(get, PkVar(varPrefix)), 0, false)
      ensures this.perPage == perPage && this.objects == objects
    {
      this.get := get;
      this.varPrefix := varPrefix;
      pageVar := varPrefix + "page";
      page := ToInt(Lookup(get, varPrefix + "page"), 1, false);
      pkVar := varPrefix + "pk";
      pk := ToInt(Lookup(get, varPrefix + "pk"), 0, false);
      this.perPage := perPage;
      this.objects := objects;
    }

    /** init_count: on success the offsets, rows and count are those of
        InitCountSpec; on Http404 only the offsets and rows were assigned. */
    method InitCount(count: Option<int>) returns (outcome: Outcome)
      requires Valid()
      modifies this`first, this`last, this`slicedObjects, this`count
      ensures var spec := InitCountSpec(objects, page, perPage, count);
        && (outcome.Pass? <==> spec.Ok?)
        && slicedObjects == SlicedObjects(objects, (page - 1) * perPage, page * perPage, count)
        && (spec.Err? ==> outcome == Fail(spec.error) && this.count == old(this.count))
        && (spec.Ok? ==> first == spec.value.first && last == spec.value.last && this.count == spec.value.count)
    {
      first := (page - 1) * perPage;
      last := page * perPage;
      slicedObjects := SlicedObjects(objects, first, last, count);
      if |slicedObjects| == 0 && page > 1 {
        return Fail(Http404(page));
      }
      var c: int;
      if |slicedObjects| < perPage {
        c := |slicedObjects| + first;
      } else if count.None? {
        c := |objects|;
      } else {
        c := count.value;
      }
      first := Min(first, c);
      last := Min(last, c);
      this.count := c;
      return Pass;
    }

    /** init_pages: the ceiling of count / perPage. */
    method InitPages()
      requires Valid()
      modifies this`pages
      ensures pages == CeilDiv(count, perPage)
      ensures pages * perPage >= count && (pages - 1) * perPage < count
    {
      pages := CeilDiv(count, perPage);
    }

    /** init_links: the window of WindowV1, every page paired with no anchor;
        right is never filled. */
    method InitLinks()
      modifies this`left, this`middle, this`right, this`next, this`previous
      ensures WindowShown()
    {
      var w := WindowV1(page, pages);
      left := Unanchored(w.left);
      middle := Unanchored(w.middle);
      right := [];
      previous := NavOf(w.previous);
      next := NavOf(w.next);
    }

    /** The paginator holds the arguments it was built from. */
    predicate Holds(get: Params, varPrefix: string, perPage: int, objects: seq<int>)
      reads this
    {
      this.get == get && this.varPrefix == varPrefix && this.perPage == perPage && this.objects == objects
    }

    /** The offsets, rows and count hold the state `init_count` settled. */
    predicate CountShown(state: CountState)
      reads this
    {
      first == state.first && last == state.last && slicedObjects == state.sliced && count == state.count
    }

    /** The window fields hold the window of WindowV1 for the current page and
        page count, every page paired with no anchor; right is never filled. */
    predicate WindowShown()
      reads this
    {
      var w := WindowV1(page, pages);
      && left == Unanchored(w.left) && middle == Unanchored(w.middle) && right == []
      && previous == NavOf(w.previous) && next == NavOf(w.next)
    }

    /** `__nonzero__` */
    predicate NonZero()
      reads this
    {
      count != 0
    }

    /** get_link on a copy of the request's parameters: the object is not changed. */
    method GetLink(page: int, pk: Option<int>) returns (query: Params)
      requires Valid()
      ensures PageVar(varPrefix) != PkVar(varPrefix)
      ensures query == Link(get, PageVar(varPrefix), PkVar(varPrefix), page, pk)
      ensures ToInt(Lookup(query, pageVar), 1, false) == page
    {
      VarsDiffer(varPrefix);
      LinkRoundTrip(get, varPrefix, page, pk);
      query := Link(get, pageVar, pkVar, page, pk);
    }
  }

  /** `Paginator(objects, get, per_page, var_prefix, count)` up to
      init_links: Http404, or the state of InitCountSpec and its page count. */
  method NewCounted(objects: seq<int>, get: Params, perPage: int, varPrefix: string, count: Option<int>)
    returns (r: Result<Paginator>)
    requires perPage > 0
    ensures var page := ToInt(Lookup(get, PageVar(varPrefix)), 1, false);
      var spec := InitCountSpec(objects, page, perPage, count);
      && (r.Err? <==> spec.Err?)
      && (r.Err? ==> r.error == Http404(page))
      && (r.Ok? ==>
            && fresh(r.value) && r.value.Valid() && r.value.page == page
            && r.value.Holds(get, varPrefix, perPage, objects)
            && r.value.CountShown(spec.value)
            && r.value.pages == CeilDiv(spec.value.count, perPage))
  {
    var p := new Paginator(objects, get, perPage, varPrefix);
    ghost var spec := InitCountSpec(objects, p.page, perPage, count);
    var outcome := p.InitCount(count);
    if outcome.Fail? {
      return Err(outcome.error);
    }
    assert p.CountShown(spec.value);
    p.InitPages();
    return Ok(p);
  }

  /** `Paginator(objects, get, per_page, var_prefix, count)`: the whole
      constructor, Http404 included: the state of InitCountSpec, its page
      count and the window of WindowV1 with both neighbours. */
  method NewPaginator(objects: seq<int>, get: Params, perPage: int, varPrefix: string, count: Option<int>)
    returns (r: Result<Paginator>)
    requires perPage > 0
    ensures var page := ToInt(Lookup(get, PageVar(varPrefix)), 1, false);
      var spec := InitCountSpec(objects, page, perPage, count);
      && (r.Err? <==> spec.Err?)
      && (r.Err? ==> r.error == Http404(page))
      && (r.Ok? ==>
            && fresh(r.value) && r.value.Valid() && r.value.page == page
            && r.value.Holds(get, varPrefix, perPage, objects)
            && r.value.CountShown(spec.value)
            && r.value.pages == CeilDiv(spec.value.count, perPage)
            && r.value.WindowShown())
  {
    r := NewCounted(objects, get, perPage, varPrefix, count);
    if r.Ok? {
      r.value.InitLinks();
    }
  }
}
