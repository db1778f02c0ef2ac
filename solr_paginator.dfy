/** SolrPaginator (tcc/templatetags/paginator.py:339-374): the first
    Paginator with a count capped at `max_count` and read from the length of
    the search results. It inherits init_get, init_pages and init_links; the
    model holds the inherited state in a first-class Paginator and replaces
    only init_count. A `max_count` of False or None is 0 here. */
module SolrPaging {
  import opened Outcomes
  import opened PySeq
  import opened RequestCodec
  import opened Window
  import opened PaginatorV1

  /** SolrPaginator.init_count: Http404 for an empty page beyond page 1 and
      for a page starting past max_count; the count is the length, capped at
      max_count when one is set; offsets clamped to the count. */
  function SolrCountSpec(objects: seq<int>, page: int, perPage: int, count: Option<int>, maxCount: int)
    : Result<CountState>
  {
    var first := (page - 1) * perPage;
    var last := page * perPage;
    var sliced := SlicedObjects(objects, first, last, count);
    if |sliced| == 0 && page > 1 then Err(Http404(page))
    else if maxCount != 0 && first > maxCount then Err(Http404(page))
    else
      var c := if maxCount != 0 then Min(maxCount, |objects|) else |objects|;
      Ok(CountState(Min(first, c), Min(last, c), sliced, c))
  }

  /** The count never exceeds a positive max_count and equals it whenever the
      results reach it (500 results with max_count 100 report 100); a
      supplied count is ignored; a page starting past max_count is refused. */
  lemma SolrCountIsCapped(objects: seq<int>, page: int, perPage: int, count: Option<int>, maxCount: int)
    requires perPage > 0 && maxCount > 0
    ensures var r := SolrCountSpec(objects, page, perPage, count, maxCount);
      && ((page - 1) * perPage > maxCount ==> r.Err?)
      && (r.Ok? ==> r.value.count <= maxCount && r.value.count <= |objects|)
      && (r.Ok? && |objects| >= maxCount ==> r.value.count == maxCount)
      && (r.Ok? ==> r.value.first <= r.value.last <= r.value.count)
  {
    var first := (page - 1) * perPage;
    assert page * perPage == first + perPage;
  }

  class SolrPaginator {
    const base: Paginator

    constructor (objects: seq<int>, get: Params, perPage: int, varPrefix: string)
      requires perPage > 0
      ensures fresh(base) && base.Valid()
      ensures base.get == get && base.varPrefix == varPrefix && base.perPage == perPage && base.objects == objects
      ensures base.page == ToInt(Lookup(get, PageVar(varPrefix)), 1, false)
      ensures base.pk == ToInt(Lookup(get, PkVar(varPrefix)), 0, false)
    {
      base := new Paginator(objects, get, perPage, varPrefix);
    }

    /** SolrPaginator.init_count */
    method InitCount(count: Option<int>, maxCount: int) returns (outcome: Outcome)
      requires base.Valid()
      modifies base`first, base`last, base`slicedObjects, base`count
      ensures var spec := SolrCountSpec(base.objects, base.page, base.perPage, count, maxCount);
        && (outcome.Pass? <==> spec.Ok?)
        && (spec.Err? ==> outcome == Fail(spec.error) && base.count == old(base.count))
        && (spec.Ok? ==>
              && base.first == spec.value.first && base.last == spec.value.last
              && base.slicedObjects == spec.value.sliced && base.count == spec.value.count)
    {
      base.first := (base.page - 1) * base.perPage;
      base.last := base.page * base.perPage;
      base.slicedObjects := SlicedObjects(base.objects, base.first, base.last, count);
      if |base.slicedObjects| == 0 && base.page > 1 {
        return Fail(Http404(base.page));
      }
      if maxCount != 0 && base.first > maxCount {
        return Fail(Http404(base.page));
      }
      var c := |base.objects|;
      if maxCount != 0 {
        c := Min(maxCount, c);
      }
      base.first := Min(base.first, c);
      base.last := Min(base.last, c);
      base.count := c;
      return Pass;
    }
  }

  /** `SolrPaginator(objects, get, per_page, var_prefix, count, max_count)`
      up to init_links: Http404, or the state of SolrCountSpec and its page
      count. */
  method NewSolrCounted(objects: seq<int>, get: Params, perPage: int, varPrefix: string,
                        count: Option<int>, maxCount: int)
    returns (r: Result<SolrPaginator>)
    requires perPage > 0
    ensures var page := ToInt(Lookup(get, PageVar(varPrefix)), 1, false);
      var spec := SolrCountSpec(objects, page, perPage, count, maxCount);
      && (r.Err? <==> spec.Err?)
      && (r.Err? ==> r.error == Http404(page))
      && (r.Ok? ==>
            && fresh(r.value) && fresh(r.value.base)
            && r.value.base.Valid() && r.value.base.page == page
            && r.value.base.Holds(get, varPrefix, perPage, objects)
            && r.value.base.CountShown(spec.value)
            && r.value.base.pages == CeilDiv(spec.value.count, perPage))
  {
    var p := new SolrPaginator(objects, get, perPage, varPrefix);
    ghost var spec := SolrCountSpec(objects, p.base.page, perPage, count, maxCount);
    var outcome := p.InitCount(count, maxCount);
    if outcome.Fail? {
      return Err(outcome.error);
    }
    assert p.base.CountShown(spec.value);
    p.base.InitPages();
    return Ok(p);
  }

  /** `SolrPaginator(objects, get, per_page, var_prefix, count, max_count)`:
      Http404, or the state of SolrCountSpec, its page count and the window
      of WindowV1 with both neighbours. */
  method NewSolrPaginator(objects: seq<int>, get: Params, perPage: int, varPrefix: string,
                          count: Option<int>, maxCount: int)
    returns (r: Result<SolrPaginator>)
    requires perPage > 0
    ensures var page := ToInt(Lookup(get, PageVar(varPrefix)), 1, false);
      var spec := SolrCountSpec(objects, page, perPage, count, maxCount);
      && (r.Err? <==> spec.Err?)
      && (r.Err? ==> r.error == Http404(page))
      && (r.Ok? ==>
            && fresh(r.value) && fresh(r.value.base)
            && r.value.base.Valid() && r.value.base.page == page
            && r.value.base.Holds(get, varPrefix, perPage, objects)
            && r.value.base.CountShown(spec.value)
            && r.value.base.pages == CeilDiv(spec.value.count, perPage)
            && r.value.base.WindowShown())
  {
    r := NewSolrCounted(objects, get, perPage, varPrefix, count, maxCount);
    if r.Ok? {
      r.value.base.InitLinks();
    }
  }
}
