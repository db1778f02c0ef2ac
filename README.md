# django-tcc core in Dafny

This is a model of the core of django-tcc, a threaded-comments application for Django, together with proofs about it. The model covers three parts.

- **The paginators of `tcc/templatetags/paginator.py`.**
  - The first `Paginator` class pages any sliceable sequence by page number.
  - `SolrPaginator` caps the count at `max_count`.
  - `QuerySetPaginator` unwraps wrapped querysets and decides the count.
  - `SmartQuerySetPaginator` pages by primary-key anchor (keyset paging) when the ordering field is unique.
  - The later `Paginator` class, which rebinds the name, anchors pages at primary keys, caps the count at `max_objects` and never refuses a page.
  - All of them share the request codec (`to_int`, the `page`/`pk` parameters, `get_link`), the page-window calculators and `_add_pks`.
- **The comment tree of `tcc/models.py`.** A comment's `path` is the base 36 ids of its ancestors and of itself. Each id is zero-padded to `STEPLEN` characters. Depth, root and parent paths are read back from it. The model also covers the reply cap of `clean`, `reply_allowed` and `set_limit`.
- **Small string rules of `tcc/utils.py`.** These are the URL whitelist `is_acceptable`, the `trim_url` lambda of `urlize` and `admin_callback`.

Modules:

| module | file | contents |
|---|---|---|
| `Outcomes` | outcomes.dfy | `Option`, `Result`, `Outcome` and the exceptions the code raises (`Http404`, `RuntimeError`, `ValueError`, `ValidationError`, …) |
| `PySeq` | pyseq.dfy | Python slices (negative bounds, clamping, extended slices with a step), `range`, reversal, exact ceiling division |
| `Decimal` | decimal.dfy | Python 2 `int()` on ASCII strings and `str()` on integers, and the first digit run `re.search('(\d+)')` finds |
| `RequestCodec` | request_codec.dfy | `to_int`, the parameter names, `get_link`, the later class's page and pk parsing |
| `Window` | window.dfy | the two page-window calculators (`init_links`, `_init_paginator`) as functions |
| `Keyset` | keyset.dfy | pk filters over ordered keys, anchors, `_add_pks` |
| `Unwrap` | unwrap.dfy | the wrapped-queryset loop of `QuerySetPaginator.init_objects` |
| `PaginatorV1` | paginator_v1.dfy | the first `Paginator` class |
| `SolrPaging` | solr_paginator.dfy | `SolrPaginator` |
| `QuerySetPaging` | queryset_paginator.dfy | `QuerySetPaginator`'s count decision and `SmartQuerySetPaginator` |
| `PaginatorV2` | paginator_v2.dfy | the later `Paginator` class |
| `Base36` | base36.dfy | Django's `int_to_base36` / `base36_to_int` and `str.zfill` |
| `Comments` | comments.dfy | the `Comment` model's path, depth, root, parents, limit and checks |
| `UrlUtils` | utils.dfy | `is_acceptable`, `trim_url`, `admin_callback` |

Modelling choices:

- **Values.**
  - Rows are represented by their primary keys, in the order the objects yield them.
  - A queryset is the sequence of its keys together with its ordering.
  - Python's `None` for the current pk is 0, since both are false and the value is only used when it is true.
- **Classes.**
  - The paginators are classes whose methods assign their fields in the order the constructors call the `init_*` methods.
  - Each class has a module-level method that builds it as the Python constructor does, errors included.
  - `SolrPaginator` and `SmartQuerySetPaginator` keep the inherited state in a first-class `Paginator` (`base`) and replace `init_count` and `init_links`.
- **Specifications.** Each paginator step is specified by a function (`InitCountSpec`, `SolrCountSpec`, `SmartCountSpec`, `LaterSpec`, `WindowV1`, `WindowV2`, …). The lemmas say what those functions mean for the keys being paged.
- **Where the documentation and the code disagree, the model follows the code.**
  - `to_int(..., regexp=True)` takes the first (leftmost) run of digits, because `groups()[-1]` is the only group of `(\d+)`. It does not take the last digit group.
  - The docstring examples of the first class (paginator.py:92-118) show a right-hand cluster and a trailing window. The code of `init_links` computes neither. `init_links` sets `right` to `[]` (paginator.py:226) and never assigns it again, and the trailing branch (paginator.py:270-277) is commented out. `WindowExamples` states the values the code gives.
  - With fewer than `REPLY_LIMIT` replies, `set_limit` takes the newest reply's date (models.py:195). So only the newest reply is dated at or after the limit.

## Model

| member | source | states |
|---|---|---|
| PySeq.Bound | tcc/templatetags/paginator.py:184 | a slice bound counts from the end when negative and is clamped to 0..len |
| PySeq.SliceFacts | tcc/templatetags/paginator.py:184 | `s[a:b]` is the Dafny subsequence for in-range bounds and empty when the bounds cross or start past the end |
| PySeq.StrideAt | tcc/templatetags/paginator.py:540-544 | element i of `s[a:b:step]` is the element at the resolved start plus i·step, and every such index below the resolved end is present |
| PySeq.Range | tcc/templatetags/paginator.py:684 | `range(lo, hi)` is the max(0, hi−lo) consecutive integers from lo |
| PySeq.CeilDiv | tcc/templatetags/paginator.py:218 | `ceil(count / per_page)` is the least q with q·per_page ≥ count; it is 0 for count 0 and positive for positive count |
| Decimal.ParseIntToString | tcc/templatetags/paginator.py:43-48 | `int(str(i)) == i` for every integer, negative ones included |
| Decimal.NoDigitNoInt | tcc/templatetags/paginator.py:43-50 | a string without a digit never parses, so `to_int` falls back to its default |
| Decimal.FirstDigitRunIsLeftmost | tcc/templatetags/paginator.py:44-47 | the run of digits `re.search('(\d+)')` captures exists iff the input has a digit; it starts at the first digit and is maximal |
| Decimal.ParseInt | tcc/templatetags/paginator.py:48 | Python 2's `int()` on an ASCII string: an optional sign, decimal digits, white space around them and after the sign; None where `int()` raises ValueError (properties in ParseIntToString, SpaceAfterSign, NoDigitNoInt) |
| Decimal.SpaceAfterSign | tcc/templatetags/paginator.py:48 | white space between the sign and the digits is skipped: `int('- 5')` is −5 |
| RequestCodec.ToInt | tcc/templatetags/paginator.py:19-50 | `to_int`: the default for a missing or unparsable input, otherwise its value; with `regexp=True` the first digit run is parsed (properties in ToIntFallsBack, ToIntDecimal, ToIntDigitSearch) |
| RequestCodec.VarsDiffer | tcc/templatetags/paginator.py:165-171 | the page and pk parameter names differ whatever the prefix |
| RequestCodec.ToIntFallsBack | tcc/templatetags/paginator.py:43-50 | a missing parameter, or one without a digit, gives the default (page 1, pk 0) |
| RequestCodec.ToIntDecimal | tcc/templatetags/paginator.py:43-50 | any decimal integer, "0" and negatives included, passes through unclamped |
| RequestCodec.ToIntDigitSearch | tcc/templatetags/paginator.py:34-47 | with `regexp=True` the value is the first maximal digit run of the input |
| RequestCodec.Link | tcc/templatetags/paginator.py:322-332 | the link's parameters hold the page and hold the pk iff it is true and the page is not 1; every other parameter is unchanged |
| RequestCodec.LinkRoundTrip | tcc/templatetags/paginator.py:165-171 | a link of the first class reads back as its page and its anchor (0 where the anchor was dropped) |
| RequestCodec.StrictPk | tcc/templatetags/paginator.py:798 | the later class reads a missing pk as 0 and fails with ValueError exactly when the pk does not parse |
| RequestCodec.LaterPage | tcc/templatetags/paginator.py:770-780 | the later class's page is never 0, and it is 1 when the parameter is missing |
| RequestCodec.LaterLinkRoundTrip | tcc/templatetags/paginator.py:750-780 | a link of the later class reads back as its page (0 as 1) and its anchor |
| Window.WindowV1 | tcc/templatetags/paginator.py:220-311 | the first class's window: left, middle, right and both neighbours for a page and page count (properties in WindowV1Shape, Neighbours) |
| Window.WindowV2 | tcc/templatetags/paginator.py:672-748 | the later class's window, which also depends on the count (properties in WindowV2Shape, WindowV2Middle, WindowV2Clusters) |
| Window.Unanchored | tcc/templatetags/paginator.py:303-305 | `add_fake_pk` pairs every page with None, keeping order and length |
| Window.NavOf | tcc/templatetags/paginator.py:307-311 | a neighbour is wrapped as (page, None) when true, and a bare 0 stays a bare 0 |
| Window.Neighbours | tcc/templatetags/paginator.py:297-301 | previous exists iff page > 1 and next exists iff page < pages |
| Window.WindowV1Shape | tcc/templatetags/paginator.py:220-311 | the first class's middle cluster is consecutive inside 1..pages, holds the current page when it is in range, and has at most 8 pages; left is [] or [1]; right is always [] |
| Window.WindowV2Shape | tcc/templatetags/paginator.py:672-748 | the later class's clusters are consecutive runs inside 1..pages, ordered left before middle before right, and the middle holds the current page |
| Window.WindowV2Middle | tcc/templatetags/paginator.py:682-706 | the later middle cluster in each of the four branches, the trailing branch included |
| Window.WindowV2Clusters | tcc/templatetags/paginator.py:736-742 | left is [1] outside the leading range; right is [pages] only outside the trailing range and while count ≤ MAX_OBJECTS |
| Window.WindowsAgreeOutsideTrailing | tcc/templatetags/paginator.py:682-710 | outside the trailing range both calculators give the same left and middle clusters |
| Window.WindowExamples | tcc/templatetags/paginator.py:92-118 | the docstring's 50-object, 2-per-page windows as the code computes them |
| Keyset.KeepGte | tcc/templatetags/paginator.py:479-492 | `pk__gte` keeps only keys of the input at or above the anchor, and (KeepComplete) every such key |
| Keyset.KeepLte | tcc/templatetags/paginator.py:479-492 | `pk__lte` keeps only keys of the input at or below the anchor, and (KeepComplete) every such key |
| Keyset.KeepComplete | tcc/templatetags/paginator.py:479-492 | neither filter drops a key that passes its test, whatever the order of the input |
| Keyset.AtOrAfterIsSuffix | tcc/templatetags/paginator.py:485-492 | in ordered keys, the rows from an anchor on are the suffix starting at the first row not before it |
| Keyset.AnchorOpensSuffix | tcc/templatetags/paginator.py:807-816 | anchoring at the key of row j shows the keys from row j on |
| Keyset.UpToIsPrefix | tcc/templatetags/paginator.py:549-554 | the rows up to an anchor form a prefix, ending at the last row not after it |
| Keyset.PrecedingRowsReversed | tcc/templatetags/paginator.py:549-554 | read backwards from row i, the rows up to its key are rows i, i−1, …, 0 |
| Keyset.InsertBeforeAnchorKeepsRows | tcc/templatetags/paginator.py:479-492 | a row inserted before the anchor leaves the anchored rows unchanged |
| Keyset.InsertBeforeOffsetShifts | tcc/templatetags/paginator.py:184 | by contrast, the same insertion shifts an offset page by one row |
| Keyset.AnchorFor | tcc/templatetags/paginator.py:584-605 | the anchor of page q: the current pk for the page itself, post_pks[q−page−1] after it, pre_pks[page−q−1] before it, None past those lists or when the current pk is false (properties in FollowingAnchors, PrecedingAnchors) |
| Keyset.Anchored | tcc/templatetags/paginator.py:584-605 | every displayed page is paired with its anchor, keeping order and length |
| Keyset.AddPks | tcc/templatetags/paginator.py:712-734 | the `_add_pks` loop builds exactly the anchored entries: the current pk for the page itself, post_pks[q−page−1] after it, pre_pks[page−q−1] before it, None when out of range |
| Keyset.FollowingAnchors | tcc/templatetags/paginator.py:540-544 | page+k is anchored at the row k·per_page after the current page's first row |
| Keyset.PrecedingAnchors | tcc/templatetags/paginator.py:549-554 | page−k is anchored at the row k·per_page back from the anchor |
| Keyset.FollowingAnchorCount | tcc/templatetags/paginator.py:520-544 | a full page reads its first row plus at most `trail` following anchors, and as many as the rows allow |
| Keyset.PrecedingAnchorCount | tcc/templatetags/paginator.py:520-556 | at most `lead` preceding anchors are read, and as many as the rows allow |
| Unwrap.UnwrapQuerySet | tcc/templatetags/paginator.py:385-396 | the loop returns the end of the `.queryset` chain when it lies within 9 dereferences, and RuntimeError otherwise |
| Unwrap.ShortChainUnwraps | tcc/templatetags/paginator.py:385-393 | a chain whose end is k ≤ 9 steps away unwraps to that end |
| Unwrap.TwoCycleNeverEnds | tcc/templatetags/paginator.py:385-393 | two wrappers pointing at each other never reach an end, so the loop raises instead of looping forever |
| PaginatorV1.SlicedObjects | tcc/templatetags/paginator.py:180-188 | `_get_sliced_objects`: the rows first..last, or none when the supplied count is 0 (properties in PageRows) |
| PaginatorV1.InitCountSpec | tcc/templatetags/paginator.py:190-215 | the first class's `init_count`: offsets, rows and count, or Http404 (properties in PageRows, CountWithoutSuppliedCount, PagesPartitionObjects) |
| PaginatorV1.PageRows | tcc/templatetags/paginator.py:190-199 | from page 1 on, the page shows the per_page rows from (page−1)·per_page, clamped to the data |
| PaginatorV1.ShortPageCountIsExact | tcc/templatetags/paginator.py:204-205 | a short non-empty page fixes the count at the true length, even over a supplied count |
| PaginatorV1.OffsetInsideData | tcc/templatetags/paginator.py:217-218 | offset k·per_page lies inside the data iff k is below the page count |
| PaginatorV1.CountWithoutSuppliedCount | tcc/templatetags/paginator.py:201-209 | without a supplied count, a page exists iff it is page 1 or starts inside the data, and then the count is the length |
| PaginatorV1.PagesUpToIsPrefix | tcc/templatetags/paginator.py:190-192 | the rows of pages 1..k laid end to end are the first k·per_page rows |
| PaginatorV1.PagesPartitionObjects | tcc/templatetags/paginator.py:190-218 | pages 1..ceil(n/per_page) all exist and together hold every row exactly once, in order |
| PaginatorV1.PageZeroIsNotClamped | tcc/templatetags/paginator.py:190-215 | page 0 is served with negative offsets, no rows and count −per_page |
| PaginatorV1.DoctestPageTen | tcc/templatetags/paginator.py:92-108 | range(50), 2 per page, page 10 gives rows [18, 19], count 50 and 25 pages |
| PaginatorV1.Paginator.constructor | tcc/templatetags/paginator.py:165-177 | the page and pk are read from the prefixed parameters, with defaults 1 and 0 |
| PaginatorV1.Paginator.InitCount | tcc/templatetags/paginator.py:190-215 | on success the offsets, rows and count are those of the count specification; on Http404 the offsets and rows have been assigned and only the count is left untouched |
| PaginatorV1.Paginator.InitPages | tcc/templatetags/paginator.py:217-218 | pages is the exact ceiling of count / per_page |
| PaginatorV1.Paginator.InitLinks | tcc/templatetags/paginator.py:220-311 | the window fields hold WindowV1 with every page unanchored |
| PaginatorV1.Paginator.NonZero | tcc/templatetags/paginator.py:316-317 | `__nonzero__`: the paginator is true iff its count is not 0 |
| PaginatorV1.Paginator.GetLink | tcc/templatetags/paginator.py:322-332 | a link is built on a copy, and it reads back as its page |
| PaginatorV1.NewCounted | tcc/templatetags/paginator.py:148-155 | the constructor up to the page count: Http404 exactly when InitCountSpec fails; otherwise the paginator holds its get, var_prefix, per_page and objects (`Holds`), InitCountSpec's offsets, rows and count (`CountShown`) and their page count |
| PaginatorV1.NewPaginator | tcc/templatetags/paginator.py:148-156 | construction fails with Http404 exactly when InitCountSpec does; otherwise the offsets, rows and count are InitCountSpec's, pages is their ceiling, and the window fields hold WindowV1 unanchored with both neighbours; it holds its get, var_prefix, per_page and objects (`Holds`, `CountShown`, `WindowShown`) |
| SolrPaging.SolrCountSpec | tcc/templatetags/paginator.py:351-374 | `SolrPaginator.init_count`: both Http404 tests, the count capped at max_count, offsets clamped (properties in SolrCountIsCapped) |
| SolrPaging.SolrCountIsCapped | tcc/templatetags/paginator.py:364-374 | the count never exceeds a positive max_count and equals it whenever there are more rows; a page starting past max_count is Http404 |
| SolrPaging.SolrPaginator.constructor | tcc/templatetags/paginator.py:340-346 | the inherited request state is read as in the first class |
| SolrPaging.SolrPaginator.InitCount | tcc/templatetags/paginator.py:351-374 | the count step follows SolrCountSpec, errors included |
| SolrPaging.NewSolrCounted | tcc/templatetags/paginator.py:340-348 | the constructor up to the page count: Http404 exactly when SolrCountSpec fails; otherwise its base holds its get, var_prefix, per_page and objects, SolrCountSpec's offsets, rows and count, and their page count |
| SolrPaging.NewSolrPaginator | tcc/templatetags/paginator.py:340-349 | construction fails with Http404 exactly when SolrCountSpec does; otherwise the offsets, rows and count are SolrCountSpec's, pages is their ceiling, and the window fields hold WindowV1 unanchored with both neighbours; its base holds its get, var_prefix, per_page and objects |
| QuerySetPaging.QuerySetCountSpec | tcc/templatetags/paginator.py:398-430 | `QuerySetPaginator.init_count`, the stale emptiness test included (properties in QuerySetCountMeaning, QuerySetStaleEmptinessTest) |
| QuerySetPaging.SmartCountSpec | tcc/templatetags/paginator.py:450-579 | `SmartQuerySetPaginator.init_count`: AssertionError, Http404, or offsets, rows, count, anchors and cap (properties in SmartNeedsUniqueOrdering, SmartAnchoredSlice, SmartKeysetPage, SmartAnchoredPageIsStable) |
| QuerySetPaging.QuerySetCountMeaning | tcc/templatetags/paginator.py:412-430 | without a supplied count, Http404 iff a page beyond 1 starts past the data; otherwise the count is exact when the data fits under max_count, and lies between the cap and the length when it does not |
| QuerySetPaging.QuerySetStaleEmptinessTest | tcc/templatetags/paginator.py:398-410 | the emptiness test reads the rows left from before, so an empty page can pass and the first call fails with AttributeError |
| QuerySetPaging.TrailPages | tcc/templatetags/paginator.py:520-527 | at least 2 following pages are anchored: 2 after page 8, else max(2, 8−page) |
| QuerySetPaging.SmartNeedsUniqueOrdering | tcc/templatetags/paginator.py:470-476 | a non-unique ordering without a count or (optional) max count is refused with AssertionError, a unique one never is; the optional max count replaces max_count for a non-unique ordering, and a capped count is min(cap, rows) |
| QuerySetPaging.SmartAnchoredSlice | tcc/templatetags/paginator.py:450-499 | with an anchor, the page is the first per_page keys at or after it, whatever the page number |
| QuerySetPaging.AnchoredRows | tcc/templatetags/paginator.py:479-499 | the first per_page keys from the key of row j are rows j..j+per_page |
| QuerySetPaging.AnchoredPageShowsRows | tcc/templatetags/paginator.py:450-502 | an anchor at a row of the data shows the rows from that row on |
| QuerySetPaging.SmartKeysetPage | tcc/templatetags/paginator.py:519-572 | a full keyset page at row i gets current pk view[i], strided following anchors and estimated count (following+page)·per_page |
| QuerySetPaging.KeysetAnchorsAtRow | tcc/templatetags/paginator.py:519-565 | the keyset branch at row i, with the first following read becoming the current pk |
| QuerySetPaging.FollowingAroundRow | tcc/templatetags/paginator.py:540-565 | a following page q is anchored at row i+(q−page)·per_page |
| QuerySetPaging.PrecedingFromReversed | tcc/templatetags/paginator.py:546-556 | the preceding anchors read backwards from row i anchor page q at row i−(page−q)·per_page |
| QuerySetPaging.PrecedingAroundRow | tcc/templatetags/paginator.py:546-556 | the same for the `pk__lte` rows in reverse order |
| QuerySetPaging.KeysetAnchorsAroundRow | tcc/templatetags/paginator.py:519-565 | a full page anchored at row i has both its preceding and following anchors at the first rows of the pages they link to |
| QuerySetPaging.SmartAnchoredPageIsStable | tcc/templatetags/paginator.py:479-499 | a row added before the anchor leaves the anchored page unchanged |
| QuerySetPaging.SmartWithoutAnchorReadsPrecedingForwards | tcc/templatetags/paginator.py:557-560 | without a request pk, pre_pks is split off the forward reads in ascending order: on page 4 of keys 1..50 (2 per page) the link to page 3 carries key 1, page 1's first row, instead of 5 |
| QuerySetPaging.KeysetBranch | tcc/templatetags/paginator.py:519-572 | the statement-by-statement keyset branch computes KeysetAnchors |
| QuerySetPaging.SmartQuerySetPaginator.constructor | tcc/templatetags/paginator.py:438-444 | the inherited request state is read as in the first class, with no objects |
| QuerySetPaging.SmartQuerySetPaginator.InitObjects | tcc/templatetags/paginator.py:377-396 | the raw queryset is the end of the unwrap chain, or RuntimeError |
| QuerySetPaging.SmartQuerySetPaginator.InitCount | tcc/templatetags/paginator.py:450-579 | offsets, rows, anchors and count are those of SmartCountSpec, errors included |
| QuerySetPaging.SmartQuerySetPaginator.InitLinks | tcc/templatetags/paginator.py:581-620 | the first class's window with every page anchored by `_add_pks`, and the neighbours anchored alike |
| QuerySetPaging.NewSmartCounted | tcc/templatetags/paginator.py:438-447 | the constructor up to the page count: RuntimeError, AssertionError or Http404 exactly as the unwrap and SmartCountSpec fail; otherwise it holds its get, var_prefix, per_page and the queryset as given (`Holds`), offsets, rows, count, anchors and cap are SmartCountSpec's (`CountShown`) and pages is their ceiling |
| QuerySetPaging.NewSmartQuerySetPaginator | tcc/templatetags/paginator.py:438-448 | the whole constructor: the errors of NewSmartCounted, or its state with left, middle, previous and next of WindowV1 anchored by `_add_pks` and right [] (`WindowShown`) |
| PaginatorV2.SmartPagingSpec | tcc/templatetags/paginator.py:784-847 | `_init_smart_paging`: no anchors for a list or another ordering; else the request pk (ValueError when malformed) or the offset row, with the reads around it (properties in SmartFromRow, OffsetAnchorOfPage, LaterFailsOnlyOnMalformedPk) |
| PaginatorV2.CountOf | tcc/templatetags/paginator.py:852-870 | the count `_set_count` settles (properties in CountSources, AnchoredCount) |
| PaginatorV2.Offsets | tcc/templatetags/paginator.py:874-880 | the page's first and last offsets, clamped to the count (properties in OffsetsInOrder) |
| PaginatorV2.DisplayCount | tcc/templatetags/paginator.py:884-889 | what `display_count` shows (properties in DisplayCountMeaning, DisplayCountExample) |
| PaginatorV2.LaterSpec | tcc/templatetags/paginator.py:629-645 | the later constructor up to the window: smart paging, then count and offsets (properties in LaterOf, LaterStops, LaterFailsOnlyOnMalformedPk) |
| PaginatorV2.LaterOf | tcc/templatetags/paginator.py:629-645 | once the smart paging is known, the constructor settles the count of CountOf and the offsets |
| PaginatorV2.LaterStops | tcc/templatetags/paginator.py:798 | a failed pk parse stops the constructor with that error |
| PaginatorV2.LaterFailsOnlyOnMalformedPk | tcc/templatetags/paginator.py:798 | the later class never raises Http404; it fails only with ValueError, for a queryset ordered by key with a malformed pk |
| PaginatorV2.PostStride | tcc/templatetags/paginator.py:830-845 | the forward reads hold the anchor row and at most POST_PAGES−1 following anchors, fewer only when the rows run out |
| PaginatorV2.PostStrideAt | tcc/templatetags/paginator.py:835-845 | page+k is anchored at fwd[k·per_page] |
| PaginatorV2.SmartReadForward | tcc/templatetags/paginator.py:835-845 | the current pk is the first forward row, and each following page is anchored at its first row |
| PaginatorV2.PreStride | tcc/templatetags/paginator.py:819-828 | the backward reads skip the current page and hold at most PRE_PAGES−1 anchors, fewer only when the rows run out |
| PaginatorV2.PreStrideAnchors | tcc/templatetags/paginator.py:819-828 | each preceding page is anchored at its first row counted backwards |
| PaginatorV2.SmartReadBackward | tcc/templatetags/paginator.py:819-828 | the preceding anchors of the reads mean the first rows of the preceding pages |
| PaginatorV2.SmartFromRow | tcc/templatetags/paginator.py:807-847 | smart paging at the key of row i of an ordered queryset anchors every linked page at its first row |
| PaginatorV2.OffsetAnchorOfPage | tcc/templatetags/paginator.py:800-805 | without a request pk, page p anchors at row (p−1)·per_page, or 0 past the end |
| PaginatorV2.NegativePageCountsFromEnd | tcc/templatetags/paginator.py:801-805 | over a Python list of keys, a negative page anchors at a row counted from the end; Django's querysets refuse negative indices instead, so this describes the list abstraction only |
| PaginatorV2.AnchorKeepsRow | tcc/templatetags/paginator.py:807-847 | the anchored rows start at the anchor row |
| PaginatorV2.AnchoredCount | tcc/templatetags/paginator.py:852-880 | an anchored page's count adds (page−1)·per_page to the capped count of the rows from the anchor, and its offsets are 0 and min(per_page, count) |
| PaginatorV2.AnchoredPageRows | tcc/templatetags/paginator.py:847-880 | a page anchored at row i shows the per_page rows from row i |
| PaginatorV2.RequestPagingAt | tcc/templatetags/paginator.py:797-847 | a request anchored by pk, or by offset without one, pages from that row |
| PaginatorV2.OffsetPageAgrees | tcc/templatetags/paginator.py:798-880 | without a request pk, keyset paging of page p shows the same rows as offset paging |
| PaginatorV2.AnchoredRequestRows | tcc/templatetags/paginator.py:798-880 | a request anchored at the key of row j shows the per_page rows from row j |
| PaginatorV2.AnchorOfPage | tcc/templatetags/paginator.py:712-730 | every page linked with an anchor is anchored at the first row of that page |
| PaginatorV2.LinkOpensRow | tcc/templatetags/paginator.py:750-757 | a link to page q ≠ 1 anchored at row j opens at row j |
| PaginatorV2.AnchoredLinkOpensRows | tcc/templatetags/paginator.py:712-757 | following an anchored link shows exactly the rows of the page it names |
| PaginatorV2.CountSources | tcc/templatetags/paginator.py:852-870 | a list's count is its length; a queryset's is capped at max_objects; a true supplied count is kept; a pk adds the preceding pages |
| PaginatorV2.DisplayCountMeaning | tcc/templatetags/paginator.py:884-889 | "+" is shown exactly when the capped count reaches max_objects |
| PaginatorV2.DisplayCountExample | tcc/templatetags/paginator.py:884-889 | 500 rows with max_objects 100 show "100+"; 40 rows show "40" |
| PaginatorV2.OffsetsInOrder | tcc/templatetags/paginator.py:874-880 | from page 1 on, 0 ≤ first ≤ last ≤ count |
| PaginatorV2.ReadSmartPaging | tcc/templatetags/paginator.py:784-847 | the body of `_init_smart_paging` computes SmartPagingSpec, ValueError included |
| PaginatorV2.Counted | tcc/templatetags/paginator.py:852-880 | the body of `_set_count` computes CountOf, the page count and the offsets |
| PaginatorV2.PageClusters | tcc/templatetags/paginator.py:679-710 | the branches of `_init_paginator` compute the page numbers of WindowV2 |
| PaginatorV2.WindowEntries | tcc/templatetags/paginator.py:712-748 | the clusters pass through `_add_pks`: the window's entries, anchored |
| PaginatorV2.Paginator.constructor | tcc/templatetags/paginator.py:629-640 | its own copy of the parameters; the page is read through the page_var setter and is never 0 |
| PaginatorV2.Paginator.SetObjects | tcc/templatetags/paginator.py:664-668 | the cached page is forgotten and the new objects are taken |
| PaginatorV2.Paginator.GetObjects | tcc/templatetags/paginator.py:650-662 | the cached page when present, else rows first..last (or all rows without slicing), then cached |
| PaginatorV2.Paginator.InitSmartPaging | tcc/templatetags/paginator.py:784-847 | the anchors are those of SmartPagingSpec, or its error |
| PaginatorV2.Paginator.SetCount | tcc/templatetags/paginator.py:852-880 | count, pages and offsets are those of CountOf, CeilDiv and Offsets |
| PaginatorV2.Paginator.InitPaginator | tcc/templatetags/paginator.py:672-748 | the window fields hold WindowV2 for the current page, anchored |
| PaginatorV2.Paginator.GetLink | tcc/templatetags/paginator.py:750-757 | the paginator's own parameters are updated, and the link reads back as its page and pk |
| PaginatorV2.Paginator.NonZero | tcc/templatetags/paginator.py:647-648 | `__nonzero__`: the paginator is true iff its count is not 0 |
| PaginatorV2.Paginator.Displayed | tcc/templatetags/paginator.py:884-889 | `display_count` shows the count, with "+" iff it equals max_objects |
| PaginatorV2.NewSettled | tcc/templatetags/paginator.py:629-643 | the constructor up to the count fails iff LaterSpec does, and otherwise holds its objects, get, per_page, var_prefix, slice and max_objects (`Holds`) and settles LaterSpec's state |
| PaginatorV2.NewPaginator | tcc/templatetags/paginator.py:629-645 | the whole constructor: ValueError iff LaterSpec fails; otherwise the stored objects, get, per_page, var_prefix, slice and max_objects (`Holds`), LaterSpec's state and WindowV2's anchored window |
| Base36.Decode | tcc/models.py:114-115 | `base36_to_int`: ValueError unless the text is a non-empty run of base 36 digits (properties in DecodeEncode, EncodeDecode) |
| Base36.Encode | tcc/models.py:225-226 | `int_to_base36` yields non-empty base 36 digits without a leading zero |
| Base36.DecodeEncode | tcc/models.py:114-118 | `base36_to_int(int_to_base36(n)) == n` |
| Base36.EncodeDecode | tcc/models.py:117-118 | `int_to_base36(base36_to_int(s)) == s` for canonical s |
| Base36.EncodeLength | tcc/models.py:244-247 | a value below 36^k has at most k digits |
| Base36.ZFill | tcc/models.py:244-247 | `zfill` pads to the width and never truncates |
| Base36.PaddedRoundTrip | tcc/models.py:244-247 | a zero-padded id is exactly `width` long and reads back as the id |
| Comments.Chunk | tcc/models.py:244-247 | a path step is STEPLEN long and decodes to the comment's id |
| Comments.Depth | tcc/models.py:200-201 | `get_depth`: steps in the path less one (properties in PathDepth, ReplyPath) |
| Comments.RootPath | tcc/models.py:108-109 | `get_root_path`: the first STEPLEN characters (properties in PathStartsAtRoot) |
| Comments.RootId | tcc/models.py:114-115 | `get_root_id`: the root path read as base 36 (properties in RootFromPath) |
| Comments.RootBase36 | tcc/models.py:117-118 | `get_root_base36`: the root id written back in base 36 (properties in RootFromPath) |
| Comments.PathDepth | tcc/models.py:200-201 | a path of k steps is k·STEPLEN long and has depth k−1: a root has depth 0 and each reply level adds 1 |
| Comments.ReplyPath | tcc/models.py:244-249 | a reply's path is its parent's path plus its own step, one level deeper |
| Comments.PathStartsAtRoot | tcc/models.py:108-109 | the root path of any comment is its root's step |
| Comments.RootFromPath | tcc/models.py:108-118 | `get_root_id` and `get_root_base36` recover the root's id and its unpadded base 36 id |
| Comments.ConcatChunks | tcc/models.py:144-152 | the parent paths laid end to end are the path |
| Comments.ChunksOfPath | tcc/models.py:144-152 | the parent paths are the steps of the ancestors and of the comment itself, root first, each of depth 0 |
| Comments.LimitShowsNewest | tcc/models.py:188-198 | with replies newest first, those dated at or after the limit are the REPLY_LIMIT newest, or only the newest when there are fewer |
| Comments.Comment.GetBase36 | tcc/models.py:225-226 | for a saved comment (an id, not None), the id in canonical base 36, which reads back as the id |
| Comments.Comment.SetPath | tcc/models.py:228-251 | for a saved comment, the path is the parent's path (none for a root) plus the padded id step, and the depth is read from it |
| Comments.Comment.GetParents | tcc/models.py:144-152 | the STEPLEN-long pieces of the path, whose concatenation is the path, or nothing without a parent |
| Comments.Comment.SetLimit | tcc/models.py:188-198 | childcount is the reply count; the limit is the newest date below REPLY_LIMIT replies, the REPLY_LIMIT-th otherwise, and unchanged with none |
| Comments.Comment.ReplyAllowed | tcc/models.py:203-205 | `reply_allowed`: open, under MAX_REPLIES replies and at a depth below MAX_DEPTH − 1 (properties in ReplyFitsPathColumn, Clean) |
| Comments.Comment.Clean | tcc/models.py:101-106 | a new reply to a parent with MAX_REPLIES replies, or markup-only text, is ValidationError; under a parent that allows replies only the text can fail |
| Comments.ReplyFitsPathColumn | tcc/models.py:203-205 | a reply allowed under a comment fits the MAX_DEPTH·STEPLEN path column |
| UrlUtils.Prepended | tcc/utils.py:17-23 | with force_prepend every entry compared starts with http:// or https://; the entry is kept at its end |
| UrlUtils.Acceptable | tcc/utils.py:17-26 | some entry of the whitelist, as compared, is a prefix of the url (properties in VerbatimWithoutPrepend, PrependedAcceptsOnlyHttp, BareHostAcceptsHttp) |
| UrlUtils.IsAcceptable | tcc/utils.py:17-26 | true iff some entry, as compared, is a prefix of the url; an empty list gives false |
| UrlUtils.VerbatimWithoutPrepend | tcc/utils.py:17-26 | without force_prepend the entries are compared verbatim |
| UrlUtils.PrependedAcceptsOnlyHttp | tcc/utils.py:17-26 | with force_prepend only http and https urls are accepted |
| UrlUtils.BareHostAcceptsHttp | tcc/utils.py:17-26 | an entry without a scheme accepts the http url it names |
| UrlUtils.TrimUrl | tcc/utils.py:47 | without a limit, or within it, the text is kept |
| UrlUtils.TrimmedLength | tcc/utils.py:47 | a trimmed text is a prefix of the text plus "...", max(limit, 3) long |
| UrlUtils.AdminCallback | tcc/utils.py:139-142 | the content object is returned iff the action is "remove" and the object is a user; otherwise nothing |

## Left out

- The ORM is abstracted. Querysets are sequences of keys, and `count()`, `filter`, `values_list` and `order_by` are sequence operations. Only the ordering field's uniqueness and direction are kept. Database I/O, `save()`, `delete()`, `has_changed` and the `get_replies`/`get_thread` filters are not modelled. `set_limit` takes the reply dates newest first, as the database returns them.
- Django's refusal of negative queryset indices is not modelled. Slices follow Python list semantics throughout.
- Decimal.ParseInt: ASCII only. It accepts ASCII digits, an optional sign, and ASCII white space around the number and after the sign. The Unicode decimal digits and Unicode white space that Python 2's `int()` also accepts in a `unicode` GET value (`int(u'\u0663')` is 3) give None here, so `to_int` returns its default and `StrictPk` gives ValueError for them.
- RequestCodec.ToInt: only `regexp=None` and `regexp=True` are modelled, with the default `exception` tuple, because those are the only forms the paginators call. The string and compiled-pattern forms of `regexp`, the TypeError for any other `regexp` value, and a caller-supplied `exception` argument are not modelled.
- Logging (`init_logger`, `debug`), `urlencode` and the `'?'` prefix of links are not modelled. Links are modelled as their parameter maps, with values written in decimal.
- The `__main__` doctest runner and the `register` calls are not modelled.
- `math.ceil(float(...))` is modelled as exact integer ceiling division. Floating-point rounding for huge counts is not modelled.
- `per_page` is required to be positive, because the source divides by it. Python's `int()` conversion in the `results_per_page` setter is not modelled.
- `QuerySetPaginator`'s own constructor path is not modelled, because it is broken in the source. `init_count` reads `sliced_objects` before assigning it, and the inherited `__init__` passes one argument to a two-argument `init_count`. Its count decision is modelled as `QuerySetCountSpec` on its own. The Smart class overrides `init_count` (paginator.py:450) and uses `SmartCountSpec`.
- `SmartQuerySetPaginator.get_count`'s assert and `get_objects` are not modelled beyond the fields they read.
- `set_objects` only models the objects passed in. The `.queryset` attribute of a wrapped object is the same sequence of keys here.
- The later class's properties `results_per_page` and `page_var` are constants. Python allows reassigning them later, and the `page_var` setter would then re-read the page.
- A unique non-pk ordering field of `SmartQuerySetPaginator` is treated like the primary key, because keys stand for the ordering field's values.
- Python 2 integer quirks (`long`, `sys.maxint`) are not modelled. Neither are Django's limits on `base36_to_int` (13 characters, `sys.maxint`) or `int(s, 36)` accepting upper case, a sign and surrounding whitespace. `Base36.Decode` accepts lower-case digits only.
- Comment ids must be below 36^STEPLEN, because `zfill` pads but never truncates. A larger id would give a path step longer than STEPLEN. `GetBase36` and `SetPath` also require a saved comment (an id above 0). An unsaved comment's id is None, on which `int_to_base36` raises, and the model does not represent that error.
- `striptags` is foreign HTML stripping. `Clean` takes its verdict ("nothing left after stripping") as a parameter. The two ValidationError messages are not distinguished.
- `get_enabled_users`, `get_absolute_url`, `get_thread`, `get_replies`, `__unicode__` and the comment managers are not modelled. The managers are not part of the source shown.
- `get_replies` returns nothing for a parent at depth MAX_DEPTH − 1. That case reaches `set_limit` only as zero replies and is not modelled separately.
- Submit dates are integers.
- `urlize`, `iconify`, `process_comment` and the rest of `tcc/utils.py` are not modelled. They depend on Django's regexes, the URL resolver, bleach and `linebreaks`. `urlize` also refers to names that are never defined.
- The views, URL routing, JavaScript and settings introspection (`tcc/views.py`, `tcc/urls.py`, `tcc/static`, `tcc/settings.py:21-39`) are not modelled. Only the defaults STEPLEN=6, MAX_DEPTH=2, REPLY_LIMIT=3 and MAX_REPLIES=50 (tcc/settings.py:6-9) are used, as constants.
- `ADMIN_CALLBACK`'s dispatch through `get_callable` is not modelled. `AdminCallback` models the default callback itself, with users identified by id.
