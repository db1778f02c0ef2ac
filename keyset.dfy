/** Keyset (pk-anchor) navigation over an ordered collection of unique keys:
    the filters the ORM applies (`key__gte`, `key__lte`), the anchors read
    at a per-page stride, and `_add_pks`, which attaches those anchors to
    displayed page numbers. A collection is the sequence of its keys in the
    queryset's order; `desc` says the order is descending (`order_by('-pk')`). */
module Keyset {
  import opened Outcomes
  import opened PySeq
  import opened Window

  /** `filter(pk__gte=pk)`: the keys at or above pk, in order. */
  function KeepGte(s: seq<int>, pk: int): (r: seq<int>)
    ensures |r| <= |s|
    ensures forall i :: 0 <= i < |r| ==> r[i] >= pk && r[i] in s
  {
    if |s| == 0 then [] else (if s[0] >= pk then [s[0]] else []) + KeepGte(s[1..], pk)
  }

  /** `filter(pk__lte=pk)`: the keys at or below pk, in order. */
  function KeepLte(s: seq<int>, pk: int): (r: seq<int>)
    ensures |r| <= |s|
    ensures forall i :: 0 <= i < |r| ==> r[i] <= pk && r[i] in s
  {
    if |s| == 0 then [] else (if s[0] <= pk then [s[0]] else []) + KeepLte(s[1..], pk)
  }

  /** The filters drop no key that passes their test: with the contracts
      of KeepGte and KeepLte, each keeps exactly the passing keys, whatever
      the order of the input. */
  lemma {:induction false} KeepComplete(s: seq<int>, pk: int)
    ensures forall i :: 0 <= i < |s| && s[i] >= pk ==> s[i] in KeepGte(s, pk)
    ensures forall i :: 0 <= i < |s| && s[i] <= pk ==> s[i] in KeepLte(s, pk)
  {
    if |s| > 0 {
      KeepComplete(s[1..], pk);
      forall i | 1 <= i < |s|
        ensures s[i] == s[1..][i - 1]
      {
      }
    }
  }

  /** The rows from the anchor on, in the collection's order. */
  function AtOrAfter(view: seq<int>, desc: bool, pk: int): seq<int>
  {
    if desc then KeepLte(view, pk) else KeepGte(view, pk)
  }

  /** The rows up to the anchor, read backwards (the reverse ordering). */
  function BeforeReversed(view: seq<int>, desc: bool, pk: int): seq<int>
  {
    Reverse(UpTo(view, desc, pk))
  }

  /** Key x comes strictly before key y in the collection's order. */
  predicate Precedes(x: int, y: int, desc: bool)
  {
    if desc then x > y else x < y
  }

  /** Strictly increasing keys (ascending order) or strictly decreasing ones. */
  predicate Ordered(view: seq<int>, desc: bool)
  {
    forall i, j {:trigger Precedes(view[i], view[j], desc)} :: 0 <= i < j < |view| ==> Precedes(view[i], view[j], desc)
  }

  lemma {:induction false} KeepGteConcat(a: seq<int>, b: seq<int>, pk: int)
    ensures KeepGte(a + b, pk) == KeepGte(a, pk) + KeepGte(b, pk)
  {
    if |a| > 0 {
      assert (a + b)[1..] == a[1..] + b;
      KeepGteConcat(a[1..], b, pk);
    } else {
      assert a + b == b;
    }
  }

  lemma {:induction false} KeepLteConcat(a: seq<int>, b: seq<int>, pk: int)
    ensures KeepLte(a + b, pk) == KeepLte(a, pk) + KeepLte(b, pk)
  {
    if |a| > 0 {
      assert (a + b)[1..] == a[1..] + b;
      KeepLteConcat(a[1..], b, pk);
    } else {
      assert a + b == b;
    }
  }

  /** In an ordered collection the rows from an anchor on form a suffix,
      starting at the first row that is not before the anchor. */
  lemma {:induction false} AtOrAfterIsSuffix(view: seq<int>, desc: bool, pk: int) returns (i: nat)
    requires Ordered(view, desc)
    ensures i <= |view| && AtOrAfter(view, desc, pk) == view[i..]
    ensures forall j :: 0 <= j < i ==> if desc then view[j] > pk else view[j] < pk
    ensures i < |view| ==> if desc then view[i] <= pk else view[i] >= pk
  {
    if |view| == 0 {
      i := 0;
    } else if (if desc then view[0] <= pk else view[0] >= pk) {
      i := 0;
      AllFollowFirst(view, desc, pk);
    } else {
      var k := AtOrAfterIsSuffix(view[1..], desc, pk);
      i := k + 1;
      assert view[1..][k..] == view[i..];
    }
  }

  /** Once the first row is at or after the anchor, so are all rows. */
  lemma {:induction false} AllFollowFirst(view: seq<int>, desc: bool, pk: int)
    requires Ordered(view, desc) && |view| > 0
    requires if desc then view[0] <= pk else view[0] >= pk
    ensures AtOrAfter(view, desc, pk) == view
  {
    if |view| > 1 {
      assert Precedes(view[0], view[1], desc);
      AllFollowFirst(view[1..], desc, pk);
    }
    assert view == [view[0]] + view[1..];
  }

  /** Anchoring at a row of an ordered collection shows the collection from
      that row on: the page a link's anchor opens starts exactly there. */
  lemma AnchorOpensSuffix(view: seq<int>, desc: bool, j: int)
    requires Ordered(view, desc) && 0 <= j < |view|
    ensures AtOrAfter(view, desc, view[j]) == view[j..]
  {
    assert forall k :: 0 <= k < j ==> Precedes(view[k], view[j], desc);
    var i := AtOrAfterIsSuffix(view, desc, view[j]);
  }

  /** The rows up to the anchor (in the collection's order). */
  function UpTo(view: seq<int>, desc: bool, pk: int): seq<int>
  {
    if desc then KeepGte(view, pk) else KeepLte(view, pk)
  }

  /** When the first row is strictly after the anchor, so are all rows. */
  lemma {:induction false} NoneUpTo(view: seq<int>, desc: bool, pk: int)
    requires Ordered(view, desc) && |view| > 0
    requires if desc then view[0] < pk else view[0] > pk
    ensures UpTo(view, desc, pk) == []
  {
    if |view| > 1 {
      assert Precedes(view[0], view[1], desc);
      NoneUpTo(view[1..], desc, pk);
    }
  }

  /** In an ordered collection the rows up to an anchor form a prefix. */
  lemma {:induction false} UpToIsPrefix(view: seq<int>, desc: bool, pk: int) returns (m: nat)
    requires Ordered(view, desc)
    ensures m <= |view| && UpTo(view, desc, pk) == view[..m]
    ensures forall j :: m <= j < |view| ==> if desc then view[j] < pk else view[j] > pk
    ensures m > 0 ==> if desc then view[m - 1] >= pk else view[m - 1] <= pk
  {
    if |view| == 0 {
      m := 0;
    } else if (if desc then view[0] >= pk else view[0] <= pk) {
      var k := UpToIsPrefix(view[1..], desc, pk);
      m := k + 1;
      assert view[..m] == [view[0]] + view[1..][..k];
      forall j | m <= j < |view| ensures if desc then view[j] < pk else view[j] > pk {
        assert view[j] == view[1..][j - 1];
      }
      if k == 0 {
        assert view[m - 1] == view[0];
      } else {
        assert view[m - 1] == view[1..][k - 1];
      }
    } else {
      m := 0;
      NoneUpTo(view, desc, pk);
      forall j | 0 <= j < |view| ensures if desc then view[j] < pk else view[j] > pk {
        if j > 0 { assert Precedes(view[0], view[j], desc); }
      }
    }
  }

  /** Read backwards from the row at index i, the rows up to the anchor are
      view[i], view[i - 1], ..., view[0]. */
  lemma PrecedingRowsReversed(view: seq<int>, desc: bool, i: int)
    requires Ordered(view, desc) && 0 <= i < |view|
    ensures BeforeReversed(view, desc, view[i]) == Reverse(view[..i + 1])
  {
    assert forall k :: i < k < |view| ==> Precedes(view[i], view[k], desc);
    var m := UpToIsPrefix(view, desc, view[i]);
    assert m == i + 1;
  }

  /** Keyset stability: a row inserted before the anchor, anywhere in the
      collection, leaves the rows from the anchor on unchanged. */
  lemma InsertBeforeAnchorKeepsRows(a: seq<int>, b: seq<int>, x: int, desc: bool, pk: int)
    requires if desc then x > pk else x < pk
    ensures AtOrAfter(a + [x] + b, desc, pk) == AtOrAfter(a + b, desc, pk)
  {
    AtOrAfterConcat(a + [x], b, desc, pk);
    AtOrAfterConcat(a, [x], desc, pk);
    AtOrAfterConcat(a, b, desc, pk);
    assert AtOrAfter([x], desc, pk) == [] by {
      assert [x][1..] == [];
    }
    assert AtOrAfter(a, desc, pk) + [] == AtOrAfter(a, desc, pk);
  }

  lemma AtOrAfterConcat(a: seq<int>, b: seq<int>, desc: bool, pk: int)
    ensures AtOrAfter(a + b, desc, pk) == AtOrAfter(a, desc, pk) + AtOrAfter(b, desc, pk)
  {
    if desc {
      KeepLteConcat(a, b, pk);
    } else {
      KeepGteConcat(a, b, pk);
    }
  }

  /** Offset drift, for contrast: the same row inserted before an offset page
      shifts that page's rows by one. */
  lemma InsertBeforeOffsetShifts(a: seq<int>, b: seq<int>, x: int, first: int, last: int)
    requires |a| < first <= last <= |a| + |b|
    ensures Slice(a + [x] + b, first, last) == Slice(a + b, first - 1, last - 1)
  {
    var s, t := a + [x] + b, a + b;
    assert s[first..last] == t[first - 1..last - 1];
  }

  /** The anchor `_add_pks` attaches to page q when the current page is
      `page`: the current anchor itself, a following anchor or a preceding
      one by distance, None past the end of those lists (the IndexError), and
      None everywhere when the current anchor is false. */
  function AnchorFor(q: int, page: int, pk: int, pre: seq<int>, post: seq<int>): Option<int>
  {
    if pk == 0 then None
    else
      var delta := q - page;
      if delta > 0 then (if delta - 1 < |post| then Some(post[delta - 1]) else None)
      else if delta < 0 then (if -delta - 1 < |pre| then Some(pre[-delta - 1]) else None)
      else Some(pk)
  }

  /** Page numbers paired with their anchors. */
  function Anchored(pages: seq<int>, page: int, pk: int, pre: seq<int>, post: seq<int>): (r: seq<Entry>)
    ensures |r| == |pages|
    ensures forall i :: 0 <= i < |pages| ==> r[i] == Entry(pages[i], AnchorFor(pages[i], page, pk, pre, post))
  {
    seq(|pages|, i requires 0 <= i < |pages| => Entry(pages[i], AnchorFor(pages[i], page, pk, pre, post)))
  }

  /** A neighbour link after `_add_pks`: a true page number gets its anchor,
      the bare 0 stays as it is. */
  function AnchoredNav(n: Option<int>, page: int, pk: int, pre: seq<int>, post: seq<int>): Nav
  {
    match n
    case None => NoNav
    case Some(p) => if p == 0 then BareZero else NavTo(Entry(p, AnchorFor(p, page, pk, pre, post)))
  }

  /** `_add_pks`: pairs each displayed page number with its anchor, rewriting
      a fresh list entry by entry. */
  method AddPks(pages: seq<int>, page: int, pk: int, pre: seq<int>, post: seq<int>) returns (entries: seq<Entry>)
    ensures entries == Anchored(pages, page, pk, pre, post)
  {
    var a := new Entry[|pages|](i => Entry(if 0 <= i < |pages| then pages[i] else 0, None));
    if pk != 0 {
      for i := 0 to a.Length
        invariant forall j :: 0 <= j < i ==> a[j] == Entry(pages[j], AnchorFor(pages[j], page, pk, pre, post))
        invariant forall j :: i <= j < a.Length ==> a[j].page == pages[j]
      {
        var q := a[i].page;
        var delta := q - page;
        var anchor: Option<int> := None;
        if delta > 0 {
          if delta - 1 < |post| {
            anchor := Some(post[delta - 1]);
          }
        } else if delta < 0 {
          if -delta - 1 < |pre| {
            anchor := Some(pre[-delta - 1]);
          }
        } else {
          anchor := Some(pk);
        }
        a[i] := Entry(q, anchor);
      }
    }
    entries := a[..];
  }

  /** Following anchors read from the rows `fwd` that start at the current
      page, at a stride of perPage: page + k is anchored at fwd[k * perPage],
      the first row k pages further on. */
  lemma FollowingAnchors(fwd: seq<int>, perPage: nat, limit: int, page: int, k: int, pre: seq<int>)
    requires perPage > 0
    requires |Stride(fwd, 0, limit, perPage)| > 0 && fwd[0] != 0
    requires 1 <= k < |Stride(fwd, 0, limit, perPage)|
    ensures k * perPage < |fwd|
    ensures AnchorFor(page + k, page, Stride(fwd, 0, limit, perPage)[0], pre,
                      Stride(fwd, 0, limit, perPage)[1..]) == Some(fwd[k * perPage])
  {
    StrideAt(fwd, 0, limit, perPage);
  }

  /** Preceding anchors read from the rows `back` before the current page
      in reverse order, skipping the current page's perPage rows: page - k is
      anchored at back[k * perPage], the first row of the page k pages back. */
  lemma PrecedingAnchors(back: seq<int>, perPage: nat, limit: int, page: int, pk: int, k: int, post: seq<int>)
    requires perPage > 0 && pk != 0
    requires 1 <= k <= |Stride(back, perPage, limit, perPage)|
    ensures k * perPage < |back|
    ensures AnchorFor(page - k, page, pk, Stride(back, perPage, limit, perPage), post) == Some(back[k * perPage])
  {
    StrideAt(back, perPage, limit, perPage);
    assert Bound(perPage, |back|) + (k - 1) * perPage < Bound(limit, |back|);
    assert perPage + (k - 1) * perPage == k * perPage;
  }

  /** How many following anchors a full page reads from the rows `fwd`
      that start at it, with room for `trail` following pages: the first is
      the current anchor, then at most `trail` more, stopping short of that
      only at the end of the rows. */
  lemma FollowingAnchorCount(fwd: seq<int>, perPage: nat, trail: int)
    requires perPage > 0 && trail >= 0 && |fwd| > 0
    ensures var post0 := Stride(fwd, 0, trail * perPage + 1, perPage);
      && |post0| > 0 && post0[0] == fwd[0]
      && |post0| - 1 <= trail
      && (|post0| - 1 < trail ==> |post0| * perPage >= |fwd|)
  {
    var limit := trail * perPage + 1;
    var n := |Stride(fwd, 0, limit, perPage)|;
    StrideAt(fwd, 0, limit, perPage);
    assert 0 < n by {
      assert Bound(0, |fwd|) + 0 * perPage < Bound(limit, |fwd|);
    }
    assert (n - 1) * perPage < limit;
    assert n - 1 <= trail by {
      StepsBelow(n - 1, trail, perPage);
    }
    if n - 1 < trail {
      assert n * perPage < limit by { StepsBelow(n, trail, perPage); }
    }
  }

  /** How many preceding anchors a page reads from the rows `back` before
      it in reverse order, with room for `lead` preceding pages: at most
      `lead`, stopping short of that only at the start of the rows. */
  lemma PrecedingAnchorCount(back: seq<int>, perPage: nat, lead: int)
    requires perPage > 0 && lead > 0
    ensures var pre := Stride(back, perPage, lead * perPage + 1, perPage);
      && |pre| <= lead
      && (|pre| < lead ==> (|pre| + 1) * perPage >= |back|)
  {
    var limit := lead * perPage + 1;
    var n := |Stride(back, perPage, limit, perPage)|;
    var lo, hi := Bound(perPage, |back|), Bound(limit, |back|);
    assert n > 0 ==> lo + (n - 1) * perPage < hi by {
      StrideAt(back, perPage, limit, perPage);
    }
    assert !(lo + n * perPage < hi) by {
      StrideAt(back, perPage, limit, perPage);
    }
    if n > 0 {
      MulMonotone(0, n - 1, perPage);
      assert perPage + (n - 1) * perPage == n * perPage;
      assert n <= lead by { StepsBelow(n, lead, perPage); }
    }
    if n < lead {
      assert (n + 1) * perPage == perPage + n * perPage;
      MulMonotone(0, n, perPage);
      assert (n + 1) * perPage < limit by { StepsBelow(n + 1, lead, perPage); }
    }
  }
}
