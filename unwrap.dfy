/** Unwrapping a wrapped queryset (QuerySetPaginator.init_objects): follow
    the `.queryset` attribute until a node has none or points at itself, and
    give up with RuntimeError once MAX_QUERYSET_RECURSION dereferences have
    been made. Querysets are nodes of a graph; `links[n]` is the node n's
    `.queryset` attribute points at, absent when n has no such attribute;
    node equality is Python's `is`. */
module Unwrap {
  import opened Outcomes

  const MAX_QUERYSET_RECURSION: nat := 10

  type Links = map<nat, nat>

  /** `getattr(qs, 'queryset', qs) is qs`: the end of the chain. */
  predicate Terminal(links: Links, n: nat)
  {
    n !in links || links[n] == n
  }

  /** The node reached after at most k dereferences (the walk stops at the end). */
  function Walk(links: Links, n: nat, k: nat): nat
    decreases k
  {
    if k == 0 || Terminal(links, n) then n else Walk(links, links[n], k - 1)
  }

  lemma {:induction false} WalkStep(links: Links, n: nat, k: nat)
    requires !Terminal(links, Walk(links, n, k))
    ensures Walk(links, n, k + 1) == links[Walk(links, n, k)]
    decreases k
  {
    if k > 0 && !Terminal(links, n) {
      WalkStep(links, links[n], k - 1);
    }
  }

  /** Once the walk reaches the end of the chain it stays there. */
  lemma {:induction false} WalkStaysAtEnd(links: Links, n: nat, i: nat, k: nat)
    requires i <= k && Terminal(links, Walk(links, n, i))
    ensures Walk(links, n, k) == Walk(links, n, i)
    decreases i
  {
    if i > 0 && !Terminal(links, n) {
      WalkStaysAtEnd(links, links[n], i - 1, k - 1);
    }
  }

  /** The unwrap loop: the result is the end of the chain when it lies within
      MAX_QUERYSET_RECURSION - 1 dereferences, RuntimeError otherwise (the
      tenth dereference raises even if it reaches the end). */
  method UnwrapQuerySet(links: Links, objects: nat) returns (r: Result<nat>)
    ensures r.Ok? <==> Terminal(links, Walk(links, objects, MAX_QUERYSET_RECURSION - 1))
    ensures r.Ok? ==> r.value == Walk(links, objects, MAX_QUERYSET_RECURSION - 1)
    ensures r.Err? ==> r.error == RuntimeError
  {
    var raw := objects;
    var i: nat := 0;
    while !Terminal(links, raw)
      invariant i < MAX_QUERYSET_RECURSION
      invariant raw == Walk(links, objects, i)
      invariant forall j :: 0 <= j < i ==> !Terminal(links, Walk(links, objects, j))
      decreases MAX_QUERYSET_RECURSION - i
    {
      WalkStep(links, objects, i);
      raw := links[raw];
      i := i + 1;
      if i == MAX_QUERYSET_RECURSION {
        assert !Terminal(links, Walk(links, objects, i - 1));
        return Err(RuntimeError);
      }
    }
    WalkStaysAtEnd(links, objects, i, MAX_QUERYSET_RECURSION - 1);
    return Ok(raw);
  }

  /** A chain whose end is k <= 9 dereferences away unwraps to that end. */
  lemma ShortChainUnwraps(links: Links, objects: nat, k: nat)
    requires k < MAX_QUERYSET_RECURSION && Terminal(links, Walk(links, objects, k))
    ensures Terminal(links, Walk(links, objects, MAX_QUERYSET_RECURSION - 1))
    ensures Walk(links, objects, MAX_QUERYSET_RECURSION - 1) == Walk(links, objects, k)
  {
    WalkStaysAtEnd(links, objects, k, MAX_QUERYSET_RECURSION - 1);
  }

  /** Two wrappers pointing at each other never reach an end: the unwrap
      loop raises instead of looping forever. */
  lemma {:induction false} TwoCycleNeverEnds(links: Links, a: nat, b: nat, k: nat)
    requires a != b && a in links && b in links && links[a] == b && links[b] == a
    ensures Walk(links, a, k) in {a, b} && Walk(links, b, k) in {a, b}
    ensures !Terminal(links, Walk(links, a, k))
  {
    if k > 0 {
      TwoCycleNeverEnds(links, a, b, k - 1);
      assert Walk(links, a, k) == Walk(links, b, k - 1);
      assert Walk(links, b, k) == Walk(links, a, k - 1);
    }
  }
}
