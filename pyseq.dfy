/** Python's sequence and integer idioms the paginators rely on: slices (with
    negative and out-of-range bounds), extended slices with a positive step,
    `range`, and `int(math.ceil(float(a) / b))`. */
module PySeq {

  function Min(a: int, b: int): int { if a <= b then a else b }
  function Max(a: int, b: int): int { if a >= b then a else b }

  /** How Python resolves one slice bound against a sequence of length n:
      a negative bound counts from the end, and the result is clamped to 0..n. */
  function Bound(i: int, n: nat): (r: nat)
    ensures r <= n
    ensures 0 <= i <= n ==> r == i
    ensures i > n ==> r == n
    ensures i < 0 ==> r == Max(0, n + i)
  {
    if i < 0 then (if n + i < 0 then 0 else n + i)
    else if i > n then n
    else i
  }

  /** `s[a:b]` */
  function Slice<T>(s: seq<T>, a: int, b: int): seq<T>
  {
    var lo, hi := Bound(a, |s|), Bound(b, |s|);
    if lo < hi then s[lo..hi] else []
  }

  /** `s[:b]` */
  function Take<T>(s: seq<T>, b: int): seq<T> { Slice(s, 0, b) }

  /** `s[a:]` */
  function Drop<T>(s: seq<T>, a: int): seq<T> { Slice(s, a, |s|) }

  lemma SliceFacts<T>(s: seq<T>, a: int, b: int)
    ensures |Slice(s, a, b)| <= |s|
    ensures 0 <= a <= b <= |s| ==> Slice(s, a, b) == s[a..b]
    ensures 0 <= b <= a ==> Slice(s, a, b) == []
    ensures 0 <= a && |s| <= a ==> Slice(s, a, b) == []
    ensures 0 <= a <= |s| <= b ==> Slice(s, a, b) == s[a..]
  {
  }

  /** Indices lo, lo + step, lo + 2 * step, ... below hi, already resolved. */
  function StrideFrom<T>(s: seq<T>, lo: nat, hi: nat, step: nat): seq<T>
    requires step > 0 && hi <= |s|
    decreases hi - lo
  {
    if lo >= hi then [] else [s[lo]] + StrideFrom(s, lo + step, hi, step)
  }

  /** `s[a:b:step]` for a positive step. */
  function Stride<T>(s: seq<T>, a: int, b: int, step: nat): seq<T>
    requires step > 0
  {
    StrideFrom(s, Bound(a, |s|), Bound(b, |s|), step)
  }

  /** The i-th element of an extended slice is the element at lo + i * step,
      and the slice holds exactly the indices below hi. */
  lemma {:induction false} StrideFromAt<T>(s: seq<T>, lo: nat, hi: nat, step: nat)
    requires step > 0 && hi <= |s|
    ensures forall i :: 0 <= i < |StrideFrom(s, lo, hi, step)| ==>
      lo + i * step < hi && StrideFrom(s, lo, hi, step)[i] == s[lo + i * step]
    ensures forall i: nat :: lo + i * step < hi ==> i < |StrideFrom(s, lo, hi, step)|
    decreases hi - lo
  {
    if lo < hi {
      StrideFromAt(s, lo + step, hi, step);
      var r := StrideFrom(s, lo, hi, step);
      var t := StrideFrom(s, lo + step, hi, step);
      assert r == [s[lo]] + t;
      forall i | 0 <= i < |r|
        ensures lo + i * step < hi && r[i] == s[lo + i * step]
      {
        if i > 0 {
          assert r[i] == t[i - 1];
          assert lo + step + (i - 1) * step == lo + i * step;
        }
      }
      forall i: nat | lo + i * step < hi
        ensures i < |r|
      {
        if i > 0 {
          assert lo + step + (i - 1) * step == lo + i * step;
        }
      }
    } else {
      forall i: nat | lo + i * step < hi
        ensures false
      {
      }
    }
  }

  /** `s[a:b:step]`: element i sits at index Bound(a) + i * step. */
  lemma StrideAt<T>(s: seq<T>, a: int, b: int, step: nat)
    requires step > 0
    ensures forall i :: 0 <= i < |Stride(s, a, b, step)| ==>
      Bound(a, |s|) + i * step < Bound(b, |s|) &&
      Stride(s, a, b, step)[i] == s[Bound(a, |s|) + i * step]
    ensures forall i: nat :: Bound(a, |s|) + i * step < Bound(b, |s|) ==> i < |Stride(s, a, b, step)|
  {
    StrideFromAt(s, Bound(a, |s|), Bound(b, |s|), step);
  }

  /** `range(lo, hi)`: the consecutive integers lo, lo + 1, ..., hi - 1. */
  function Range(lo: int, hi: int): (r: seq<int>)
    ensures |r| == Max(0, hi - lo)
    ensures forall i :: 0 <= i < |r| ==> r[i] == lo + i
  {
    seq(if hi > lo then hi - lo else 0, i => lo + i)
  }

  lemma InRange(lo: int, hi: int, x: int)
    ensures x in Range(lo, hi) <==> lo <= x < hi
  {
    if lo <= x < hi {
      assert Range(lo, hi)[x - lo] == x;
    }
  }

  /** `int(math.ceil(float(a) / b))`, in exact integer arithmetic. */
  function CeilDiv(a: int, b: int): (q: int)
    requires b > 0
    ensures q * b >= a && (q - 1) * b < a
    ensures a == 0 ==> q == 0
    ensures a > 0 ==> q > 0
  {
    var q := -((-a) / b);
    assert (-a) == b * ((-a) / b) + (-a) % b;
    q
  }

  lemma MulMonotone(a: int, b: int, c: int)
    requires a <= b && c >= 0
    ensures a * c <= b * c
  {
    assert b * c - a * c == (b - a) * c;
  }

  /** With a positive factor, products compare as their first factors do. */
  lemma MulLess(a: int, b: int, c: int)
    requires c > 0
    ensures a * c < b * c <==> a < b
  {
    if a < b {
      MulMonotone(a + 1, b, c);
      assert (a + 1) * c == a * c + c;
    } else {
      MulMonotone(b, a, c);
    }
  }

  /** With a positive step, k steps stay below limit steps plus one exactly
      when k is at most limit. */
  lemma StepsBelow(k: int, limit: int, step: int)
    requires step > 0
    ensures k * step < limit * step + 1 <==> k <= limit
  {
    if k <= limit {
      MulMonotone(k, limit, step);
    } else {
      MulMonotone(limit + 1, k, step);
      assert (limit + 1) * step == limit * step + step;
    }
  }

  /** An exact multiple divides evenly. */
  lemma CeilDivExact(n: int, b: int)
    requires b > 0
    ensures CeilDiv(n * b, b) == n
  {
    var q := CeilDiv(n * b, b);
    if q < n {
      MulMonotone(q, n - 1, b);
    } else if q > n {
      MulMonotone(n, q - 1, b);
    }
  }

  /** Rows of a suffix are rows of the whole, shifted by where it starts. */
  lemma SuffixRows<T>(s: seq<T>, i: int, n: int)
    requires 0 <= i && 0 <= n && i + n <= |s|
    ensures Slice(s[i..], 0, n) == s[i..i + n]
    ensures forall d :: 0 <= d < |s| - i ==> s[i..][d] == s[i + d]
  {
    SliceFacts(s[i..], 0, n);
  }

  function Reverse<T>(s: seq<T>): (r: seq<T>)
    ensures |r| == |s|
    ensures forall i :: 0 <= i < |s| ==> r[i] == s[|s| - 1 - i]
  {
    seq(|s|, i requires 0 <= i < |s| => s[|s| - 1 - i])
  }
}
