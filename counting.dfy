/**
 * Counting facts shared by the three histogram builders: sortedness, the sort the
 * lattice program applies to its distance list, threshold counts over a distance list,
 * and count vectors (the histogram rows) with their sums.
 */
module Counting {

  ghost predicate Sorted(s: seq<real>) {
    forall i, j :: 0 <= i < j < |s| ==> s[i] <= s[j]
  }

  /** Insert `x` into a sorted list, keeping it sorted. */
  function Insert(x: real, s: seq<real>): (r: seq<real>)
    requires Sorted(s)
    ensures Sorted(r)
    ensures multiset(r) == multiset(s) + multiset{x}
    ensures |r| == |s| + 1
  {
    if s == [] then [x]
    else if x <= s[0] then [x] + s
    else
      var t := Insert(x, s[1..]);
      assert s == [s[0]] + s[1..];
      HeadBelow(s[0], x, s[1..], t);
      [s[0]] + t
  }

  /** A head no larger than anything in the sorted tail keeps the list sorted. */
  lemma HeadBelow(h: real, x: real, rest: seq<real>, t: seq<real>)
    requires h < x && forall k :: 0 <= k < |rest| ==> h <= rest[k]
    requires Sorted(t) && multiset(t) == multiset(rest) + multiset{x}
    ensures Sorted([h] + t)
  {
    forall k | 0 <= k < |t|
      ensures h <= t[k]
    {
      assert t[k] in multiset(t);
      if t[k] != x {
        assert t[k] in multiset(rest);
        var j :| 0 <= j < |rest| && rest[j] == t[k];
      }
    }
    var r := [h] + t;
    forall i, j | 0 <= i < j < |r|
      ensures r[i] <= r[j]
    {
      assert r[j] == t[j - 1];
      if i > 0 {
        assert r[i] == t[i - 1];
      }
    }
  }

  /** `list.sort()`: the model keeps only what the library sort delivers, a sorted permutation. */
  function Sort(s: seq<real>): (r: seq<real>)
    ensures Sorted(r)
    ensures multiset(r) == multiset(s)
    ensures |r| == |s|
  {
    if s == [] then []
    else
      assert s == [s[0]] + s[1..];
      Insert(s[0], Sort(s[1..]))
  }

  /** How many entries of `ds` are strictly below `h`. */
  function CountBelow(ds: seq<real>, h: real): nat
  {
    if ds == [] then 0
    else CountBelow(ds[..|ds| - 1], h) + (if ds[|ds| - 1] < h then 1 else 0)
  }

  /** How many entries `d` of `ds` satisfy `lo <= d < hi`. */
  function CountIn(ds: seq<real>, lo: real, hi: real): nat
  {
    if ds == [] then 0
    else CountIn(ds[..|ds| - 1], lo, hi) + (if lo <= ds[|ds| - 1] < hi then 1 else 0)
  }

  lemma {:induction false} CountBelowBound(ds: seq<real>, h: real)
    ensures CountBelow(ds, h) <= |ds|
    ensures CountBelow(ds, h) == |ds| <==> forall k :: 0 <= k < |ds| ==> ds[k] < h
  {
    if ds != [] {
      var init := ds[..|ds| - 1];
      CountBelowBound(init, h);
      assert forall k :: 0 <= k < |init| ==> init[k] == ds[k];
    }
  }

  /** A threshold count splits at any lower threshold into the part below and the band. */
  lemma {:induction false} CountBelowSplit(ds: seq<real>, lo: real, hi: real)
    requires lo <= hi
    ensures CountBelow(ds, hi) == CountBelow(ds, lo) + CountIn(ds, lo, hi)
  {
    if ds != [] {
      CountBelowSplit(ds[..|ds| - 1], lo, hi);
    }
  }

  /** In a sorted list, the entries below `h` are exactly its first `CountBelow(ds, h)` entries. */
  lemma {:induction false} CountBelowSorted(ds: seq<real>, h: real, k: nat)
    requires Sorted(ds)
    requires k <= |ds|
    requires forall t :: 0 <= t < k ==> ds[t] < h
    requires k < |ds| ==> ds[k] >= h
    ensures CountBelow(ds, h) == k
  {
    if ds != [] {
      var init := ds[..|ds| - 1];
      assert Sorted(init);
      if k == |ds| {
        CountBelowSorted(init, h, k - 1);
      } else {
        assert ds[|ds| - 1] >= h;
        CountBelowSorted(init, h, k);
      }
    }
  }

  /** Threshold counts only depend on the entries, not on their order. */
  lemma {:induction false} CountBelowPermutation(a: seq<real>, b: seq<real>, h: real)
    requires multiset(a) == multiset(b)
    ensures CountBelow(a, h) == CountBelow(b, h)
  {
    if a == [] {
      assert |b| == |multiset(b)| == 0;
    } else {
      var x := a[|a| - 1];
      assert a == a[..|a| - 1] + [x];
      assert x in multiset(b);
      var k :| 0 <= k < |b| && b[k] == x;
      var rest := b[..k] + b[k + 1..];
      assert b == b[..k] + [x] + b[k + 1..];
      assert multiset(b) == multiset(b[..k]) + multiset{x} + multiset(b[k + 1..]);
      assert multiset(rest) == multiset(b[..k]) + multiset(b[k + 1..]);
      assert multiset(a) == multiset(a[..|a| - 1]) + multiset{x};
      assert multiset(a[..|a| - 1]) == multiset(a) - multiset{x};
      assert multiset(rest) == multiset(b) - multiset{x};
      CountBelowPermutation(a[..|a| - 1], rest, h);
      CountBelowRemove(b, k, h);
    }
  }

  lemma {:induction false} CountBelowRemove(b: seq<real>, k: nat, h: real)
    requires k < |b|
    ensures CountBelow(b, h) == CountBelow(b[..k] + b[k + 1..], h) + (if b[k] < h then 1 else 0)
  {
    if k == |b| - 1 {
      assert b[..k] + b[k + 1..] == b[..|b| - 1];
    } else {
      var init := b[..|b| - 1];
      CountBelowRemove(init, k, h);
      assert init[..k] + init[k + 1..] == (b[..k] + b[k + 1..])[..|b| - 2];
    }
  }

  /** How many entries of `ds` are at most `h`. */
  function CountAtMost(ds: seq<real>, h: real): nat
  {
    if ds == [] then 0
    else CountAtMost(ds[..|ds| - 1], h) + (if ds[|ds| - 1] <= h then 1 else 0)
  }

  /** A band count over a concatenation is the sum of the band counts of the parts. */
  lemma {:induction false} CountInConcat(a: seq<real>, b: seq<real>, lo: real, hi: real)
    ensures CountIn(a + b, lo, hi) == CountIn(a, lo, hi) + CountIn(b, lo, hi)
    decreases |b|
  {
    if b == [] {
      assert a + b == a;
    } else {
      var init := b[..|b| - 1];
      assert (a + b)[..|a + b| - 1] == a + init;
      CountInConcat(a, init, lo, hi);
    }
  }

  /** Band counts only depend on the entries, not on their order. */
  lemma CountInPermutation(a: seq<real>, b: seq<real>, lo: real, hi: real)
    requires multiset(a) == multiset(b)
    requires lo <= hi
    ensures CountIn(a, lo, hi) == CountIn(b, lo, hi)
  {
    CountBelowSplit(a, lo, hi);
    CountBelowSplit(b, lo, hi);
    CountBelowPermutation(a, b, lo);
    CountBelowPermutation(a, b, hi);
  }

  /** The sum of a count vector. */
  function Sum(h: seq<nat>): nat
  {
    if h == [] then 0 else Sum(h[..|h| - 1]) + h[|h| - 1]
  }

  /** A count vector of `n` zeros (`numpy.zeros`, `std::vector<size_t>(n, 0)`). */
  function Zeros(n: nat): (h: seq<nat>)
    ensures |h| == n && forall k :: 0 <= k < n ==> h[k] == 0
  {
    seq(n, _ => 0)
  }

  /** Entry-wise sum of two count vectors of the same length. */
  function AddCounts(a: seq<nat>, b: seq<nat>): (h: seq<nat>)
    requires |a| == |b|
    ensures |h| == |a| && forall k :: 0 <= k < |a| ==> h[k] == a[k] + b[k]
  {
    seq(|a|, k requires 0 <= k < |a| => a[k] + b[k])
  }

  /** Increment one bin. */
  function Bump(h: seq<nat>, k: nat): (r: seq<nat>)
    requires k < |h|
    ensures |r| == |h| && r[k] == h[k] + 1
    ensures forall t :: 0 <= t < |h| && t != k ==> r[t] == h[t]
  {
    h[k := h[k] + 1]
  }

  lemma {:induction false} SumZeros(n: nat)
    ensures Sum(Zeros(n)) == 0
  {
    if n > 0 {
      assert Zeros(n)[..n - 1] == Zeros(n - 1);
      SumZeros(n - 1);
    }
  }

  lemma {:induction false} SumBump(h: seq<nat>, k: nat)
    requires k < |h|
    ensures Sum(Bump(h, k)) == Sum(h) + 1
  {
    var r := Bump(h, k);
    if k < |h| - 1 {
      assert r[..|r| - 1] == Bump(h[..|h| - 1], k);
      SumBump(h[..|h| - 1], k);
    } else {
      assert r[..|r| - 1] == h[..|h| - 1];
    }
  }

  lemma {:induction false} SumAddCounts(a: seq<nat>, b: seq<nat>)
    requires |a| == |b|
    ensures Sum(AddCounts(a, b)) == Sum(a) + Sum(b)
  {
    if a != [] {
      var n := |a| - 1;
      assert AddCounts(a, b)[..n] == AddCounts(a[..n], b[..n]);
      SumAddCounts(a[..n], b[..n]);
    }
  }
}
