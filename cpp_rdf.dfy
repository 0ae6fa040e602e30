/**
 * The C++ `RDF` class: a bin count fixed at construction, and `construct_rdf`, which
 * collects all pair distances of a dataset, bins them by a truncating cast into
 * per-thread histograms, merges those, and divides by shell volumes.
 *
 * Out-of-range vector indexing is undefined behaviour in C++; the model reports it as a
 * failed outcome (`ok == false`) instead of producing counts.
 */
module CppRdf {
  import opened Geometry
  import opened Counting
  import opened Pairs
  import opened SnapshotRdf

  /** `size_t` values lie below 2^64. */
  const SizeModulus: int := 0x1_0000_0000_0000_0000

  /** `(size_t)(cutoff / binsize)`: the truncation, so the last bin may end below the cutoff. */
  function TruncBinCount(cutoff: real, binsize: real): (nrBins: nat)
    requires cutoff >= 0.0 && binsize > 0.0
    ensures nrBins as real * binsize <= cutoff < (nrBins + 1) as real * binsize
  {
    var n := TruncNonNeg(cutoff / binsize);
    TruncIsFloor(cutoff / binsize);
    FloorBin(cutoff, binsize, n);
    n
  }

  /** Unsigned `i - 1` on `size_t`: wraps to `SIZE_MAX` at 0. */
  function UnsignedPred(i: nat): (r: nat)
    requires i < SizeModulus
    ensures r < SizeModulus
    ensures i >= 1 ==> r == i - 1
    ensures i == 0 ==> r == SizeModulus - 1
  {
    (i - 1) % SizeModulus
  }

  /**
   * The volume `construct_rdf` divides bin `i` by, with `float(i-1)` taken on `size_t`:
   * from bin 1 on it is the signed shell volume, at bin 0 the inner radius wraps to
   * `SIZE_MAX * binsize` and the volume is negative. (In the program that value, about
   * -3.3e54, overflows `float` when stored; only its sign is kept here.)
   */
  function WrappedShellVolume(pi: real, binsize: real, i: nat): (v: real)
    requires i < SizeModulus
    ensures i >= 1 ==> v == ShellVolume(pi, binsize, i)
    ensures pi > 0.0 && binsize > 0.0 && i >= 1 ==> v > 0.0
    ensures pi > 0.0 && binsize > 0.0 && i == 0 ==> v < 0.0
  {
    var r1 := UnsignedPred(i) as real * binsize;
    var r2 := i as real * binsize;
    assert i >= 1 ==> r1 == (i - 1) as real * binsize;
    assert pi > 0.0 && binsize > 0.0 && i == 0 ==> Cube(r1) > 0.0 && Cube(r2) == 0.0 by {
      if pi > 0.0 && binsize > 0.0 && i == 0 {
        assert r1 > 0.0;
        assert r1 * r1 > 0.0;
      }
    }
    assert pi > 0.0 ==> 4.0 / 3.0 * pi > 0.0;
    4.0 / 3.0 * pi * (Cube(r2) - Cube(r1))
  }

  // ---------------------------------------------------------------------------
  // Pair distances (no cutoff filter)
  // ---------------------------------------------------------------------------

  /** The distances of the pairs in `ps`, one per pair, in order. */
  function Lengths(norm: Vec3 -> real, atoms: seq<Vec3>, ps: seq<Pair>): (ds: seq<real>)
    ensures |ds| == |ps|
  {
    seq(|ps|, k requires 0 <= k < |ps| => PairLength(norm, atoms, ps[k]))
  }

  /** All pair distances `construct_rdf` collects for a dataset. */
  function AllDistances(norm: Vec3 -> real, atoms: seq<Vec3>): seq<real>
  {
    Lengths(norm, atoms, UpperPairs(|atoms|))
  }

  /**
   * There are `n(n-1)/2` distances, the `k`-th one being the distance of the `k`-th pair
   * `i < j`; none is negative.
   */
  lemma AllDistancesFacts(norm: Vec3 -> real, atoms: seq<Vec3>)
    requires IsNorm(norm)
    ensures 2 * |AllDistances(norm, atoms)| == |atoms| * (|atoms| - 1)
    ensures forall k :: 0 <= k < |AllDistances(norm, atoms)| ==>
      UpperPairs(|atoms|)[k].i < UpperPairs(|atoms|)[k].j < |atoms| &&
      AllDistances(norm, atoms)[k] == Distance(norm, atoms[UpperPairs(|atoms|)[k].i], atoms[UpperPairs(|atoms|)[k].j]) &&
      AllDistances(norm, atoms)[k] >= 0.0
  {
    UpperPairsFacts(|atoms|);
    var ps := UpperPairs(|atoms|);
    forall k | 0 <= k < |ps|
      ensures ps[k].i < ps[k].j < |atoms|
    {
      assert ps[k] in ps;
    }
  }

  lemma AllDistancesNonNeg(norm: Vec3 -> real, atoms: seq<Vec3>, ds: seq<real>)
    requires IsNorm(norm) && ds == AllDistances(norm, atoms)
    ensures forall k :: 0 <= k < |ds| ==> ds[k] >= 0.0
  {
  }

  lemma LengthsSnoc(norm: Vec3 -> real, atoms: seq<Vec3>, ps: seq<Pair>, p: Pair)
    ensures Lengths(norm, atoms, ps + [p]) == Lengths(norm, atoms, ps) + [PairLength(norm, atoms, p)]
  {
  }

  /** One thread's inner loop: `d` for `(i, j)`, `i < j < |atoms|`, pushed onto `prefix`. */
  method AppendLengths(norm: Vec3 -> real, atoms: seq<Vec3>, i: nat, ghost before: seq<Pair>, prefix: seq<real>)
    returns (distances: seq<real>)
    requires i < |atoms|
    requires prefix == Lengths(norm, atoms, before)
    ensures distances == Lengths(norm, atoms, before + Row(i, i + 1, |atoms|))
  {
    distances := prefix;
    var j := i + 1;
    assert before + Row(i, i + 1, j) == before;
    while j < |atoms|
      invariant i + 1 <= j <= |atoms|
      invariant distances == Lengths(norm, atoms, before + Row(i, i + 1, j))
    {
      var d := norm(Sub(atoms[i], atoms[j]));
      LengthsSnoc(norm, atoms, before + Row(i, i + 1, j), Pair(i, j));
      RowSnoc(i, i + 1, j);
      assert before + Row(i, i + 1, j + 1) == before + Row(i, i + 1, j) + [Pair(i, j)];
      distances := distances + [d];
      j := j + 1;
    }
  }

  /** The pair loop of `construct_rdf`, run in the order of the outer index. */
  method CollectDistances(norm: Vec3 -> real, atoms: seq<Vec3>) returns (distances: seq<real>)
    ensures distances == AllDistances(norm, atoms)
  {
    distances := [];
    var i := 0;
    while i < |atoms|
      invariant 0 <= i <= |atoms|
      invariant distances == Lengths(norm, atoms, Rows(|atoms|, i))
    {
      distances := AppendLengths(norm, atoms, i, Rows(|atoms|, i), distances);
      i := i + 1;
    }
  }

  // ---------------------------------------------------------------------------
  // Truncating-cast binning
  // ---------------------------------------------------------------------------

  /** A distance the binning loop handles: skipped (`> cutoff`) or given a bin below `nrBins`. */
  predicate InRange(d: real, binsize: real, cutoff: real, nrBins: nat)
    requires d >= 0.0 && binsize > 0.0
  {
    d <= cutoff ==> TruncNonNeg(d / binsize) < nrBins
  }

  /**
   * The counts of the binning loop with the bound check the source lacks: a distance
   * above the cutoff, or whose bin is not below `nrBins`, is not counted.
   */
  function TruncHistogram(ds: seq<real>, binsize: real, cutoff: real, nrBins: nat): (h: seq<nat>)
    requires binsize > 0.0
    requires forall k :: 0 <= k < |ds| ==> ds[k] >= 0.0
    ensures |h| == nrBins
  {
    if ds == [] then Zeros(nrBins)
    else
      var d := ds[|ds| - 1];
      var init := ds[..|ds| - 1];
      assert forall k :: 0 <= k < |init| ==> init[k] == ds[k];
      var h := TruncHistogram(init, binsize, cutoff, nrBins);
      if d > cutoff then h
      else
        var c := TruncNonNeg(d / binsize);
        if c < nrBins then Bump(h, c) else h
  }

  /** A distance in bin `t` lies below `nrBins * binsize` exactly when `t < nrBins`. */
  lemma BinBelowIff(d: real, binsize: real, t: int, nrBins: nat)
    requires binsize > 0.0 && t as real * binsize <= d < (t + 1) as real * binsize
    ensures t < nrBins <==> d < nrBins as real * binsize
  {
    if t < nrBins {
      BelowEdge(d, binsize, (t + 1) as real, nrBins as real);
    } else {
      ScaleLe(nrBins as real, t as real, binsize);
    }
  }

  /** A distance fails the bound exactly when it lies in `[nrBins * binsize, cutoff]`. */
  lemma InRangeIff(d: real, binsize: real, cutoff: real, nrBins: nat)
    requires d >= 0.0 && binsize > 0.0
    ensures InRange(d, binsize, cutoff, nrBins) <==> !(nrBins as real * binsize <= d <= cutoff)
  {
    var t := TruncNonNeg(d / binsize);
    TruncIsFloor(d / binsize);
    FloorBin(d, binsize, t);
    BinBelowIff(d, binsize, t, nrBins);
  }

  /** Every bin below `nrBins` ends at or below the cutoff when the last one does. */
  lemma BinEndsBelow(binsize: real, cutoff: real, nrBins: nat, i: nat)
    requires binsize > 0.0 && i < nrBins && nrBins as real * binsize <= cutoff
    ensures (i + 1) as real * binsize <= cutoff
  {
    ScaleLe((i + 1) as real, nrBins as real, binsize);
  }

  /** The whole list is in range exactly when no distance lies in `[nrBins * binsize, cutoff]`. */
  lemma AllInRangeIff(ds: seq<real>, binsize: real, cutoff: real, nrBins: nat)
    requires binsize > 0.0
    requires forall k :: 0 <= k < |ds| ==> ds[k] >= 0.0
    ensures (forall k :: 0 <= k < |ds| ==> InRange(ds[k], binsize, cutoff, nrBins)) <==>
            (forall k :: 0 <= k < |ds| ==> !(nrBins as real * binsize <= ds[k] <= cutoff))
  {
    forall k | 0 <= k < |ds|
      ensures InRange(ds[k], binsize, cutoff, nrBins) <==> !(nrBins as real * binsize <= ds[k] <= cutoff)
    {
      InRangeIff(ds[k], binsize, cutoff, nrBins);
    }
  }

  /**
   * Bin `i` holds exactly the distances in `[i b, (i+1) b)`, whenever the last bin ends
   * at or below the cutoff (as `(size_t)(cutoff / binsize)` bins do).
   */
  lemma {:induction false} TruncHistogramCounts(ds: seq<real>, binsize: real, cutoff: real, nrBins: nat, i: nat)
    requires binsize > 0.0 && i < nrBins && nrBins as real * binsize <= cutoff
    requires forall k :: 0 <= k < |ds| ==> ds[k] >= 0.0
    ensures TruncHistogram(ds, binsize, cutoff, nrBins)[i] == CountIn(ds, i as real * binsize, (i + 1) as real * binsize)
  {
    if ds != [] {
      var d := ds[|ds| - 1];
      var init := ds[..|ds| - 1];
      assert forall k :: 0 <= k < |init| ==> init[k] == ds[k];
      var h := TruncHistogram(init, binsize, cutoff, nrBins);
      var lo := i as real * binsize;
      var hi := (i + 1) as real * binsize;
      TruncHistogramCounts(init, binsize, cutoff, nrBins, i);
      assert CountIn(ds, lo, hi) == CountIn(init, lo, hi) + (if lo <= d < hi then 1 else 0);
      if d > cutoff {
        BinEndsBelow(binsize, cutoff, nrBins, i);
        assert TruncHistogram(ds, binsize, cutoff, nrBins) == h;
        assert CountIn(ds, lo, hi) == CountIn(init, lo, hi);
      } else {
        var c := TruncNonNeg(d / binsize);
        TruncIsFloor(d / binsize);
        FloorBin(d, binsize, i);
        assert c == i <==> lo <= d < hi;
        if c < nrBins {
          assert TruncHistogram(ds, binsize, cutoff, nrBins) == Bump(h, c);
          assert TruncHistogram(ds, binsize, cutoff, nrBins)[i] == h[i] + (if c == i then 1 else 0);
        } else {
          assert TruncHistogram(ds, binsize, cutoff, nrBins) == h;
          assert c != i;
        }
      }
    } else {
      assert TruncHistogram(ds, binsize, cutoff, nrBins) == Zeros(nrBins);
    }
  }

  lemma TruncHistogramBands(ds: seq<real>, binsize: real, cutoff: real, nrBins: nat)
    requires binsize > 0.0 && nrBins as real * binsize <= cutoff
    requires forall k :: 0 <= k < |ds| ==> ds[k] >= 0.0
    ensures forall i :: 0 <= i < nrBins ==>
      TruncHistogram(ds, binsize, cutoff, nrBins)[i] == CountIn(ds, i as real * binsize, (i + 1) as real * binsize)
  {
    forall i | 0 <= i < nrBins
      ensures TruncHistogram(ds, binsize, cutoff, nrBins)[i] == CountIn(ds, i as real * binsize, (i + 1) as real * binsize)
    {
      TruncHistogramCounts(ds, binsize, cutoff, nrBins, i);
    }
  }

  /** When every distance is in range, the counts add up to the number of distances `<= cutoff`. */
  lemma {:induction false} TruncHistogramSum(ds: seq<real>, binsize: real, cutoff: real, nrBins: nat)
    requires binsize > 0.0
    requires forall k :: 0 <= k < |ds| ==> ds[k] >= 0.0 && InRange(ds[k], binsize, cutoff, nrBins)
    ensures Sum(TruncHistogram(ds, binsize, cutoff, nrBins)) == CountAtMost(ds, cutoff)
  {
    if ds == [] {
      SumZeros(nrBins);
    } else {
      var d := ds[|ds| - 1];
      var init := ds[..|ds| - 1];
      assert forall k :: 0 <= k < |init| ==> init[k] == ds[k];
      TruncHistogramSum(init, binsize, cutoff, nrBins);
      if d <= cutoff {
        assert InRange(d, binsize, cutoff, nrBins);
        SumBump(TruncHistogram(init, binsize, cutoff, nrBins), TruncNonNeg(d / binsize));
      }
    }
  }

  /** Binning the two halves separately and adding the histograms gives the histogram of the whole. */
  lemma TruncHistogramConcat(a: seq<real>, b: seq<real>, binsize: real, cutoff: real, nrBins: nat)
    requires binsize > 0.0 && nrBins as real * binsize <= cutoff
    requires forall k :: 0 <= k < |a| ==> a[k] >= 0.0
    requires forall k :: 0 <= k < |b| ==> b[k] >= 0.0
    ensures forall k :: 0 <= k < |a + b| ==> (a + b)[k] >= 0.0
    ensures TruncHistogram(a + b, binsize, cutoff, nrBins) ==
            AddCounts(TruncHistogram(a, binsize, cutoff, nrBins), TruncHistogram(b, binsize, cutoff, nrBins))
  {
    assert forall k :: 0 <= k < |a + b| ==> (a + b)[k] >= 0.0 by {
      forall k | 0 <= k < |a + b|
        ensures (a + b)[k] >= 0.0
      {
        if k >= |a| {
          assert (a + b)[k] == b[k - |a|];
        }
      }
    }
    forall i | 0 <= i < nrBins
      ensures TruncHistogram(a + b, binsize, cutoff, nrBins)[i] ==
              TruncHistogram(a, binsize, cutoff, nrBins)[i] + TruncHistogram(b, binsize, cutoff, nrBins)[i]
    {
      TruncHistogramCounts(a + b, binsize, cutoff, nrBins, i);
      TruncHistogramCounts(a, binsize, cutoff, nrBins, i);
      TruncHistogramCounts(b, binsize, cutoff, nrBins, i);
      CountInConcat(a, b, i as real * binsize, (i + 1) as real * binsize);
    }
  }

  /** The histogram of a prefix, extended by one chunk, as the merge loop builds it. */
  lemma TruncHistogramSplit(ds: seq<real>, lo: nat, hi: nat, binsize: real, cutoff: real, nrBins: nat)
    requires binsize > 0.0 && nrBins as real * binsize <= cutoff && lo <= hi <= |ds|
    requires forall k :: 0 <= k < |ds| ==> ds[k] >= 0.0
    ensures TruncHistogram(ds[..hi], binsize, cutoff, nrBins) ==
            AddCounts(TruncHistogram(ds[..lo], binsize, cutoff, nrBins), TruncHistogram(ds[lo..hi], binsize, cutoff, nrBins))
  {
    assert ds[..hi] == ds[..lo] + ds[lo..hi];
    TruncHistogramConcat(ds[..lo], ds[lo..hi], binsize, cutoff, nrBins);
  }

  /** The histogram does not depend on the order of the distances (thread scheduling). */
  lemma TruncHistogramPermutation(a: seq<real>, b: seq<real>, binsize: real, cutoff: real, nrBins: nat)
    requires binsize > 0.0 && nrBins as real * binsize <= cutoff
    requires multiset(a) == multiset(b)
    requires forall k :: 0 <= k < |a| ==> a[k] >= 0.0
    requires forall k :: 0 <= k < |b| ==> b[k] >= 0.0
    ensures TruncHistogram(a, binsize, cutoff, nrBins) == TruncHistogram(b, binsize, cutoff, nrBins)
  {
    var ha := TruncHistogram(a, binsize, cutoff, nrBins);
    var hb := TruncHistogram(b, binsize, cutoff, nrBins);
    forall i | 0 <= i < nrBins
      ensures ha[i] == hb[i]
    {
      PermutationBin(a, b, binsize, cutoff, nrBins, i);
    }
  }

  lemma PermutationBin(a: seq<real>, b: seq<real>, binsize: real, cutoff: real, nrBins: nat, i: nat)
    requires binsize > 0.0 && nrBins as real * binsize <= cutoff && i < nrBins
    requires multiset(a) == multiset(b)
    requires forall k :: 0 <= k < |a| ==> a[k] >= 0.0
    requires forall k :: 0 <= k < |b| ==> b[k] >= 0.0
    ensures TruncHistogram(a, binsize, cutoff, nrBins)[i] == TruncHistogram(b, binsize, cutoff, nrBins)[i]
  {
    var lo := i as real * binsize;
    var hi := (i + 1) as real * binsize;
    TruncHistogramCounts(a, binsize, cutoff, nrBins, i);
    TruncHistogramCounts(b, binsize, cutoff, nrBins, i);
    ScaleLe(i as real, (i + 1) as real, binsize);
    CountInPermutation(a, b, lo, hi);
  }

  /** The `critical` merge: `rdf_count[i] += rdf_private[i]` for every bin. */
  method Merge(counts: array<nat>, private: array<nat>)
    requires counts != private && counts.Length == private.Length
    modifies counts
    ensures counts[..] == AddCounts(old(counts[..]), private[..])
  {
    var i := 0;
    while i < counts.Length
      invariant 0 <= i <= counts.Length
      invariant forall c :: 0 <= c < i ==> counts[c] == old(counts[c]) + private[c]
      invariant forall c :: i <= c < counts.Length ==> counts[c] == old(counts[c])
    {
      counts[i] := counts[i] + private[i];
      i := i + 1;
    }
  }

  /** The RDF object: cutoff, bin size and bin count, all fixed once constructed. */
  class Rdf {
    const cutoff: real
    const binsize: real
    const nrBins: nat

    ghost predicate Valid() {
      cutoff >= 0.0 && binsize > 0.0 &&
      nrBins == TruncBinCount(cutoff, binsize) && nrBins < SizeModulus
    }

    /** `RDF::RDF`: the bin count is the truncation of `cutoff / binsize`. */
    constructor(cutoff: real, binsize: real)
      requires cutoff >= 0.0 && binsize > 0.0
      requires cutoff / binsize < SizeModulus as real
      ensures this.cutoff == cutoff && this.binsize == binsize
      ensures nrBins as real * binsize <= cutoff < (nrBins + 1) as real * binsize
      ensures Valid()
    {
      this.cutoff := cutoff;
      this.binsize := binsize;
      nrBins := TruncBinCount(cutoff, binsize);
    }

    /** One thread's share of the binning loop, over `ds[lo..hi]`, into its private histogram. */
    method BinChunk(ds: seq<real>, lo: nat, hi: nat, private: array<nat>) returns (ok: bool)
      requires binsize > 0.0 && lo <= hi <= |ds| && private.Length == nrBins
      requires forall k :: 0 <= k < |ds| ==> ds[k] >= 0.0
      requires forall c :: 0 <= c < private.Length ==> private[c] == 0
      modifies private
      ensures ok <==> forall k :: lo <= k < hi ==> InRange(ds[k], binsize, cutoff, nrBins)
      ensures ok ==> private[..] == TruncHistogram(ds[lo..hi], binsize, cutoff, nrBins)
    {
      var k := lo;
      assert ds[lo..k] == [];
      assert private[..] == Zeros(nrBins);
      while k < hi
        invariant lo <= k <= hi
        invariant forall t :: lo <= t < k ==> InRange(ds[t], binsize, cutoff, nrBins)
        invariant private[..] == TruncHistogram(ds[lo..k], binsize, cutoff, nrBins)
      {
        assert ds[lo..k + 1][..k - lo] == ds[lo..k];
        if ds[k] > cutoff {
          k := k + 1;
          continue;
        }
        var container := TruncNonNeg(ds[k] / binsize);
        if container >= nrBins {
          // `rdf_private[container]` is past the end of the vector
          return false;
        }
        private[container] := private[container] + 1;
        k := k + 1;
      }
      return true;
    }

    /** The truncated bin count never reaches past the cutoff. */
    lemma BinsEndBelowCutoff()
      requires Valid()
      ensures nrBins as real * binsize <= cutoff
    {
      assert nrBins == TruncBinCount(cutoff, binsize);
    }

    /** One thread: bin `ds[lo..hi]` into a fresh private histogram, then add it to `counts`. */
    method BinAndMerge(ds: seq<real>, lo: nat, hi: nat, counts: array<nat>) returns (ok: bool)
      requires binsize > 0.0 && nrBins as real * binsize <= cutoff
      requires lo <= hi <= |ds| && counts.Length == nrBins
      requires forall k :: 0 <= k < |ds| ==> ds[k] >= 0.0
      requires counts[..] == TruncHistogram(ds[..lo], binsize, cutoff, nrBins)
      modifies counts
      ensures ok <==> forall k :: lo <= k < hi ==> InRange(ds[k], binsize, cutoff, nrBins)
      ensures ok ==> counts[..] == TruncHistogram(ds[..hi], binsize, cutoff, nrBins)
    {
      var private := new nat[nrBins](_ => 0);
      ok := BinChunk(ds, lo, hi, private);
      if ok {
        TruncHistogramSplit(ds, lo, hi, binsize, cutoff, nrBins);
        Merge(counts, private);
      }
    }

    /**
     * The binning phase: consecutive chunks of `chunk` distances, each binned into a
     * fresh private histogram that is then added to the shared counts.
     */
    method BinDistances(ds: seq<real>, chunk: nat) returns (ok: bool, counts: array<nat>)
      requires Valid() && chunk >= 1
      requires forall k :: 0 <= k < |ds| ==> ds[k] >= 0.0
      ensures fresh(counts) && counts.Length == nrBins
      ensures ok <==> forall k :: 0 <= k < |ds| ==> InRange(ds[k], binsize, cutoff, nrBins)
      ensures ok ==> counts[..] == TruncHistogram(ds, binsize, cutoff, nrBins)
    {
      BinsEndBelowCutoff();
      counts := new nat[nrBins](_ => 0);
      var lo := 0;
      assert ds[..lo] == [];
      assert counts[..] == Zeros(nrBins);
      while lo < |ds|
        invariant 0 <= lo <= |ds|
        invariant forall k :: 0 <= k < lo ==> InRange(ds[k], binsize, cutoff, nrBins)
        invariant counts[..] == TruncHistogram(ds[..lo], binsize, cutoff, nrBins)
      {
        var hi := if lo + chunk < |ds| then lo + chunk else |ds|;
        ok := BinAndMerge(ds, lo, hi, counts);
        if !ok {
          return;
        }
        lo := hi;
      }
      assert ds[..lo] == ds;
      ok := true;
    }

    /** The division loop: `rdf[i] = rdf_count[i] / V` with the wrapped volume. */
    method Normalise(pi: real, counts: array<nat>) returns (rdf: array<real>)
      requires binsize > 0.0 && nrBins < SizeModulus && pi > 0.0 && counts.Length == nrBins
      ensures fresh(rdf) && rdf.Length == nrBins
      ensures forall i :: 0 <= i < nrBins ==> rdf[i] == counts[i] as real / WrappedShellVolume(pi, binsize, i)
    {
      rdf := new real[nrBins](_ => 0.0);
      var i := 0;
      while i < nrBins
        invariant 0 <= i <= nrBins
        invariant forall c :: 0 <= c < i ==> rdf[c] == counts[c] as real / WrappedShellVolume(pi, binsize, c)
      {
        var r1 := UnsignedPred(i) as real * binsize;
        var r2 := i as real * binsize;
        var v := 4.0 / 3.0 * pi * (Cube(r2) - Cube(r1));
        assert v == WrappedShellVolume(pi, binsize, i) && v != 0.0;
        rdf[i] := counts[i] as real / v;
        i := i + 1;
      }
    }

    /** The phases after the pair loop: binning, merging and the division by the volumes. */
    method Histogram(pi: real, distances: seq<real>, chunk: nat) returns (ok: bool, rdf: array<real>)
      requires Valid() && pi > 0.0 && chunk >= 1
      requires forall k :: 0 <= k < |distances| ==> distances[k] >= 0.0
      ensures fresh(rdf)
      ensures ok <==> forall k :: 0 <= k < |distances| ==> !(nrBins as real * binsize <= distances[k] <= cutoff)
      ensures ok ==> rdf.Length == nrBins && forall i :: 0 <= i < nrBins ==>
        rdf[i] == TruncHistogram(distances, binsize, cutoff, nrBins)[i] as real / WrappedShellVolume(pi, binsize, i)
    {
      AllInRangeIff(distances, binsize, cutoff, nrBins);
      var counts;
      ok, counts := BinDistances(distances, chunk);
      if !ok {
        rdf := new real[0];
        return;
      }
      assert forall i :: 0 <= i < nrBins ==> counts[i] == counts[..][i];
      rdf := Normalise(pi, counts);
    }

    /**
     * `RDF::construct_rdf`: succeeds exactly when no pair distance lies in
     * `[nrBins * binsize, cutoff]` (none lands past the last bin); then bin `i` holds the
     * corrected histogram's count over the volume the source computes.
     */
    method ConstructRdf(norm: Vec3 -> real, pi: real, dataset: seq<Vec3>, chunk: nat) returns (ok: bool, rdf: array<real>)
      requires Valid() && IsNorm(norm) && pi > 0.0 && chunk >= 1
      ensures fresh(rdf)
      ensures ok <==> forall k :: 0 <= k < |AllDistances(norm, dataset)| ==>
        !(nrBins as real * binsize <= AllDistances(norm, dataset)[k] <= cutoff)
      ensures ok ==> rdf.Length == nrBins && forall i :: 0 <= i < nrBins ==>
        rdf[i] == TruncHistogram(AllDistances(norm, dataset), binsize, cutoff, nrBins)[i] as real /
                  WrappedShellVolume(pi, binsize, i)
    {
      var distances := CollectDistances(norm, dataset);
      AllDistancesNonNeg(norm, dataset, distances);
      ok, rdf := Histogram(pi, distances, chunk);
    }
  }

  /**
   * With `cutoff = 1` and `binsize = 0.5` there are 2 bins, and a pair at distance 1 is
   * not above the cutoff but truncates to bin 2, one past the end.
   */
  lemma IndexPastEnd()
    ensures TruncBinCount(1.0, 0.5) == 2
    ensures !InRange(1.0, 0.5, 1.0, 2)
    ensures TruncNonNeg(1.0 / 0.5) == 2
  {
    assert TruncNonNeg(1.0 / 0.5) == 2;
  }
}
