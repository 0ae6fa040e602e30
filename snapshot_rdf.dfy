/**
 * The snapshot RDF program's computation over one set of atom positions: keep the
 * distances of all unordered pairs that are below the cutoff, drop each into bin
 * `floor(d / binsize)`, and divide by the volume of a spherical shell.
 *
 * The result matrix `rdf` has three rows: row 0 the bin centre, row 1 the count
 * (later the count over the volume), row 2 the shell volume.
 */
module SnapshotRdf {
  import opened Geometry
  import opened Counting
  import opened Pairs

  // ---------------------------------------------------------------------------
  // Pair distances below the cutoff
  // ---------------------------------------------------------------------------

  /** `numpy.linalg.norm(atoms[i] - atoms[j])` for a pair (0 for a pair out of range). */
  function PairLength(norm: Vec3 -> real, atoms: seq<Vec3>, p: Pair): real
  {
    if p.i < |atoms| && p.j < |atoms| then Distance(norm, atoms[p.i], atoms[p.j]) else 0.0
  }

  /** The distances of the pairs in `ps` that are below `cutoff`, in visiting order. */
  function Kept(norm: Vec3 -> real, atoms: seq<Vec3>, cutoff: real, ps: seq<Pair>): seq<real>
  {
    if ps == [] then []
    else
      var d := PairLength(norm, atoms, ps[|ps| - 1]);
      Kept(norm, atoms, cutoff, ps[..|ps| - 1]) + (if d < cutoff then [d] else [])
  }

  lemma {:induction false} KeptConcat(norm: Vec3 -> real, atoms: seq<Vec3>, cutoff: real, a: seq<Pair>, b: seq<Pair>)
    ensures Kept(norm, atoms, cutoff, a + b) == Kept(norm, atoms, cutoff, a) + Kept(norm, atoms, cutoff, b)
    decreases |b|
  {
    if b == [] {
      assert a + b == a;
    } else {
      var init := b[..|b| - 1];
      assert (a + b)[..|a + b| - 1] == a + init;
      KeptConcat(norm, atoms, cutoff, a, init);
    }
  }

  /**
   * Every kept distance is a genuine pair distance below the cutoff (and not negative),
   * and there are at most as many as pairs.
   */
  lemma {:induction false} KeptBounds(norm: Vec3 -> real, atoms: seq<Vec3>, cutoff: real, ps: seq<Pair>)
    requires IsNorm(norm)
    ensures |Kept(norm, atoms, cutoff, ps)| <= |ps|
    ensures forall k :: 0 <= k < |Kept(norm, atoms, cutoff, ps)| ==>
      0.0 <= Kept(norm, atoms, cutoff, ps)[k] < cutoff
  {
    if ps != [] {
      KeptBounds(norm, atoms, cutoff, ps[..|ps| - 1]);
    }
  }

  /**
   * Every distance of a pair below the cutoff is kept, and every kept distance comes
   * from some pair of `ps`.
   */
  lemma {:induction false} KeptMembers(norm: Vec3 -> real, atoms: seq<Vec3>, cutoff: real, ps: seq<Pair>)
    ensures forall p :: p in ps && PairLength(norm, atoms, p) < cutoff ==> PairLength(norm, atoms, p) in Kept(norm, atoms, cutoff, ps)
    ensures forall d :: d in Kept(norm, atoms, cutoff, ps) ==> exists p :: p in ps && d == PairLength(norm, atoms, p)
  {
    if ps != [] {
      var init := ps[..|ps| - 1];
      KeptMembers(norm, atoms, cutoff, init);
      assert ps == init + [ps[|ps| - 1]];
      forall d | d in Kept(norm, atoms, cutoff, ps)
        ensures exists p :: p in ps && d == PairLength(norm, atoms, p)
      {
        if d in Kept(norm, atoms, cutoff, init) {
          var p :| p in init && d == PairLength(norm, atoms, p);
          assert p in ps;
        } else {
          assert ps[|ps| - 1] in ps;
        }
      }
    }
  }

  /** One more pair keeps its distance exactly when it is below the cutoff. */
  lemma KeptSnoc(norm: Vec3 -> real, atoms: seq<Vec3>, cutoff: real, ps: seq<Pair>, p: Pair)
    ensures var d := PairLength(norm, atoms, p);
      Kept(norm, atoms, cutoff, ps + [p]) == Kept(norm, atoms, cutoff, ps) + (if d < cutoff then [d] else [])
  {
    assert (ps + [p])[..|ps|] == ps;
  }

  lemma PairsAssoc(a: seq<Pair>, b: seq<Pair>, c: seq<Pair>)
    ensures a + (b + c) == a + b + c
  {
  }

  /** One inner iteration appends pair `(i, j)` and keeps its distance when it is below the cutoff. */
  lemma KeptRowStep(norm: Vec3 -> real, atoms: seq<Vec3>, cutoff: real, before: seq<Pair>, i: nat, j: nat)
    requires i < j < |atoms|
    ensures var d := Distance(norm, atoms[i], atoms[j]);
      before + Row(i, i + 1, j + 1) == before + Row(i, i + 1, j) + [Pair(i, j)] &&
      Kept(norm, atoms, cutoff, before + Row(i, i + 1, j + 1)) ==
        Kept(norm, atoms, cutoff, before + Row(i, i + 1, j)) + (if d < cutoff then [d] else [])
  {
    KeptSnoc(norm, atoms, cutoff, before + Row(i, i + 1, j), Pair(i, j));
    RowSnoc(i, i + 1, j);
    PairsAssoc(before, Row(i, i + 1, j), [Pair(i, j)]);
  }

  /** The inner loop: pairs `(i, j)` for `i < j < |atoms|`, keeping the short ones. */
  method AppendKept(norm: Vec3 -> real, atoms: seq<Vec3>, cutoff: real, i: nat,
                    ghost before: seq<Pair>, prefix: seq<real>) returns (distances: seq<real>)
    requires i < |atoms|
    requires prefix == Kept(norm, atoms, cutoff, before)
    ensures distances == Kept(norm, atoms, cutoff, before + Row(i, i + 1, |atoms|))
  {
    distances := prefix;
    var j := i + 1;
    ghost var tags := before;
    assert before + Row(i, i + 1, j) == before;
    while j < |atoms|
      invariant i + 1 <= j <= |atoms|
      invariant tags == before + Row(i, i + 1, j)
      invariant distances == Kept(norm, atoms, cutoff, tags)
    {
      var d := norm(Sub(atoms[i], atoms[j]));
      KeptRowStep(norm, atoms, cutoff, before, i, j);
      if d < cutoff {
        distances := distances + [d];
      }
      tags := tags + [Pair(i, j)];
      j := j + 1;
    }
  }

  /** The double loop over all pairs `i < j`, appending each distance below the cutoff. */
  method PairDistances(norm: Vec3 -> real, atoms: seq<Vec3>, cutoff: real) returns (distances: seq<real>)
    ensures distances == Kept(norm, atoms, cutoff, UpperPairs(|atoms|))
  {
    distances := [];
    var i := 0;
    while i < |atoms|
      invariant 0 <= i <= |atoms|
      invariant distances == Kept(norm, atoms, cutoff, Rows(|atoms|, i))
    {
      distances := AppendKept(norm, atoms, cutoff, i, Rows(|atoms|, i), distances);
      i := i + 1;
    }
  }

  // ---------------------------------------------------------------------------
  // Floor binning
  // ---------------------------------------------------------------------------

  /** A distance the loop either skips (`> cutoff`) or can count: its bin index is in range. */
  predicate Binnable(d: real, binsize: real, cutoff: real, nrBins: nat)
    requires binsize > 0.0
  {
    d >= 0.0 && (d <= cutoff ==> Floor(d / binsize) < nrBins)
  }

  /** The counts the binning loop leaves in row 1, starting from zeros. */
  function FloorHistogram(ds: seq<real>, binsize: real, cutoff: real, nrBins: nat): (h: seq<nat>)
    requires binsize > 0.0
    requires forall k :: 0 <= k < |ds| ==> Binnable(ds[k], binsize, cutoff, nrBins)
    ensures |h| == nrBins
  {
    if ds == [] then Zeros(nrBins)
    else
      var d := ds[|ds| - 1];
      var init := ds[..|ds| - 1];
      assert forall k :: 0 <= k < |init| ==> init[k] == ds[k];
      var h := FloorHistogram(init, binsize, cutoff, nrBins);
      assert Binnable(d, binsize, cutoff, nrBins);
      if d > cutoff then h else Bump(h, Floor(d / binsize))
  }

  /** `floor(d / b)` is `i` exactly when `d` lies in `[i b, (i+1) b)`. */
  lemma FloorBin(d: real, binsize: real, i: int)
    requires binsize > 0.0
    ensures Floor(d / binsize) == i <==> i as real * binsize <= d < (i + 1) as real * binsize
  {
    var q := d / binsize;
    QuotientBin(d, binsize, q, Floor(q), i);
  }

  /** With `d = q b` and `f <= q < f + 1`, `f` is the only `i` with `d` in `[i b, (i+1) b)`. */
  lemma QuotientBin(d: real, b: real, q: real, f: int, i: int)
    requires b > 0.0 && q * b == d && f as real <= q < f as real + 1.0
    ensures f == i <==> i as real * b <= d < (i + 1) as real * b
  {
    Between(d, b, q, f as real, (f + 1) as real);
    if i as real * b <= d < (i + 1) as real * b {
      BinUnique(d, b, f, i);
    }
  }

  /** The bins `[i b, (i+1) b)` do not overlap. */
  lemma BinUnique(d: real, b: real, f: int, i: int)
    requires b > 0.0
    requires f as real * b <= d < (f + 1) as real * b
    requires i as real * b <= d < (i + 1) as real * b
    ensures f == i
  {
    if i < f {
      BelowEdge(d, b, (i + 1) as real, f as real);
    } else if i > f {
      BelowEdge(d, b, (f + 1) as real, i as real);
    }
  }

  /** Every distance up to the cutoff has an in-range bin when it is below `nr_bins * binsize`. */
  lemma BinnableBelow(d: real, binsize: real, cutoff: real, nrBins: nat)
    requires binsize > 0.0 && 0.0 <= d < nrBins as real * binsize
    ensures Binnable(d, binsize, cutoff, nrBins)
  {
    var f := Floor(d / binsize);
    FloorBin(d, binsize, f);
    if f >= nrBins {
      ScaleLe(nrBins as real, f as real, binsize);
    }
  }

  /**
   * Bin `i` holds exactly the distances in `[i b, (i+1) b)` (when none exceeds the
   * cutoff): the floor index picks one bin per distance.
   */
  lemma {:induction false} FloorHistogramCounts(ds: seq<real>, binsize: real, cutoff: real, nrBins: nat, i: nat)
    requires binsize > 0.0 && i < nrBins
    requires forall k :: 0 <= k < |ds| ==> Binnable(ds[k], binsize, cutoff, nrBins) && ds[k] <= cutoff
    ensures FloorHistogram(ds, binsize, cutoff, nrBins)[i] == CountIn(ds, i as real * binsize, (i + 1) as real * binsize)
  {
    if ds != [] {
      var d := ds[|ds| - 1];
      FloorHistogramCounts(ds[..|ds| - 1], binsize, cutoff, nrBins, i);
      FloorBin(d, binsize, i);
    }
  }

  /** Counts are conserved: each distance not above the cutoff adds exactly one to the total. */
  lemma {:induction false} FloorHistogramSum(ds: seq<real>, binsize: real, cutoff: real, nrBins: nat)
    requires binsize > 0.0
    requires forall k :: 0 <= k < |ds| ==> Binnable(ds[k], binsize, cutoff, nrBins) && ds[k] <= cutoff
    ensures Sum(FloorHistogram(ds, binsize, cutoff, nrBins)) == |ds|
  {
    if ds == [] {
      SumZeros(nrBins);
    } else {
      var init := ds[..|ds| - 1];
      FloorHistogramSum(init, binsize, cutoff, nrBins);
      SumBump(FloorHistogram(init, binsize, cutoff, nrBins), Floor(ds[|ds| - 1] / binsize));
    }
  }

  /** The binning loop over the distance list, incrementing `rdf[1, floor(d / b)]`. */
  method BinByFloor(ds: seq<real>, binsize: real, cutoff: real, rdf: array2<real>)
    requires binsize > 0.0 && rdf.Length0 == 3
    requires forall k :: 0 <= k < |ds| ==> Binnable(ds[k], binsize, cutoff, rdf.Length1)
    requires forall i :: 0 <= i < rdf.Length1 ==> rdf[1, i] == 0.0
    modifies rdf
    ensures forall i :: 0 <= i < rdf.Length1 ==>
      rdf[1, i] == FloorHistogram(ds, binsize, cutoff, rdf.Length1)[i] as real &&
      rdf[0, i] == old(rdf[0, i]) && rdf[2, i] == old(rdf[2, i])
  {
    var n := 0;
    while n < |ds|
      invariant 0 <= n <= |ds|
      invariant forall i :: 0 <= i < rdf.Length1 ==>
        rdf[1, i] == FloorHistogram(ds[..n], binsize, cutoff, rdf.Length1)[i] as real &&
        rdf[0, i] == old(rdf[0, i]) && rdf[2, i] == old(rdf[2, i])
    {
      var d := ds[n];
      assert ds[..n + 1][..n] == ds[..n];
      if d > cutoff {
        // do not count distances larger than the cutoff
        n := n + 1;
        continue;
      }
      var bin := Floor(d / binsize);
      rdf[1, bin] := rdf[1, bin] + 1.0;
      n := n + 1;
    }
    assert ds[..|ds|] == ds;
  }

  // ---------------------------------------------------------------------------
  // Shell volumes and normalisation
  // ---------------------------------------------------------------------------

  lemma ShellCubes(x: real, b: real)
    ensures Cube(x * b) - Cube((x - 1.0) * b) == (b * b * b) * (3.0 * x * x - 3.0 * x + 1.0)
  {
  }

  /**
   * `4/3 pi ((i b)^3 - ((i-1) b)^3)`: the closed form `4/3 pi b^3 (3i^2 - 3i + 1)`, which
   * is positive for every integer `i`, bin 0 included.
   */
  function ShellVolume(pi: real, binsize: real, i: nat): (v: real)
    ensures v == 4.0 / 3.0 * pi * (binsize * binsize * binsize) * (3.0 * (i as real) * (i as real) - 3.0 * (i as real) + 1.0)
    ensures pi > 0.0 && binsize > 0.0 ==> v > 0.0
  {
    var x := i as real;
    var b := binsize;
    ShellCubes(x, b);
    assert (i - 1) as real == x - 1.0;
    assert 3.0 * x * x - 3.0 * x + 1.0 >= 1.0 by {
      if i > 0 {
        assert x * x >= x;
      }
    }
    assert pi > 0.0 && b > 0.0 ==> 4.0 / 3.0 * pi * (b * b * b) > 0.0;
    4.0 / 3.0 * pi * (Cube(i as real * binsize) - Cube((i - 1) as real * binsize))
  }

  /**
   * The volume of the band bin `i` counts, `[i b, (i+1) b)`: `4/3 pi b^3 (3i^2 + 3i + 1)`,
   * positive for every bin.
   */
  function BinVolume(pi: real, binsize: real, i: nat): (v: real)
    ensures v == 4.0 / 3.0 * pi * (binsize * binsize * binsize) * (3.0 * (i as real) * (i as real) + 3.0 * (i as real) + 1.0)
    ensures pi > 0.0 && binsize > 0.0 ==> v > 0.0
  {
    var x := (i + 1) as real;
    ShellCubes(x, binsize);
    assert x - 1.0 == i as real;
    assert 3.0 * x * x - 3.0 * x + 1.0 == 3.0 * (i as real) * (i as real) + 3.0 * (i as real) + 1.0;
    assert 3.0 * (i as real) * (i as real) + 3.0 * (i as real) + 1.0 >= 1.0;
    assert pi > 0.0 && binsize > 0.0 ==> 4.0 / 3.0 * pi * (binsize * binsize * binsize) > 0.0;
    4.0 / 3.0 * pi * (Cube((i + 1) as real * binsize) - Cube(i as real * binsize))
  }

  /** The volumes of the first `k` bands. */
  function VolumeSum(pi: real, binsize: real, k: nat): real
  {
    if k == 0 then 0.0 else VolumeSum(pi, binsize, k - 1) + BinVolume(pi, binsize, k - 1)
  }

  /** The bands of the first `k` bins fill the ball of radius `k b` exactly. */
  lemma {:induction false} BinVolumesTile(pi: real, binsize: real, k: nat)
    ensures VolumeSum(pi, binsize, k) == 4.0 / 3.0 * pi * Cube(k as real * binsize)
  {
    if k > 0 {
      BinVolumesTile(pi, binsize, k - 1);
      assert ((k - 1) + 1) as real * binsize == k as real * binsize;
    } else {
      assert Cube(0 as real * binsize) == 0.0;
    }
  }

  /** The volume divided into bin `i` is the band of bin `i - 1`: one bin behind. */
  lemma ShellVolumeLagsBin(pi: real, binsize: real, i: nat)
    ensures ShellVolume(pi, binsize, i + 1) == BinVolume(pi, binsize, i)
  {
    assert ((i + 1) - 1) as real == i as real;
  }

  /** With `binsize = 1`, bin 1 counts `[1, 2)` of volume `28/3 pi`, but is divided by `4/3 pi`. */
  lemma ShellVolumeMismatch(pi: real)
    requires pi > 0.0
    ensures ShellVolume(pi, 1.0, 1) == 4.0 / 3.0 * pi
    ensures BinVolume(pi, 1.0, 1) == 28.0 / 3.0 * pi
    ensures ShellVolume(pi, 1.0, 1) != BinVolume(pi, 1.0, 1)
  {
  }

  /** The volume loop: `rdf[2, i]` for every bin. */
  method FillVolumes(pi: real, binsize: real, rdf: array2<real>)
    requires rdf.Length0 == 3
    modifies rdf
    ensures forall i :: 0 <= i < rdf.Length1 ==>
      rdf[2, i] == ShellVolume(pi, binsize, i) && rdf[0, i] == old(rdf[0, i]) && rdf[1, i] == old(rdf[1, i])
  {
    var i := 0;
    while i < rdf.Length1
      invariant 0 <= i <= rdf.Length1
      invariant forall c :: 0 <= c < rdf.Length1 ==> rdf[0, c] == old(rdf[0, c]) && rdf[1, c] == old(rdf[1, c])
      invariant forall c :: 0 <= c < i ==> rdf[2, c] == ShellVolume(pi, binsize, c)
    {
      rdf[2, i] := ShellVolume(pi, binsize, i);
      i := i + 1;
    }
  }

  /** The last loop: the bin centre `(i + 0.5) b` in row 0, and row 1 divided by the volume. */
  method Normalise(binsize: real, rdf: array2<real>)
    requires rdf.Length0 == 3
    requires forall i :: 0 <= i < rdf.Length1 ==> rdf[2, i] != 0.0
    modifies rdf
    ensures forall i :: 0 <= i < rdf.Length1 ==>
      rdf[0, i] == BinCentre(binsize, i) && rdf[1, i] == old(rdf[1, i]) / old(rdf[2, i]) && rdf[2, i] == old(rdf[2, i])
  {
    var i := 0;
    while i < rdf.Length1
      invariant 0 <= i <= rdf.Length1
      invariant forall c :: 0 <= c < rdf.Length1 ==> rdf[2, c] == old(rdf[2, c])
      invariant forall c :: 0 <= c < i ==> rdf[0, c] == BinCentre(binsize, c)
      invariant forall c :: 0 <= c < i ==> rdf[1, c] == old(rdf[1, c]) / old(rdf[2, c])
      invariant forall c :: i <= c < rdf.Length1 ==> rdf[1, c] == old(rdf[1, c])
    {
      var centre := BinCentre(binsize, i);
      var ratio := rdf[1, i] / rdf[2, i];
      assert ratio == old(rdf[1, i]) / old(rdf[2, i]);
      rdf[0, i] := centre;
      rdf[1, i] := ratio;
      i := i + 1;
    }
  }

  // ---------------------------------------------------------------------------
  // The whole computation
  // ---------------------------------------------------------------------------

  /** The kept distances of a snapshot: all pairs `i < j` closer than the cutoff. */
  function SnapshotDistances(norm: Vec3 -> real, atoms: seq<Vec3>, cutoff: real): seq<real>
  {
    Kept(norm, atoms, cutoff, UpperPairs(|atoms|))
  }

  /** Every kept distance can be binned, and the `> cutoff` skip never applies to one. */
  lemma SnapshotDistancesBinnable(norm: Vec3 -> real, atoms: seq<Vec3>, binsize: real, cutoff: real, ds: seq<real>)
    requires IsNorm(norm) && binsize > 0.0 && cutoff >= 0.0
    requires ds == SnapshotDistances(norm, atoms, cutoff)
    ensures forall k :: 0 <= k < |ds| ==> Binnable(ds[k], binsize, cutoff, BinCount(cutoff, binsize)) && ds[k] < cutoff
  {
    KeptBounds(norm, atoms, cutoff, UpperPairs(|atoms|));
    forall k | 0 <= k < |ds|
      ensures Binnable(ds[k], binsize, cutoff, BinCount(cutoff, binsize))
    {
      BinnableBelow(ds[k], binsize, cutoff, BinCount(cutoff, binsize));
    }
  }

  /**
   * `calculate_rdf(atoms, binsize, cutoff)`: row 0 holds the bin centres, row 2 the shell
   * volumes, row 1 the number of kept distances in `[i b, (i+1) b)` over the volume,
   * which is never negative.
   */
  method CalculateRdf(norm: Vec3 -> real, pi: real, atoms: seq<Vec3>, binsize: real, cutoff: real) returns (rdf: array2<real>)
    requires IsNorm(norm) && pi > 0.0 && binsize > 0.0 && cutoff >= 0.0
    ensures fresh(rdf) && rdf.Length0 == 3 && rdf.Length1 == BinCount(cutoff, binsize)
    ensures forall i :: 0 <= i < rdf.Length1 ==>
      rdf[0, i] == BinCentre(binsize, i) &&
      rdf[2, i] == ShellVolume(pi, binsize, i) &&
      rdf[1, i] == CountIn(SnapshotDistances(norm, atoms, cutoff), i as real * binsize, (i + 1) as real * binsize) as real / ShellVolume(pi, binsize, i) &&
      rdf[1, i] >= 0.0
  {
    var nrBins := BinCount(cutoff, binsize);
    var distances := PairDistances(norm, atoms, cutoff);
    rdf := new real[3, nrBins]((_, _) => 0.0);
    SnapshotDistancesBinnable(norm, atoms, binsize, cutoff, distances);
    BinByFloor(distances, binsize, cutoff, rdf);
    forall i | 0 <= i < nrBins
      ensures rdf[1, i] == CountIn(distances, i as real * binsize, (i + 1) as real * binsize) as real
    {
      FloorHistogramCounts(distances, binsize, cutoff, nrBins, i);
    }
    FillVolumes(pi, binsize, rdf);
    forall i | 0 <= i < nrBins
      ensures rdf[2, i] > 0.0
    {
      assert rdf[2, i] == ShellVolume(pi, binsize, i);
    }
    Normalise(binsize, rdf);
  }
}
