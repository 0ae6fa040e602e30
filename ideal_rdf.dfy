/**
 * The lattice RDF program: distances from every basis atom to the other basis atoms
 * (`j > i`) and to every expanded periodic image, sorted, then swept into bins by a
 * single forward cursor, and finally divided by the shell volumes.
 *
 * The result matrix `rdf` has three rows, as in the program: row 0 the bin position,
 * row 1 the count (later the count over the volume), row 2 the shell volume.
 */
module IdealRdf {
  import opened Geometry
  import opened Counting
  import opened LatticeImages

  // ---------------------------------------------------------------------------
  // Distances (basis pairs and basis-to-image pairs)
  // ---------------------------------------------------------------------------

  /** One appended distance: basis atom `i` to basis atom `j`, or to expanded row `j`. */
  datatype LatticePair = Basis(i: nat, j: nat) | ToImage(i: nat, j: nat)

  /** The first inner loop: basis partners `lo <= j < hi` of atom `i`. */
  function BasisRow(i: nat, lo: nat, hi: nat): seq<LatticePair>
  {
    seq(if hi <= lo then 0 else hi - lo, k requires 0 <= k => Basis(i, lo + k))
  }

  /** The second inner loop: the expanded rows `0 <= j < hi` as partners of atom `i`. */
  function ImageRow(i: nat, hi: nat): seq<LatticePair>
  {
    seq(hi, k requires 0 <= k => ToImage(i, k))
  }

  /** One round `i` of the outer loop: the basis partners `j > i`, then every expanded row. */
  function Round(n: nat, m: nat, i: nat): seq<LatticePair>
  {
    BasisRow(i, i + 1, n) + ImageRow(i, m)
  }

  /** The pairs appended by the first `k` rounds of the outer loop over `n` basis atoms and `m` images. */
  function LatticeTags(n: nat, m: nat, k: nat): seq<LatticePair>
  {
    if k == 0 then [] else LatticeTags(n, m, k - 1) + Round(n, m, k - 1)
  }

  /** `numpy.linalg.norm(p1 - p2)` for the pair a tag stands for (0 for a tag out of range). */
  function PairDistance(norm: Vec3 -> real, cell: Mat3, atoms: seq<Vec3>, expanded: seq<Vec3>, t: LatticePair): real
  {
    match t
    case Basis(i, j) =>
      if i < |atoms| && j < |atoms| then Distance(norm, ToCartesian(atoms[i], cell), ToCartesian(atoms[j], cell)) else 0.0
    case ToImage(i, j) =>
      if i < |atoms| && j < |expanded| then Distance(norm, ToCartesian(atoms[i], cell), ToCartesian(expanded[j], cell)) else 0.0
  }

  /** The distance list for a sequence of tags. */
  function Measured(norm: Vec3 -> real, cell: Mat3, atoms: seq<Vec3>, expanded: seq<Vec3>, tags: seq<LatticePair>): (ds: seq<real>)
    ensures |ds| == |tags|
  {
    seq(|tags|, k requires 0 <= k < |tags| => PairDistance(norm, cell, atoms, expanded, tags[k]))
  }

  /** The basis row of atom `i` holds the basis pairs `(i, j)` with `lo <= j < hi`. */
  lemma BasisRowHas(i: nat, lo: nat, hi: nat, t: LatticePair)
    ensures t in BasisRow(i, lo, hi) <==> t.Basis? && t.i == i && lo <= t.j < hi
  {
    if t.Basis? && t.i == i && lo <= t.j < hi {
      assert BasisRow(i, lo, hi)[t.j - lo] == t;
    }
  }

  /** One more turn of the first inner loop appends `(i, hi)`. */
  lemma BasisRowSnoc(i: nat, lo: nat, hi: nat)
    requires lo <= hi
    ensures BasisRow(i, lo, hi + 1) == BasisRow(i, lo, hi) + [Basis(i, hi)]
  {
  }

  /** The image row of atom `i` holds the image pairs `(i, j)` with `j < hi`. */
  lemma ImageRowHas(i: nat, hi: nat, t: LatticePair)
    ensures t in ImageRow(i, hi) <==> t.ToImage? && t.i == i && t.j < hi
  {
    if t.ToImage? && t.i == i && t.j < hi {
      assert ImageRow(i, hi)[t.j] == t;
    }
  }

  /** One more turn of the second inner loop appends `(i, hi)`. */
  lemma ImageRowSnoc(i: nat, hi: nat)
    ensures ImageRow(i, hi + 1) == ImageRow(i, hi) + [ToImage(i, hi)]
  {
  }

  /** A pair the first `k` outer rounds append. */
  predicate Appended(n: nat, m: nat, k: nat, t: LatticePair) {
    t.i < k && (t.Basis? ==> t.i < t.j < n) && (t.ToImage? ==> t.j < m)
  }

  lemma RoundHas(n: nat, m: nat, i: nat, t: LatticePair)
    ensures t in Round(n, m, i) <==> (t.Basis? && t.i == i && i < t.j < n) || (t.ToImage? && t.i == i && t.j < m)
  {
    BasisRowHas(i, i + 1, n, t);
    ImageRowHas(i, m, t);
  }

  /** A pair is in rounds `0 .. k - 1` exactly when it is in rounds `0 .. k - 2` or in round `k - 1`. */
  lemma AppendedStep(n: nat, m: nat, k: nat, t: LatticePair, inPrev: bool, inRound: bool)
    requires 0 < k <= n
    requires inPrev <==> Appended(n, m, k - 1, t)
    requires inRound <==> (t.Basis? && t.i == k - 1 && k - 1 < t.j < n) || (t.ToImage? && t.i == k - 1 && t.j < m)
    ensures inPrev || inRound <==> Appended(n, m, k, t)
  {
  }

  lemma {:induction false} LatticeTagsHas(n: nat, m: nat, k: nat, t: LatticePair)
    requires k <= n
    ensures t in LatticeTags(n, m, k) <==> Appended(n, m, k, t)
  {
    if k > 0 {
      var prev := LatticeTags(n, m, k - 1);
      var round := Round(n, m, k - 1);
      LatticeTagsHas(n, m, k - 1, t);
      RoundHas(n, m, k - 1, t);
      AppendedStep(n, m, k, t, t in prev, t in round);
      assert t in LatticeTags(n, m, k) <==> t in prev || t in round;
    }
  }

  /**
   * After `k` outer rounds, a pair has been appended exactly when its first atom is
   * below `k` and it is either a basis pair with `i < j < n` or an image pair with `j < m`:
   * no atom is paired with itself and no basis pair is taken twice.
   */
  lemma LatticeTagsMembers(n: nat, m: nat, k: nat)
    requires k <= n
    ensures forall t :: t in LatticeTags(n, m, k) <==>
      t.i < k && (t.Basis? ==> t.i < t.j < n) && (t.ToImage? ==> t.j < m)
  {
    forall t: LatticePair
      ensures t in LatticeTags(n, m, k) <==> t.i < k && (t.Basis? ==> t.i < t.j < n) && (t.ToImage? ==> t.j < m)
    {
      LatticeTagsHas(n, m, k, t);
    }
  }

  /** After `k` outer rounds there are `k(2n-k-1)/2` basis pairs and `k*m` image pairs. */
  lemma {:induction false} LatticeTagsLength(n: nat, m: nat, k: nat)
    requires k <= n
    ensures 2 * |LatticeTags(n, m, k)| == k * (2 * n - k - 1) + 2 * k * m
  {
    if k > 0 {
      LatticeTagsLength(n, m, k - 1);
      var prev := |LatticeTags(n, m, k - 1)|;
      assert |Round(n, m, k - 1)| == (n - k) + m;
      TriangleStep(n, m, k);
    }
  }

  lemma TriangleStep(n: nat, m: nat, k: nat)
    requires 1 <= k <= n
    ensures (k - 1) * (2 * n - k) + 2 * (k - 1) * m + 2 * ((n - k) + m) == k * (2 * n - k - 1) + 2 * k * m
  {
    var j := 2 * n - k;
    assert k * (j - 1) == k * j - k;
    assert (k - 1) * j == k * j - j;
    assert 2 * k * m == 2 * (k - 1) * m + 2 * m;
  }

  /** The whole distance list: `n(n-1)/2` basis pairs plus `n*m` image pairs. */
  lemma LatticeDistanceCount(n: nat, m: nat)
    ensures 2 * |LatticeTags(n, m, n)| == n * (n - 1) + 2 * n * m
  {
    LatticeTagsLength(n, m, n);
  }

  lemma MeasuredSnoc(norm: Vec3 -> real, cell: Mat3, atoms: seq<Vec3>, expanded: seq<Vec3>, tags: seq<LatticePair>, t: LatticePair)
    ensures Measured(norm, cell, atoms, expanded, tags + [t]) == Measured(norm, cell, atoms, expanded, tags) + [PairDistance(norm, cell, atoms, expanded, t)]
  {
    var lhs := Measured(norm, cell, atoms, expanded, tags + [t]);
    var rhs := Measured(norm, cell, atoms, expanded, tags) + [PairDistance(norm, cell, atoms, expanded, t)];
    forall k | 0 <= k < |lhs|
      ensures lhs[k] == rhs[k]
    {
      if k == |tags| {
        assert (tags + [t])[k] == t;
      } else {
        assert (tags + [t])[k] == tags[k];
      }
    }
  }

  lemma TagsAssoc(a: seq<LatticePair>, b: seq<LatticePair>, c: seq<LatticePair>)
    ensures a + b + c == a + (b + c)
  {
  }

  /** The first inner loop: distances from basis atom `i` to the basis atoms `j > i`. */
  method AppendBasisDistances(norm: Vec3 -> real, cell: Mat3, atoms: seq<Vec3>, expanded: seq<Vec3>, i: nat,
                              ghost before: seq<LatticePair>, prefix: seq<real>) returns (distances: seq<real>)
    requires i < |atoms|
    requires prefix == Measured(norm, cell, atoms, expanded, before)
    ensures distances == Measured(norm, cell, atoms, expanded, before + BasisRow(i, i + 1, |atoms|))
  {
    var p1 := ToCartesian(atoms[i], cell);
    distances := prefix;
    ghost var tags := before;
    var j := i + 1;
    while j < |atoms|
      invariant i + 1 <= j <= |atoms|
      invariant tags == before + BasisRow(i, i + 1, j)
      invariant distances == Measured(norm, cell, atoms, expanded, tags)
    {
      var p2 := ToCartesian(atoms[j], cell);
      MeasuredSnoc(norm, cell, atoms, expanded, tags, Basis(i, j));
      TagsAssoc(before, BasisRow(i, i + 1, j), [Basis(i, j)]);
      BasisRowSnoc(i, i + 1, j);
      distances := distances + [norm(Sub(p1, p2))];
      tags := tags + [Basis(i, j)];
      j := j + 1;
    }
  }

  /** The second inner loop: distances from basis atom `i` to every expanded row. */
  method AppendImageDistances(norm: Vec3 -> real, cell: Mat3, atoms: seq<Vec3>, expanded: seq<Vec3>, i: nat,
                              ghost before: seq<LatticePair>, prefix: seq<real>) returns (distances: seq<real>)
    requires i < |atoms|
    requires prefix == Measured(norm, cell, atoms, expanded, before)
    ensures distances == Measured(norm, cell, atoms, expanded, before + ImageRow(i, |expanded|))
  {
    var p1 := ToCartesian(atoms[i], cell);
    distances := prefix;
    ghost var tags := before;
    var j := 0;
    while j < |expanded|
      invariant 0 <= j <= |expanded|
      invariant tags == before + ImageRow(i, j)
      invariant distances == Measured(norm, cell, atoms, expanded, tags)
    {
      var p2 := ToCartesian(expanded[j], cell);
      MeasuredSnoc(norm, cell, atoms, expanded, tags, ToImage(i, j));
      TagsAssoc(before, ImageRow(i, j), [ToImage(i, j)]);
      ImageRowSnoc(i, j);
      distances := distances + [norm(Sub(p1, p2))];
      tags := tags + [ToImage(i, j)];
      j := j + 1;
    }
  }

  /**
   * The distance loops: for each basis atom `i`, first the basis atoms `j > i`, then
   * every expanded row, each appending one distance.
   */
  method LatticeDistances(norm: Vec3 -> real, cell: Mat3, atoms: seq<Vec3>, expanded: seq<Vec3>) returns (distances: seq<real>)
    ensures distances == Measured(norm, cell, atoms, expanded, LatticeTags(|atoms|, |expanded|, |atoms|))
  {
    distances := [];
    var i := 0;
    while i < |atoms|
      invariant 0 <= i <= |atoms|
      invariant distances == Measured(norm, cell, atoms, expanded, LatticeTags(|atoms|, |expanded|, i))
    {
      ghost var start := LatticeTags(|atoms|, |expanded|, i);
      distances := AppendBasisDistances(norm, cell, atoms, expanded, i, start, distances);
      distances := AppendImageDistances(norm, cell, atoms, expanded, i, start + BasisRow(i, i + 1, |atoms|), distances);
      TagsAssoc(start, BasisRow(i, i + 1, |atoms|), ImageRow(i, |expanded|));
      i := i + 1;
    }
  }

  // ---------------------------------------------------------------------------
  // Cursor binning over the sorted distances
  // ---------------------------------------------------------------------------

  /** The lower edge `(i - 0.5) b` of bin `i`; bin `i` ends where bin `i + 1` begins, at `(i + 0.5) b`. */
  function LowerEdge(binsize: real, i: int): real
  {
    (i as real - 0.5) * binsize
  }

  lemma EdgesIncrease(binsize: real, i: int, j: int)
    requires binsize > 0.0 && i <= j
    ensures LowerEdge(binsize, i) <= LowerEdge(binsize, j)
  {
    assert LowerEdge(binsize, j) - LowerEdge(binsize, i) == (j - i) as real * binsize;
  }

  /** How many distances the sweep puts in bin `i`: `(i-0.5)b <= d < (i+0.5)b`, and `d < 0.5b` for bin 0. */
  function SweepCount(ds: seq<real>, binsize: real, i: nat): nat
  {
    if i == 0 then CountBelow(ds, LowerEdge(binsize, 1))
    else CountIn(ds, LowerEdge(binsize, i), LowerEdge(binsize, i + 1))
  }

  /** A bin's count does not depend on the order of the distances, so sorting changes none. */
  lemma SweepCountPermutation(a: seq<real>, b: seq<real>, binsize: real, i: nat)
    requires binsize > 0.0 && multiset(a) == multiset(b)
    ensures SweepCount(a, binsize, i) == SweepCount(b, binsize, i)
  {
    if i == 0 {
      CountBelowPermutation(a, b, LowerEdge(binsize, 1));
    } else {
      EdgesIncrease(binsize, i, i + 1);
      CountInPermutation(a, b, LowerEdge(binsize, i), LowerEdge(binsize, i + 1));
    }
  }

  /** The counts of the first `k` bins. */
  function SweepCounts(ds: seq<real>, binsize: real, k: nat): (h: seq<nat>)
    ensures |h| == k
  {
    if k == 0 then [] else SweepCounts(ds, binsize, k - 1) + [SweepCount(ds, binsize, k - 1)]
  }

  /**
   * The bins tile the line below `(k-0.5)b` without gaps or overlaps: the first `k`
   * counts add up to the number of distances below that edge, which is where the
   * cursor stands after bin `k-1`.
   */
  lemma {:induction false} SweepCountsTelescope(ds: seq<real>, binsize: real, k: nat)
    requires binsize > 0.0 && k >= 1
    ensures Sum(SweepCounts(ds, binsize, k)) == CountBelow(ds, LowerEdge(binsize, k))
  {
    var h := SweepCounts(ds, binsize, k);
    assert h[..k - 1] == SweepCounts(ds, binsize, k - 1);
    if k > 1 {
      SweepCountsTelescope(ds, binsize, k - 1);
      EdgesIncrease(binsize, k - 1, k);
      CountBelowSplit(ds, LowerEdge(binsize, k - 1), LowerEdge(binsize, k));
    }
  }

  /** The shell between `(x - 0.5) b` and `(x + 0.5) b`, cubed radii: `b^3 (3x^2 + 1/4)`. */
  lemma ShellCubes(x: real, b: real)
    ensures Cube((x + 0.5) * b) - Cube((x - 0.5) * b) == (b * b * b) * (3.0 * x * x + 0.25)
  {
  }

  /**
   * `4/3 pi (r2^3 - r1^3)` with `r1 = (i-0.5)b` and `r2 = (i+0.5)b`: the closed form
   * `4/3 pi b^3 (3i^2 + 1/4)`, which is positive, so the later division is defined.
   */
  function SweepVolume(pi: real, binsize: real, i: nat): (v: real)
    ensures v == 4.0 / 3.0 * pi * (binsize * binsize * binsize) * (3.0 * (i as real) * (i as real) + 0.25)
    ensures pi > 0.0 && binsize > 0.0 ==> v > 0.0
  {
    var x := i as real;
    var b := binsize;
    assert LowerEdge(b, i + 1) == (x + 0.5) * b;
    ShellCubes(x, b);
    assert pi > 0.0 && b > 0.0 ==> 4.0 / 3.0 * pi * (b * b * b) > 0.0;
    4.0 / 3.0 * pi * (Cube(LowerEdge(binsize, i + 1)) - Cube(LowerEdge(binsize, i)))
  }

  /** Some distance in `ds` is at least `e`. */
  predicate Reaches(ds: seq<real>, e: real) {
    exists k :: 0 <= k < |ds| && ds[k] >= e
  }

  /**
   * The bin loop with its cursor `idx` over the sorted distances. `rdf[1, i]` counts up
   * while `distances[idx]` is below the upper edge of bin `i`; reading past the end of
   * the list raises `IndexError`, reported here as `ok == false`. That happens exactly
   * when no distance reaches the upper edge `(nr_bins - 0.5) b` of the last bin.
   */
  method SweepBins(ds: seq<real>, binsize: real, pi: real, rdf: array2<real>) returns (ok: bool)
    requires Sorted(ds) && binsize > 0.0
    requires rdf.Length0 == 3
    requires forall i :: 0 <= i < rdf.Length1 ==> rdf[1, i] == 0.0
    modifies rdf
    ensures ok <==> rdf.Length1 == 0 || Reaches(ds, LowerEdge(binsize, rdf.Length1))
    ensures ok ==> forall i :: 0 <= i < rdf.Length1 ==>
      rdf[0, i] == i as real * binsize && rdf[1, i] == SweepCount(ds, binsize, i) as real && rdf[2, i] == SweepVolume(pi, binsize, i)
  {
    var nrBins := rdf.Length1;
    var idx: nat := 0;
    var i := 0;
    while i < nrBins
      invariant 0 <= i <= nrBins
      invariant idx <= |ds|
      invariant i > 0 ==> idx < |ds| && ds[idx] >= LowerEdge(binsize, i)
      invariant forall t :: 0 <= t < idx ==> ds[t] < LowerEdge(binsize, i)
      invariant forall c :: 0 <= c < i ==>
        rdf[0, c] == c as real * binsize && rdf[1, c] == SweepCount(ds, binsize, c) as real && rdf[2, c] == SweepVolume(pi, binsize, c)
      invariant forall c :: i <= c < nrBins ==> rdf[1, c] == 0.0
      invariant i > 0 ==> idx == CountBelow(ds, LowerEdge(binsize, i))
      invariant i == 0 ==> idx == 0
    {
      rdf[0, i] := i as real * binsize;
      var r1 := LowerEdge(binsize, i);
      var r2 := LowerEdge(binsize, i + 1);
      rdf[2, i] := SweepVolume(pi, binsize, i);
      EdgesIncrease(binsize, i, i + 1);
      idx := SweepOneBin(ds, r2, rdf, i, idx);
      if idx == |ds| {
        // `distances[idx]` is read one past the end: every distance lies below `r2`
        CountBelowBound(ds, r2);
        EdgesIncrease(binsize, i + 1, nrBins);
        return false;
      }
      if i > 0 {
        CountBelowSplit(ds, r1, r2);
      }
      i := i + 1;
    }
    return true;
  }

  /**
   * The inner `while` of one bin: advance the cursor past every distance below `r2`,
   * counting in `rdf[1, i]`; it stops at the end of the list, where the source would
   * read out of range.
   */
  method SweepOneBin(ds: seq<real>, r2: real, rdf: array2<real>, i: nat, start: nat) returns (idx: nat)
    requires Sorted(ds) && start <= |ds|
    requires forall t :: 0 <= t < start ==> ds[t] < r2
    requires rdf.Length0 == 3 && i < rdf.Length1 && rdf[1, i] == 0.0
    modifies rdf
    ensures start <= idx <= |ds| && idx == CountBelow(ds, r2)
    ensures forall t :: 0 <= t < idx ==> ds[t] < r2
    ensures idx < |ds| ==> ds[idx] >= r2
    ensures rdf[1, i] == (idx - start) as real
    ensures forall c :: 0 <= c < rdf.Length1 ==> rdf[0, c] == old(rdf[0, c]) && rdf[2, c] == old(rdf[2, c])
    ensures forall c :: 0 <= c < rdf.Length1 && c != i ==> rdf[1, c] == old(rdf[1, c])
  {
    idx := start;
    while idx < |ds| && ds[idx] < r2
      invariant start <= idx <= |ds|
      invariant forall t :: 0 <= t < idx ==> ds[t] < r2
      invariant rdf[1, i] == (idx - start) as real
      invariant forall c :: 0 <= c < rdf.Length1 ==> rdf[0, c] == old(rdf[0, c]) && rdf[2, c] == old(rdf[2, c])
      invariant forall c :: 0 <= c < rdf.Length1 && c != i ==> rdf[1, c] == old(rdf[1, c])
    {
      rdf[1, i] := rdf[1, i] + 1.0;
      idx := idx + 1;
    }
    CountBelowSorted(ds, r2, idx);
  }

  /** `rdf[1, i] /= rdf[2, i]` for every bin. */
  method DivideByVolume(rdf: array2<real>)
    requires rdf.Length0 == 3
    requires forall i :: 0 <= i < rdf.Length1 ==> rdf[2, i] != 0.0
    modifies rdf
    ensures forall i :: 0 <= i < rdf.Length1 ==>
      rdf[0, i] == old(rdf[0, i]) && rdf[2, i] == old(rdf[2, i]) && rdf[1, i] == old(rdf[1, i]) / old(rdf[2, i])
  {
    var i := 0;
    while i < rdf.Length1
      invariant 0 <= i <= rdf.Length1
      invariant forall c :: 0 <= c < rdf.Length1 ==> rdf[0, c] == old(rdf[0, c]) && rdf[2, c] == old(rdf[2, c])
      invariant forall c :: 0 <= c < i ==> rdf[1, c] == old(rdf[1, c]) / old(rdf[2, c])
      invariant forall c :: i <= c < rdf.Length1 ==> rdf[1, c] == old(rdf[1, c])
    {
      rdf[1, i] := rdf[1, i] / rdf[2, i];
      i := i + 1;
    }
  }

  // ---------------------------------------------------------------------------
  // The whole computation
  // ---------------------------------------------------------------------------

  /**
   * `calculate_rdf(struc, binsize, cutoff)` for a cell whose rows have positive norm.
   * On success `rdf[1, i]` is the sweep count of bin `i` over its shell volume; the
   * sweep fails (the `IndexError`) exactly when no distance reaches the last bin's upper edge.
   */
  method CalculateIdealRdf(norm: Vec3 -> real, pi: real, cell: Mat3, atoms: seq<Vec3>, binsize: real, cutoff: real)
    returns (ok: bool, rdf: array2<real>)
    requires pi > 0.0 && binsize > 0.0 && cutoff >= 0.0
    requires norm(cell.a) > 0.0 && norm(cell.b) > 0.0 && norm(cell.c) > 0.0
    ensures fresh(rdf) && rdf.Length0 == 3 && rdf.Length1 == BinCount(cutoff, binsize)
    ensures ok <==> rdf.Length1 == 0 || Reaches(IdealDistances(norm, cell, atoms, cutoff), LowerEdge(binsize, rdf.Length1))
    ensures ok ==> forall i :: 0 <= i < rdf.Length1 ==>
      rdf[0, i] == i as real * binsize &&
      rdf[2, i] == SweepVolume(pi, binsize, i) &&
      rdf[1, i] == SweepCount(IdealDistances(norm, cell, atoms, cutoff), binsize, i) as real / SweepVolume(pi, binsize, i)
  {
    var nrBins := BinCount(cutoff, binsize);
    var dp := Ceil(cutoff / norm(cell.a));
    var dq := Ceil(cutoff / norm(cell.b));
    var dr := Ceil(cutoff / norm(cell.c));
    var expanded := ExpandCell(atoms, dp, dq, dr);
    var distances := LatticeDistances(norm, cell, atoms, expanded);
    ghost var unsorted := distances;
    distances := Sort(distances);
    rdf := new real[3, nrBins]((_, _) => 0.0);
    ok := SweepBins(distances, binsize, pi, rdf);
    SortKeepsReach(unsorted, LowerEdge(binsize, nrBins));
    if !ok {
      return;
    }
    forall c | 0 <= c < nrBins
      ensures SweepCount(distances, binsize, c) == SweepCount(unsorted, binsize, c)
    {
      SweepCountPermutation(distances, unsorted, binsize, c);
    }
    DivideByVolume(rdf);
  }

  /** The distance list before sorting, for the cell's image bounds at `cutoff`. */
  function IdealDistances(norm: Vec3 -> real, cell: Mat3, atoms: seq<Vec3>, cutoff: real): seq<real>
    requires norm(cell.a) > 0.0 && norm(cell.b) > 0.0 && norm(cell.c) > 0.0
  {
    var expanded := Shifted(atoms, ImageTags(|atoms|, Ceil(cutoff / norm(cell.a)), Ceil(cutoff / norm(cell.b)), Ceil(cutoff / norm(cell.c))));
    Measured(norm, cell, atoms, expanded, LatticeTags(|atoms|, |expanded|, |atoms|))
  }

  /** Sorting changes no answer to "does some distance reach `e`?". */
  lemma SortKeepsReach(ds: seq<real>, e: real)
    ensures Reaches(ds, e) <==> Reaches(Sort(ds), e)
  {
    var s := Sort(ds);
    if k :| 0 <= k < |ds| && ds[k] >= e {
      assert ds[k] in multiset(s);
      var k' :| 0 <= k' < |s| && s[k'] == ds[k];
    }
    if k :| 0 <= k < |s| && s[k] >= e {
      assert s[k] in multiset(ds);
      var k' :| 0 <= k' < |ds| && ds[k'] == s[k];
    }
  }
}
