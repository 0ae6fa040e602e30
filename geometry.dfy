/**
 * Positions, lattice cells and the rounding operations the three RDF programs apply to
 * ratios of lengths. Coordinates are exact reals; the Euclidean norm, which needs a
 * square root, is passed around as a function `norm` that is only required to be
 * non-negative.
 */
module Geometry {

  /** A position (a numpy row of three floats, or the C++ `Position` record). */
  datatype Vec3 = Vec3(x: real, y: real, z: real)

  /** A unit cell: its rows are the three lattice vectors. */
  datatype Mat3 = Mat3(a: Vec3, b: Vec3, c: Vec3)

  function Add(u: Vec3, v: Vec3): Vec3 {
    Vec3(u.x + v.x, u.y + v.y, u.z + v.z)
  }

  function Sub(u: Vec3, v: Vec3): Vec3 {
    Vec3(u.x - v.x, u.y - v.y, u.z - v.z)
  }

  function Scale(k: real, v: Vec3): Vec3 {
    Vec3(k * v.x, k * v.y, k * v.z)
  }

  /** `atom + numpy.array([p, q, r])`: shift a fractional position by whole cells. */
  function Shift(v: Vec3, p: int, q: int, r: int): Vec3 {
    Add(v, Vec3(p as real, q as real, r as real))
  }

  /** `v.dot(unitcell)`: a row vector of fractional coordinates times the cell matrix. */
  function ToCartesian(v: Vec3, cell: Mat3): Vec3 {
    Add(Add(Scale(v.x, cell.a), Scale(v.y, cell.b)), Scale(v.z, cell.c))
  }

  /** What the model asks of the norm function standing in for the square root. */
  ghost predicate IsNorm(norm: Vec3 -> real) {
    forall v :: norm(v) >= 0.0
  }

  /** The distance between two positions under `norm`. */
  function Distance(norm: Vec3 -> real, u: Vec3, v: Vec3): real {
    norm(Sub(u, v))
  }

  /** `math.ceil` on a real, as an integer. */
  function Ceil(x: real): (c: int)
    ensures (c - 1) as real < x <= c as real
    ensures x <= 0.0 ==> c <= 0
    ensures x > 0.0 ==> c >= 1
  {
    -((-x).Floor)
  }

  /** `math.floor` on a real, as an integer. */
  function Floor(x: real): (f: int)
    ensures f as real <= x < f as real + 1.0
    ensures x >= 0.0 ==> f >= 0
  {
    x.Floor
  }

  /** A C++ cast of a non-negative float to `size_t`: truncation toward zero. */
  function TruncNonNeg(x: real): (t: nat)
    requires x >= 0.0
    ensures t as real <= x < t as real + 1.0
  {
    x.Floor
  }

  /** On non-negative values the truncating cast and the floor agree. */
  lemma TruncIsFloor(x: real)
    requires x >= 0.0
    ensures TruncNonNeg(x) == Floor(x)
  {
  }

  /** `int(math.ceil(cutoff / binsize))`: the bins reach the cutoff and no whole bin lies beyond it. */
  function BinCount(cutoff: real, binsize: real): (nrBins: nat)
    requires cutoff >= 0.0 && binsize > 0.0
    ensures (nrBins as real - 1.0) * binsize < cutoff <= nrBins as real * binsize
  {
    var q := cutoff / binsize;
    var c := Ceil(q);
    CeilBin(cutoff, binsize, q, c);
    c
  }

  /** With `x = q b` and `c - 1 < q <= c`, `x` lies in `((c - 1) b, c b]`. */
  lemma CeilBin(x: real, b: real, q: real, c: int)
    requires b > 0.0 && q * b == x && (c - 1) as real < q <= c as real
    ensures (c as real - 1.0) * b < x <= c as real * b
  {
    Above(x, b, q, c as real - 1.0);
    ScaleLe(q, c as real, b);
  }

  /** Scaling by a positive factor keeps `<=`. */
  lemma ScaleLe(x: real, y: real, b: real)
    requires b > 0.0 && x <= y
    ensures x * b <= y * b
  {
    assert (y - x) * b >= 0.0;
  }

  /** Scaling by a positive factor keeps `<`. */
  lemma ScaleLess(x: real, y: real, b: real)
    requires b > 0.0 && x < y
    ensures x * b < y * b
  {
    assert (y - x) * b > 0.0;
  }

  /** A point below `hi b` is below `lo b` for every `lo >= hi`. */
  lemma BelowEdge(d: real, b: real, hi: real, lo: real)
    requires b > 0.0 && d < hi * b && hi <= lo
    ensures d < lo * b
  {
    ScaleLe(hi, lo, b);
  }

  /** `lo < q` scales to `lo b < q b`. */
  lemma Above(d: real, b: real, q: real, lo: real)
    requires b > 0.0 && q * b == d && lo < q
    ensures lo * b < d
  {
    ScaleLess(lo, q, b);
  }

  /** `lo <= q < hi` scales to `lo b <= q b < hi b`. */
  lemma Between(d: real, b: real, q: real, lo: real, hi: real)
    requires b > 0.0 && q * b == d && lo <= q < hi
    ensures lo * b <= d < hi * b
  {
    ScaleLe(lo, q, b);
    ScaleLess(q, hi, b);
  }

  /** The reported radius of bin `i`: `(i + 0.5) * binsize`, strictly inside `[i b, (i+1) b)`. */
  function BinCentre(binsize: real, i: nat): (c: real)
    ensures binsize > 0.0 ==> i as real * binsize < c < (i + 1) as real * binsize
  {
    (i as real + 0.5) * binsize
  }

  /** The cube, as `r**3` and `std::pow(r, 3)` compute it. */
  function Cube(r: real): real {
    r * r * r
  }
}
