/**
 * The periodic-image expansion of the lattice RDF program: every basis atom is copied
 * to every cell offset `(p, q, r)` of the half-open box `[-dp, dp) x [-dq, dq) x [-dr, dr)`
 * except the origin cell, in the order of the four nested loops (p, then q, then r,
 * then the atom index).
 */
module LatticeImages {
  import opened Geometry

  /** One expanded row: basis atom `atom` shifted by the cell offset `(p, q, r)`. */
  datatype Image = Image(p: int, q: int, r: int, atom: nat)

  predicate IsOrigin(p: int, q: int, r: int) {
    p == 0 && q == 0 && r == 0
  }

  /** The innermost loop over the first `k` basis atoms at one offset. */
  function AtomImages(p: int, q: int, r: int, k: nat): seq<Image>
  {
    if k == 0 then [] else AtomImages(p, q, r, k - 1) + [Image(p, q, r, k - 1)]
  }

  /** What one offset contributes: nothing for the origin cell, all `n` atoms otherwise. */
  function OffsetImages(n: nat, p: int, q: int, r: int): seq<Image>
  {
    if IsOrigin(p, q, r) then [] else AtomImages(p, q, r, n)
  }

  /** The `r` loop over `[lo, hi)` at fixed `p`, `q`. */
  function RSpan(n: nat, p: int, q: int, lo: int, hi: int): seq<Image>
    decreases hi - lo
  {
    if hi <= lo then [] else RSpan(n, p, q, lo, hi - 1) + OffsetImages(n, p, q, hi - 1)
  }

  /** The `q` loop over `[lo, hi)` at fixed `p`, each running the full `r` loop. */
  function QSpan(n: nat, p: int, dr: int, lo: int, hi: int): seq<Image>
    decreases hi - lo
  {
    if hi <= lo then [] else QSpan(n, p, dr, lo, hi - 1) + RSpan(n, p, hi - 1, -dr, dr)
  }

  /** The `p` loop over `[lo, hi)`, each running the full `q` loop. */
  function PSpan(n: nat, dq: int, dr: int, lo: int, hi: int): seq<Image>
    decreases hi - lo
  {
    if hi <= lo then [] else PSpan(n, dq, dr, lo, hi - 1) + QSpan(n, hi - 1, dr, -dq, dq)
  }

  /** Every expanded row of `n` basis atoms, in the order the loops produce them. */
  function ImageTags(n: nat, dp: int, dq: int, dr: int): seq<Image>
  {
    PSpan(n, dq, dr, -dp, dp)
  }

  /**
   * The position a tag stands for, `atoms[i] + (p, q, r)`; the loops only produce
   * tags whose atom index is in range (`ImageTagsMembers`), so the origin fallback
   * is never taken for them.
   */
  function ImagePosition(atoms: seq<Vec3>, t: Image): Vec3 {
    if t.atom < |atoms| then Shift(atoms[t.atom], t.p, t.q, t.r) else Vec3(0.0, 0.0, 0.0)
  }

  /** The rows the tags stand for. */
  function Shifted(atoms: seq<Vec3>, tags: seq<Image>): (rows: seq<Vec3>)
    ensures |rows| == |tags|
  {
    seq(|tags|, k requires 0 <= k < |tags| => ImagePosition(atoms, tags[k]))
  }

  /** Loop order: lexicographic in `(p, q, r, atom)`. */
  predicate ImageBefore(s: Image, t: Image) {
    s.p < t.p || (s.p == t.p && (s.q < t.q || (s.q == t.q && (s.r < t.r || (s.r == t.r && s.atom < t.atom)))))
  }

  ghost predicate Ordered(tags: seq<Image>) {
    forall a, b :: 0 <= a < b < |tags| ==> ImageBefore(tags[a], tags[b])
  }

  /** The membership condition of the expansion. */
  predicate InBox(t: Image, n: nat, dp: int, dq: int, dr: int) {
    -dp <= t.p < dp && -dq <= t.q < dq && -dr <= t.r < dr && t.atom < n && !IsOrigin(t.p, t.q, t.r)
  }

  lemma {:induction false} AtomImagesLength(p: int, q: int, r: int, k: nat)
    ensures |AtomImages(p, q, r, k)| == k
  {
    if k > 0 {
      AtomImagesLength(p, q, r, k - 1);
    }
  }

  lemma {:induction false} AtomImagesMembers(p: int, q: int, r: int, k: nat)
    ensures forall t :: t in AtomImages(p, q, r, k) <==> t.p == p && t.q == q && t.r == r && t.atom < k
  {
    if k > 0 {
      AtomImagesMembers(p, q, r, k - 1);
    }
  }

  lemma {:induction false} RSpanMembers(n: nat, p: int, q: int, lo: int, hi: int)
    ensures forall t :: t in RSpan(n, p, q, lo, hi) <==>
      t.p == p && t.q == q && lo <= t.r < hi && t.atom < n && !IsOrigin(t.p, t.q, t.r)
    decreases hi - lo
  {
    if hi > lo {
      RSpanMembers(n, p, q, lo, hi - 1);
      AtomImagesMembers(p, q, hi - 1, n);
    }
  }

  lemma {:induction false} QSpanMembers(n: nat, p: int, dr: int, lo: int, hi: int)
    ensures forall t :: t in QSpan(n, p, dr, lo, hi) <==>
      t.p == p && lo <= t.q < hi && -dr <= t.r < dr && t.atom < n && !IsOrigin(t.p, t.q, t.r)
    decreases hi - lo
  {
    if hi > lo {
      QSpanMembers(n, p, dr, lo, hi - 1);
      RSpanMembers(n, p, hi - 1, -dr, dr);
    }
  }

  lemma {:induction false} PSpanMembers(n: nat, dq: int, dr: int, lo: int, hi: int)
    ensures forall t :: t in PSpan(n, dq, dr, lo, hi) <==>
      lo <= t.p < hi && -dq <= t.q < dq && -dr <= t.r < dr && t.atom < n && !IsOrigin(t.p, t.q, t.r)
    decreases hi - lo
  {
    if hi > lo {
      PSpanMembers(n, dq, dr, lo, hi - 1);
      QSpanMembers(n, hi - 1, dr, -dq, dq);
    }
  }

  /**
   * A row is produced iff it is basis atom `atom < n` at an offset of the half-open
   * box other than the origin cell.
   */
  lemma ImageTagsMembers(n: nat, dp: int, dq: int, dr: int)
    ensures forall t :: t in ImageTags(n, dp, dq, dr) <==> InBox(t, n, dp, dq, dr)
  {
    PSpanMembers(n, dq, dr, -dp, dp);
  }

  lemma {:induction false} RSpanLength(n: nat, p: int, q: int, lo: int, hi: int)
    requires lo <= hi
    ensures |RSpan(n, p, q, lo, hi)| == n * (hi - lo) - (if p == 0 && q == 0 && lo <= 0 < hi then n else 0)
    decreases hi - lo
  {
    if hi > lo {
      RSpanLength(n, p, q, lo, hi - 1);
      AtomImagesLength(p, q, hi - 1, n);
      assert n * (hi - lo) == n * (hi - 1 - lo) + n;
    }
  }

  lemma MulSucc(k: int, j: int, w: int)
    requires k == j + 1
    ensures k * w == j * w + w
  {
  }

  /** A full `r` loop at `(p, q)`: `2 dr` offsets of `n` atoms, less the origin cell. */
  lemma RSpanFull(n: nat, p: int, q: int, dr: int)
    requires dr >= 1
    ensures |RSpan(n, p, q, -dr, dr)| == 2 * dr * n - (if p == 0 && q == 0 then n else 0)
  {
    RSpanLength(n, p, q, -dr, dr);
    assert n * (dr - -dr) == 2 * dr * n;
  }

  lemma {:induction false} QSpanLength(n: nat, p: int, dr: int, lo: int, hi: int)
    requires lo <= hi && dr >= 1
    ensures |QSpan(n, p, dr, lo, hi)| == (hi - lo) * (2 * dr * n) - (if p == 0 && lo <= 0 < hi then n else 0)
    decreases hi - lo
  {
    if hi > lo {
      QSpanLength(n, p, dr, lo, hi - 1);
      RSpanFull(n, p, hi - 1, dr);
      MulSucc(hi - lo, hi - 1 - lo, 2 * dr * n);
    }
  }

  /** A full `q` loop at `p`: `2 dq` full `r` loops, less the origin cell. */
  lemma QSpanFull(n: nat, p: int, dq: int, dr: int)
    requires dq >= 1 && dr >= 1
    ensures |QSpan(n, p, dr, -dq, dq)| == 2 * dq * (2 * dr * n) - (if p == 0 then n else 0)
  {
    QSpanLength(n, p, dr, -dq, dq);
    assert (dq - -dq) * (2 * dr * n) == 2 * dq * (2 * dr * n);
  }

  lemma {:induction false} PSpanLength(n: nat, dq: int, dr: int, lo: int, hi: int)
    requires lo <= hi && dq >= 1 && dr >= 1
    ensures |PSpan(n, dq, dr, lo, hi)| == (hi - lo) * (2 * dq * (2 * dr * n)) - (if lo <= 0 < hi then n else 0)
    decreases hi - lo
  {
    if hi > lo {
      PSpanLength(n, dq, dr, lo, hi - 1);
      QSpanFull(n, hi - 1, dq, dr);
      MulSucc(hi - lo, hi - 1 - lo, 2 * dq * (2 * dr * n));
    }
  }

  /** The rows of the whole box, counted loop by loop or all at once. */
  lemma BoxCount(n: nat, dp: int, dq: int, dr: int)
    ensures (dp - -dp) * (2 * dq * (2 * dr * n)) == n * ((2 * dp) * (2 * dq) * (2 * dr))
  {
    var a, b, c := 2 * dp, 2 * dq, 2 * dr;
    assert b * (c * n) == (b * c) * n;
    assert a * ((b * c) * n) == (a * (b * c)) * n;
    assert a * (b * c) == a * b * c;
  }

  /**
   * The expansion has exactly `n * ((2dp)(2dq)(2dr) - 1)` rows (the whole box but the
   * origin cell) when every bound is at least 1, and none when some bound is not positive.
   */
  lemma ImageTagsLength(n: nat, dp: int, dq: int, dr: int)
    ensures dp >= 1 && dq >= 1 && dr >= 1 ==>
      |ImageTags(n, dp, dq, dr)| == n * ((2 * dp) * (2 * dq) * (2 * dr) - 1)
    ensures dp <= 0 || dq <= 0 || dr <= 0 ==> ImageTags(n, dp, dq, dr) == []
  {
    if dp >= 1 && dq >= 1 && dr >= 1 {
      PSpanLength(n, dq, dr, -dp, dp);
      BoxCount(n, dp, dq, dr);
    } else if dp >= 1 {
      PSpanEmpty(n, dq, dr, -dp, dp);
    }
  }

  lemma {:induction false} QSpanEmpty(n: nat, p: int, dr: int, lo: int, hi: int)
    requires dr <= 0
    ensures QSpan(n, p, dr, lo, hi) == []
    decreases hi - lo
  {
    if hi > lo {
      QSpanEmpty(n, p, dr, lo, hi - 1);
    }
  }

  lemma {:induction false} PSpanEmpty(n: nat, dq: int, dr: int, lo: int, hi: int)
    requires dq <= 0 || dr <= 0
    ensures PSpan(n, dq, dr, lo, hi) == []
    decreases hi - lo
  {
    if hi > lo {
      PSpanEmpty(n, dq, dr, lo, hi - 1);
      if dr <= 0 {
        QSpanEmpty(n, hi - 1, dr, -dq, dq);
      }
    }
  }

  lemma OrderedConcat(a: seq<Image>, b: seq<Image>)
    requires Ordered(a) && Ordered(b)
    requires forall s, t :: s in a && t in b ==> ImageBefore(s, t)
    ensures Ordered(a + b)
  {
    forall x, y | 0 <= x < y < |a + b|
      ensures ImageBefore((a + b)[x], (a + b)[y])
    {
      if y < |a| {
      } else if x >= |a| {
        assert (a + b)[x] == b[x - |a|] && (a + b)[y] == b[y - |a|];
      } else {
        assert (a + b)[x] in a && (a + b)[y] in b;
      }
    }
  }

  lemma PSpanBelow(n: nat, dq: int, dr: int, lo: int, hi: int)
    ensures forall t :: t in PSpan(n, dq, dr, lo, hi) ==> t.p < hi
  {
    PSpanMembers(n, dq, dr, lo, hi);
  }

  lemma QSpanAt(n: nat, p: int, dr: int, lo: int, hi: int)
    ensures forall t :: t in QSpan(n, p, dr, lo, hi) ==> t.p == p && t.q < hi
  {
    QSpanMembers(n, p, dr, lo, hi);
  }

  /** `a + b` is ordered when all of `a` has a smaller `p` than all of `b`, which has `p == x`. */
  lemma OrderedConcatByP(a: seq<Image>, b: seq<Image>, x: int)
    requires Ordered(a) && Ordered(b)
    requires forall s :: s in a ==> s.p < x
    requires forall t :: t in b ==> t.p == x
    ensures Ordered(a + b)
  {
    OrderedConcat(a, b);
  }

  /** `a + b` is ordered when both share `p` and all of `a` has a smaller `q` than all of `b`, which has `q == x`. */
  lemma OrderedConcatByQ(a: seq<Image>, b: seq<Image>, p: int, x: int)
    requires Ordered(a) && Ordered(b)
    requires forall s :: s in a ==> s.p == p && s.q < x
    requires forall t :: t in b ==> t.p == p && t.q == x
    ensures Ordered(a + b)
  {
    OrderedConcat(a, b);
  }

  lemma {:induction false} AtomImagesOrdered(p: int, q: int, r: int, k: nat)
    ensures Ordered(AtomImages(p, q, r, k))
  {
    if k > 0 {
      AtomImagesOrdered(p, q, r, k - 1);
      AtomImagesMembers(p, q, r, k - 1);
      OrderedConcat(AtomImages(p, q, r, k - 1), [Image(p, q, r, k - 1)]);
    }
  }

  lemma {:induction false} RSpanOrdered(n: nat, p: int, q: int, lo: int, hi: int)
    ensures Ordered(RSpan(n, p, q, lo, hi))
    decreases hi - lo
  {
    if hi > lo {
      RSpanOrdered(n, p, q, lo, hi - 1);
      RSpanMembers(n, p, q, lo, hi - 1);
      AtomImagesOrdered(p, q, hi - 1, n);
      AtomImagesMembers(p, q, hi - 1, n);
      OrderedConcat(RSpan(n, p, q, lo, hi - 1), OffsetImages(n, p, q, hi - 1));
    }
  }

  lemma {:induction false} QSpanOrdered(n: nat, p: int, dr: int, lo: int, hi: int)
    ensures Ordered(QSpan(n, p, dr, lo, hi))
    decreases hi - lo
  {
    if hi > lo {
      QSpanOrdered(n, p, dr, lo, hi - 1);
      QSpanMembers(n, p, dr, lo, hi - 1);
      RSpanOrdered(n, p, hi - 1, -dr, dr);
      RSpanMembers(n, p, hi - 1, -dr, dr);
      OrderedConcatByQ(QSpan(n, p, dr, lo, hi - 1), RSpan(n, p, hi - 1, -dr, dr), p, hi - 1);
    }
  }

  lemma {:induction false} PSpanOrdered(n: nat, dq: int, dr: int, lo: int, hi: int)
    ensures Ordered(PSpan(n, dq, dr, lo, hi))
    decreases hi - lo
  {
    if hi > lo {
      PSpanOrdered(n, dq, dr, lo, hi - 1);
      PSpanBelow(n, dq, dr, lo, hi - 1);
      QSpanOrdered(n, hi - 1, dr, -dq, dq);
      QSpanAt(n, hi - 1, dr, -dq, dq);
      OrderedConcatByP(PSpan(n, dq, dr, lo, hi - 1), QSpan(n, hi - 1, dr, -dq, dq), hi - 1);
    }
  }

  /**
   * The rows come out ordered by `p`, then `q`, then `r`, then atom index; in
   * particular no (offset, atom) combination is produced twice.
   */
  lemma ImageTagsOrdered(n: nat, dp: int, dq: int, dr: int)
    ensures Ordered(ImageTags(n, dp, dq, dr))
    ensures forall a, b :: 0 <= a < b < |ImageTags(n, dp, dq, dr)| ==> ImageTags(n, dp, dq, dr)[a] != ImageTags(n, dp, dq, dr)[b]
  {
    PSpanOrdered(n, dq, dr, -dp, dp);
  }

  /**
   * Row `k` of the expansion is `atoms[a] + (p, q, r)` for the tag `(p, q, r, a)` the
   * loops were at, and that tag is an in-range atom at a non-origin offset of the box:
   * no row is an unshifted basis atom.
   */
  lemma ExpandedRows(atoms: seq<Vec3>, dp: int, dq: int, dr: int, tags: seq<Image>)
    requires tags == ImageTags(|atoms|, dp, dq, dr)
    ensures |Shifted(atoms, tags)| == |tags|
    ensures forall k :: 0 <= k < |tags| ==>
      InBox(tags[k], |atoms|, dp, dq, dr) && tags[k].atom < |atoms| &&
      Shifted(atoms, tags)[k] == Shift(atoms[tags[k].atom], tags[k].p, tags[k].q, tags[k].r)
  {
    ImageTagsMembers(|atoms|, dp, dq, dr);
    forall k | 0 <= k < |tags|
      ensures InBox(tags[k], |atoms|, dp, dq, dr)
    {
      assert tags[k] in tags;
    }
  }

  lemma ShiftedConcat(atoms: seq<Vec3>, a: seq<Image>, b: seq<Image>)
    ensures Shifted(atoms, a + b) == Shifted(atoms, a) + Shifted(atoms, b)
  {
    var lhs := Shifted(atoms, a + b);
    var rhs := Shifted(atoms, a) + Shifted(atoms, b);
    forall k | 0 <= k < |lhs|
      ensures lhs[k] == rhs[k]
    {
      if k >= |a| {
        assert (a + b)[k] == b[k - |a|];
      }
    }
  }

  /** Appending the rows of `here` after those of `tags` gives the rows of `tags + here`. */
  lemma AppendStep(atoms: seq<Vec3>, prefix: seq<Vec3>, tags: seq<Image>, here: seq<Image>)
    ensures prefix + Shifted(atoms, tags) + Shifted(atoms, here) == prefix + Shifted(atoms, tags + here)
  {
    ShiftedConcat(atoms, tags, here);
  }

  /** The innermost loop: append basis atoms `0 .. n-1` shifted by `(p, q, r)`. */
  method AppendAtomImages(atoms: seq<Vec3>, p: int, q: int, r: int, prefix: seq<Vec3>) returns (expanded: seq<Vec3>)
    ensures expanded == prefix + Shifted(atoms, AtomImages(p, q, r, |atoms|))
  {
    expanded := prefix;
    ghost var tags: seq<Image> := [];
    var i := 0;
    while i < |atoms|
      invariant 0 <= i <= |atoms|
      invariant tags == AtomImages(p, q, r, i)
      invariant expanded == prefix + Shifted(atoms, tags)
    {
      ShiftedConcat(atoms, tags, [Image(p, q, r, i)]);
      expanded := expanded + [Shift(atoms[i], p, q, r)];
      tags := tags + [Image(p, q, r, i)];
      i := i + 1;
    }
  }

  lemma RSpanStep(n: nat, p: int, q: int, lo: int, r: int)
    requires lo <= r
    ensures RSpan(n, p, q, lo, r + 1) == RSpan(n, p, q, lo, r) + OffsetImages(n, p, q, r)
  {
  }

  /** One pass of the `r` loop body: the origin cell is skipped (`continue`), any other offset appends all atoms. */
  method AppendOffset(atoms: seq<Vec3>, p: int, q: int, r: int, prefix: seq<Vec3>) returns (expanded: seq<Vec3>)
    ensures expanded == prefix + Shifted(atoms, OffsetImages(|atoms|, p, q, r))
  {
    if p == 0 && q == 0 && r == 0 {
      return prefix;
    }
    expanded := AppendAtomImages(atoms, p, q, r, prefix);
  }

  /** The `r` loop at fixed `p`, `q`, skipping the origin cell. */
  method AppendRLoop(atoms: seq<Vec3>, p: int, q: int, dr: int, prefix: seq<Vec3>) returns (expanded: seq<Vec3>)
    ensures expanded == prefix + Shifted(atoms, RSpan(|atoms|, p, q, -dr, dr))
  {
    var n := |atoms|;
    expanded := prefix;
    ghost var tags: seq<Image> := [];
    var r := -dr;
    while r < dr
      invariant -dr <= r && (r <= dr || r == -dr)
      invariant tags == RSpan(n, p, q, -dr, r)
      invariant expanded == prefix + Shifted(atoms, tags)
    {
      ghost var here := OffsetImages(n, p, q, r);
      AppendStep(atoms, prefix, tags, here);
      RSpanStep(n, p, q, -dr, r);
      expanded := AppendOffset(atoms, p, q, r, expanded);
      tags := tags + here;
      r := r + 1;
    }
  }

  /** The `q` loop at fixed `p`. */
  method AppendQLoop(atoms: seq<Vec3>, p: int, dq: int, dr: int, prefix: seq<Vec3>) returns (expanded: seq<Vec3>)
    ensures expanded == prefix + Shifted(atoms, QSpan(|atoms|, p, dr, -dq, dq))
  {
    var n := |atoms|;
    expanded := prefix;
    ghost var tags: seq<Image> := [];
    var q := -dq;
    while q < dq
      invariant -dq <= q && (q <= dq || q == -dq)
      invariant tags == QSpan(n, p, dr, -dq, q)
      invariant expanded == prefix + Shifted(atoms, tags)
    {
      ghost var here := RSpan(n, p, q, -dr, dr);
      AppendStep(atoms, prefix, tags, here);
      expanded := AppendRLoop(atoms, p, q, dr, expanded);
      tags := tags + here;
      q := q + 1;
    }
  }

  /**
   * The expansion loop nest: `expanded_cell_atoms` starts empty and grows by one
   * shifted basis atom at a time.
   */
  method ExpandCell(atoms: seq<Vec3>, dp: int, dq: int, dr: int) returns (expanded: seq<Vec3>)
    ensures expanded == Shifted(atoms, ImageTags(|atoms|, dp, dq, dr))
  {
    var n := |atoms|;
    expanded := [];
    ghost var tags: seq<Image> := [];
    var p := -dp;
    while p < dp
      invariant -dp <= p && (p <= dp || p == -dp)
      invariant tags == PSpan(n, dq, dr, -dp, p)
      invariant expanded == Shifted(atoms, tags)
    {
      ghost var here := QSpan(n, p, dr, -dq, dq);
      ShiftedConcat(atoms, tags, here);
      expanded := AppendQLoop(atoms, p, dq, dr, expanded);
      tags := tags + here;
      p := p + 1;
    }
  }
}
