/**
 * The order in which all three programs visit atom pairs: an outer loop over `i` and an
 * inner loop over `j` from `i + 1`, so every unordered pair is visited once, as `(i, j)`
 * with `i < j`, row by row.
 */
module Pairs {

  datatype Pair = Pair(i: nat, j: nat)

  /** The pairs `(i, k)` for `lo <= k < hi`, in the order of the inner loop. */
  function Row(i: nat, lo: nat, hi: nat): seq<Pair>
  {
    seq(if hi <= lo then 0 else hi - lo, k requires 0 <= k => Pair(i, lo + k))
  }

  /** The pairs visited by the first `i` rounds of the outer loop over `n` atoms. */
  function Rows(n: nat, i: nat): seq<Pair>
  {
    if i == 0 then [] else Rows(n, i - 1) + Row(i - 1, i, n)
  }

  /** Every pair the double loop over `n` atoms visits, in visiting order. */
  function UpperPairs(n: nat): seq<Pair>
  {
    Rows(n, n)
  }

  /** Lexicographic order on pairs: the order of the double loop. */
  predicate Before(p: Pair, q: Pair) {
    p.i < q.i || (p.i == q.i && p.j < q.j)
  }

  ghost predicate StrictlyOrdered(ps: seq<Pair>) {
    forall a, b :: 0 <= a < b < |ps| ==> Before(ps[a], ps[b])
  }

  lemma RowHas(i: nat, lo: nat, hi: nat, p: Pair)
    ensures p in Row(i, lo, hi) <==> p.i == i && lo <= p.j < hi
  {
    if p.i == i && lo <= p.j < hi {
      assert Row(i, lo, hi)[p.j - lo] == p;
    }
  }

  lemma RowOrdered(i: nat, lo: nat, hi: nat)
    ensures StrictlyOrdered(Row(i, lo, hi))
  {
  }

  /** The inner loop appends `(i, hi)` after the pairs before it. */
  lemma RowSnoc(i: nat, lo: nat, hi: nat)
    requires lo <= hi
    ensures Row(i, lo, hi + 1) == Row(i, lo, hi) + [Pair(i, hi)]
  {
  }

  /** One inner loop: its length, exactly the pairs `(i, j)` with `lo <= j < hi`, in increasing order. */
  lemma RowFacts(i: nat, lo: nat, hi: nat)
    ensures |Row(i, lo, hi)| == if hi <= lo then 0 else hi - lo
    ensures forall p :: p in Row(i, lo, hi) <==> p.i == i && lo <= p.j < hi
    ensures StrictlyOrdered(Row(i, lo, hi))
  {
    forall p
      ensures p in Row(i, lo, hi) <==> p.i == i && lo <= p.j < hi
    {
      RowHas(i, lo, hi, p);
    }
    RowOrdered(i, lo, hi);
  }

  lemma {:induction false} RowsLength(n: nat, i: nat)
    requires i <= n
    ensures 2 * |Rows(n, i)| == i * (2 * n - i - 1)
  {
    if i > 0 {
      RowsLength(n, i - 1);
      var m := 2 * n - i;
      assert i * (m - 1) == (i - 1) * m + m - i;
    }
  }

  /** Round `i - 1` of the outer loop appends row `i - 1` to the rows before it. */
  lemma RowsSplit(n: nat, i: nat, p: Pair)
    requires 0 < i
    ensures p in Rows(n, i) <==> p in Rows(n, i - 1) || p in Row(i - 1, i, n)
  {
  }

  lemma {:induction false} RowsHas(n: nat, i: nat, p: Pair)
    requires i <= n
    ensures p in Rows(n, i) <==> p.i < i && p.i < p.j < n
  {
    if i > 0 {
      assert p in Row(i - 1, i, n) <==> p.i == i - 1 && i <= p.j < n by {
        RowHas(i - 1, i, n, p);
      }
      assert p in Rows(n, i - 1) <==> p.i < i - 1 && p.i < p.j < n by {
        RowsHas(n, i - 1, p);
      }
      RowsSplit(n, i, p);
    }
  }

  lemma RowsMembers(n: nat, i: nat)
    requires i <= n
    ensures forall p :: p in Rows(n, i) <==> p.i < i && p.i < p.j < n
  {
    forall p
      ensures p in Rows(n, i) <==> p.i < i && p.i < p.j < n
    {
      RowsHas(n, i, p);
    }
  }

  /** A strictly ordered run of pairs with first index below `c`, then one with first index `c`. */
  lemma OrderedConcat(prev: seq<Pair>, row: seq<Pair>, c: nat)
    requires StrictlyOrdered(prev) && StrictlyOrdered(row)
    requires forall p :: p in prev ==> p.i < c
    requires forall p :: p in row ==> p.i == c
    ensures StrictlyOrdered(prev + row)
  {
    var all := prev + row;
    forall a, b | 0 <= a < b < |all|
      ensures Before(all[a], all[b])
    {
      if b < |prev| {
        assert all[a] == prev[a] && all[b] == prev[b];
      } else if a >= |prev| {
        assert all[a] == row[a - |prev|] && all[b] == row[b - |prev|];
      } else {
        assert all[a] == prev[a] && all[b] == row[b - |prev|];
        assert prev[a] in prev && row[b - |prev|] in row;
      }
    }
  }

  lemma {:induction false} RowsOrdered(n: nat, i: nat)
    requires i <= n
    ensures StrictlyOrdered(Rows(n, i))
  {
    if i > 0 {
      var prev, row := Rows(n, i - 1), Row(i - 1, i, n);
      forall p | p in prev
        ensures p.i < i - 1
      {
        RowsHas(n, i - 1, p);
      }
      forall p | p in row
        ensures p.i == i - 1
      {
        RowHas(i - 1, i, n, p);
      }
      RowsOrdered(n, i - 1);
      RowOrdered(i - 1, i, n);
      OrderedConcat(prev, row, i - 1);
      assert Rows(n, i) == prev + row;
    }
  }

  /**
   * The double loop over `n` atoms visits `n(n-1)/2` pairs; a pair is visited iff it
   * is `(i, j)` with `i < j < n` (so never an atom with itself, and never `(j, i)`);
   * and the visits are in strictly increasing lexicographic order, so no pair is
   * visited twice.
   */
  lemma UpperPairsFacts(n: nat)
    ensures 2 * |UpperPairs(n)| == n * (n - 1)
    ensures forall p :: p in UpperPairs(n) <==> p.i < p.j < n
    ensures StrictlyOrdered(UpperPairs(n))
    ensures forall a, b :: 0 <= a < b < |UpperPairs(n)| ==> UpperPairs(n)[a] != UpperPairs(n)[b]
  {
    RowsLength(n, n);
    RowsMembers(n, n);
    RowsOrdered(n, n);
  }
}
