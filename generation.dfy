/**
 * Edge assembly in `generations` (train_fnri.py): for every sample, atom pair
 * and factor, one category index is drawn from the aggregated posterior and a 1
 * is written into a zero-initialised [batch, pairs, edge types] array at column
 * `et * n + idx`, where `n` is that factor's size. The column offset `et * n`
 * is the real start of the factor's slice only when all sizes are equal.
 */
module Generation {
  import opened Sums
  import opened Slicing
  import Partition
  import Geometry

  /**
   * Where the script puts factor `et`: `et * n`, not the sum of the earlier sizes.
   * The two agree when all sizes are equal. For a descending partition (the sort
   * at startup) it is never past that sum, so the slice `[et * n, et * n + n)`
   * stays inside the row and no IndexError can occur.
   */
  function Start(sizes: seq<nat>, et: nat): (r: nat)
    requires et < |sizes|
    ensures Partition.Descending(sizes) ==> r <= Offset(sizes, et) && r + sizes[et] <= Total(sizes)
    ensures (forall k :: 0 <= k < |sizes| ==> sizes[k] == sizes[et]) ==> r == Offset(sizes, et)
  {
    var r := et * sizes[et];
    assert Partition.Descending(sizes) ==> r <= Offset(sizes, et) by {
      if Partition.Descending(sizes) {
        StartWithinOffset(sizes, et);
      }
    }
    assert (forall k :: 0 <= k < |sizes| ==> sizes[k] == sizes[et]) ==> r == Offset(sizes, et) by {
      if forall k :: 0 <= k < |sizes| ==> sizes[k] == sizes[et] {
        EqualSizesStart(sizes, sizes[et], et);
      }
    }
    r
  }

  /**
   * `np.random.choice(n, 1, p=posterior_row[et*n:(et+1)*n])` picks an index
   * below `n` whose probability is positive; the draw itself is an input.
   */
  predicate ValidDraw(row: seq<real>, sizes: seq<nat>, et: nat, idx: nat)
    requires et < |sizes|
  {
    idx < sizes[et] && Start(sizes, et) + idx < |row| && row[Start(sizes, et) + idx] > 0.0
  }

  /** One draw per sample, pair and factor, each valid for the posterior row of its pair. */
  predicate DrawsFit(draws: seq<seq<seq<nat>>>, batch: nat, pairs: nat, sizes: seq<nat>, posterior: Matrix)
  {
    && |posterior| == pairs
    && |draws| == batch
    && (forall bz :: 0 <= bz < batch ==> |draws[bz]| == pairs)
    && (forall bz, i :: 0 <= bz < batch && 0 <= i < pairs ==> |draws[bz][i]| == |sizes|)
    && (forall bz, i, et :: 0 <= bz < batch && 0 <= i < pairs && 0 <= et < |sizes| ==>
          ValidDraw(posterior[i], sizes, et, draws[bz][i][et]))
  }

  /** Whether one of the first `m` factors writes its 1 into column `c`. */
  function Marked(sizes: seq<nat>, draw: seq<nat>, c: int, m: nat): bool
    requires m <= |sizes| && |draw| == |sizes|
  {
    m > 0 && (Marked(sizes, draw, c, m - 1) || c == Start(sizes, m - 1) + draw[m - 1])
  }

  /** A column is marked by the first `m` factors exactly when one of them writes its 1 there. */
  lemma {:induction false} MarkedIffWritten(sizes: seq<nat>, draw: seq<nat>, c: int, m: nat)
    requires m <= |sizes| && |draw| == |sizes|
    ensures Marked(sizes, draw, c, m) <==> exists et :: 0 <= et < m && c == Start(sizes, et) + draw[et]
  {
    if m > 0 {
      MarkedIffWritten(sizes, draw, c, m - 1);
      if c == Start(sizes, m - 1) + draw[m - 1] {
        assert 0 <= m - 1 < m && c == Start(sizes, m - 1) + draw[m - 1];
      }
    }
  }

  /**
   * The row `edges[bz, i, :]` written for one sample and pair: every entry is 0
   * or 1, and it is 1 exactly at the columns `et * n + idx` some factor writes.
   */
  function Row(sizes: seq<nat>, draw: seq<nat>): (r: seq<real>)
    requires |draw| == |sizes|
    ensures |r| == Total(sizes)
    ensures forall c :: 0 <= c < |r| ==> r[c] == 0.0 || r[c] == 1.0
    ensures forall c :: 0 <= c < |r| ==> (r[c] == 1.0 <==> exists et :: 0 <= et < |sizes| && c == Start(sizes, et) + draw[et])
  {
    var r := seq(Total(sizes), c requires 0 <= c < Total(sizes) => if Marked(sizes, draw, c, |sizes|) then 1.0 else 0.0);
    assert forall c :: 0 <= c < |r| ==> (r[c] == 1.0 <==> exists et :: 0 <= et < |sizes| && c == Start(sizes, et) + draw[et]) by {
      forall c | 0 <= c < |r| {
        MarkedIffWritten(sizes, draw, c, |sizes|);
      }
    }
    r
  }

  /** The triple loop of `generations` for one batch. */
  method AssembleEdges(batch: nat, pairs: nat, sizes: seq<nat>, posterior: Matrix, draws: seq<seq<seq<nat>>>)
    returns (edges: array3<real>)
    requires forall i :: 0 <= i < |posterior| ==> |posterior[i]| == Total(sizes)
    requires DrawsFit(draws, batch, pairs, sizes, posterior)
    ensures fresh(edges)
    ensures edges.Length0 == batch && edges.Length1 == pairs && edges.Length2 == Total(sizes)
    ensures forall bz, i, c :: 0 <= bz < batch && 0 <= i < pairs && 0 <= c < Total(sizes) ==>
      edges[bz, i, c] == Row(sizes, draws[bz][i])[c]
  {
    var width := Total(sizes);
    edges := new real[batch, pairs, width]((_, _, _) => 0.0);
    var bz := 0;
    while bz < batch
      invariant 0 <= bz <= batch
      invariant forall b, i, c :: 0 <= b < batch && 0 <= i < pairs && 0 <= c < width ==>
        edges[b, i, c] == if b < bz then Row(sizes, draws[b][i])[c] else 0.0
    {
      var i := 0;
      while i < pairs
        invariant 0 <= i <= pairs
        invariant forall b, p, c :: 0 <= b < batch && 0 <= p < pairs && 0 <= c < width ==>
          edges[b, p, c] == if b < bz || (b == bz && p < i) then Row(sizes, draws[b][p])[c] else 0.0
      {
        var et := 0;
        while et < |sizes|
          invariant 0 <= et <= |sizes|
          invariant forall b, p, c :: 0 <= b < batch && 0 <= p < pairs && 0 <= c < width ==>
            edges[b, p, c] ==
              if b < bz || (b == bz && p < i) then Row(sizes, draws[b][p])[c]
              else if b == bz && p == i then (if Marked(sizes, draws[bz][i], c, et) then 1.0 else 0.0)
              else 0.0
        {
          var n := sizes[et];
          var idx := draws[bz][i][et];
          assert ValidDraw(posterior[i], sizes, et, idx);
          edges[bz, i, et * n + idx] := 1.0;
          et := et + 1;
        }
        i := i + 1;
      }
      bz := bz + 1;
    }
  }

  /** With a descending partition, `et * n` is never past the real start of factor `et`. */
  lemma {:induction false} StartWithinOffset(sizes: seq<nat>, et: nat)
    requires Partition.Descending(sizes) && et < |sizes|
    ensures et * sizes[et] <= Offset(sizes, et)
  {
    if et > 0 {
      var tail := sizes[1..];
      assert tail[et - 1] == sizes[et];
      StartWithinOffset(tail, et - 1);
      assert et * sizes[et] == sizes[et] + (et - 1) * sizes[et];
    }
  }

  /** With all sizes equal to `n`, `et * n` is the real start of factor `et`. */
  lemma {:induction false} EqualSizesStart(sizes: seq<nat>, n: nat, et: nat)
    requires forall k :: 0 <= k < |sizes| ==> sizes[k] == n
    requires et <= |sizes|
    ensures Offset(sizes, et) == et * n
  {
    if et > 0 {
      EqualSizesStart(sizes[1..], n, et - 1);
      assert et * n == n + (et - 1) * n;
    }
  }

  lemma MulMonotone(p: nat, q: nat, n: nat)
    requires p <= q
    ensures p * n <= q * n && p * n == (p - 1) * n + n
  {
  }

  lemma SameBlock(n: nat, a: nat, x: nat, b: nat, y: nat)
    requires x < n && y < n && a * n + x == b * n + y
    ensures a == b && x == y
  {
    if a < b {
      MulMonotone(a + 1, b, n);
      assert false;
    } else if b < a {
      MulMonotone(b + 1, a, n);
      assert false;
    }
  }

  lemma {:induction false} MarkedInEqualBlocks(sizes: seq<nat>, n: nat, draw: seq<nat>, et: nat, c: nat, m: nat)
    requires forall k :: 0 <= k < |sizes| ==> sizes[k] == n
    requires |draw| == |sizes| && forall k :: 0 <= k < |draw| ==> draw[k] < n
    requires et < |sizes| && c < n && m <= |sizes|
    ensures Marked(sizes, draw, et * n + c, m) <==> et < m && c == draw[et]
  {
    if m > 0 {
      MarkedInEqualBlocks(sizes, n, draw, et, c, m - 1);
      if et * n + c == (m - 1) * n + draw[m - 1] {
        SameBlock(n, et, c, m - 1, draw[m - 1]);
      }
    }
  }

  /**
   * With all sizes equal, every factor slice of an assembled row is the one-hot
   * vector of that factor's draw: exactly one 1 per factor.
   */
  lemma EqualSizesOneHot(sizes: seq<nat>, n: nat, draw: seq<nat>, et: nat)
    requires forall k :: 0 <= k < |sizes| ==> sizes[k] == n
    requires |draw| == |sizes| && forall k :: 0 <= k < |draw| ==> draw[k] < n
    requires et < |sizes|
    ensures Chunk(Row(sizes, draw), sizes, et) == Geometry.OneHot(draw[et], n)
  {
    EqualSizesStart(sizes, n, et);
    var chunk := Chunk(Row(sizes, draw), sizes, et);
    forall c | 0 <= c < n ensures chunk[c] == Geometry.OneHot(draw[et], n)[c] {
      MarkedInEqualBlocks(sizes, n, draw, et, c, |sizes|);
    }
  }

  /**
   * For the sorted partition [3, 2] the offset of factor 1 is 3 but the script
   * writes at 1 * 2 = 2: with draws [2, 0] both factors write column 2, and
   * the real slice of factor 1 (columns 3 and 4) stays all zero.
   */
  lemma UnequalSizesMisplaceFactors()
    ensures Offset([3, 2], 1) == 3 && Start([3, 2], 1) == 2
    ensures Row([3, 2], [2, 0]) == [0.0, 0.0, 1.0, 0.0, 0.0]
    ensures SumR(Chunk(Row([3, 2], [2, 0]), [3, 2], 1)) == 0.0
  {
    var r := Row([3, 2], [2, 0]);
    assert Total([3, 2]) == 5;
    assert Offset([3, 2], 1) == 3 by {
      assert Offset([2], 0) == 0;
    }
    assert Chunk(r, [3, 2], 1) == r[3..5];
    assert r == [0.0, 0.0, 1.0, 0.0, 0.0] by {
      assert !Marked([3, 2], [2, 0], 0, 2) && !Marked([3, 2], [2, 0], 1, 2);
      assert Marked([3, 2], [2, 0], 2, 2);
      assert !Marked([3, 2], [2, 0], 3, 2) && !Marked([3, 2], [2, 0], 4, 2);
    }
    assert r[3..5] == [0.0, 0.0];
  }

  /**
   * A factor whose posterior slice puts probability 1 on category 0 (all its
   * other categories at 0) can only be drawn as 0.
   */
  lemma CertainSliceForcesFirst(row: seq<real>, sizes: seq<nat>, et: nat, idx: nat)
    requires et < |sizes| && ValidDraw(row, sizes, et, idx)
    requires Start(sizes, et) + sizes[et] <= |row|
    requires forall c :: Start(sizes, et) < c < Start(sizes, et) + sizes[et] ==> row[c] == 0.0
    ensures idx == 0
  {
  }
}
