/**
 * Graph geometry (train_fnri.py, `main`): the mask `ones - eye` over N atoms,
 * the row-major list of its non-zero cells (`np.where`), and the one-hot
 * receiver and sender matrices built from the column and row of each cell.
 */
module Geometry {
  import opened Sums

  /** One ordered atom pair: the row of the mask is the sender, the column the receiver. */
  datatype Pair = Pair(send: nat, recv: nat)

  /** Entry (i, j) of `np.ones([n, n]) - np.eye(n)`. */
  function OffDiagMask(i: nat, j: nat): int
  {
    if i == j then 0 else 1
  }

  /** Non-zero cells of row `i`, from column `j` to the end of the row. */
  function RowCells(n: nat, i: nat, j: nat): seq<Pair>
    decreases n - j
  {
    if j >= n then []
    else (if OffDiagMask(i, j) != 0 then [Pair(i, j)] else []) + RowCells(n, i, j + 1)
  }

  /**
   * Non-zero cells of rows `i` to `n - 1`, row after row: N - 1 per row, in
   * strictly increasing row-major order, and exactly the pairs of distinct atoms
   * whose sender is at least `i`.
   */
  function Cells(n: nat, i: nat): (r: seq<Pair>)
    ensures i <= n ==> |r| == (n - i) * (n - 1)
    ensures StrictlyRowMajor(r)
    ensures forall x :: x in r <==> i <= x.send && Valid(n, x)
    decreases n - i
  {
    if i >= n then [] else
      var row, rest := RowCells(n, i, 0), Cells(n, i + 1);
      RowCellsFacts(n, i, 0);
      RowCellsLength(n, i, 0);
      SortedJoin(row, rest);
      assert (n - i) * (n - 1) == (n - 1) + (n - (i + 1)) * (n - 1);
      row + rest
  }

  /** Row-major (lexicographic) order: first by sender, then by receiver. */
  predicate Before(x: Pair, y: Pair)
  {
    x.send < y.send || (x.send == y.send && x.recv < y.recv)
  }

  predicate StrictlyRowMajor(s: seq<Pair>)
  {
    forall p, q :: 0 <= p < q < |s| ==> Before(s[p], s[q])
  }

  predicate Valid(n: nat, x: Pair)
  {
    x.send < n && x.recv < n && x.send != x.recv
  }

  lemma {:induction false} RowCellsFacts(n: nat, i: nat, j: nat)
    requires j <= n
    ensures StrictlyRowMajor(RowCells(n, i, j))
    ensures forall x :: x in RowCells(n, i, j) <==> x.send == i && j <= x.recv < n && x.recv != i
    decreases n - j
  {
    if j < n {
      RowCellsFacts(n, i, j + 1);
    }
  }

  lemma SortedJoin(a: seq<Pair>, b: seq<Pair>)
    requires StrictlyRowMajor(a) && StrictlyRowMajor(b)
    requires forall x, y :: x in a && y in b ==> Before(x, y)
    ensures StrictlyRowMajor(a + b)
  {
    forall p, q | 0 <= p < q < |a + b| ensures Before((a + b)[p], (a + b)[q]) {
      if q < |a| {
      } else if p >= |a| {
        assert (a + b)[p] == b[p - |a|] && (a + b)[q] == b[q - |a|];
      } else {
        assert (a + b)[p] in a && (a + b)[q] in b;
      }
    }
  }

  /**
   * `np.where(off_diag)`, as one list of (row, column) pairs. There are N*N - N
   * of them (the row count of the posterior accumulator), each a pair of
   * distinct atoms; every such ordered pair appears, and the list is strictly
   * increasing in row-major order, so each appears exactly once.
   */
  function OffDiagonal(n: nat): (r: seq<Pair>)
    ensures |r| == n * n - n
    ensures forall x :: x in r <==> Valid(n, x)
    ensures StrictlyRowMajor(r)
  {
    Cells(n, 0)
  }

  /** No ordered pair is listed twice. */
  lemma OffDiagonalUnique(n: nat)
    ensures forall p, q :: 0 <= p < |OffDiagonal(n)| && 0 <= q < |OffDiagonal(n)| && OffDiagonal(n)[p] == OffDiagonal(n)[q] ==> p == q
  {
  }

  /** The row of pair (i, j) in the row-major list: i whole rows of N - 1 pairs before it. */
  function PairIndex(n: nat, i: nat, j: nat): nat
    requires Valid(n, Pair(i, j))
  {
    i * (n - 1) + (if j < i then j else j - 1)
  }

  lemma {:induction false} RowCellsLength(n: nat, i: nat, j: nat)
    requires j <= n && i < n
    ensures |RowCells(n, i, j)| == (n - j) - (if j <= i then 1 else 0)
    decreases n - j
  {
    if j < n {
      RowCellsLength(n, i, j + 1);
    }
  }

  lemma {:induction false} RowCellsAt(n: nat, i: nat, j: nat, c: nat)
    requires j <= n && i < n && c < (n - j) - (if j <= i then 1 else 0)
    ensures c < |RowCells(n, i, j)|
    ensures RowCells(n, i, j)[c] == Pair(i, if j <= i <= j + c then j + c + 1 else j + c)
    decreases n - j
  {
    RowCellsLength(n, i, j);
    if j != i && c > 0 {
      RowCellsAt(n, i, j + 1, c - 1);
    } else if j == i {
      RowCellsAt(n, i, j + 1, c);
    }
  }

  /** Number of pairs in rows i0 .. i - 1. */
  function RowsBefore(n: nat, i0: nat, i: nat): int
    requires i0 <= i
    decreases i - i0
  {
    if i0 == i then 0 else (n - 1) + RowsBefore(n, i0 + 1, i)
  }

  lemma {:induction false} RowsBeforeProduct(n: nat, i0: nat, i: nat)
    requires i0 <= i
    ensures RowsBefore(n, i0, i) == (i - i0) * (n - 1)
    decreases i - i0
  {
    if i0 < i {
      RowsBeforeProduct(n, i0 + 1, i);
      assert (i - i0) * (n - 1) == (n - 1) + (i - (i0 + 1)) * (n - 1);
    }
  }

  lemma {:induction false} CellsAt(n: nat, i0: nat, i: nat, c: nat)
    requires i0 <= i < n && c < n - 1
    ensures c < |RowCells(n, i, 0)|
    ensures 0 <= RowsBefore(n, i0, i) + c < |Cells(n, i0)|
    ensures Cells(n, i0)[RowsBefore(n, i0, i) + c] == RowCells(n, i, 0)[c]
    decreases i - i0
  {
    var row, rest := RowCells(n, i0, 0), Cells(n, i0 + 1);
    RowCellsLength(n, i0, 0);
    RowCellsLength(n, i, 0);
    assert Cells(n, i0) == row + rest;
    if i0 < i {
      CellsAt(n, i0 + 1, i, c);
      assert (row + rest)[RowsBefore(n, i0, i) + c] == rest[RowsBefore(n, i0 + 1, i) + c];
    } else {
      assert (row + rest)[c] == row[c];
    }
  }

  /** Pair (i, j) sits at row i * (N - 1) + (j if j < i else j - 1) of the list. */
  lemma OffDiagonalAt(n: nat, i: nat, j: nat)
    requires Valid(n, Pair(i, j))
    ensures PairIndex(n, i, j) < |OffDiagonal(n)|
    ensures OffDiagonal(n)[PairIndex(n, i, j)] == Pair(i, j)
  {
    var c := if j < i then j else j - 1;
    CellsAt(n, 0, i, c);
    RowsBeforeProduct(n, 0, i);
    RowCellsAt(n, i, 0, c);
  }

  /** `encode_onehot` for label `k` over `width` classes: the unit vector e_k. */
  function OneHot(k: nat, width: nat): (r: seq<real>)
    requires k < width
    ensures |r| == width && r[k] == 1.0
    ensures forall c :: 0 <= c < width && c != k ==> r[c] == 0.0
    ensures SumR(r) == 1.0
  {
    var r := seq(width, c requires 0 <= c < width => if c == k then 1.0 else 0.0);
    assert r == ZerosR(k) + [1.0] + ZerosR(width - k - 1);
    SumRConcat(ZerosR(k) + [1.0], ZerosR(width - k - 1));
    SumRConcat(ZerosR(k), [1.0]);
    SumRZeros(k);
    SumRZeros(width - k - 1);
    r
  }

  /** `rel_rec`: row p is the one-hot code of the receiver (column) of pair p. */
  function RelRec(n: nat): (r: seq<seq<real>>)
    ensures |r| == n * n - n
    ensures forall p :: 0 <= p < |r| ==> OffDiagonal(n)[p] in OffDiagonal(n) && r[p] == OneHot(OffDiagonal(n)[p].recv, n)
  {
    seq(|OffDiagonal(n)|, p requires 0 <= p < |OffDiagonal(n)| =>
      assert OffDiagonal(n)[p] in OffDiagonal(n);
      OneHot(OffDiagonal(n)[p].recv, n))
  }

  /** `rel_send`: row p is the one-hot code of the sender (row) of pair p. */
  function RelSend(n: nat): (r: seq<seq<real>>)
    ensures |r| == n * n - n
    ensures forall p :: 0 <= p < |r| ==> OffDiagonal(n)[p] in OffDiagonal(n) && r[p] == OneHot(OffDiagonal(n)[p].send, n)
  {
    seq(|OffDiagonal(n)|, p requires 0 <= p < |OffDiagonal(n)| =>
      assert OffDiagonal(n)[p] in OffDiagonal(n);
      OneHot(OffDiagonal(n)[p].send, n))
  }

  /** No pair sends to itself: in every row the receiver and sender codes differ. */
  lemma NoSelfLoops(n: nat, p: nat)
    requires p < n * n - n
    ensures RelRec(n)[p] != RelSend(n)[p]
    ensures OffDiagonal(n)[p].send != OffDiagonal(n)[p].recv
  {
    var x := OffDiagonal(n)[p];
    assert x in OffDiagonal(n);
    assert RelRec(n)[p][x.recv] == 1.0 && RelSend(n)[p][x.recv] == 0.0;
  }

  /** The row of `rel_rec` for pair (i, j) is the one-hot code of its receiver j. */
  lemma RelRecAt(n: nat, i: nat, j: nat)
    requires Valid(n, Pair(i, j))
    ensures PairIndex(n, i, j) < |RelRec(n)|
    ensures RelRec(n)[PairIndex(n, i, j)] == OneHot(j, n)
  {
    OffDiagonalAt(n, i, j);
  }

  /** The row of `rel_send` for pair (i, j) is the one-hot code of its sender i. */
  lemma RelSendAt(n: nat, i: nat, j: nat)
    requires Valid(n, Pair(i, j))
    ensures PairIndex(n, i, j) < |RelSend(n)|
    ensures RelSend(n)[PairIndex(n, i, j)] == OneHot(i, n)
  {
    OffDiagonalAt(n, i, j);
  }
}
