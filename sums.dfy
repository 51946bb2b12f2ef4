/** Sums over integer and real sequences (Python's built-in `sum`), and real vectors. */
module Sums {

  /** A [rows, columns] matrix of floats, such as a [pairs, edge types] tensor slice. */
  type Matrix = seq<seq<real>>

  function Sum(s: seq<int>): int
  {
    if s == [] then 0 else s[0] + Sum(s[1..])
  }

  function SumR(s: seq<real>): real
  {
    if s == [] then 0.0 else s[0] + SumR(s[1..])
  }

  /** A sum of non-negative entries is non-negative, and bounds every entry. */
  lemma {:induction false} SumNonNegative(s: seq<int>)
    requires forall k :: 0 <= k < |s| ==> s[k] >= 0
    ensures Sum(s) >= 0
    ensures forall k :: 0 <= k < |s| ==> s[k] <= Sum(s)
  {
    if s != [] {
      SumNonNegative(s[1..]);
      assert forall k :: 1 <= k < |s| ==> s[k] == s[1..][k - 1];
    }
  }

  lemma {:induction false} SumConcat(a: seq<int>, b: seq<int>)
    ensures Sum(a + b) == Sum(a) + Sum(b)
  {
    if a == [] {
      assert a + b == b;
    } else {
      assert (a + b)[1..] == a[1..] + b;
      SumConcat(a[1..], b);
    }
  }

  lemma {:induction false} SumRConcat(a: seq<real>, b: seq<real>)
    ensures SumR(a + b) == SumR(a) + SumR(b)
  {
    if a == [] {
      assert a + b == b;
    } else {
      assert (a + b)[1..] == a[1..] + b;
      SumRConcat(a[1..], b);
    }
  }

  /** Removing the entry at `j` takes exactly that entry off the sum. */
  lemma SumRemove(b: seq<int>, j: nat)
    requires j < |b|
    ensures Sum(b) == b[j] + Sum(b[..j] + b[j + 1..])
  {
    var front, back := b[..j], b[j + 1..];
    var mid := [b[j]] + back;
    assert b == front + mid;
    SumConcat(front, mid);
    assert Sum(mid) == b[j] + Sum(back) by {
      assert mid[1..] == back;
    }
    SumConcat(front, back);
  }

  /** Reordering the entries (a permutation) does not change the sum. */
  lemma {:induction false} SumPermutation(a: seq<int>, b: seq<int>)
    requires multiset(a) == multiset(b)
    ensures Sum(a) == Sum(b)
  {
    if a == [] {
      assert |b| == |multiset(b)| == 0;
    } else {
      assert a[0] in multiset(b);
      var j :| 0 <= j < |b| && b[j] == a[0];
      var rest := b[..j] + b[j + 1..];
      assert multiset(a[1..]) == multiset(rest) by {
        assert b == b[..j] + [b[j]] + b[j + 1..];
        assert multiset(b) == multiset(b[..j]) + multiset{b[j]} + multiset(b[j + 1..]);
        assert multiset(rest) == multiset(b[..j]) + multiset(b[j + 1..]);
        assert a == [a[0]] + a[1..];
        assert multiset(a) == multiset{a[0]} + multiset(a[1..]);
        forall z ensures multiset(a[1..])[z] == multiset(rest)[z] {
          assert multiset(a)[z] == multiset(b)[z];
        }
      }
      SumPermutation(a[1..], rest);
      SumRemove(b, j);
    }
  }

  /** Elementwise sum of two equally long real vectors. */
  function AddR(a: seq<real>, b: seq<real>): (r: seq<real>)
    requires |a| == |b|
    ensures |r| == |a| && forall k :: 0 <= k < |a| ==> r[k] == a[k] + b[k]
  {
    seq(|a|, k requires 0 <= k < |a| => a[k] + b[k])
  }

  /** Every entry of a real vector multiplied by `c`. */
  function ScaleR(a: seq<real>, c: real): (r: seq<real>)
    ensures |r| == |a| && forall k :: 0 <= k < |a| ==> r[k] == c * a[k]
  {
    seq(|a|, k requires 0 <= k < |a| => c * a[k])
  }

  function ZerosR(n: nat): (r: seq<real>)
    ensures |r| == n && forall k :: 0 <= k < n ==> r[k] == 0.0
  {
    seq(n, _ => 0.0)
  }

  /** Summation is linear: it distributes over elementwise addition ... */
  lemma {:induction false} SumRAdd(a: seq<real>, b: seq<real>)
    requires |a| == |b|
    ensures SumR(AddR(a, b)) == SumR(a) + SumR(b)
  {
    if a != [] {
      assert AddR(a, b)[1..] == AddR(a[1..], b[1..]);
      SumRAdd(a[1..], b[1..]);
    }
  }

  /** ... and commutes with scaling. */
  lemma {:induction false} SumRScale(a: seq<real>, c: real)
    ensures SumR(ScaleR(a, c)) == c * SumR(a)
  {
    if a != [] {
      forall k | 0 <= k < |a| - 1
        ensures ScaleR(a, c)[1..][k] == ScaleR(a[1..], c)[k]
      {
        assert a[1..][k] == a[k + 1];
      }
      assert ScaleR(a, c)[1..] == ScaleR(a[1..], c);
      SumRScale(a[1..], c);
    }
  }

  lemma {:induction false} SumRZeros(n: nat)
    ensures SumR(ZerosR(n)) == 0.0
  {
    if n > 0 {
      assert ZerosR(n)[1..] == ZerosR(n - 1);
      SumRZeros(n - 1);
    }
  }

  /** A vector holding `c` in each of its `n` entries sums to `n * c`. */
  lemma {:induction false} SumRConstant(s: seq<real>, c: real)
    requires forall k :: 0 <= k < |s| ==> s[k] == c
    ensures SumR(s) == |s| as real * c
  {
    if s != [] {
      SumRConstant(s[1..], c);
    }
  }
}
