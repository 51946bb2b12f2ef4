/**
 * Edge-type partition normalisation (train_fnri.py, `main`): the factor sizes
 * given on the command line are converted to integers, sorted in place in
 * descending order, validated (every size at least 1) and summed into the total
 * number of edge types.
 */
module Partition {
  import opened Results
  import opened Sums

  /** The exception `main` raises for a bad list: 'Could not compute the edge-types-list'. */
  datatype PartitionError = ValueError

  /** The validated list (`args.edge_types_list`) and its total (`args.edge_types`). */
  datatype EdgeTypes = EdgeTypes(sizes: seq<int>, total: int)

  predicate Descending(s: seq<int>)
  {
    forall p, q :: 0 <= p < q < |s| ==> s[p] >= s[q]
  }

  predicate AllPositive(s: seq<int>)
  {
    forall k :: 0 <= k < |s| ==> s[k] >= 1
  }

  /** Exchanges two entries of `a`; the elements stay the same. */
  method Swap(a: array<int>, x: int, y: int)
    requires 0 <= x < a.Length && 0 <= y < a.Length
    modifies a
    ensures a[..] == old(a[..])[x := old(a[y])][y := old(a[x])]
    ensures multiset(a[..]) == old(multiset(a[..]))
  {
    a[x], a[y] := a[y], a[x];
  }

  /** `list.sort(reverse=True)`: an in-place sort into non-increasing order. */
  method SortDescending(a: array<int>)
    modifies a
    ensures Descending(a[..])
    ensures multiset(a[..]) == old(multiset(a[..]))
  {
    var i := 0;
    while i < a.Length
      invariant 0 <= i <= a.Length
      invariant forall p, q :: 0 <= p < q < i ==> a[p] >= a[q]
      invariant multiset(a[..]) == old(multiset(a[..]))
    {
      var j := i;
      while j > 0 && a[j - 1] < a[j]
        invariant 0 <= j <= i
        invariant forall p, q :: 0 <= p < q <= i && p != j && q != j ==> a[p] >= a[q]
        invariant forall q :: j < q <= i ==> a[j] >= a[q]
        invariant multiset(a[..]) == old(multiset(a[..]))
      {
        Swap(a, j - 1, j);
        j := j - 1;
      }
      i := i + 1;
    }
  }

  /** Two lists with the same elements agree on whether all of them are at least 1. */
  lemma SameElementsSamePositivity(a: seq<int>, b: seq<int>)
    requires multiset(a) == multiset(b)
    ensures AllPositive(a) <==> AllPositive(b)
  {
    forall k | 0 <= k < |a| ensures a[k] in b {
      assert a[k] in multiset(a);
    }
    forall k | 0 <= k < |b| ensures b[k] in a {
      assert b[k] in multiset(b);
    }
  }

  /**
   * The startup normalisation of the factor sizes. The list is sorted before it
   * is checked, so the check sees the sorted list; a size below 1 raises
   * ValueError whatever its position.
   */
  method Normalize(raw: seq<int>) returns (r: Result<EdgeTypes, PartitionError>)
    ensures r.Ok? <==> AllPositive(raw)
    ensures r.Ok? ==> Descending(r.value.sizes)
    ensures r.Ok? ==> multiset(r.value.sizes) == multiset(raw)
    ensures r.Ok? ==> r.value.total == Sum(raw)
  {
    var a := new int[|raw|](k requires 0 <= k < |raw| => raw[k]);
    assert a[..] == raw;
    SortDescending(a);
    var sorted := a[..];
    SameElementsSamePositivity(sorted, raw);
    if forall k | 0 <= k < |sorted| :: sorted[k] >= 1 {
      SumPermutation(sorted, raw);
      r := Ok(EdgeTypes(sorted, Sum(sorted)));
    } else {
      r := Err(ValueError);
    }
  }
}
