/**
 * Sparsity prior (train_fnri.py, `main`, with `--prior`): one vector built from
 * the first (largest) factor size, 0.9 on category 0 and the remaining 0.1 split
 * evenly over the other categories, repeated once per factor and rejected
 * unless its length matches every factor size.
 */
module Prior {
  import opened Results
  import opened Sums
  import Partition

  /**
   * IndexError: the list is empty (`edge_types_list[0]`); ZeroDivisionError: the
   * largest size is 1 (`0.1 / 0`); ValueError: 'Prior is incompatable with the
   * edge types list'.
   */
  datatype PriorError = IndexError | ZeroDivisionError | ValueError

  /** `prior_et` for a largest factor size `l0` of at least 2. */
  function PriorVector(l0: nat): (r: seq<real>)
    requires l0 >= 2
    ensures |r| == l0
  {
    seq(l0, c requires 0 <= c < l0 => if c == 0 then 0.9 else 0.1 / (l0 - 1) as real)
  }

  /** The prior is a probability vector with no zero entry (so its logarithm is finite). */
  lemma PriorIsDistribution(l0: nat)
    requires l0 >= 2
    ensures PriorVector(l0)[0] == 0.9
    ensures forall c :: 1 <= c < l0 ==> PriorVector(l0)[c] == 0.1 / (l0 - 1) as real
    ensures forall c :: 0 <= c < l0 ==> PriorVector(l0)[c] > 0.0
    ensures SumR(PriorVector(l0)) == 1.0
  {
    var v := PriorVector(l0);
    var rest := v[1..];
    var share := 0.1 / (l0 - 1) as real;
    assert forall c :: 0 <= c < |rest| ==> rest[c] == v[c + 1];
    SumRConstant(rest, share);
    assert (l0 - 1) as real * share == 0.1;
  }

  /**
   * The prior list `[prior_et] * len(edge_types_list)` after validation. The
   * division comes before the check, so a largest size of 1 fails with
   * ZeroDivisionError even when the sizes differ.
   */
  function BuildPrior(sizes: seq<int>): (r: Result<seq<seq<real>>, PriorError>)
    requires Partition.AllPositive(sizes)
    ensures sizes == [] ==> r == Err(IndexError)
    ensures sizes != [] && sizes[0] == 1 ==> r == Err(ZeroDivisionError)
    ensures r.Ok? <==> sizes != [] && sizes[0] >= 2 && forall k :: 0 <= k < |sizes| ==> sizes[k] == sizes[0]
    ensures sizes != [] && sizes[0] >= 2 && !(forall k :: 0 <= k < |sizes| ==> sizes[k] == sizes[0]) ==> r == Err(ValueError)
    ensures r.Ok? ==> |r.value| == |sizes| && forall k :: 0 <= k < |sizes| ==> r.value[k] == PriorVector(sizes[0])
  {
    if sizes == [] then Err(IndexError)
    else if sizes[0] - 1 == 0 then Err(ZeroDivisionError)
    else
      var prior := seq(|sizes|, _ => PriorVector(sizes[0]));
      if forall k :: 0 <= k < |sizes| ==> |prior[k]| == sizes[k] then Ok(prior) else Err(ValueError)
  }

  /**
   * For a normalised (descending) partition whose largest size is at least 2,
   * the prior is accepted exactly when all factors have that size, and then
   * each factor's vector is a probability vector of the factor's own length.
   */
  lemma PriorOfNormalisedPartition(sizes: seq<int>)
    requires Partition.AllPositive(sizes) && Partition.Descending(sizes) && sizes != [] && sizes[0] >= 2
    ensures BuildPrior(sizes).Ok? <==> sizes[|sizes| - 1] == sizes[0]
    ensures BuildPrior(sizes).Ok? ==> forall k :: 0 <= k < |sizes| ==>
      |BuildPrior(sizes).value[k]| == sizes[k] && SumR(BuildPrior(sizes).value[k]) == 1.0
  {
    PriorIsDistribution(sizes[0]);
  }
}
