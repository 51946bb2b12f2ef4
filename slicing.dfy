/**
 * Partition slicing along the last axis (train_fnri.py, `run`): `torch.split`
 * cuts a vector into consecutive chunks of the factor sizes and `torch.cat`
 * glues the chunks back together.
 */
module Slicing {
  import opened Results
  import opened Sums

  /** Where the chunk of factor `k` starts: the sum of the sizes before it. */
  function Offset(sizes: seq<nat>, k: nat): (r: nat)
    requires k <= |sizes|
    ensures k < |sizes| ==> r + sizes[k] <= Sum(sizes)
    ensures k == |sizes| ==> r == Sum(sizes)
  {
    SumNonNegative(sizes);
    if k == 0 then 0 else
      SumNonNegative(sizes[1..]);
      sizes[0] + Offset(sizes[1..], k - 1)
  }

  /** The total number of edge types, `sum(edge_types_list)`. */
  function Total(sizes: seq<nat>): (r: nat)
    ensures r == Sum(sizes)
  {
    SumNonNegative(sizes);
    Sum(sizes)
  }

  /** Offsets grow by exactly one chunk from one factor to the next. */
  lemma {:induction false} OffsetStep(sizes: seq<nat>, k: nat)
    requires k < |sizes|
    ensures Offset(sizes, k + 1) == Offset(sizes, k) + sizes[k]
  {
    if k > 0 {
      OffsetStep(sizes[1..], k - 1);
    }
  }

  /** The chunk of factor `k` of a vector whose length is the total size. */
  function Chunk<T>(v: seq<T>, sizes: seq<nat>, k: nat): (r: seq<T>)
    requires |v| == Sum(sizes) && k < |sizes|
    ensures |r| == sizes[k]
  {
    v[Offset(sizes, k)..Offset(sizes, k) + sizes[k]]
  }

  /** The length of each piece. */
  function Lengths<T>(chunks: seq<seq<T>>): (r: seq<nat>)
    ensures |r| == |chunks|
  {
    if chunks == [] then [] else [|chunks[0]|] + Lengths(chunks[1..])
  }

  /** `torch.cat(chunks)`: its length is the sum of the lengths of the pieces. */
  function Concat<T>(chunks: seq<seq<T>>): (r: seq<T>)
    ensures |r| == Sum(Lengths(chunks))
  {
    if chunks == [] then [] else
      var rest := Concat(chunks[1..]);
      assert ([|chunks[0]|] + Lengths(chunks[1..]))[1..] == Lengths(chunks[1..]);
      chunks[0] + rest
  }

  /**
   * `torch.split(v, sizes)`; `None` stands for the error torch raises when the
   * sizes do not add up to the length of the split axis.
   */
  function Split<T>(v: seq<T>, sizes: seq<nat>): (r: Option<seq<seq<T>>>)
    ensures r.Some? <==> |v| == Sum(sizes)
    ensures r.Some? ==> |r.value| == |sizes|
    ensures r.Some? ==> forall k :: 0 <= k < |sizes| ==> |r.value[k]| == sizes[k]
    decreases |sizes|
  {
    if |v| != Sum(sizes) then None
    else if sizes == [] then Some([])
    else
      SumNonNegative(sizes[1..]);
      var rest := Split(v[sizes[0]..], sizes[1..]);
      Some([v[..sizes[0]]] + rest.value)
  }

  lemma SplitUnfold<T>(v: seq<T>, sizes: seq<nat>)
    requires |v| == Sum(sizes) && sizes != []
    ensures sizes[0] <= |v| && |v[sizes[0]..]| == Sum(sizes[1..])
    ensures Split(v, sizes).value == [v[..sizes[0]]] + Split(v[sizes[0]..], sizes[1..]).value
  {
    SumNonNegative(sizes[1..]);
  }

  /** Past the first factor, a chunk is the chunk of the rest of the vector. */
  lemma ChunkOfTail<T>(v: seq<T>, sizes: seq<nat>, k: nat)
    requires |v| == Sum(sizes) && 0 < k < |sizes|
    ensures sizes[0] <= |v| && |v[sizes[0]..]| == Sum(sizes[1..])
    ensures Chunk(v, sizes, k) == Chunk(v[sizes[0]..], sizes[1..], k - 1)
  {
    SumNonNegative(sizes[1..]);
    var o := Offset(sizes[1..], k - 1);
    assert Offset(sizes, k) == sizes[0] + o;
    assert v[sizes[0]..][o..o + sizes[k]] == v[sizes[0] + o..sizes[0] + o + sizes[k]];
  }

  /** The k-th piece of the split is the chunk starting at the k-th offset. */
  lemma {:induction false} SplitChunks<T>(v: seq<T>, sizes: seq<nat>)
    requires |v| == Sum(sizes)
    ensures forall k :: 0 <= k < |sizes| ==> Split(v, sizes).value[k] == Chunk(v, sizes, k)
  {
    if sizes != [] {
      SplitUnfold(v, sizes);
      var tail, rest := v[sizes[0]..], sizes[1..];
      SplitChunks(tail, rest);
      forall k | 0 < k < |sizes|
        ensures Split(v, sizes).value[k] == Chunk(v, sizes, k)
      {
        ChunkOfTail(v, sizes, k);
      }
    }
  }

  /** Concatenating the pieces of a split gives back the vector. */
  lemma {:induction false} ConcatSplit<T>(v: seq<T>, sizes: seq<nat>)
    requires |v| == Sum(sizes)
    ensures Concat(Split(v, sizes).value) == v
  {
    if sizes != [] {
      SumNonNegative(sizes[1..]);
      ConcatSplit(v[sizes[0]..], sizes[1..]);
      var pieces := Split(v, sizes).value;
      assert pieces[1..] == Split(v[sizes[0]..], sizes[1..]).value;
    }
  }

  /** Splitting chunks of the given sizes after concatenating them gives back the chunks. */
  lemma {:induction false} SplitConcat<T>(chunks: seq<seq<T>>, sizes: seq<nat>)
    requires |chunks| == |sizes|
    requires forall k :: 0 <= k < |sizes| ==> |chunks[k]| == sizes[k]
    ensures Split(Concat(chunks), sizes) == Some(chunks)
  {
    if sizes != [] {
      SplitConcat(chunks[1..], sizes[1..]);
      var glued := Concat(chunks);
      assert glued == chunks[0] + Concat(chunks[1..]);
      assert glued[..sizes[0]] == chunks[0];
      assert glued[sizes[0]..] == Concat(chunks[1..]);
      assert chunks == [chunks[0]] + chunks[1..];
    }
  }
}
