/**
 * One pass over a data loader (train_fnri.py, `run`): per batch, the values of
 * the six metrics are appended to the history; in 'train' mode the optimizer is
 * called; in 'post' mode the sampled edge tensors are summed and counted, and
 * the pass returns their mean (the aggregated posterior) instead of the history.
 */
module EpochRunner {
  import opened Sums
  import opened Slicing
  import opened Objective

  /** The mode string of `run`: 'train', 'val', 'test' or 'post'. */
  datatype Mode = Train | Val | Test | Post

  /** The six keys of `history`. */
  datatype Metric = Mse | Nll | Kl | Loss | KlbTrain | KlbBlocks

  /** A recorded value: a float, or the list of floats recorded under 'KLb_blocks'. */
  datatype Value = Scalar(x: real) | Vector(xs: seq<real>)

  /**
   * The `history` dict. Its six keys are fixed when it is created, so it is a
   * record with one list per key.
   */
  datatype History = History(mse: seq<Value>, nll: seq<Value>, kl: seq<Value>, loss: seq<Value>,
                             klbTrain: seq<Value>, klbBlocks: seq<Value>)

  /** The calls `run` makes on the optimizer. */
  datatype OptimizerCall = ZeroGrad | Step

  /**
   * What the encoder, the sampler, the decoder and the loss helpers produced for
   * one batch: the sampled edge tensor [batch size][pairs][edge types], the loss
   * terms, and `KL_between_blocks`.
   */
  datatype BatchOutcome = BatchOutcome(edges: seq<Matrix>, terms: Terms, klBlocks: seq<real>)

  /**
   * `(history, None)`, `(None, aggr_posterior / n_samples)`, that mean over no
   * samples (0/0, NaN), or the AttributeError a batch with no KL-between-blocks
   * values raises: `sum([])` is the int 0, which has no `.data`.
   */
  datatype PassOutput = Metrics(history: History) | Posterior(mean: Matrix) | UndefinedPosterior | AttributeError

  predicate Shaped(m: Matrix, rows: nat, cols: nat)
  {
    |m| == rows && forall p :: 0 <= p < rows ==> |m[p]| == cols
  }

  /** Every sampled edge tensor of every batch is [pairs][edge types]. */
  predicate WellShaped(loader: seq<BatchOutcome>, rows: nat, cols: nat)
  {
    forall b, s :: 0 <= b < |loader| && 0 <= s < |loader[b].edges| ==> Shaped(loader[b].edges[s], rows, cols)
  }

  function ZeroMatrix(rows: nat, cols: nat): (r: Matrix)
    ensures Shaped(r, rows, cols)
  {
    seq(rows, _ => ZerosR(cols))
  }

  function AddMatrix(a: Matrix, b: Matrix, rows: nat, cols: nat): (r: Matrix)
    requires Shaped(a, rows, cols) && Shaped(b, rows, cols)
    ensures Shaped(r, rows, cols)
    ensures forall p :: 0 <= p < rows ==> r[p] == AddR(a[p], b[p])
  {
    seq(rows, p requires 0 <= p < rows => AddR(a[p], b[p]))
  }

  function ScaleMatrix(a: Matrix, c: real): (r: Matrix)
    ensures |r| == |a|
    ensures forall p :: 0 <= p < |a| ==> r[p] == ScaleR(a[p], c)
  {
    seq(|a|, p requires 0 <= p < |a| => ScaleR(a[p], c))
  }

  /** `edges.sum(0)`: the sum of a batch's sampled edge matrices. */
  function SampleSum(edges: seq<Matrix>, rows: nat, cols: nat): (r: Matrix)
    requires forall s :: 0 <= s < |edges| ==> Shaped(edges[s], rows, cols)
    ensures Shaped(r, rows, cols)
  {
    if edges == [] then ZeroMatrix(rows, cols)
    else AddMatrix(edges[0], SampleSum(edges[1..], rows, cols), rows, cols)
  }

  /** `aggr_posterior` after the first `i` batches: zeros plus each batch's edge sum, in order. */
  function Aggregate(loader: seq<BatchOutcome>, i: nat, rows: nat, cols: nat): (r: Matrix)
    requires WellShaped(loader, rows, cols) && i <= |loader|
    ensures Shaped(r, rows, cols)
  {
    if i == 0 then ZeroMatrix(rows, cols)
    else AddMatrix(Aggregate(loader, i - 1, rows, cols), SampleSum(loader[i - 1].edges, rows, cols), rows, cols)
  }

  /** `n_samples` after the first `i` batches: the sum of their batch sizes, so at least the last one's. */
  function SampleCount(loader: seq<BatchOutcome>, i: nat): (r: nat)
    requires i <= |loader|
    ensures i > 0 ==> r >= |loader[i - 1].edges|
  {
    if i == 0 then 0 else SampleCount(loader, i - 1) + |loader[i - 1].edges|
  }

  /** No sample was seen exactly when every batch so far was empty: only then is the mean 0/0. */
  lemma {:induction false} NoSamplesIffEmptyBatches(loader: seq<BatchOutcome>, i: nat)
    requires i <= |loader|
    ensures SampleCount(loader, i) == 0 <==> forall b :: 0 <= b < i ==> loader[b].edges == []
  {
    if i > 0 {
      NoSamplesIffEmptyBatches(loader, i - 1);
    }
  }

  /** `aggr_posterior / n_samples` after the whole loader. */
  function Mean(loader: seq<BatchOutcome>, rows: nat, cols: nat): (r: Matrix)
    requires WellShaped(loader, rows, cols) && SampleCount(loader, |loader|) > 0
    ensures Shaped(r, rows, cols)
  {
    ScaleMatrix(Aggregate(loader, |loader|, rows, cols), 1.0 / SampleCount(loader, |loader|) as real)
  }

  /** `args.num_atoms ** 2 - args.num_atoms`: the number of ordered atom pairs. */
  function PairCount(atoms: nat): nat
  {
    atoms * atoms - atoms
  }

  /** The value a batch contributes under each key of the history. */
  function Entry(m: Metric, b: BatchOutcome, cfg: LossConfig): Value
  {
    match m
    case Loss => Scalar(Combine(cfg, b.terms).loss)
    case Mse => Scalar(Combine(cfg, b.terms).mse)
    case Nll => Scalar(Combine(cfg, b.terms).nll)
    case Kl => Scalar(Combine(cfg, b.terms).kl)
    case KlbTrain => Scalar(SumR(b.klBlocks))
    case KlbBlocks => Vector(b.klBlocks)
  }

  /** The values recorded under `m` for the first `i` batches, in loader order. */
  function Column(m: Metric, loader: seq<BatchOutcome>, i: nat, cfg: LossConfig): seq<Value>
    requires i <= |loader|
  {
    if i == 0 then [] else Column(m, loader, i - 1, cfg) + [Entry(m, loader[i - 1], cfg)]
  }

  /** Every key of the history holds the values of the first `i` batches. */
  predicate Recorded(h: History, loader: seq<BatchOutcome>, i: nat, cfg: LossConfig)
    requires i <= |loader|
  {
    && h.mse == Column(Mse, loader, i, cfg) && h.nll == Column(Nll, loader, i, cfg)
    && h.kl == Column(Kl, loader, i, cfg) && h.loss == Column(Loss, loader, i, cfg)
    && h.klbTrain == Column(KlbTrain, loader, i, cfg) && h.klbBlocks == Column(KlbBlocks, loader, i, cfg)
  }

  /** A column has one value per batch, the k-th being batch k's value. */
  lemma {:induction false} ColumnAt(m: Metric, loader: seq<BatchOutcome>, i: nat, cfg: LossConfig)
    requires i <= |loader|
    ensures |Column(m, loader, i, cfg)| == i
    ensures forall k :: 0 <= k < i ==> Column(m, loader, i, cfg)[k] == Entry(m, loader[k], cfg)
  {
    if i > 0 {
      ColumnAt(m, loader, i - 1, cfg);
    }
  }

  /** The optimizer calls of `b` training batches: zero_grad then step, once per batch. */
  function TrainCalls(b: nat): seq<OptimizerCall>
  {
    if b == 0 then [] else TrainCalls(b - 1) + [ZeroGrad] + [Step]
  }

  lemma {:induction false} TrainCallsShape(b: nat)
    ensures |TrainCalls(b)| == 2 * b
    ensures forall k :: 0 <= k < b ==> TrainCalls(b)[2 * k] == ZeroGrad && TrainCalls(b)[2 * k + 1] == Step
  {
    if b > 0 {
      TrainCallsShape(b - 1);
    }
  }

  /** The first batch with no KL-between-blocks values, or the number of batches if there is none. */
  function FirstEmptyBlocks(loader: seq<BatchOutcome>): (r: nat)
    ensures r <= |loader|
    ensures r < |loader| ==> loader[r].klBlocks == []
  {
    if loader == [] || loader[0].klBlocks == [] then 0 else 1 + FirstEmptyBlocks(loader[1..])
  }

  /** Every batch before it has KL-between-blocks values. */
  lemma {:induction false} BeforeFirstEmpty(loader: seq<BatchOutcome>, b: nat)
    requires b < FirstEmptyBlocks(loader)
    ensures loader[b].klBlocks != []
  {
    if b > 0 {
      BeforeFirstEmpty(loader[1..], b - 1);
    }
  }

  /**
   * `run(mode, data_loader, ...)` over the outcomes of the loader's batches.
   * `atoms` and `edgeTypes` are `args.num_atoms` and `args.edge_types`.
   */
  method Run(mode: Mode, loader: seq<BatchOutcome>, cfg: LossConfig, atoms: nat, edgeTypes: nat)
    returns (out: PassOutput, calls: seq<OptimizerCall>)
    requires mode == Post ==> WellShaped(loader, PairCount(atoms), edgeTypes)
    ensures FirstEmptyBlocks(loader) < |loader| ==>
      out == AttributeError && calls == if mode == Train then TrainCalls(FirstEmptyBlocks(loader)) + [ZeroGrad] else []
    ensures FirstEmptyBlocks(loader) == |loader| && mode != Post ==>
      out.Metrics? && Recorded(out.history, loader, |loader|, cfg)
    ensures FirstEmptyBlocks(loader) == |loader| && mode == Post && SampleCount(loader, |loader|) == 0 ==>
      out == UndefinedPosterior
    ensures FirstEmptyBlocks(loader) == |loader| && mode == Post && SampleCount(loader, |loader|) > 0 ==>
      out == Posterior(Mean(loader, PairCount(atoms), edgeTypes))
    ensures FirstEmptyBlocks(loader) == |loader| ==> calls == if mode == Train then TrainCalls(|loader|) else []
  {
    var rows: nat := PairCount(atoms);
    var history := History([], [], [], [], [], []);
    var aggr := ZeroMatrix(rows, edgeTypes);
    var nSamples: nat := 0;
    calls := [];
    var i := 0;
    while i < |loader|
      invariant 0 <= i <= FirstEmptyBlocks(loader)
      invariant Recorded(history, loader, i, cfg)
      invariant calls == if mode == Train then TrainCalls(i) else []
      invariant mode == Post ==> aggr == Aggregate(loader, i, rows, edgeTypes)
      invariant mode == Post ==> nSamples == SampleCount(loader, i)
    {
      var batch := loader[i];
      if mode == Train {
        calls := calls + [ZeroGrad];
      }
      if batch.klBlocks == [] {
        if i < FirstEmptyBlocks(loader) {
          BeforeFirstEmpty(loader, i);
        }
        out := AttributeError;
        return;
      }
      history := history.(klbTrain := history.klbTrain + [Scalar(SumR(batch.klBlocks))]);
      history := history.(klbBlocks := history.klbBlocks + [Vector(batch.klBlocks)]);
      var losses := Combine(cfg, batch.terms);
      if mode == Train {
        calls := calls + [Step];
      }
      if mode == Post {
        aggr := AddMatrix(aggr, SampleSum(batch.edges, rows, edgeTypes), rows, edgeTypes);
        nSamples := nSamples + |batch.edges|;
        assert aggr == Aggregate(loader, i + 1, rows, edgeTypes);
      }
      history := history.(loss := history.loss + [Scalar(losses.loss)]);
      history := history.(mse := history.mse + [Scalar(losses.mse)]);
      history := history.(nll := history.nll + [Scalar(losses.nll)]);
      history := history.(kl := history.kl + [Scalar(losses.kl)]);
      assert Recorded(history, loader, i + 1, cfg);
      i := i + 1;
    }
    if mode == Post {
      if nSamples == 0 {
        out := UndefinedPosterior;
      } else {
        out := Posterior(ScaleMatrix(aggr, 1.0 / nSamples as real));
      }
    } else {
      out := Metrics(history);
    }
  }

  /** Every factor slice of `row` sums to `c`. */
  predicate RowMass(row: seq<real>, sizes: seq<nat>, c: real)
  {
    |row| == Sum(sizes) && forall k :: 0 <= k < |sizes| ==> SumR(Chunk(row, sizes, k)) == c
  }

  /** Every factor slice of every row of `m` sums to `c`. */
  predicate FactorMass(m: Matrix, sizes: seq<nat>, c: real)
  {
    forall p :: 0 <= p < |m| ==> RowMass(m[p], sizes, c)
  }

  /** Every sampled edge matrix of every batch has one unit of mass in each factor slice. */
  predicate SamplesNormalised(loader: seq<BatchOutcome>, sizes: seq<nat>)
  {
    forall b, s :: 0 <= b < |loader| && 0 <= s < |loader[b].edges| ==> FactorMass(loader[b].edges[s], sizes, 1.0)
  }

  /** Slicing commutes with adding rows. */
  lemma ChunkAdd(x: seq<real>, y: seq<real>, sizes: seq<nat>, k: nat)
    requires |x| == |y| == Sum(sizes) && k < |sizes|
    ensures Chunk(AddR(x, y), sizes, k) == AddR(Chunk(x, sizes, k), Chunk(y, sizes, k))
  {
    var o := Offset(sizes, k);
    var u, v, w := Chunk(x, sizes, k), Chunk(y, sizes, k), Chunk(AddR(x, y), sizes, k);
    forall j | 0 <= j < sizes[k] ensures w[j] == AddR(u, v)[j] {
      assert w[j] == AddR(x, y)[o + j] == x[o + j] + y[o + j];
      assert u[j] == x[o + j] && v[j] == y[o + j];
    }
  }

  /** Slicing commutes with scaling a row. */
  lemma ChunkScale(x: seq<real>, sizes: seq<nat>, k: nat, f: real)
    requires |x| == Sum(sizes) && k < |sizes|
    ensures Chunk(ScaleR(x, f), sizes, k) == ScaleR(Chunk(x, sizes, k), f)
  {
    var o := Offset(sizes, k);
    var u, w := Chunk(x, sizes, k), Chunk(ScaleR(x, f), sizes, k);
    forall j | 0 <= j < sizes[k] ensures w[j] == ScaleR(u, f)[j] {
      assert w[j] == ScaleR(x, f)[o + j] == f * x[o + j];
      assert u[j] == x[o + j];
    }
  }

  lemma RowMassAdd(x: seq<real>, y: seq<real>, sizes: seq<nat>, cx: real, cy: real)
    requires RowMass(x, sizes, cx) && RowMass(y, sizes, cy)
    ensures RowMass(AddR(x, y), sizes, cx + cy)
  {
    forall k | 0 <= k < |sizes| ensures SumR(Chunk(AddR(x, y), sizes, k)) == cx + cy {
      ChunkAdd(x, y, sizes, k);
      SumRAdd(Chunk(x, sizes, k), Chunk(y, sizes, k));
    }
  }

  lemma RowMassScale(x: seq<real>, sizes: seq<nat>, c: real, f: real)
    requires RowMass(x, sizes, c)
    ensures RowMass(ScaleR(x, f), sizes, f * c)
  {
    forall k | 0 <= k < |sizes| ensures SumR(Chunk(ScaleR(x, f), sizes, k)) == f * c {
      ChunkScale(x, sizes, k, f);
      SumRScale(Chunk(x, sizes, k), f);
    }
  }

  lemma MassZero(rows: nat, sizes: seq<nat>)
    ensures FactorMass(ZeroMatrix(rows, Total(sizes)), sizes, 0.0)
  {
    forall p | 0 <= p < rows ensures RowMass(ZeroMatrix(rows, Total(sizes))[p], sizes, 0.0) {
      forall k | 0 <= k < |sizes| ensures SumR(Chunk(ZerosR(Total(sizes)), sizes, k)) == 0.0 {
        SumRConstant(Chunk(ZerosR(Total(sizes)), sizes, k), 0.0);
      }
    }
  }

  lemma MassAdd(a: Matrix, b: Matrix, rows: nat, sizes: seq<nat>, ca: real, cb: real)
    requires Shaped(a, rows, Total(sizes)) && Shaped(b, rows, Total(sizes))
    requires FactorMass(a, sizes, ca) && FactorMass(b, sizes, cb)
    ensures FactorMass(AddMatrix(a, b, rows, Total(sizes)), sizes, ca + cb)
  {
    forall p | 0 <= p < rows ensures RowMass(AddMatrix(a, b, rows, Total(sizes))[p], sizes, ca + cb) {
      RowMassAdd(a[p], b[p], sizes, ca, cb);
    }
  }

  lemma MassScale(a: Matrix, sizes: seq<nat>, c: real, f: real)
    requires FactorMass(a, sizes, c)
    ensures FactorMass(ScaleMatrix(a, f), sizes, f * c)
  {
    forall p | 0 <= p < |a| ensures RowMass(ScaleMatrix(a, f)[p], sizes, f * c) {
      RowMassScale(a[p], sizes, c, f);
    }
  }

  /** The sum over a batch holds, in each factor slice, as much mass as the batch has samples. */
  lemma {:induction false} SampleSumMass(edges: seq<Matrix>, rows: nat, sizes: seq<nat>)
    requires forall s :: 0 <= s < |edges| ==> Shaped(edges[s], rows, Total(sizes))
    requires forall s :: 0 <= s < |edges| ==> FactorMass(edges[s], sizes, 1.0)
    ensures FactorMass(SampleSum(edges, rows, Total(sizes)), sizes, |edges| as real)
  {
    if edges == [] {
      MassZero(rows, sizes);
    } else {
      SampleSumMass(edges[1..], rows, sizes);
      MassAdd(edges[0], SampleSum(edges[1..], rows, Total(sizes)), rows, sizes, 1.0, |edges[1..]| as real);
    }
  }


  /** The accumulator holds, in each factor slice, as much mass as samples were seen. */
  lemma {:induction false} AggregateMass(loader: seq<BatchOutcome>, i: nat, rows: nat, sizes: seq<nat>)
    requires WellShaped(loader, rows, Total(sizes)) && SamplesNormalised(loader, sizes) && i <= |loader|
    ensures FactorMass(Aggregate(loader, i, rows, Total(sizes)), sizes, SampleCount(loader, i) as real)
  {
    if i == 0 {
      MassZero(rows, sizes);
    } else {
      AggregateMass(loader, i - 1, rows, sizes);
      SampleSumMass(loader[i - 1].edges, rows, sizes);
      MassAdd(Aggregate(loader, i - 1, rows, Total(sizes)), SampleSum(loader[i - 1].edges, rows, Total(sizes)),
        rows, sizes, SampleCount(loader, i - 1) as real, |loader[i - 1].edges| as real);
    }
  }

  /** Dividing by the mass makes it one. */
  lemma MassNormalise(a: Matrix, sizes: seq<nat>, n: real)
    requires n > 0.0 && FactorMass(a, sizes, n)
    ensures FactorMass(ScaleMatrix(a, 1.0 / n), sizes, 1.0)
  {
    MassScale(a, sizes, n, 1.0 / n);
    assert (1.0 / n) * n == 1.0;
  }

  /**
   * When every sample puts one unit of mass in each factor slice, so does the
   * posterior a 'post' pass returns: each factor slice of each pair sums to 1.
   */
  lemma PosteriorNormalised(loader: seq<BatchOutcome>, atoms: nat, sizes: seq<nat>)
    requires WellShaped(loader, PairCount(atoms), Total(sizes)) && SamplesNormalised(loader, sizes)
    requires SampleCount(loader, |loader|) > 0
    ensures FactorMass(Mean(loader, PairCount(atoms), Total(sizes)), sizes, 1.0)
  {
    AggregateMass(loader, |loader|, PairCount(atoms), sizes);
    MassNormalise(Aggregate(loader, |loader|, PairCount(atoms), Total(sizes)), sizes, SampleCount(loader, |loader|) as real);
  }
}
