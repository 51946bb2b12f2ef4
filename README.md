# fNRI training script: the discrete core, in Dafny

This project models the bookkeeping and combinatorial logic of `train_fnri.py`,
the training script of the factorised neural relational inference (fNRI) model.
It leaves out the neural networks and states what the script does with their outputs.

- **Edge-type partition** (`Partition`). The factor sizes are converted, sorted in place
  into descending order, validated (every size at least 1, else `ValueError`) and summed
  into the number of edge types.
- **Graph geometry** (`Geometry`):
  - the off-diagonal mask `ones - eye` over N atoms;
  - the row-major list of its non-zero cells (`np.where`);
  - the one-hot receiver/sender matrices `rel_rec`/`rel_send`.
- **Partition slicing** (`Slicing`). `torch.split` along the last axis by the factor
  sizes, and `torch.cat` back.
- **Loss selection** (`Objective`). The `np.isclose` test on beta, the scaling of the KL
  term, and the choice between the MSE loss and the ELBO.
- **One pass over a loader** (`EpochRunner`), the `run` function:
  - one append per history key per batch;
  - optimizer calls in 'train' mode only;
  - in 'post' mode, the summed sampled edges and the sample count, and the mean that is
    returned instead of the history.
- **Sparsity prior** (`Prior`). The vector built from the largest factor size, repeated
  per factor and validated against the partition.
- **Early stopping** (`EarlyStopping`). The `stop_early` counter of the epoch loop and
  the `break` once it exceeds the patience.
- **Edge assembly in `generations`** (`Generation`). The triple loop that writes a 1 at
  column `et * n + idx` of a zero array, for one drawn category per sample, pair and
  factor.

`Results` holds the `Option`/`Result` types. `Sums` holds list sums (integer and
real) and elementwise vector operations, with their algebra.

Floats are modelled as mathematical reals. The encoder, decoder, Gumbel-softmax
sampler and the loss helpers are outside the model: each batch of a pass is given
as a `BatchOutcome` holding what they produced:
- the sampled edge tensor;
- the NLL, KL and MSE values;
- the KL-between-blocks list.

The random draw of `np.random.choice` is an input too: an index that the model
requires to have positive probability. The optimizer is not an object here. `Run`
returns the sequence of `zero_grad`/`step` calls it makes.

Two behaviours of the code are kept as written:
- A beta within 1e-8 of zero leaves the KL term **unscaled**, so the loss stays
  NLL + KL. Such a beta does not switch the KL term off, as one might expect from
  beta = 0 in a beta-weighted ELBO; the model follows the code.
- The generation loop places factor `et` at column `et * n` (n its own size), not at
  the sum of the earlier sizes. The two agree when all sizes are equal, and the model
  proves that case. For unequal sizes, `UnequalSizesMisplaceFactors` shows a
  partition ([3, 2] with draws [2, 0]) where both factors write the same column and
  the real slice of factor 1 stays empty. This only happens when the slice
  `aggr_posterior[i, et*n:(et+1)*n]` the draw reads happens to sum to 1. Otherwise
  `np.random.choice` raises its own `ValueError` (see "Left out"). The contract of
  `Start` shows that the descending sort at startup keeps every such slice inside
  the row.

## Model

| member | source | states |
|---|---|---|
| Partition.SortDescending | train_fnri.py:327 | sorting in place leaves the array non-increasing and with the same multiset of elements |
| Partition.Normalize | train_fnri.py:326-331 | returns Ok exactly when every given size is at least 1, else ValueError; on Ok the list is non-increasing, is a permutation of the input, and the total equals the sum of the input |
| Partition.SameElementsSamePositivity | train_fnri.py:327-328 | the all-at-least-1 check gives the same verdict on the sorted list as on the unsorted one |
| Sums.SumPermutation | train_fnri.py:327-329 | two lists with the same multiset of elements have the same sum, so sorting does not change `edge_types` |
| Geometry.Cells | train_fnri.py:318-322 | the non-zero cells of rows i to N-1 are N-1 per row, strictly increasing in row-major order, and exactly the pairs of distinct atoms below N whose row is at least i |
| Geometry.OffDiagonal | train_fnri.py:318-322 | the cell list has N*N - N entries; a pair is listed exactly when it has two distinct atoms below N; the list is strictly increasing in row-major order |
| Geometry.OffDiagonalUnique | train_fnri.py:318-322 | no pair is listed twice |
| Geometry.OffDiagonalAt | train_fnri.py:321-322 | pair (i, j) sits at index i*(N-1) + (j if j < i else j-1) |
| Geometry.OneHot | train_fnri.py:321-322 | the code of label k is 1 at k, 0 elsewhere, and sums to 1 |
| Geometry.RelRec | train_fnri.py:321 | `rel_rec` has N*N - N rows; row p is the one-hot code of the receiver (column) of the p-th pair |
| Geometry.RelSend | train_fnri.py:322 | `rel_send` has N*N - N rows; row p is the one-hot code of the sender (row) of the p-th pair |
| Geometry.RelRecAt | train_fnri.py:321 | the `rel_rec` row of pair (i, j) is the one-hot code of its receiver j |
| Geometry.RelSendAt | train_fnri.py:322 | the `rel_send` row of pair (i, j) is the one-hot code of its sender i |
| Geometry.NoSelfLoops | train_fnri.py:318-322 | in every row the sender and receiver differ, so the `rel_rec` and `rel_send` rows differ |
| Slicing.Offset | train_fnri.py:149 | the start of chunk k plus its size stays within the total; past the last factor it is the total |
| Slicing.Chunk | train_fnri.py:149 | the chunk of factor k has sizes[k] elements (`SplitChunks` shows that it is the k-th piece of the split) |
| Slicing.Concat | train_fnri.py:153 | the concatenation's length is the sum of the pieces' lengths (`ConcatSplit` and `SplitConcat` show that it inverts the split) |
| Slicing.Split | train_fnri.py:149 | the split succeeds exactly when the length is the sum of the sizes; it then has one piece per factor, and piece k has length sizes[k] |
| Slicing.SplitChunks | train_fnri.py:149 | piece k is the slice that starts at the sum of the earlier sizes |
| Slicing.ConcatSplit | train_fnri.py:149-153 | concatenating the pieces of a split gives back the original vector |
| Slicing.SplitConcat | train_fnri.py:149-153 | splitting a concatenation of pieces of the given sizes gives back those pieces |
| Objective.IsCloseToZero | train_fnri.py:181 | `np.isclose(beta, 0, rtol=1e-6)` holds exactly when abs(beta) <= 1e-8 |
| Objective.KlWeight | train_fnri.py:181-182 | the KL weight is 1 for abs(beta) <= 1e-8 and beta otherwise |
| Objective.Combine | train_fnri.py:181-187 | mse and nll are passed through; the recorded KL is the weighted KL; the loss is the MSE when the flag is set, else NLL + weighted KL |
| Objective.MseIgnoresKl | train_fnri.py:187 | with the MSE flag set, changing the KL term does not change the loss |
| Objective.NegligibleBetaActsAsOne | train_fnri.py:181-187 | every beta within 1e-8 of zero gives the same batch values as beta = 1 |
| Objective.ZeroBetaKeepsKl | train_fnri.py:181-187 | with beta = 0 the ELBO loss is NLL + KL, which differs from the NLL whenever the KL is non-zero |
| EpochRunner.FirstEmptyBlocks | train_fnri.py:171-172 | the index of the first batch with no KL-between-blocks values, or the number of batches if none: that batch has no such values |
| EpochRunner.BeforeFirstEmpty | train_fnri.py:171-172 | every batch before that one has KL-between-blocks values |
| EpochRunner.Run | train_fnri.py:129-206 | a batch with no KL-between-blocks values ends the pass with the AttributeError of `sum([]).data`, after the calls of the earlier batches and that batch's zero_grad in 'train' mode; otherwise every mode except 'post' returns the history, and each of the six keys holds one value per batch in loader order; 'post' returns the accumulated edge sum divided by the total sample count (undefined, 0/0, when no samples were seen); the calls are zero_grad, step per batch in 'train' mode and none otherwise |
| EpochRunner.ColumnAt | train_fnri.py:172-201 | after i batches each history key holds i values, and the k-th is batch k's value for that key |
| EpochRunner.TrainCallsShape | train_fnri.py:144-145 | B training batches make 2B optimizer calls, zero_grad then step for each batch |
| EpochRunner.SampleSum | train_fnri.py:195 | `edges.sum(0)` has the shape [pairs, edge types] of each sample (`SampleSumMass`: it has mass n_samples in each factor slice when every sample has mass 1) |
| EpochRunner.Aggregate | train_fnri.py:195 | `aggr_posterior` after i batches has the shape [pairs, edge types] (`AggregateMass` gives its mass) |
| EpochRunner.SampleCount | train_fnri.py:196 | `n_samples` after i batches is at least the size of the last of them |
| EpochRunner.NoSamplesIffEmptyBatches | train_fnri.py:196 | `n_samples` is 0 exactly when every batch so far was empty, the only case where the mean is 0/0 |
| EpochRunner.Mean | train_fnri.py:204 | `aggr_posterior / n_samples` has the shape [pairs, edge types] (`PosteriorNormalised` gives its mass) |
| EpochRunner.AggregateMass | train_fnri.py:195-196 | if every sample has mass 1 in each factor slice of each pair, the accumulator has mass n_samples there |
| EpochRunner.PosteriorNormalised | train_fnri.py:195-204 | if every sample has mass 1 in each factor slice, so does the returned posterior |
| Prior.PriorVector | train_fnri.py:381-383 | the vector has one entry per category of the largest factor (`PriorIsDistribution` gives its values) |
| Prior.PriorIsDistribution | train_fnri.py:380-382 | for a largest size L0 >= 2 the vector has 0.9 at 0 and 0.1/(L0-1) elsewhere, all positive, summing to 1 |
| Prior.BuildPrior | train_fnri.py:378-388 | an empty list fails with IndexError; a largest size of 1 fails with ZeroDivisionError whatever the rest is; the prior is accepted exactly when the largest size is at least 2 and every factor has that size, and otherwise fails with ValueError; it is then one copy of the vector per factor |
| Prior.PriorOfNormalisedPartition | train_fnri.py:380-388 | for a sorted partition with largest size at least 2, the prior is accepted exactly when the smallest size equals the largest; each factor's vector then has the factor's length and sums to 1 |
| EarlyStopping.Stall | train_fnri.py:423 | `stop_early` is at most the number of epochs, and it is 0 exactly when the last epoch was best |
| EarlyStopping.StallIsTrailingRun | train_fnri.py:424 | the counter equals the length of the run of non-best epochs at the end |
| EarlyStopping.ExceedsIffLongRun | train_fnri.py:424-426 | the counter exceeds the patience exactly when the last patience + 1 epochs were all non-best |
| EarlyStopping.TrainEpochs | train_fnri.py:409-429 | the counter after the loop is the counter of the epochs run; no epoch before the last exceeded the patience; the loop breaks exactly when the last epoch's counter exceeds it; otherwise it runs all `epochs` epochs |
| EarlyStopping.StopMeansLongRun | train_fnri.py:424-429 | an early stop comes after at least patience + 1 epochs, and the last patience + 1 were all non-best |
| Generation.AssembleEdges | train_fnri.py:251-258 | the array is fresh and of shape [batch, pairs, edge types]; entry (bz, i, c) is 1 exactly when some factor's draw for (bz, i) lands on column c, else 0 |
| Generation.Start | train_fnri.py:255-258 | for a descending partition `et*n` is at most the sum of the earlier sizes, and the slice `[et*n, et*n + n)` lies inside the row; with all sizes equal it is exactly that sum |
| Generation.StartWithinOffset | train_fnri.py:255-258 | for a descending partition `et*n` is at most the sum of the sizes before factor `et` |
| Generation.MarkedIffWritten | train_fnri.py:254-258 | after the first m factors, a column holds a 1 exactly when one of them wrote `et*n + idx` there |
| Generation.Row | train_fnri.py:251-258 | the row has one entry per edge type; each entry is 0 or 1, and it is 1 exactly at the columns `et*n + idx` some factor writes |
| Generation.EqualSizesStart | train_fnri.py:255-258 | with all sizes equal to n, `et*n` is the sum of the earlier sizes |
| Generation.EqualSizesOneHot | train_fnri.py:251-258 | with all sizes equal, each factor slice of an assembled row is the one-hot code of that factor's draw |
| Generation.UnequalSizesMisplaceFactors | train_fnri.py:255-258 | for sizes [3, 2] and draws [2, 0], factor 1 writes at column 2, not at its offset 3, and its real slice sums to 0 |
| Generation.CertainSliceForcesFirst | train_fnri.py:256-257 | a slice with probability 0 on every category but the first forces the draw 0 |

## Left out

- The encoder and decoder networks, `gumbel_softmax`, `my_softmax`, the `kl_categorical*` helpers, `KL_between_blocks`, `nll_gaussian*` and `F.mse_loss`. They are neural-network numerics in modules that are not part of this model. Their results are inputs of each batch.
- `kl_categorical_uniform_var` and `nll_gaussian_var`: `run` computes them and never uses them.
- `loss.backward`, `clip_grad_norm_`, the Adam step and the `StepLR` scheduler. They are autodiff and optimizer internals. Only the order of the `zero_grad`/`step` calls is modelled.
- The `Logger`: its checkpoint store is the input list of "is best" answers. `restore`, `info`, `add_scalar` and the plots are output only.
- The training, validation and test passes inside each epoch of the early-stopping loop. They do not affect the counter except through the store's answer.
- Argument parsing, including the `ValueError` of the string-to-int conversion of the factor sizes (the model starts from integers). Also device placement, seeding, `torch.no_grad` and the train/eval switches.
- The logarithm of the prior and its reshaping into tensors. The model proves that the prior entries are positive, so the logarithm is defined.
- The CSV dump of the posterior, `os.makedirs`, `np.save` and the decoder run on each generated batch.
- `load_data` and `get_params_first_frame` (dataset utilities).
- Randomness. `np.random.choice` is replaced by a given index with positive probability, and its own `ValueError` for probabilities that do not sum to 1 is not modelled.
- EpochRunner.Run: the `history` dict is modelled as a record with one list per key, because its six keys are fixed when it is created.
- EpochRunner.Run: the 0/0 of a 'post' pass over no samples is modelled as the value `UndefinedPosterior`, not as a tensor of NaNs.
- Generation.AssembleEdges: models one batch of the loader loop of `generations`; the outer loop repeats it per batch.
- Objective.Combine: float rounding is not modelled (reals are exact), so the sums and products are exact.
