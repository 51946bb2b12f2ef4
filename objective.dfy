/**
 * Loss selection (train_fnri.py, `run`). The reconstruction NLL, the summed KL
 * and the MSE come from helpers outside this model and are given as numbers;
 * this module states how they are combined into the optimised loss and into the
 * values recorded for the batch.
 */
module Objective {

  /** numpy's default absolute tolerance of `np.isclose` (1e-8). */
  const AbsTol: real := 0.00000001
  /** The relative tolerance passed by the script (1e-6). */
  const RelTol: real := 0.000001

  function Abs(x: real): real
  {
    if x < 0.0 then -x else x
  }

  /** `np.isclose(a, b, rtol=RelTol)`: |a - b| <= atol + rtol * |b|. */
  predicate IsClose(a: real, b: real)
  {
    Abs(a - b) <= AbsTol + RelTol * Abs(b)
  }

  /** Against 0 the relative part vanishes: beta is "close" exactly when |beta| <= 1e-8. */
  lemma IsCloseToZero(beta: real)
    ensures IsClose(beta, 0.0) <==> -AbsTol <= beta <= AbsTol
  {
  }

  /** The loss configuration: `args.beta` and `args.mse_loss`. */
  datatype LossConfig = LossConfig(beta: real, useMse: bool)

  /** The outputs of `nll_gaussian`, `sum(loss_kl_split)` and `F.mse_loss` for one batch. */
  datatype Terms = Terms(nll: real, kl: real, mse: real)

  /** What one batch records: `loss`, `mse`, `nll` and the (possibly scaled) `kl`. */
  datatype Losses = Losses(loss: real, mse: real, nll: real, kl: real)

  /**
   * The weight the KL term ends up with: beta, except that a beta close to 0
   * leaves the KL term as it is (weight 1), it is not zeroed.
   */
  function KlWeight(beta: real): (w: real)
    ensures -AbsTol <= beta <= AbsTol ==> w == 1.0
    ensures (beta < -AbsTol || beta > AbsTol) ==> w == beta
  {
    if !IsClose(beta, 0.0) then beta else 1.0
  }

  /**
   * One batch's loss: MSE when the MSE flag is set, otherwise NLL plus the
   * weighted KL; the KL that is recorded is the weighted one in both cases.
   */
  function Combine(cfg: LossConfig, t: Terms): (r: Losses)
    ensures r.mse == t.mse && r.nll == t.nll
    ensures r.kl == KlWeight(cfg.beta) * t.kl
    ensures cfg.useMse ==> r.loss == r.mse
    ensures !cfg.useMse ==> r.loss == r.nll + r.kl
  {
    var kl := if !IsClose(cfg.beta, 0.0) then cfg.beta * t.kl else t.kl;
    Losses(if cfg.useMse then t.mse else t.nll + kl, t.mse, t.nll, kl)
  }

  /** With the MSE flag set, the KL term has no influence on the optimised loss. */
  lemma MseIgnoresKl(beta: real, t: Terms, kl': real)
    ensures Combine(LossConfig(beta, true), t).loss == Combine(LossConfig(beta, true), t.(kl := kl')).loss
  {
  }

  /** Every negligible beta gives the same batch values as beta = 1. */
  lemma NegligibleBetaActsAsOne(beta: real, useMse: bool, t: Terms)
    requires IsClose(beta, 0.0)
    ensures Combine(LossConfig(beta, useMse), t) == Combine(LossConfig(1.0, useMse), t)
  {
  }

  /**
   * With beta exactly 0 the ELBO loss is NLL + KL, so it depends on the KL term:
   * beta = 0 does not reduce the loss to the reconstruction term.
   */
  lemma ZeroBetaKeepsKl(t: Terms)
    ensures Combine(LossConfig(0.0, false), t).loss == t.nll + t.kl
    ensures t.kl != 0.0 ==> Combine(LossConfig(0.0, false), t).loss != t.nll
  {
  }
}
