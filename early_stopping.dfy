/**
 * Early stopping in the epoch loop of `main` (train_fnri.py): after each epoch
 * the checkpoint store says whether the validation loss is the best so far; the
 * stall counter `stop_early` is reset on a best epoch and incremented otherwise,
 * and training stops once the counter exceeds `patience`.
 */
module EarlyStopping {

  /**
   * `stop_early` after the epochs whose "is best" answers are `isBest`: never more
   * than the number of epochs, 0 right after a best epoch, positive right after
   * any other.
   */
  function Stall(isBest: seq<bool>): (r: nat)
    ensures r <= |isBest|
    ensures isBest != [] ==> (r == 0 <==> isBest[|isBest| - 1])
  {
    if isBest == [] then 0
    else if isBest[|isBest| - 1] then 0
    else Stall(isBest[..|isBest| - 1]) + 1
  }

  /** The last `k` answers were all "not best". */
  predicate TrailingNonBest(isBest: seq<bool>, k: nat)
  {
    k <= |isBest| && forall e :: |isBest| - k <= e < |isBest| ==> !isBest[e]
  }

  /**
   * The counter is the length of the run of non-best epochs at the end: those
   * epochs were all non-best, and the one before them (if any) was best.
   */
  lemma {:induction false} StallIsTrailingRun(isBest: seq<bool>)
    ensures TrailingNonBest(isBest, Stall(isBest))
    ensures Stall(isBest) < |isBest| ==> isBest[|isBest| - 1 - Stall(isBest)]
  {
    if isBest != [] && !isBest[|isBest| - 1] {
      var front := isBest[..|isBest| - 1];
      StallIsTrailingRun(front);
      assert forall e :: 0 <= e < |front| ==> front[e] == isBest[e];
    }
  }

  /**
   * For a non-negative patience, the counter exceeds it exactly when the last
   * patience + 1 epochs were all non-best.
   */
  lemma ExceedsIffLongRun(isBest: seq<bool>, patience: int)
    requires patience >= 0
    ensures Stall(isBest) > patience <==> TrailingNonBest(isBest, patience + 1)
  {
    StallIsTrailingRun(isBest);
    if Stall(isBest) <= patience && patience + 1 <= |isBest| {
      assert isBest[|isBest| - 1 - Stall(isBest)];
    }
  }

  /**
   * The loop `for epoch in range(1, epochs + 1)` with `isBest[e - 1]` the store's
   * answer for epoch e. Returns how many epochs ran, the final counter, and
   * whether the loop stopped early (the `break`).
   */
  method TrainEpochs(epochs: int, patience: int, isBest: seq<bool>) returns (ran: nat, stall: nat, stopped: bool)
    requires epochs <= |isBest|
    ensures ran <= |isBest| && stall == Stall(isBest[..ran])
    ensures forall e :: 1 <= e < ran ==> Stall(isBest[..e]) <= patience
    ensures stopped <==> ran >= 1 && Stall(isBest[..ran]) > patience
    ensures stopped ==> ran <= epochs
    ensures !stopped ==> ran == if epochs < 0 then 0 else epochs
  {
    stall := 0;
    ran := 0;
    stopped := false;
    var epoch := 1;
    while epoch <= epochs
      invariant 1 <= epoch && ran == epoch - 1 && ran <= |isBest|
      invariant epoch <= if epochs < 0 then 1 else epochs + 1
      invariant stall == Stall(isBest[..ran])
      invariant forall e :: 1 <= e <= ran ==> Stall(isBest[..e]) <= patience
    {
      // one training, one validation and one test pass run here
      var best := isBest[epoch - 1];
      assert isBest[..epoch][..epoch - 1] == isBest[..ran];
      stall := if best then 0 else stall + 1;
      ran := epoch;
      if stall > patience {
        stopped := true;
        return;
      }
      epoch := epoch + 1;
    }
  }

  /**
   * When training stops early with a non-negative patience, the last
   * patience + 1 epochs were all non-best and no earlier epoch had triggered
   * the stop.
   */
  lemma StopMeansLongRun(isBest: seq<bool>, patience: int, ran: nat)
    requires patience >= 0 && 1 <= ran <= |isBest|
    requires Stall(isBest[..ran]) > patience
    ensures ran >= patience + 1
    ensures forall e :: ran - patience - 1 <= e < ran ==> !isBest[e]
  {
    ExceedsIffLongRun(isBest[..ran], patience);
  }
}
