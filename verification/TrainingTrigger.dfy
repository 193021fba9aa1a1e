/** When training is started: by the bite that crosses the threshold, or at start-up if it was passed before. */
module TrainingTrigger {

  /** `_maybe_start_training`: the stored count moves from below the threshold to it or past it. */
  predicate Crosses(threshold: int, before: nat, after: nat) {
    threshold > 0 && before < threshold <= after
  }

  /** How often a run of commits that adds these numbers of mentions crosses the threshold. */
  function Crossings(threshold: int, stored: nat, added: seq<nat>): nat
    decreases |added|
  {
    if added == [] then 0
    else
      (if Crosses(threshold, stored, stored + added[0]) then 1 else 0)
      + Crossings(threshold, stored + added[0], added[1..])
  }

  function Total(added: seq<nat>): nat {
    if added == [] then 0 else added[0] + Total(added[1..])
  }

  /** However the mentions are divided into commits, the threshold is crossed at most once, and exactly if reached. */
  lemma {:induction false} CrossedExactlyOnce(threshold: int, stored: nat, added: seq<nat>)
    ensures Crossings(threshold, stored, added) == if Crosses(threshold, stored, stored + Total(added)) then 1 else 0
    decreases |added|
  {
    if added != [] {
      CrossedExactlyOnce(threshold, stored + added[0], added[1..]);
    }
  }

  /** `train_on_start_if_due`: whether training is requested before the first request is taken. */
  predicate DueAtStart(threshold: int, stored: nat, needsTraining: bool) {
    threshold > 0 && stored >= threshold && needsTraining
  }

  /**
   * Over a whole process - start-up with some mentions stored, then any commits - training is requested at
   * most once: at start-up if the threshold was passed and the model still needs training, by the crossing
   * commit if it was not passed before, and never otherwise.
   */
  lemma RequestedAtMostOnce(threshold: int, stored: nat, needsTraining: bool, added: seq<nat>)
    ensures var requests := (if DueAtStart(threshold, stored, needsTraining) then 1 else 0)
                            + Crossings(threshold, stored, added);
            requests == if threshold > 0 && stored + Total(added) >= threshold && (needsTraining || stored < threshold)
                        then 1 else 0
  {
    CrossedExactlyOnce(threshold, stored, added);
  }
}
