/** The 2-bit saturating counters stored in every predictor table, and the
    three ways the predictor moves them. */
module Counters {

  /** A C `uint8_t`. Counters, predictions and outcomes all have this type, so
      every `++` and `--` on a counter must be shown not to wrap. */
  newtype uint8 = x: int | 0 <= x < 0x100

  // Counter states and directions (from predictor.h, in the order the source
  // lists them: strongly/weakly not taken, weakly/strongly taken).
  const SN: uint8 := 0
  const WN: uint8 := 1
  const WT: uint8 := 2
  const ST: uint8 := 3

  const NOTTAKEN: uint8 := 0
  const TAKEN: uint8 := 1

  predicate InRange(c: uint8) {
    SN <= c <= ST
  }

  predicate AllInRange(s: seq<uint8>) {
    forall i :: 0 <= i < |s| ==> InRange(s[i])
  }

  /** A table of `n` counters that all hold `c`, as an init loop leaves it. */
  function CounterTable(n: nat, c: uint8): (t: seq<uint8>)
    ensures |t| == n && forall i :: 0 <= i < n ==> t[i] == c
  {
    seq(n, _ => c)
  }

  /** The direction a counter predicts: `c <= WN ? NOTTAKEN : TAKEN`. */
  function Predict(c: uint8): (r: uint8)
    ensures r == NOTTAKEN || r == TAKEN
    ensures r == TAKEN <==> c > WN
  {
    if c <= WN then NOTTAKEN else TAKEN
  }

  /** Gshare's update: one step toward the outcome, unless the counter is
      already saturated in that direction. An outcome other than NOTTAKEN or
      TAKEN leaves the counter alone. */
  function TowardOutcome(c: uint8, outcome: uint8): (r: uint8)
    requires InRange(c)
    ensures InRange(r)
    ensures outcome == TAKEN ==> c <= r <= c + 1 && (r == c <==> c == ST)
    ensures outcome == NOTTAKEN ==> r <= c <= r + 1 && (r == c <==> c == SN)
    ensures outcome != TAKEN && outcome != NOTTAKEN ==> r == c
  {
    var saturated := (c == SN && outcome == NOTTAKEN) || (c == ST && outcome == TAKEN);
    if !saturated && outcome == NOTTAKEN then c - 1
    else if !saturated && outcome == TAKEN then c + 1
    else c
  }

  /** The tournament's update of its global and local counters: up (capped at
      ST) when the counter's own prediction was correct, down (floored at SN)
      when it was wrong, whatever the outcome's direction. */
  function Reinforce(c: uint8, correct: bool): (r: uint8)
    requires InRange(c)
    ensures InRange(r)
    ensures correct ==> c <= r <= c + 1 && (r == c <==> c == ST)
    ensures !correct ==> r <= c <= r + 1 && (r == c <==> c == SN)
  {
    if correct then (if c != ST then c + 1 else c)
    else (if c != SN then c - 1 else c)
  }

  /** The chooser's update. A chooser at or below WN selects the global
      sub-prediction. It moves only when the two sub-predictions disagree:
      toward global (down, floored at SN) when global matched the outcome,
      toward local (up, capped at ST) otherwise. */
  function ChooserStep(c: uint8, globalPrediction: uint8, localPrediction: uint8, outcome: uint8): (r: uint8)
    requires InRange(c)
    ensures InRange(r)
    ensures globalPrediction == localPrediction ==> r == c
    ensures globalPrediction != localPrediction && globalPrediction == outcome ==>
              r <= c <= r + 1 && (r == c <==> c == SN)
    ensures globalPrediction != localPrediction && globalPrediction != outcome ==>
              c <= r <= c + 1 && (r == c <==> c == ST)
  {
    if globalPrediction == localPrediction then c
    else if globalPrediction == outcome then (if c != SN then c - 1 else c)
    else (if c != ST then c + 1 else c)
  }

  // ---------------------------------------------------------------------
  // Repeated training
  // ---------------------------------------------------------------------

  /** The counter after `n` gshare updates with the same outcome. */
  function TrainedTimes(c: uint8, outcome: uint8, n: nat): (r: uint8)
    requires InRange(c)
    ensures InRange(r)
    decreases n
  {
    if n == 0 then c else TrainedTimes(TowardOutcome(c, outcome), outcome, n - 1)
  }

  /** The last of `n` updates is applied to the counter after the first `n - 1`. */
  lemma {:induction false} TrainedTimesStep(c: uint8, outcome: uint8, n: nat)
    requires InRange(c) && n >= 1
    ensures TrainedTimes(c, outcome, n) == TowardOutcome(TrainedTimes(c, outcome, n - 1), outcome)
    decreases n
  {
    if n > 1 {
      TrainedTimesStep(TowardOutcome(c, outcome), outcome, n - 1);
    }
  }

  /** Under gshare's update, three updates with the same outcome saturate any
      counter in that direction, and it stays there: from then on it predicts
      that outcome. */
  lemma {:induction false} RepeatedOutcomeSaturates(c: uint8, outcome: uint8, n: nat)
    requires InRange(c)
    requires outcome == TAKEN || outcome == NOTTAKEN
    requires n >= 3
    ensures TrainedTimes(c, outcome, n) == (if outcome == TAKEN then ST else SN)
    ensures Predict(TrainedTimes(c, outcome, n)) == outcome
  {
    var sat := if outcome == TAKEN then ST else SN;
    var c1 := TowardOutcome(c, outcome);
    var c2 := TowardOutcome(c1, outcome);
    var c3 := TowardOutcome(c2, outcome);
    assert c3 == sat;
    SaturatedStays(c3, outcome, n - 3);
    assert TrainedTimes(c, outcome, n) == TrainedTimes(c1, outcome, n - 1)
                                       == TrainedTimes(c2, outcome, n - 2)
                                       == TrainedTimes(c3, outcome, n - 3);
  }

  lemma {:induction false} SaturatedStays(c: uint8, outcome: uint8, n: nat)
    requires outcome == TAKEN || outcome == NOTTAKEN
    requires c == (if outcome == TAKEN then ST else SN)
    ensures TrainedTimes(c, outcome, n) == c
    decreases n
  {
    if n > 0 {
      SaturatedStays(TowardOutcome(c, outcome), outcome, n - 1);
    }
  }

  /** A tournament counter trained on its own predictions: `n` times the
      outcome `outcome`, each time rewarded or punished by whether the
      counter predicted it. */
  function SelfTrainedTimes(c: uint8, outcome: uint8, n: nat): (r: uint8)
    requires InRange(c)
    ensures InRange(r)
    decreases n
  {
    if n == 0 then c
    else SelfTrainedTimes(Reinforce(c, Predict(c) == outcome), outcome, n - 1)
  }

  /** Because the tournament rewards correctness instead of the direction, a
      counter that keeps seeing TAKEN never changes the direction it predicts:
      one that predicts NOTTAKEN is punished down to SN and never learns the
      branch, one that predicts TAKEN is rewarded up to ST. */
  lemma {:induction false} SelfTrainedTakenKeepsPrediction(c: uint8, n: nat)
    requires InRange(c)
    ensures Predict(SelfTrainedTimes(c, TAKEN, n)) == Predict(c)
    decreases n
  {
    if n > 0 {
      SelfTrainedTakenKeepsPrediction(Reinforce(c, Predict(c) == TAKEN), n - 1);
    }
  }

  /** Dually, a counter at WN that keeps seeing NOTTAKEN is rewarded into WT,
      then punished back into WN: it flips its prediction on every update. */
  lemma {:induction false} SelfTrainedNotTakenOscillates(n: nat)
    ensures SelfTrainedTimes(WN, NOTTAKEN, n) == (if n % 2 == 0 then WN else WT)
  {
    if n >= 2 {
      SelfTrainedNotTakenOscillates(n - 2);
      assert SelfTrainedTimes(WN, NOTTAKEN, n) == SelfTrainedTimes(WN, NOTTAKEN, n - 2) by {
        assert Reinforce(WN, Predict(WN) == NOTTAKEN) == WT;
        assert Reinforce(WT, Predict(WT) == NOTTAKEN) == WN;
      }
    }
  }
}
