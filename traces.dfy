/** Runs of the engine over a trace of branches, in the order the driver uses
    it: for each branch, make_prediction and then train_predictor with the
    resolved outcome. */
module Traces {
  import opened Bits
  import opened Counters
  import opened History
  import opened Schemes

  /** One resolved conditional branch: its address and its outcome. */
  datatype Branch = Branch(pc: uint32, outcome: uint8)

  /** The state after training on every branch of `trace`, in order. */
  function Run(cfg: Config, s: State, trace: seq<Branch>): (r: State)
    requires Ready(cfg, s)
    ensures Ready(cfg, r)
    decreases |trace|
  {
    if trace == [] then s
    else
      var last := trace[|trace| - 1];
      TrainPredictor(cfg, Run(cfg, s, trace[..|trace| - 1]), last.pc, last.outcome)
  }

  /** The prediction made for each branch of `trace`, each from the state
      trained on the branches before it (see PredictionBeforeTraining). */
  function Predictions(cfg: Config, s: State, trace: seq<Branch>): (p: seq<uint8>)
    requires Ready(cfg, s)
    ensures |p| == |trace|
    decreases |trace|
  {
    if trace == [] then []
    else
      var prefix := trace[..|trace| - 1];
      Predictions(cfg, s, prefix) + [MakePrediction(cfg, Run(cfg, s, prefix), trace[|trace| - 1].pc)]
  }

  /** The `k`-th prediction is made by the state trained on exactly the `k`
      branches before it. */
  lemma {:induction false} PredictionBeforeTraining(cfg: Config, s: State, trace: seq<Branch>, k: nat)
    requires Ready(cfg, s) && k < |trace|
    ensures Predictions(cfg, s, trace)[k] == MakePrediction(cfg, Run(cfg, s, trace[..k]), trace[k].pc)
    decreases |trace|
  {
    var prefix := trace[..|trace| - 1];
    if k < |prefix| {
      PredictionBeforeTraining(cfg, s, prefix, k);
      assert prefix[..k] == trace[..k];
    } else {
      assert trace[..k] == prefix;
    }
  }

  /** The same branch `n` times. */
  function Repeat(b: Branch, n: nat): seq<Branch> {
    seq(n, _ => b)
  }

  // ---------------------------------------------------------------------
  // gshare learns a repeated branch
  // ---------------------------------------------------------------------

  /** Gshare trained `n` times on the same branch. */
  function GshareRepeat(cfg: Config, s: State, pc: uint32, outcome: uint8, n: nat): (r: State)
    requires GshareReady(cfg, s)
    ensures GshareReady(cfg, r)
    decreases n
  {
    if n == 0 then s else GshareTrain(cfg, GshareRepeat(cfg, s, pc, outcome, n - 1), pc, outcome)
  }

  /** On a gshare engine, a run of one repeated branch is `GshareRepeat`. */
  lemma {:induction false} GshareRunIsRepeat(cfg: Config, s: State, pc: uint32, outcome: uint8, n: nat)
    requires cfg.bpType == GSHARE && Ready(cfg, s)
    ensures Run(cfg, s, Repeat(Branch(pc, outcome), n)) == GshareRepeat(cfg, s, pc, outcome, n)
  {
    if n > 0 {
      GshareRunIsRepeat(cfg, s, pc, outcome, n - 1);
      assert Repeat(Branch(pc, outcome), n)[..n - 1] == Repeat(Branch(pc, outcome), n - 1);
    }
  }

  /** Training on a repeated branch shifts its outcome into the gshare
      register once per branch. */
  lemma {:induction false} GshareRepeatHistory(cfg: Config, s: State, pc: uint32, outcome: uint8, n: nat)
    requires GshareReady(cfg, s)
    ensures GshareRepeat(cfg, s, pc, outcome, n).ghistory == HistoryAfter(s.ghistory, Streak(outcome, n))
  {
    if n > 0 {
      GshareRepeatHistory(cfg, s, pc, outcome, n - 1);
      assert Streak(outcome, n)[..n - 1] == Streak(outcome, n - 1);
    }
  }

  /** On a gshare engine, the `k`-th prediction over a repeated branch is the
      one gshare makes after training on it `k` times. */
  lemma GsharePredictionOfRepeat(cfg: Config, s: State, pc: uint32, outcome: uint8, n: nat, k: nat)
    requires cfg.bpType == GSHARE && GshareReady(cfg, s) && k < n
    ensures Predictions(cfg, s, Repeat(Branch(pc, outcome), n))[k]
              == GsharePredict(cfg, GshareRepeat(cfg, s, pc, outcome, k), pc)
  {
    var trace := Repeat(Branch(pc, outcome), n);
    PredictionBeforeTraining(cfg, s, trace, k);
    assert trace[..k] == Repeat(Branch(pc, outcome), k);
    GshareRunIsRepeat(cfg, s, pc, outcome, k);
  }

  /** Once a branch has repeated `ghistoryBits` times, the index it selects
      stays the same however often it repeats further. */
  lemma GshareIndexSettles(cfg: Config, s: State, pc: uint32, outcome: uint8, n: nat)
    requires GshareReady(cfg, s)
    requires n >= cfg.ghistoryBits
    ensures var settled := GshareRepeat(cfg, s, pc, outcome, cfg.ghistoryBits);
            var later := GshareRepeat(cfg, s, pc, outcome, n);
            GlobalIndex(later.ghistory, pc, cfg.ghistoryBits) == GlobalIndex(settled.ghistory, pc, cfg.ghistoryBits)
  {
    var bits := cfg.ghistoryBits;
    var hn := HistoryAfter(s.ghistory, Streak(outcome, n));
    var hb := HistoryAfter(s.ghistory, Streak(outcome, bits));
    StreakHistorySettles(s.ghistory, outcome, n, bits);
    GlobalIndexSeesLowBits(hn, hb, pc, bits);
    GshareRepeatHistory(cfg, s, pc, outcome, n);
    GshareRepeatHistory(cfg, s, pc, outcome, bits);
  }

  /** After the index settles, every further repetition moves the same
      counter one step toward the outcome. */
  lemma {:induction false} GshareSettledCounter(cfg: Config, s: State, pc: uint32, outcome: uint8, n: nat)
    requires GshareReady(cfg, s) && n >= cfg.ghistoryBits
    ensures var settled := GshareRepeat(cfg, s, pc, outcome, cfg.ghistoryBits);
            var i := GlobalIndex(settled.ghistory, pc, cfg.ghistoryBits);
            GshareRepeat(cfg, s, pc, outcome, n).gstate[i] == TrainedTimes(settled.gstate[i], outcome, n - cfg.ghistoryBits)
    decreases n
  {
    var bits := cfg.ghistoryBits;
    var settled := GshareRepeat(cfg, s, pc, outcome, bits);
    var i := GlobalIndex(settled.ghistory, pc, bits);
    if n > bits {
      var k := n - 1;
      var before := GshareRepeat(cfg, s, pc, outcome, k);
      assert GlobalIndex(before.ghistory, pc, bits) == i by {
        GshareIndexSettles(cfg, s, pc, outcome, k);
      }
      var m := n - bits;
      assert before.gstate[i] == TrainedTimes(settled.gstate[i], outcome, m - 1) by {
        GshareSettledCounter(cfg, s, pc, outcome, k);
        assert k - bits == m - 1;
      }
      SettledCounterStep(cfg, s, pc, outcome, n, i, settled.gstate[i], m);
    } else {
      assert TrainedTimes(settled.gstate[i], outcome, 0) == settled.gstate[i];
    }
  }

  /** One more repetition moves the counter at the settled index one step
      further toward the outcome. */
  lemma SettledCounterStep(cfg: Config, s: State, pc: uint32, outcome: uint8, n: nat, i: nat, c: uint8, m: nat)
    requires GshareReady(cfg, s) && n >= 1 && m >= 1 && InRange(c)
    requires i == GlobalIndex(GshareRepeat(cfg, s, pc, outcome, n - 1).ghistory, pc, cfg.ghistoryBits)
    requires GshareRepeat(cfg, s, pc, outcome, n - 1).gstate[i] == TrainedTimes(c, outcome, m - 1)
    ensures GshareRepeat(cfg, s, pc, outcome, n).gstate[i] == TrainedTimes(c, outcome, m)
  {
    GshareTrainWrites(cfg, GshareRepeat(cfg, s, pc, outcome, n - 1), pc, outcome);
    TrainedTimesStep(c, outcome, m);
  }

  /** Gshare learns a branch that keeps the same outcome: from any ready
      state, after `ghistoryBits + 3` repetitions it predicts that outcome. */
  lemma GshareLearnsRepeatedBranch(cfg: Config, s: State, pc: uint32, outcome: uint8, n: nat)
    requires cfg.bpType == GSHARE && Ready(cfg, s)
    requires outcome == TAKEN || outcome == NOTTAKEN
    requires n >= cfg.ghistoryBits + 3
    ensures MakePrediction(cfg, Run(cfg, s, Repeat(Branch(pc, outcome), n)), pc) == outcome
  {
    var bits := cfg.ghistoryBits;
    var settled := GshareRepeat(cfg, s, pc, outcome, bits);
    var i := GlobalIndex(settled.ghistory, pc, bits);
    var later := GshareRepeat(cfg, s, pc, outcome, n);
    assert Predict(later.gstate[i]) == outcome by {
      GshareSettledCounter(cfg, s, pc, outcome, n);
      RepeatedOutcomeSaturates(settled.gstate[i], outcome, n - bits);
    }
    assert GlobalIndex(later.ghistory, pc, bits) == i by {
      GshareIndexSettles(cfg, s, pc, outcome, n);
    }
    GshareRunIsRepeat(cfg, s, pc, outcome, n);
  }

  // ---------------------------------------------------------------------
  // The tournament on always-taken branches
  // ---------------------------------------------------------------------

  /** Every global and every local counter predicts NOTTAKEN. */
  predicate SubCountersLow(s: State) {
    && (forall i :: 0 <= i < |s.globalBHT| ==> s.globalBHT[i] <= WN)
    && (forall i :: 0 <= i < |s.localBHT| ==> s.localBHT[i] <= WN)
  }

  predicate AllTaken(trace: seq<Branch>) {
    forall k :: 0 <= k < |trace| ==> trace[k].outcome == TAKEN
  }

  /** While both sub-counters predict NOTTAKEN, the tournament predicts
      NOTTAKEN, and a TAKEN branch punishes both for being wrong, so they keep
      predicting NOTTAKEN. */
  lemma TakenKeepsSubCountersLow(cfg: Config, s: State, pc: uint32)
    requires TournamentReady(cfg, s) && SubCountersLow(s)
    ensures TournamentPredict(cfg, s, pc) == NOTTAKEN
    ensures SubCountersLow(TournamentTrain(cfg, s, pc, TAKEN))
  {
    TournamentTrainWrites(cfg, s, pc, TAKEN);
  }

  lemma {:induction false} TournamentTakenRunStaysLow(cfg: Config, s: State, trace: seq<Branch>)
    requires cfg.bpType == TOURNAMENT && Ready(cfg, s) && SubCountersLow(s)
    requires AllTaken(trace)
    ensures SubCountersLow(Run(cfg, s, trace))
    decreases |trace|
  {
    if trace != [] {
      var prefix := trace[..|trace| - 1];
      TournamentTakenRunStaysLow(cfg, s, prefix);
      TakenKeepsSubCountersLow(cfg, Run(cfg, s, prefix), trace[|trace| - 1].pc);
    }
  }

  /** From a state whose sub-counters all predict NOTTAKEN, every prediction
      over an all-taken trace is NOTTAKEN. */
  lemma TournamentTakenPredictions(cfg: Config, s: State, trace: seq<Branch>, k: nat)
    requires cfg.bpType == TOURNAMENT && Ready(cfg, s) && SubCountersLow(s)
    requires AllTaken(trace) && k < |trace|
    ensures Predictions(cfg, s, trace)[k] == NOTTAKEN
  {
    PredictionBeforeTraining(cfg, s, trace, k);
    assert AllTaken(trace[..k]);
    TournamentTakenRunStaysLow(cfg, s, trace[..k]);
    TakenKeepsSubCountersLow(cfg, Run(cfg, s, trace[..k]), trace[k].pc);
  }

  /** Because the tournament's sub-counters move by correctness and not toward
      the outcome, and start at WN, a freshly initialised tournament predicts
      NOTTAKEN for every branch of a trace in which every branch is taken:
      it never learns an always-taken branch. */
  lemma TournamentNeverLearnsTaken(cfg: Config, s0: State, trace: seq<Branch>)
    requires cfg.bpType == TOURNAMENT && Supported(cfg)
    requires AllTaken(trace)
    ensures forall k :: 0 <= k < |trace| ==> Predictions(cfg, InitPredictor(cfg, s0), trace)[k] == NOTTAKEN
  {
    var s := InitPredictor(cfg, s0);
    assert SubCountersLow(s);
    forall k | 0 <= k < |trace|
      ensures Predictions(cfg, s, trace)[k] == NOTTAKEN
    {
      TournamentTakenPredictions(cfg, s, trace, k);
    }
  }

  // ---------------------------------------------------------------------
  // A worked example
  // ---------------------------------------------------------------------

  /** Gshare with a 2-bit history, one branch at pc 4 taken four times: the
      indices are 0, 1, 3 and 3, the first three counters are fresh (WN), and
      only the fourth prediction is TAKEN. Whatever the globals held before
      init_predictor does not matter. */
  lemma GshareExample(before: State)
    ensures var cfg := Config(2, 0, 0, GSHARE);
            var p := Predictions(cfg, InitPredictor(cfg, before), Repeat(Branch(4, TAKEN), 4));
            |p| == 4 && p[0] == NOTTAKEN && p[1] == NOTTAKEN && p[2] == NOTTAKEN && p[3] == TAKEN
  {
    var cfg := Config(2, 0, 0, GSHARE);
    var s := InitPredictor(cfg, before);
    var p := Predictions(cfg, s, Repeat(Branch(4, TAKEN), 4));
    GshareExamplePredicts(before);
    assert p[0] == NOTTAKEN by { GsharePredictionOfRepeat(cfg, s, 4, TAKEN, 4, 0); }
    assert p[1] == NOTTAKEN by { GsharePredictionOfRepeat(cfg, s, 4, TAKEN, 4, 1); }
    assert p[2] == NOTTAKEN by { GsharePredictionOfRepeat(cfg, s, 4, TAKEN, 4, 2); }
    assert p[3] == TAKEN by { GsharePredictionOfRepeat(cfg, s, 4, TAKEN, 4, 3); }
  }

  /** The prediction gshare makes before each of the four branches. */
  lemma GshareExamplePredicts(before: State)
    ensures var cfg := Config(2, 0, 0, GSHARE);
            var s := InitPredictor(cfg, before);
            && GsharePredict(cfg, GshareRepeat(cfg, s, 4, TAKEN, 0), 4) == NOTTAKEN
            && GsharePredict(cfg, GshareRepeat(cfg, s, 4, TAKEN, 1), 4) == NOTTAKEN
            && GsharePredict(cfg, GshareRepeat(cfg, s, 4, TAKEN, 2), 4) == NOTTAKEN
            && GsharePredict(cfg, GshareRepeat(cfg, s, 4, TAKEN, 3), 4) == TAKEN
  {
    GshareExampleStates(before);
  }

  /** The states behind GshareExample: the global index and the counters
      before each of the four branches. */
  lemma GshareExampleStates(before: State)
    ensures var cfg := Config(2, 0, 0, GSHARE);
            var s := InitPredictor(cfg, before);
            && GlobalIndex(GshareRepeat(cfg, s, 4, TAKEN, 0).ghistory, 4, 2) == 0
            && GshareRepeat(cfg, s, 4, TAKEN, 0).gstate == [WN, WN, WN, WN]
            && GlobalIndex(GshareRepeat(cfg, s, 4, TAKEN, 1).ghistory, 4, 2) == 1
            && GshareRepeat(cfg, s, 4, TAKEN, 1).gstate == [WT, WN, WN, WN]
            && GlobalIndex(GshareRepeat(cfg, s, 4, TAKEN, 2).ghistory, 4, 2) == 3
            && GshareRepeat(cfg, s, 4, TAKEN, 2).gstate == [WT, WT, WN, WN]
            && GlobalIndex(GshareRepeat(cfg, s, 4, TAKEN, 3).ghistory, 4, 2) == 3
            && GshareRepeat(cfg, s, 4, TAKEN, 3).gstate == [WT, WT, WN, WT]
  {
    var cfg := Config(2, 0, 0, GSHARE);
    var s := InitPredictor(cfg, before);
    assert Pow2(2) == 4;
    assert s.ghistory == 0 && s.gstate == [WN, WN, WN, WN];
    ExampleXors();
    var s1 := GshareRepeat(cfg, s, 4, TAKEN, 1);
    assert s1.ghistory == 1 && s1.gstate == [WT, WN, WN, WN];
    var s2 := GshareRepeat(cfg, s, 4, TAKEN, 2);
    assert s2.ghistory == 3 && s2.gstate == [WT, WT, WN, WN];
    var s3 := GshareRepeat(cfg, s, 4, TAKEN, 3);
    assert s3.ghistory == 7 && s3.gstate == [WT, WT, WN, WT];
  }

  /** The four `history ^ pc` values of the example. */
  lemma ExampleXors()
    ensures Xor(0, 4) == 4 && Xor(1, 4) == 5 && Xor(3, 4) == 7 && Xor(7, 4) == 3
  {
    assert Xor(0, 2) == 2 && Xor(0, 1) == 1;
    assert Xor(1, 2) == 3 && Xor(3, 2) == 1 && Xor(1, 1) == 0;
  }
}
