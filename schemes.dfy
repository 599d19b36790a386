/** The predictor engine as values: its configuration, the whole of its
    state, and one function per operation of the C source (init, predict and
    train for gshare and for the tournament, and the three dispatchers). The
    class in module Predictors runs the same operations in place on arrays and
    is proved to agree with these functions. */
module Schemes {
  import opened Bits
  import opened Counters
  import opened History

  // Branch prediction types (from predictor.h, in the order of bpName).
  const STATIC: int := 0
  const GSHARE: int := 1
  const TOURNAMENT: int := 2
  const CUSTOM: int := 3

  /** The globals the driver sets before calling init_predictor. */
  datatype Config = Config(ghistoryBits: int, lhistoryBits: int, pcIndexBits: int, bpType: int)

  /** Every global the engine reads or writes. The tables are the contents of
      the malloc'd buffers; an empty table stands for a pointer not yet
      allocated. */
  datatype State = State(
    // gshare
    ghistory: uint32,
    gstate: seq<uint8>,
    gmask: uint32,
    // tournament
    globalhistory: uint32,
    globalBHT: seq<uint8>,
    globalmask: uint32,
    localPattern: seq<uint32>,
    localBHT: seq<uint8>,
    chooser: seq<uint8>)

  /** The state before init_predictor: C zero-initialises every global, so
      every register and mask is 0 and no table is allocated. Neither gshare
      nor the tournament is ready in it, for any configuration: both must be
      initialised before they predict or train. */
  function ZeroState(): (r: State)
    ensures r.ghistory == 0 && r.globalhistory == 0 && r.gmask == 0 && r.globalmask == 0
    ensures forall cfg: Config :: !GshareReady(cfg, r) && !TournamentReady(cfg, r)
  {
    State(0, [], 0, 0, [], 0, [], [], [])
  }

  /** A width for which `1 << bits` is a positive C `int`. */
  predicate WidthOk(bits: int) {
    0 <= bits <= 30
  }

  /** What the selected scheme needs of the configuration. The tournament also
      needs `ghistoryBits <= lhistoryBits`: local patterns are masked to
      `ghistoryBits` bits but index a table of 2^lhistoryBits counters (see
      History.PatternOutgrowsLocalTable). */
  predicate Supported(cfg: Config) {
    && (cfg.bpType == GSHARE ==> WidthOk(cfg.ghistoryBits))
    && (cfg.bpType == TOURNAMENT ==>
          WidthOk(cfg.ghistoryBits) && WidthOk(cfg.lhistoryBits) && WidthOk(cfg.pcIndexBits)
          && cfg.ghistoryBits <= cfg.lhistoryBits)
  }

  /** The gshare state after gshare_init: table sizes and mask match the
      configuration, and every counter is a 2-bit counter. */
  predicate GshareReady(cfg: Config, s: State) {
    && WidthOk(cfg.ghistoryBits)
    && s.gmask == LowMask(cfg.ghistoryBits)
    && |s.gstate| == Pow2(cfg.ghistoryBits)
    && AllInRange(s.gstate)
  }

  /** The tournament state after tournament_init, and kept by every training:
      sizes and mask match the configuration, counters are 2-bit counters and
      every local pattern is a `ghistoryBits`-bit value. */
  predicate TournamentReady(cfg: Config, s: State) {
    && WidthOk(cfg.ghistoryBits) && WidthOk(cfg.lhistoryBits) && WidthOk(cfg.pcIndexBits)
    && cfg.ghistoryBits <= cfg.lhistoryBits
    && s.globalmask == LowMask(cfg.ghistoryBits)
    && |s.globalBHT| == |s.chooser| == Pow2(cfg.ghistoryBits)
    && |s.localBHT| == Pow2(cfg.lhistoryBits)
    && |s.localPattern| == Pow2(cfg.pcIndexBits)
    && AllInRange(s.globalBHT) && AllInRange(s.chooser) && AllInRange(s.localBHT)
    && (forall i :: 0 <= i < |s.localPattern| ==> s.localPattern[i] < Pow2(cfg.ghistoryBits))
  }

  /** The state of an initialised engine for its selected scheme. */
  predicate Ready(cfg: Config, s: State) {
    && (cfg.bpType == GSHARE ==> GshareReady(cfg, s))
    && (cfg.bpType == TOURNAMENT ==> TournamentReady(cfg, s))
  }

  // ---------------------------------------------------------------------
  // gshare
  // ---------------------------------------------------------------------

  /** gshare_init: a table of 2^ghistoryBits counters, all WN, an empty history
      and the index mask. */
  function GshareInit(cfg: Config, s: State): (r: State)
    requires WidthOk(cfg.ghistoryBits)
    ensures GshareReady(cfg, r)
  {
    s.(gmask := LowMask(cfg.ghistoryBits),
       ghistory := 0,
       gstate := CounterTable(Pow2(cfg.ghistoryBits), WN))
  }

  /** After gshare_init every counter is WN and the history is empty; only
      the gshare globals are written. */
  lemma GshareInitResets(cfg: Config, s: State)
    requires WidthOk(cfg.ghistoryBits)
    ensures var r := GshareInit(cfg, s);
            && r.ghistory == 0
            && |r.gstate| == Pow2(cfg.ghistoryBits)
            && (forall i :: 0 <= i < |r.gstate| ==> r.gstate[i] == WN)
            && r.(ghistory := s.ghistory, gstate := s.gstate, gmask := s.gmask) == s
  {
  }

  /** gshare_predict: the direction of the counter at `(ghistory ^ pc) & gmask`. */
  function GsharePredict(cfg: Config, s: State, pc: uint32): (r: uint8)
    requires GshareReady(cfg, s)
    ensures r == NOTTAKEN || r == TAKEN
    ensures r == TAKEN <==> s.gstate[GlobalIndex(s.ghistory, pc, cfg.ghistoryBits)] > WN
  {
    Predict(s.gstate[GlobalIndex(s.ghistory, pc, cfg.ghistoryBits)])
  }

  /** gshare_train: the counter at the index of the pre-update history moves
      one step toward the outcome; then the outcome is shifted into the
      (unmasked) history. Nothing else changes. */
  function GshareTrain(cfg: Config, s: State, pc: uint32, outcome: uint8): (r: State)
    requires GshareReady(cfg, s)
    ensures GshareReady(cfg, r)
  {
    var i := GlobalIndex(s.ghistory, pc, cfg.ghistoryBits);
    s.(gstate := s.gstate[i := TowardOutcome(s.gstate[i], outcome)],
       ghistory := ShiftIn(s.ghistory, outcome))
  }

  /** What gshare_train writes: the counter at the index of the old history
      moves toward the outcome, no other counter moves, the outcome is shifted
      into the history, and nothing else changes. */
  lemma GshareTrainWrites(cfg: Config, s: State, pc: uint32, outcome: uint8)
    requires GshareReady(cfg, s)
    ensures var r := GshareTrain(cfg, s, pc, outcome);
            var i := GlobalIndex(s.ghistory, pc, cfg.ghistoryBits);
            && r.gstate[i] == TowardOutcome(s.gstate[i], outcome)
            && (forall j :: 0 <= j < |r.gstate| && j != i ==> r.gstate[j] == s.gstate[j])
            && r.ghistory == ShiftIn(s.ghistory, outcome)
            && r.(ghistory := s.ghistory, gstate := s.gstate) == s
  {
  }

  // ---------------------------------------------------------------------
  // tournament
  // ---------------------------------------------------------------------

  /** tournament_init: global counters, local counters and choosers all WN,
      local patterns all 0, and the global mask. As in the source it zeroes
      the gshare register `ghistory`; `globalhistory` is left as it was. */
  function TournamentInit(cfg: Config, s: State): (r: State)
    requires WidthOk(cfg.ghistoryBits) && WidthOk(cfg.lhistoryBits) && WidthOk(cfg.pcIndexBits)
    ensures cfg.ghistoryBits <= cfg.lhistoryBits ==> TournamentReady(cfg, r)
  {
    s.(globalBHT := CounterTable(Pow2(cfg.ghistoryBits), WN),
       localBHT := CounterTable(Pow2(cfg.lhistoryBits), WN),
       localPattern := ClearedPatterns(Pow2(cfg.pcIndexBits)),
       chooser := CounterTable(Pow2(cfg.ghistoryBits), WN),
       ghistory := 0,
       globalmask := LowMask(cfg.ghistoryBits))
  }

  /** After tournament_init every global counter, local counter and chooser is
      WN and every local pattern is 0. It zeroes `ghistory`, not
      `globalhistory`, and leaves the gshare table alone. */
  lemma TournamentInitResets(cfg: Config, s: State)
    requires WidthOk(cfg.ghistoryBits) && WidthOk(cfg.lhistoryBits) && WidthOk(cfg.pcIndexBits)
    ensures var r := TournamentInit(cfg, s);
            && |r.globalBHT| == |r.chooser| == Pow2(cfg.ghistoryBits)
            && |r.localBHT| == Pow2(cfg.lhistoryBits) && |r.localPattern| == Pow2(cfg.pcIndexBits)
            && (forall i :: 0 <= i < |r.globalBHT| ==> r.globalBHT[i] == WN && r.chooser[i] == WN)
            && (forall i :: 0 <= i < |r.localBHT| ==> r.localBHT[i] == WN)
            && (forall i :: 0 <= i < |r.localPattern| ==> r.localPattern[i] == 0)
            && r.ghistory == 0 && r.globalhistory == s.globalhistory
            && r.(globalBHT := s.globalBHT, localBHT := s.localBHT, localPattern := s.localPattern,
                  chooser := s.chooser, ghistory := s.ghistory, globalmask := s.globalmask) == s
  {
  }

  /** The slot of the local-counter table a PC selects: its local pattern. It
      is in bounds because patterns have `ghistoryBits <= lhistoryBits` bits. */
  function LocalIndex(cfg: Config, s: State, pc: uint32): (i: nat)
    requires TournamentReady(cfg, s)
    ensures i < |s.localBHT|
    ensures i == s.localPattern[PatternIndex(pc, cfg.pcIndexBits)] as nat
  {
    Pow2Monotone(cfg.ghistoryBits, cfg.lhistoryBits);
    s.localPattern[PatternIndex(pc, cfg.pcIndexBits)]
  }

  /** tournament_global_predict: the direction of the global counter at
      `(globalhistory ^ pc) & globalmask`. */
  function TournamentGlobalPredict(cfg: Config, s: State, pc: uint32): (r: uint8)
    requires TournamentReady(cfg, s)
    ensures r == NOTTAKEN || r == TAKEN
    ensures r == TAKEN <==> s.globalBHT[GlobalIndex(s.globalhistory, pc, cfg.ghistoryBits)] > WN
  {
    Predict(s.globalBHT[GlobalIndex(s.globalhistory, pc, cfg.ghistoryBits)])
  }

  /** tournament_local_predict: the direction of the local counter selected by
      the PC's local pattern. */
  function TournamentLocalPredict(cfg: Config, s: State, pc: uint32): (r: uint8)
    requires TournamentReady(cfg, s)
    ensures r == NOTTAKEN || r == TAKEN
    ensures r == TAKEN <==> s.localBHT[LocalIndex(cfg, s, pc)] > WN
  {
    Predict(s.localBHT[LocalIndex(cfg, s, pc)])
  }

  /** tournament_predict: a chooser at or below WN (at the global index)
      selects the global sub-prediction, otherwise the local one. */
  function TournamentPredict(cfg: Config, s: State, pc: uint32): (r: uint8)
    requires TournamentReady(cfg, s)
    ensures r == NOTTAKEN || r == TAKEN
    ensures var choice := s.chooser[GlobalIndex(s.globalhistory, pc, cfg.ghistoryBits)];
            && (choice <= WN ==> r == TournamentGlobalPredict(cfg, s, pc))
            && (choice > WN ==> r == TournamentLocalPredict(cfg, s, pc))
  {
    var choice := s.chooser[GlobalIndex(s.globalhistory, pc, cfg.ghistoryBits)];
    if choice <= WN then TournamentGlobalPredict(cfg, s, pc) else TournamentLocalPredict(cfg, s, pc)
  }

  /** tournament_train. Both sub-predictions are taken from the state before
      any update (see TournamentTrainWrites). */
  function TournamentTrain(cfg: Config, s: State, pc: uint32, outcome: uint8): (r: State)
    requires TournamentReady(cfg, s)
    ensures TournamentReady(cfg, r)
  {
    var gi := GlobalIndex(s.globalhistory, pc, cfg.ghistoryBits);
    var globalOutcome := TournamentGlobalPredict(cfg, s, pc);
    var localOutcome := TournamentLocalPredict(cfg, s, pc);
    var pi := PatternIndex(pc, cfg.pcIndexBits);
    var li := LocalIndex(cfg, s, pc);
    s.(chooser := s.chooser[gi := ChooserStep(s.chooser[gi], globalOutcome, localOutcome, outcome)],
       globalBHT := s.globalBHT[gi := Reinforce(s.globalBHT[gi], globalOutcome == outcome)],
       globalhistory := ShiftIn(s.globalhistory, outcome),
       localBHT := s.localBHT[li := Reinforce(s.localBHT[li], localOutcome == outcome)],
       localPattern := s.localPattern[pi := NextPattern(s.localPattern[pi], outcome, cfg.ghistoryBits)])
  }

  /** What tournament_train writes, and nothing else: the chooser and the
      global counter at the global index of the old `globalhistory`, that
      register, the local counter at the PC's old local pattern, and that
      pattern. */
  lemma TournamentTrainWrites(cfg: Config, s: State, pc: uint32, outcome: uint8)
    requires TournamentReady(cfg, s)
    ensures var r := TournamentTrain(cfg, s, pc, outcome);
            var gi := GlobalIndex(s.globalhistory, pc, cfg.ghistoryBits);
            var gp := TournamentGlobalPredict(cfg, s, pc);
            var lp := TournamentLocalPredict(cfg, s, pc);
            && r.chooser[gi] == ChooserStep(s.chooser[gi], gp, lp, outcome)
            && r.globalBHT[gi] == Reinforce(s.globalBHT[gi], gp == outcome)
            && (forall j :: 0 <= j < |r.chooser| && j != gi ==>
                  r.chooser[j] == s.chooser[j] && r.globalBHT[j] == s.globalBHT[j])
    ensures var r := TournamentTrain(cfg, s, pc, outcome);
            var li := LocalIndex(cfg, s, pc);
            var lp := TournamentLocalPredict(cfg, s, pc);
            && r.localBHT[li] == Reinforce(s.localBHT[li], lp == outcome)
            && (forall j :: 0 <= j < |r.localBHT| && j != li ==> r.localBHT[j] == s.localBHT[j])
    ensures var r := TournamentTrain(cfg, s, pc, outcome);
            var pi := PatternIndex(pc, cfg.pcIndexBits);
            && r.localPattern[pi] == NextPattern(s.localPattern[pi], outcome, cfg.ghistoryBits)
            && (forall j :: 0 <= j < |r.localPattern| && j != pi ==> r.localPattern[j] == s.localPattern[j])
    ensures var r := TournamentTrain(cfg, s, pc, outcome);
            && r.globalhistory == ShiftIn(s.globalhistory, outcome)
            && r.(chooser := s.chooser, globalBHT := s.globalBHT, globalhistory := s.globalhistory,
                  localBHT := s.localBHT, localPattern := s.localPattern) == s
  {
  }

  // ---------------------------------------------------------------------
  // Dispatchers
  // ---------------------------------------------------------------------

  /** init_predictor: gshare and tournament initialise their tables; STATIC,
      CUSTOM and unknown types leave the state alone. */
  function InitPredictor(cfg: Config, s: State): (r: State)
    requires Supported(cfg)
    ensures Ready(cfg, r)
    ensures cfg.bpType == GSHARE ==> r == GshareInit(cfg, s)
    ensures cfg.bpType == TOURNAMENT ==> r == TournamentInit(cfg, s)
    ensures cfg.bpType != GSHARE && cfg.bpType != TOURNAMENT ==> r == s
  {
    if cfg.bpType == STATIC then s
    else if cfg.bpType == GSHARE then GshareInit(cfg, s)
    else if cfg.bpType == TOURNAMENT then TournamentInit(cfg, s)
    else s  // CUSTOM and unknown types
  }

  /** make_prediction: STATIC always predicts TAKEN; gshare and tournament ask
      their scheme; CUSTOM and unknown types predict NOTTAKEN. */
  function MakePrediction(cfg: Config, s: State, pc: uint32): (r: uint8)
    requires Ready(cfg, s)
    ensures r == NOTTAKEN || r == TAKEN
    ensures cfg.bpType == STATIC ==> r == TAKEN
    ensures cfg.bpType == GSHARE ==> r == GsharePredict(cfg, s, pc)
    ensures cfg.bpType == TOURNAMENT ==> r == TournamentPredict(cfg, s, pc)
    ensures cfg.bpType !in {STATIC, GSHARE, TOURNAMENT} ==> r == NOTTAKEN
  {
    if cfg.bpType == STATIC then TAKEN
    else if cfg.bpType == GSHARE then GsharePredict(cfg, s, pc)
    else if cfg.bpType == TOURNAMENT then TournamentPredict(cfg, s, pc)
    else NOTTAKEN  // CUSTOM and unknown types
  }

  /** train_predictor: gshare and tournament train; STATIC, CUSTOM and unknown
      types leave the state alone. Training keeps the engine ready. */
  function TrainPredictor(cfg: Config, s: State, pc: uint32, outcome: uint8): (r: State)
    requires Ready(cfg, s)
    ensures Ready(cfg, r)
    ensures cfg.bpType == GSHARE ==> r == GshareTrain(cfg, s, pc, outcome)
    ensures cfg.bpType == TOURNAMENT ==> r == TournamentTrain(cfg, s, pc, outcome)
    ensures cfg.bpType != GSHARE && cfg.bpType != TOURNAMENT ==> r == s
  {
    if cfg.bpType == STATIC then s
    else if cfg.bpType == GSHARE then GshareTrain(cfg, s, pc, outcome)
    else if cfg.bpType == TOURNAMENT then TournamentTrain(cfg, s, pc, outcome)
    else s  // CUSTOM and unknown types
  }
}
