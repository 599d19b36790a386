# Branch predictor engine

A Dafny model of the branch-prediction engine in `src/predictor.c`: the
gshare predictor (a table of 2-bit saturating counters indexed by the global
history XOR the branch PC), the tournament predictor (a global counter table,
per-PC local patterns indexing a local counter table, and a chooser table of
2-bit counters that picks between the two), and the three dispatchers
`init_predictor`, `make_prediction` and `train_predictor`, which switch on the
configured predictor type (STATIC, GSHARE, TOURNAMENT, CUSTOM).

The model has two layers.

- Module `Schemes` describes the engine as values. `Config` holds the four
  configuration globals the driver sets. `State` holds every global the engine
  reads or writes, with each malloc'd buffer as a sequence. There is one
  function per C function.
- Module `Predictors` holds class `Predictor`. Its fields are those globals,
  and its tables are arrays that its methods update in place, statement by
  statement as the C code does. Each method ensures that the object's new
  state is the matching `Schemes` function applied to the old state. Each
  predict function ensures that it returns the matching `Schemes` prediction.

The other modules are these.

- `Bits` models C's unsigned 32-bit arithmetic on `int`: `uint32_t`, `<< 1`
  with the top bit lost, and `&`, `|`, `^` defined bit by bit. It also proves
  that `x & ((1 << k) - 1)` is `x mod 2^k`.
- `Counters` models the 2-bit counters as C `uint8_t` values. Every `++` and
  `--` is proved not to wrap. It has the three update rules the source uses:
  - gshare moves a counter toward the outcome;
  - the tournament rewards or punishes a sub-counter by whether its prediction was correct;
  - the chooser moves toward whichever sub-predictor was right.
- `History` models the unmasked history registers, the masked table indices
  and the masked local patterns. It proves what the low bits of a register
  remember after a run of outcomes.
- `Traces` defines runs of the engine over a trace of branches: predict each
  branch, then train on it. It proves how the two schemes behave on repeated
  branches.

The constants come from `predictor.h`, which is not part of this model. The
model uses SN, WN, WT, ST = 0..3, NOTTAKEN/TAKEN = 0/1, and
STATIC/GSHARE/TOURNAMENT/CUSTOM = 0..3, the order of `bpName`.

The model follows the code as written, including the following behaviours.

- The tournament's global and local counters move up when their own
  prediction was correct and down when it was wrong. They do not move toward
  the outcome. As a result, a freshly initialised tournament predicts
  NOTTAKEN for every branch of an all-taken trace
  (`Traces.TournamentNeverLearnsTaken`). Gshare, whose counters do move
  toward the outcome, learns any repeated branch after `ghistoryBits + 3`
  repetitions (`Traces.GshareLearnsRepeatedBranch`).
- Local patterns are masked to `ghistoryBits` bits but index a local table of
  `2^lhistoryBits` counters. The model therefore requires
  `ghistoryBits <= lhistoryBits` for the tournament.
  `History.PatternOutgrowsLocalTable` shows a pattern running past the table
  otherwise.
- `tournament_init` zeroes the gshare register `ghistory`, not
  `globalhistory`.
- The history registers themselves are never masked. Only the indices are
  masked.
- Widths are limited to 0..30 bits, so that `1 << bits` is a positive C
  `int`.
- Each of the length globals `ghistoryLen`, `localBHTLen` and `lPatternLen`
  always equals the length of the table it sizes. The model uses the table
  lengths in their place.

Two consequences of the code are worth stating on their own.

- A 2-bit gshare trained on four taken branches at pc 4 predicts NOTTAKEN,
  NOTTAKEN, NOTTAKEN, TAKEN. The first three branches use indices 0, 1 and 3,
  which are three distinct fresh WN counters. Only the fourth branch, which
  uses index 3 again, finds a counter already moved to WT
  (`Traces.GshareExample`).
- An unknown `bpType` is not rejected. It predicts NOTTAKEN and trains
  nothing.

## Model

| member | source | states |
|---|---|---|
| Bits.LowMask | src/predictor.c:70 | `(1 << bits) - 1` is a 32-bit value below `2^bits` |
| Bits.ShiftLeft1 | src/predictor.c:96 | `x << 1` on a `uint32_t` is even, and is `2x` when the top bit is clear |
| Bits.And | src/predictor.c:83 | C's `&`, bit by bit: the result is at most either operand |
| Bits.Or | src/predictor.c:96 | C's bitwise or, bit by bit: the result is at least either operand and at most their sum |
| Bits.Xor | src/predictor.c:83 | C's `^`, bit by bit: the result is at most the sum of the operands, and 0 exactly when they are equal |
| Bits.XorWord | src/predictor.c:83 | `ghistory ^ pc` of two `uint32_t` values is again a `uint32_t` |
| Bits.AndLowMask | src/predictor.c:83 | masking with `(1 << k) - 1` keeps exactly `x mod 2^k` |
| Bits.XorLowBits | src/predictor.c:83 | the low `k` bits of `a ^ b` depend only on the low `k` bits of `a` and `b` |
| Bits.OrLowBit | src/predictor.c:96 | or-ing a 0/1 bit into a shifted (even) value adds it |
| Counters.CounterTable | src/predictor.c:75 | a table of `n` counters all holding the initial value |
| Counters.Predict | src/predictor.c:84 | a counter predicts TAKEN exactly when it is above WN, otherwise NOTTAKEN |
| Counters.TowardOutcome | src/predictor.c:92-94 | gshare's update stays in SN..ST; TAKEN moves up one unless at ST; NOTTAKEN moves down one unless at SN; any other outcome leaves it |
| Counters.Reinforce | src/predictor.c:163-171 | stays in SN..ST; a correct counter moves up one unless at ST, a wrong one down one unless at SN |
| Counters.ChooserStep | src/predictor.c:150-160 | stays in SN..ST; unchanged when the sub-predictions agree; toward SN when global was right, toward ST when local was |
| Counters.TrainedTimes | src/predictor.c:92-94 | any number of gshare updates keeps a counter in SN..ST |
| Counters.TrainedTimesStep | src/predictor.c:92-94 | the last of `n` updates applies to the counter left by the first `n - 1` |
| Counters.RepeatedOutcomeSaturates | src/predictor.c:89-97 | three or more gshare updates with one outcome saturate the counter in that direction, and it then predicts that outcome |
| Counters.SelfTrainedTimes | src/predictor.c:178-186 | a tournament counter rewarded or punished any number of times stays in SN..ST |
| Counters.SelfTrainedTakenKeepsPrediction | src/predictor.c:178-186 | a tournament counter that keeps seeing TAKEN never changes the direction it predicts |
| Counters.SelfTrainedNotTakenOscillates | src/predictor.c:178-186 | a tournament counter at WN that keeps seeing NOTTAKEN alternates WN, WT, WN, ... |
| History.ClearedPatterns | src/predictor.c:115 | a table of `n` local patterns all 0 |
| History.HistoryBit | src/predictor.c:96 | the shifted-in bit is 0 exactly for NOTTAKEN, else 1 |
| History.ShiftIn | src/predictor.c:96 | shifting left and or-ing in the bit gives `2 (h mod 2^31) + bit`: the top bit is lost and no mask is applied |
| History.GlobalIndex | src/predictor.c:83 | `(h ^ pc) & mask` is below the table size `2^bits` and equals `(h ^ pc) mod 2^bits` |
| History.PatternIndex | src/predictor.c:132 | `pc & ((1 << bits) - 1)` is below `2^bits` and equals `pc mod 2^bits` |
| History.NextPattern | src/predictor.c:188-190 | the new pattern is below `2^ghistoryBits` and is the shifted-in pattern mod `2^ghistoryBits` |
| History.ShiftInLowBits | src/predictor.c:96 | the low `k` bits after a shift are the outcome under the old low `k - 1` bits |
| History.HistoryRemembersLast | src/predictor.c:96 | after at least `k` outcomes the low `k` register bits encode exactly the last `k` outcomes |
| History.GlobalIndexForgetsOldHistory | src/predictor.c:91-96 | after `bits` branches the global index no longer depends on the register's earlier contents |
| History.GlobalIndexSeesLowBits | src/predictor.c:83 | registers that agree on their low `bits` bits select the same index |
| History.PatternRemembersLast | src/predictor.c:188-190 | after at least `k <= bits` outcomes at one PC, the low `k` pattern bits encode its last `k` outcomes |
| History.StreakHistorySettles | src/predictor.c:96 | a streak of `n >= k` equal outcomes leaves the same low `k` bits as a streak of exactly `k` |
| History.EncodeAllTaken | src/predictor.c:96 | `n` taken outcomes encode as `2^n - 1` |
| History.PatternOutgrowsLocalTable | src/predictor.c:190 | with `lbits < ghistoryBits`, `ghistoryBits` taken branches drive a zero pattern to `2^ghistoryBits - 1`, past the local table |
| Schemes.ZeroState | src/predictor.c:37-51 | every register and mask is 0 and no table is allocated, so neither gshare nor the tournament is ready for any configuration before init_predictor |
| Schemes.GshareInit | src/predictor.c:67-76 | leaves gshare ready: `gmask` has `ghistoryBits` bits, `2^ghistoryBits` counters, all in SN..ST |
| Schemes.GshareInitResets | src/predictor.c:67-76 | every counter is WN, the history is 0, and no other global is written |
| Schemes.GsharePredict | src/predictor.c:81-85 | TAKEN exactly when the counter at the masked `ghistory ^ pc` index is above WN |
| Schemes.GshareTrain | src/predictor.c:89-97 | training keeps gshare ready (table size, mask, 2-bit counters) |
| Schemes.GshareTrainWrites | src/predictor.c:89-97 | the counter at the old history's index moves toward the outcome, no other counter moves, the outcome is shifted into the history, nothing else changes |
| Schemes.TournamentInit | src/predictor.c:102-122 | leaves the tournament ready whenever `ghistoryBits <= lhistoryBits` |
| Schemes.TournamentInitResets | src/predictor.c:102-122 | table sizes `2^ghistoryBits`, `2^lhistoryBits`, `2^pcIndexBits`; all counters and choosers WN, all patterns 0; `ghistory` zeroed, `globalhistory` untouched, nothing else written |
| Schemes.LocalIndex | src/predictor.c:130-135 | the PC's local pattern is a valid slot of the local counter table |
| Schemes.TournamentGlobalPredict | src/predictor.c:124-128 | TAKEN exactly when the global counter at the masked `globalhistory ^ pc` index is above WN |
| Schemes.TournamentLocalPredict | src/predictor.c:130-135 | TAKEN exactly when the local counter selected by the PC's pattern is above WN |
| Schemes.TournamentPredict | src/predictor.c:137-142 | a chooser at or below WN selects the global prediction, otherwise the local one |
| Schemes.TournamentTrain | src/predictor.c:144-193 | training keeps the tournament ready (sizes, mask, 2-bit counters, patterns below `2^ghistoryBits`) |
| Schemes.TournamentTrainWrites | src/predictor.c:144-193 | exactly the chooser and global counter at the old global index, the register, the local counter at the old pattern and that pattern change, each by its rule using the predictions made before the update |
| Schemes.InitPredictor | src/predictor.c:203-220 | gshare and tournament initialise and become ready; STATIC, CUSTOM and unknown types change nothing |
| Schemes.MakePrediction | src/predictor.c:226-248 | STATIC predicts TAKEN, gshare and tournament use their scheme, CUSTOM and unknown types predict NOTTAKEN |
| Schemes.TrainPredictor | src/predictor.c:254-271 | gshare and tournament train and stay ready; STATIC, CUSTOM and unknown types change nothing |
| Predictors.Predictor.constructor | src/predictor.c:26-51 | the configuration is as given, every other global is zero, no table is allocated, and the empty tables are fresh buffers the engine owns |
| Predictors.Predictor.NewCounters | src/predictor.c:74-75 | a fresh buffer of `n` counters, each set by the loop |
| Predictors.Predictor.NewPatterns | src/predictor.c:114-115 | a fresh buffer of `n` patterns, each cleared by the loop |
| Predictors.Predictor.NewTournamentTables | src/predictor.c:108-118 | four fresh, distinct buffers with the initial counters and patterns |
| Predictors.Predictor.GshareInit | src/predictor.c:67-76 | the new state is `Schemes.GshareInit` of the old; the tournament buffers are untouched |
| Predictors.Predictor.GsharePredict | src/predictor.c:81-85 | returns `Schemes.GsharePredict` of the current state |
| Predictors.Predictor.GshareTrain | src/predictor.c:89-97 | updates the table in place so that the new state is `Schemes.GshareTrain` of the old, and stays valid |
| Predictors.Predictor.TournamentInit | src/predictor.c:102-122 | the four tables are freshly allocated buffers; the new state is `Schemes.TournamentInit` of the old; the gshare buffer is untouched |
| Predictors.Predictor.TournamentGlobalPredict | src/predictor.c:124-128 | returns `Schemes.TournamentGlobalPredict` of the current state |
| Predictors.Predictor.TournamentLocalPredict | src/predictor.c:130-135 | returns `Schemes.TournamentLocalPredict` of the current state |
| Predictors.Predictor.TournamentPredict | src/predictor.c:137-142 | returns `Schemes.TournamentPredict` of the current state |
| Predictors.Predictor.ChooserStepAt | src/predictor.c:146-160 | only slot `i` of the chooser changes, to `ChooserStep` of its old value |
| Predictors.Predictor.ReinforceAt | src/predictor.c:162-171 | only slot `i` of the counter table changes, to `Reinforce` of its old value |
| Predictors.Predictor.ShiftPatternAt | src/predictor.c:188-190 | only slot `i` of the pattern table changes, to `NextPattern` of its old value |
| Predictors.Predictor.TournamentTrain | src/predictor.c:144-193 | updates the four tables in place so that the new state is `Schemes.TournamentTrain` of the old, and stays valid |
| Predictors.Predictor.InitPredictor | src/predictor.c:203-220 | the new state is `Schemes.InitPredictor` of the old, and is valid; each table is either the old buffer or a freshly allocated one, so a caller that owned the engine's buffers may go on training it |
| Predictors.Predictor.MakePrediction | src/predictor.c:226-248 | returns `Schemes.MakePrediction` of the current state |
| Predictors.Predictor.TrainPredictor | src/predictor.c:254-271 | the new state is `Schemes.TrainPredictor` of the old, and stays valid |
| Traces.Run | src/predictor.c:254-271 | training on any trace keeps the engine ready |
| Traces.Predictions | src/predictor.c:226-248 | one prediction per branch of the trace |
| Traces.PredictionBeforeTraining | src/predictor.c:226-271 | the `k`-th prediction is made by the state trained on exactly the `k` branches before it |
| Traces.GshareRepeat | src/predictor.c:89-97 | gshare trained on one branch any number of times stays ready |
| Traces.GshareRunIsRepeat | src/predictor.c:254-271 | a run of one repeated branch through the dispatcher is gshare's own repeated training |
| Traces.GshareRepeatHistory | src/predictor.c:96 | the register after `n` repetitions is the old register with `n` equal outcomes shifted in |
| Traces.GsharePredictionOfRepeat | src/predictor.c:81-97 | the `k`-th prediction over a repeated branch is gshare's prediction after `k` trainings |
| Traces.GshareIndexSettles | src/predictor.c:91-96 | after `ghistoryBits` repetitions of one branch its index never changes again |
| Traces.GshareSettledCounter | src/predictor.c:91-94 | after the index settles, each further repetition moves that one counter a step toward the outcome |
| Traces.SettledCounterStep | src/predictor.c:91-94 | one more repetition moves the settled counter one more step |
| Traces.GshareLearnsRepeatedBranch | src/predictor.c:81-97 | from any ready state, after `ghistoryBits + 3` repetitions gshare predicts the branch's outcome |
| Traces.TakenKeepsSubCountersLow | src/predictor.c:144-186 | while every sub-counter is at or below WN the tournament predicts NOTTAKEN, and a taken branch keeps them there |
| Traces.TournamentTakenRunStaysLow | src/predictor.c:144-186 | an all-taken trace keeps every sub-counter at or below WN |
| Traces.TournamentTakenPredictions | src/predictor.c:137-186 | from such a state every prediction over an all-taken trace is NOTTAKEN |
| Traces.TournamentNeverLearnsTaken | src/predictor.c:102-193 | a freshly initialised tournament predicts NOTTAKEN for every branch of an all-taken trace |
| Traces.GshareExample | src/predictor.c:67-97 | 2-bit gshare, four taken branches at pc 4: predictions NOTTAKEN, NOTTAKEN, NOTTAKEN, TAKEN |
| Traces.GshareExamplePredicts | src/predictor.c:81-85 | gshare's prediction before each of those four branches |
| Traces.GshareExampleStates | src/predictor.c:89-97 | the indices 0, 1, 3, 3 and the counter tables before each of those four branches |
| Traces.ExampleXors | src/predictor.c:83 | the four `ghistory ^ pc` values of that example |

## Left out

- `print_gmeta` and the `verbose` flag: output only.
- The student-information strings and `bpName`: they are data for the driver's output.
- Memory allocation failure and `free`: the model's arrays always allocate. Re-initialising allocates fresh buffers, and the old buffers are simply dropped, as the C code leaks them.
- `globalhistoryLen`: it is declared but never read or written.
- `ghistoryLen`, `localBHTLen` and `lPatternLen` are not separate fields. Each always equals the length of the table it sizes, and the model uses that length.
- The CUSTOM (perceptron) scheme: the source has no implementation of it. It predicts NOTTAKEN and trains nothing, as modelled.
- The driver (`main.c`), trace parsing and misprediction statistics are not part of this model. `Traces` states the driver's predict-then-train loop as a function.
- Configuration widths above 30 bits: `1 << bits` on a C `int` overflows there. Gshare needs `ghistoryBits <= 30`. The tournament needs all three widths `<= 30` and `ghistoryBits <= lhistoryBits`.
- Schemes.TournamentInit: readiness is promised only when `ghistoryBits <= lhistoryBits`. With a wider global history the local patterns can index past the local table, which in C is out-of-bounds memory (see History.PatternOutgrowsLocalTable).
- Concurrency: the engine is single-threaded.
