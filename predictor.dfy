/** The predictor engine as the C source runs it: every global of
    src/predictor.c is a field of one object, the tables are arrays updated in
    place, and each operation is proved to leave the object in the state the
    matching function of module Schemes describes. */
module Predictors {
  import opened Bits
  import opened Counters
  import opened History
  import opened Schemes

  class Predictor {
    // Configuration, set by the driver before InitPredictor and never written
    // by the engine.
    const ghistoryBits: int
    const lhistoryBits: int
    const pcIndexBits: int
    const bpType: int

    // gshare
    var ghistory: uint32
    var gstate: array<uint8>
    var gmask: uint32

    // tournament
    var globalhistory: uint32
    var globalBHT: array<uint8>
    var globalmask: uint32
    var localPattern: array<uint32>
    var localBHT: array<uint8>
    var chooser: array<uint8>

    function Cfg(): Config {
      Config(ghistoryBits, lhistoryBits, pcIndexBits, bpType)
    }

    /** The engine's state as a value. */
    ghost function Snapshot(): State
      reads this, gstate, globalBHT, localPattern, localBHT, chooser
    {
      State(ghistory, gstate[..], gmask,
            globalhistory, globalBHT[..], globalmask, localPattern[..], localBHT[..], chooser[..])
    }

    /** Each table is a buffer of its own. */
    ghost predicate Separate()
      reads this
    {
      && gstate != globalBHT && gstate != localBHT && gstate != chooser
      && globalBHT != localBHT && globalBHT != chooser && localBHT != chooser
    }

    ghost predicate Valid()
      reads this, gstate, globalBHT, localPattern, localBHT, chooser
    {
      Separate() && Ready(Cfg(), Snapshot())
    }

    /** The engine before init_predictor: the configuration the driver set and
        every other global zero (no table allocated yet). */
    constructor (ghistoryBits: int, lhistoryBits: int, pcIndexBits: int, bpType: int)
      ensures Cfg() == Config(ghistoryBits, lhistoryBits, pcIndexBits, bpType)
      ensures Separate() && Snapshot() == ZeroState()
      ensures fresh(gstate) && fresh(globalBHT) && fresh(localPattern) && fresh(localBHT) && fresh(chooser)
    {
      this.ghistoryBits := ghistoryBits;
      this.lhistoryBits := lhistoryBits;
      this.pcIndexBits := pcIndexBits;
      this.bpType := bpType;
      ghistory, gmask, globalhistory, globalmask := 0, 0, 0, 0;
      gstate := new uint8[0];
      globalBHT := new uint8[0];
      localPattern := new uint32[0];
      localBHT := new uint8[0];
      chooser := new uint8[0];
    }

    /** Allocates the four tournament tables: the global and local counter tables
        and the chooser hold `WN` everywhere, the local patterns are zero. */
    static method NewTournamentTables(g: nat, l: nat, p: nat, gshareTable: array<uint8>)
      returns (globalTable: array<uint8>, localTable: array<uint8>, patterns: array<uint32>, chooserTable: array<uint8>)
      ensures fresh(globalTable) && fresh(localTable) && fresh(patterns) && fresh(chooserTable)
      ensures globalTable != localTable && globalTable != chooserTable && localTable != chooserTable
      ensures gshareTable != globalTable && gshareTable != localTable && gshareTable != chooserTable
      ensures globalTable[..] == CounterTable(g, WN) && localTable[..] == CounterTable(l, WN)
      ensures patterns[..] == ClearedPatterns(p) && chooserTable[..] == CounterTable(g, WN)
    {
      globalTable := NewCounters(g, WN);
      localTable := NewCounters(l, WN);
      patterns := NewPatterns(p);
      chooserTable := NewCounters(g, WN);
    }

    /** A freshly malloc'd table of `n` counters, each set to `value` by a loop. */
    static method NewCounters(n: nat, value: uint8) returns (table: array<uint8>)
      ensures fresh(table) && table[..] == CounterTable(n, value)
    {
      table := new uint8[n];
      for i := 0 to n
        invariant forall j :: 0 <= j < i ==> table[j] == value
      {
        table[i] := value;
      }
    }

    /** A freshly malloc'd table of `n` local histories, each cleared by a loop. */
    static method NewPatterns(n: nat) returns (table: array<uint32>)
      ensures fresh(table) && table[..] == ClearedPatterns(n)
    {
      table := new uint32[n];
      for i := 0 to n
        invariant forall j :: 0 <= j < i ==> table[j] == 0
      {
        table[i] := 0;
      }
    }

    // -------------------------------------------------------------------
    // gshare
    // -------------------------------------------------------------------

    method GshareInit()
      requires WidthOk(ghistoryBits) && Separate()
      modifies this
      ensures fresh(gstate) && Separate()
      ensures globalBHT == old(globalBHT) && localPattern == old(localPattern)
      ensures localBHT == old(localBHT) && chooser == old(chooser)
      ensures Snapshot() == Schemes.GshareInit(Cfg(), old(Snapshot()))
    {
      gmask := LowMask(ghistoryBits);
      ghistory := 0;
      gstate := NewCounters(Pow2(ghistoryBits), WN);
    }

    /** gshare_predict; it reads the table and changes nothing. */
    function GsharePredict(pc: uint32): (r: uint8)
      requires Valid() && bpType == GSHARE
      reads this, gstate, globalBHT, localPattern, localBHT, chooser
      ensures r == Schemes.GsharePredict(Cfg(), Snapshot(), pc)
    {
      var xor := And(Xor(ghistory, pc), gmask);
      AndLowMask(Xor(ghistory, pc), ghistoryBits);
      if gstate[xor] <= WN then NOTTAKEN else TAKEN
    }

    /** gshare_train: the counter first, from the index of the old history,
        then the history. */
    method GshareTrain(pc: uint32, outcome: uint8)
      requires Valid() && bpType == GSHARE
      modifies this`ghistory, gstate
      ensures Valid()
      ensures Snapshot() == Schemes.GshareTrain(Cfg(), old(Snapshot()), pc, outcome)
    {
      var xor := And(Xor(ghistory, pc), gmask);
      AndLowMask(Xor(ghistory, pc), ghistoryBits);
      var flag := (gstate[xor] == SN && outcome == NOTTAKEN) || (gstate[xor] == ST && outcome == TAKEN);
      if !flag && outcome == NOTTAKEN {
        gstate[xor] := gstate[xor] - 1;
      }
      if !flag && outcome == TAKEN {
        gstate[xor] := gstate[xor] + 1;
      }
      ghistory := ShiftIn(ghistory, outcome);
    }

    // -------------------------------------------------------------------
    // tournament
    // -------------------------------------------------------------------

    method TournamentInit()
      requires WidthOk(ghistoryBits) && WidthOk(lhistoryBits) && WidthOk(pcIndexBits) && Separate()
      modifies this
      ensures gstate == old(gstate) && Separate()
      ensures fresh(globalBHT) && fresh(localPattern) && fresh(localBHT) && fresh(chooser)
      ensures Snapshot() == Schemes.TournamentInit(Cfg(), old(Snapshot()))
    {
      ghost var gshareTable := gstate[..];
      var globalTable, localTable, patterns, chooserTable :=
        NewTournamentTables(Pow2(ghistoryBits), Pow2(lhistoryBits), Pow2(pcIndexBits), gstate);
      assert gstate[..] == gshareTable;
      globalBHT, localBHT, localPattern, chooser := globalTable, localTable, patterns, chooserTable;
      ghistory := 0;  // as written: the gshare register, not globalhistory
      globalmask := LowMask(ghistoryBits);
    }

    function TournamentGlobalPredict(pc: uint32): (r: uint8)
      requires Valid() && bpType == TOURNAMENT
      reads this, gstate, globalBHT, localPattern, localBHT, chooser
      ensures r == Schemes.TournamentGlobalPredict(Cfg(), Snapshot(), pc)
    {
      var globalIndex := And(Xor(globalhistory, pc), globalmask);
      AndLowMask(Xor(globalhistory, pc), ghistoryBits);
      if globalBHT[globalIndex] <= WN then NOTTAKEN else TAKEN
    }

    function TournamentLocalPredict(pc: uint32): (r: uint8)
      requires Valid() && bpType == TOURNAMENT
      reads this, gstate, globalBHT, localPattern, localBHT, chooser
      ensures r == Schemes.TournamentLocalPredict(Cfg(), Snapshot(), pc)
    {
      var localPatternIndex := And(pc, LowMask(pcIndexBits));
      AndLowMask(pc, pcIndexBits);
      var localBHTIndex := localPattern[localPatternIndex];
      assert localBHTIndex == LocalIndex(Cfg(), Snapshot(), pc);
      if localBHT[localBHTIndex] <= WN then NOTTAKEN else TAKEN
    }

    function TournamentPredict(pc: uint32): (r: uint8)
      requires Valid() && bpType == TOURNAMENT
      reads this, gstate, globalBHT, localPattern, localBHT, chooser
      ensures r == Schemes.TournamentPredict(Cfg(), Snapshot(), pc)
    {
      var index := And(Xor(globalhistory, pc), globalmask);
      AndLowMask(Xor(globalhistory, pc), ghistoryBits);
      var choice := chooser[index];
      if choice <= WN then TournamentGlobalPredict(pc) else TournamentLocalPredict(pc)
    }

    /** The tournament's `if (correct) { if (c != ST) c++; } else { if (c != SN) c--; }`
        on slot `i` of a counter table. */
    static method ReinforceAt(table: array<uint8>, i: nat, correct: bool)
      requires i < table.Length && InRange(table[i])
      modifies table
      ensures table[..] == old(table[..])[i := Reinforce(old(table[i]), correct)]
    {
      if correct {
        if table[i] != ST {
          table[i] := table[i] + 1;
        }
      } else {
        if table[i] != SN {
          table[i] := table[i] - 1;
        }
      }
    }

    /** The chooser's update of slot `i`: it moves only when the two
        sub-predictions disagree, toward whichever of them was right. */
    static method ChooserStepAt(table: array<uint8>, i: nat, globalOutcome: uint8, localOutcome: uint8, outcome: uint8)
      requires i < table.Length && InRange(table[i])
      modifies table
      ensures table[..] == old(table[..])[i := ChooserStep(old(table[i]), globalOutcome, localOutcome, outcome)]
    {
      if globalOutcome != localOutcome {
        if globalOutcome == outcome {
          if table[i] != SN {
            table[i] := table[i] - 1;
          }
        } else {
          if table[i] != ST {
            table[i] := table[i] + 1;
          }
        }
      }
    }

    /** `p = p << 1; p |= outcome; p &= (1 << bits) - 1` on slot `i` of the
        local pattern table. */
    static method ShiftPatternAt(table: array<uint32>, i: nat, outcome: uint8, bits: nat)
      requires i < table.Length && bits <= 30
      modifies table
      ensures table[..] == old(table[..])[i := NextPattern(old(table[i]), outcome, bits)]
    {
      var shifted := ShiftLeft1(table[i]);
      table[i] := shifted;
      OrLowBit(shifted, HistoryBit(outcome));
      var withBit := Or(table[i], HistoryBit(outcome));
      table[i] := withBit;
      AndLowMask(withBit, bits);
      table[i] := And(table[i], LowMask(bits));
    }

    /** tournament_train, in the source's order: the chooser, the global
        counter, the global history, the local counter, the local pattern.
        Both sub-predictions are read before anything changes. */
    method TournamentTrain(pc: uint32, outcome: uint8)
      requires Valid() && bpType == TOURNAMENT
      modifies this`globalhistory, globalBHT, localPattern, localBHT, chooser
      ensures Valid()
      ensures Snapshot() == Schemes.TournamentTrain(Cfg(), old(Snapshot()), pc, outcome)
    {
      ghost var s := Snapshot();

      // train chooser
      var globalIndex := And(Xor(globalhistory, pc), globalmask);
      AndLowMask(Xor(globalhistory, pc), ghistoryBits);
      var globalOutcome := TournamentGlobalPredict(pc);
      var localOutcome := TournamentLocalPredict(pc);
      ChooserStepAt(chooser, globalIndex, globalOutcome, localOutcome, outcome);

      // train global predictor
      ReinforceAt(globalBHT, globalIndex, globalOutcome == outcome);
      globalhistory := ShiftIn(globalhistory, outcome);

      // train local predictor
      var localPatternIndex := And(pc, LowMask(pcIndexBits));
      AndLowMask(pc, pcIndexBits);
      var localBHTIndex := localPattern[localPatternIndex];
      assert localBHTIndex as nat == LocalIndex(Cfg(), s, pc);
      ReinforceAt(localBHT, localBHTIndex, localOutcome == outcome);
      ShiftPatternAt(localPattern, localPatternIndex, outcome, ghistoryBits);

      ghost var r := Schemes.TournamentTrain(Cfg(), s, pc, outcome);
      assert localPattern[..] == r.localPattern;
      assert localBHT[..] == r.localBHT;
      assert globalBHT[..] == r.globalBHT;
      assert chooser[..] == r.chooser;
      assert gstate[..] == r.gstate;
    }

    // -------------------------------------------------------------------
    // Dispatchers
    // -------------------------------------------------------------------

    /** init_predictor. */
    method InitPredictor()
      requires Separate() && Supported(Cfg())
      modifies this
      ensures Valid()
      ensures gstate == old(gstate) || fresh(gstate)
      ensures globalBHT == old(globalBHT) || fresh(globalBHT)
      ensures localPattern == old(localPattern) || fresh(localPattern)
      ensures localBHT == old(localBHT) || fresh(localBHT)
      ensures chooser == old(chooser) || fresh(chooser)
      ensures Snapshot() == Schemes.InitPredictor(Cfg(), old(Snapshot()))
    {
      if bpType == STATIC {
        return;
      } else if bpType == GSHARE {
        GshareInit();
        return;
      } else if bpType == TOURNAMENT {
        TournamentInit();
        return;
      } else if bpType == CUSTOM {
        return;
      }
    }

    /** make_prediction; it changes nothing. */
    function MakePrediction(pc: uint32): (r: uint8)
      requires Valid()
      reads this, gstate, globalBHT, localPattern, localBHT, chooser
      ensures r == Schemes.MakePrediction(Cfg(), Snapshot(), pc)
    {
      if bpType == STATIC then TAKEN
      else if bpType == GSHARE then GsharePredict(pc)
      else if bpType == TOURNAMENT then TournamentPredict(pc)
      else NOTTAKEN  // CUSTOM and unknown types
    }

    /** train_predictor. */
    method TrainPredictor(pc: uint32, outcome: uint8)
      requires Valid()
      modifies this`ghistory, this`globalhistory, gstate, globalBHT, localPattern, localBHT, chooser
      ensures Valid()
      ensures Snapshot() == Schemes.TrainPredictor(Cfg(), old(Snapshot()), pc, outcome)
    {
      if bpType == STATIC {
        return;
      } else if bpType == GSHARE {
        GshareTrain(pc, outcome);
        return;
      } else if bpType == TOURNAMENT {
        TournamentTrain(pc, outcome);
        return;
      } else if bpType == CUSTOM {
        return;
      }
    }
  }
}
