/** The history registers and the table indices derived from them: the
    global history XOR the PC for the global-side tables, the low PC bits for
    the local-pattern table, and the masked per-PC local pattern. */
module History {
  import opened Bits
  import opened Counters

  /** A table of `n` cleared local histories, as the init loop leaves it. */
  function ClearedPatterns(n: nat): (t: seq<uint32>)
    ensures |t| == n && forall i :: 0 <= i < n ==> t[i] == 0
  {
    seq(n, _ => 0)
  }

  /** The bit an outcome shifts into a history: `outcome == NOTTAKEN ? 0 : 1`. */
  function HistoryBit(outcome: uint8): (b: uint32)
    ensures b <= 1
    ensures b == 0 <==> outcome == NOTTAKEN
  {
    if outcome == NOTTAKEN then 0 else 1
  }

  /** `(h << 1) | bit` on a `uint32_t`, with no mask: the newest outcome becomes
      bit 0, the other bits move up one place and the top bit is lost. */
  function ShiftIn(h: uint32, outcome: uint8): (r: uint32)
    ensures r == 2 * (h % 0x8000_0000) + HistoryBit(outcome)
  {
    var shifted := ShiftLeft1(h);
    assert shifted == 2 * (h % 0x8000_0000) by {
      ModUnique(2 * h, h / 0x8000_0000, 2 * (h % 0x8000_0000), WORD);
    }
    OrLowBit(shifted, HistoryBit(outcome));
    Or(shifted, HistoryBit(outcome))
  }

  /** `(history ^ pc) & ((1 << bits) - 1)`: the slot of the gshare table, and
      of the tournament's global counters and chooser. It is below the table
      size 2^bits, and it is the low `bits` bits of `history ^ pc`. */
  function GlobalIndex(history: uint32, pc: uint32, bits: nat): (i: nat)
    requires bits <= 30
    ensures i < Pow2(bits)
    ensures i == Xor(history, pc) % Pow2(bits)
  {
    AndLowMask(Xor(history, pc), bits);
    And(Xor(history, pc), LowMask(bits))
  }

  /** `pc & ((1 << bits) - 1)`: the slot of the local-pattern table. */
  function PatternIndex(pc: uint32, bits: nat): (i: nat)
    requires bits <= 30
    ensures i < Pow2(bits)
    ensures i == pc % Pow2(bits)
  {
    AndLowMask(pc, bits);
    And(pc, LowMask(bits))
  }

  /** The three statements that advance a local pattern: shift left, `|` the
      outcome bit, then `&` the mask of `bits` bits. The result keeps the
      previous `bits - 1` low bits shifted up, with the outcome as bit 0. */
  function NextPattern(pattern: uint32, outcome: uint8, bits: nat): (r: uint32)
    requires bits <= 30
    ensures r < Pow2(bits)
    ensures r == ShiftIn(pattern, outcome) % Pow2(bits)
  {
    var shifted := ShiftLeft1(pattern);
    OrLowBit(shifted, HistoryBit(outcome));
    var withBit: uint32 := Or(shifted, HistoryBit(outcome));
    AndLowMask(withBit, bits);
    And(withBit, LowMask(bits))
  }

  // ---------------------------------------------------------------------
  // What the masked indices see of an unmasked register
  // ---------------------------------------------------------------------

  /** The low `k` bits of a register after shifting in an outcome are the
      outcome below the previous low `k - 1` bits; the lost top bit never
      reaches them. */
  lemma ShiftInLowBits(h: uint32, outcome: uint8, k: nat)
    requires 1 <= k <= 31
    ensures ShiftIn(h, outcome) % Pow2(k) == 2 * (h % Pow2(k - 1)) + HistoryBit(outcome)
  {
    Pow2Word();
    var low := h % 0x8000_0000;
    var x := ShiftIn(h, outcome);
    assert x / 2 == low && x % 2 == HistoryBit(outcome);
    ModDouble(x, Pow2(k - 1));
    ModOfMod(h, k - 1, 31);
  }

  /** The number whose binary digits are the outcomes, the last one lowest. */
  function Encode(outcomes: seq<uint8>): (v: nat)
    decreases |outcomes|
  {
    if outcomes == [] then 0
    else 2 * Encode(outcomes[..|outcomes| - 1]) + HistoryBit(outcomes[|outcomes| - 1])
  }

  /** `n` outcomes that all went the same way. */
  function Streak(outcome: uint8, n: nat): (r: seq<uint8>)
    ensures |r| == n && forall i :: 0 <= i < n ==> r[i] == outcome
  {
    seq(n, _ => outcome)
  }

  /** A register after a run of outcomes, each shifted in by `ShiftIn`. */
  function HistoryAfter(h: uint32, outcomes: seq<uint8>): uint32
    decreases |outcomes|
  {
    if outcomes == [] then h
    else ShiftIn(HistoryAfter(h, outcomes[..|outcomes| - 1]), outcomes[|outcomes| - 1])
  }

  /** A local pattern after a run of outcomes at its PC, each applied by
      `NextPattern`. */
  function PatternAfter(pattern: uint32, outcomes: seq<uint8>, bits: nat): uint32
    requires bits <= 30
    decreases |outcomes|
  {
    if outcomes == [] then pattern
    else NextPattern(PatternAfter(pattern, outcomes[..|outcomes| - 1], bits), outcomes[|outcomes| - 1], bits)
  }

  /** The last `k` outcomes are the last `k - 1` before the newest, then the
      newest. Stated on its own so that the inductions below reason about the
      slices without the rest of their context. */
  lemma LastSplit(outcomes: seq<uint8>, k: nat)
    requires 1 <= k <= |outcomes|
    ensures var pre := outcomes[..|outcomes| - 1];
            outcomes[|outcomes| - k..] == pre[|pre| - (k - 1)..] + [outcomes[|outcomes| - 1]]
  {
  }

  /** After at least `k` outcomes, the low `k` bits of a history register are
      exactly the last `k` outcomes, whatever the register held before. */
  lemma {:induction false} HistoryRemembersLast(h: uint32, outcomes: seq<uint8>, k: nat)
    requires k <= 31 && k <= |outcomes|
    ensures HistoryAfter(h, outcomes) % Pow2(k) == Encode(outcomes[|outcomes| - k..])
    decreases |outcomes|
  {
    if k > 0 {
      var pre := outcomes[..|outcomes| - 1];
      var last := outcomes[|outcomes| - 1];
      HistoryRemembersLast(h, pre, k - 1);
      ShiftInLowBits(HistoryAfter(h, pre), last, k);
      LastSplit(outcomes, k);
      var tail := outcomes[|outcomes| - k..];
      assert tail[..|tail| - 1] == pre[|pre| - (k - 1)..];
    }
  }

  /** Gshare and the tournament mask the index, never the register, so after
      `bits` branches the global index no longer depends on what the register
      held before them. */
  lemma GlobalIndexForgetsOldHistory(h1: uint32, h2: uint32, outcomes: seq<uint8>, pc: uint32, bits: nat)
    requires bits <= 30 && bits <= |outcomes|
    ensures GlobalIndex(HistoryAfter(h1, outcomes), pc, bits) == GlobalIndex(HistoryAfter(h2, outcomes), pc, bits)
  {
    HistoryRemembersLast(h1, outcomes, bits);
    HistoryRemembersLast(h2, outcomes, bits);
    XorLowBits(HistoryAfter(h1, outcomes), pc, bits);
    XorLowBits(HistoryAfter(h2, outcomes), pc, bits);
  }

  /** The global index sees only the low `bits` bits of the history register. */
  lemma GlobalIndexSeesLowBits(h1: uint32, h2: uint32, pc: uint32, bits: nat)
    requires bits <= 30
    requires h1 % Pow2(bits) == h2 % Pow2(bits)
    ensures GlobalIndex(h1, pc, bits) == GlobalIndex(h2, pc, bits)
  {
    XorLowBits(h1, pc, bits);
    XorLowBits(h2, pc, bits);
  }

  /** After at least `k <= bits` outcomes at one PC, the low `k` bits of its
      local pattern are exactly the last `k` outcomes. */
  lemma {:induction false} PatternRemembersLast(pattern: uint32, outcomes: seq<uint8>, bits: nat, k: nat)
    requires bits <= 30 && k <= bits && k <= |outcomes|
    ensures PatternAfter(pattern, outcomes, bits) % Pow2(k) == Encode(outcomes[|outcomes| - k..])
    decreases |outcomes|
  {
    if k > 0 {
      var pre := outcomes[..|outcomes| - 1];
      var last := outcomes[|outcomes| - 1];
      var before := PatternAfter(pattern, pre, bits);
      PatternRemembersLast(pattern, pre, bits, k - 1);
      ModOfMod(ShiftIn(before, last), k, bits);
      ShiftInLowBits(before, last, k);
      LastSplit(outcomes, k);
      var tail := outcomes[|outcomes| - k..];
      assert tail[..|tail| - 1] == pre[|pre| - (k - 1)..];
    }
  }

  /** A streak of `n >= k` outcomes leaves the same low `k` register bits as
      a streak of exactly `k`, whatever the register held before. */
  lemma StreakHistorySettles(h: uint32, outcome: uint8, n: nat, k: nat)
    requires k <= 31 && k <= n
    ensures HistoryAfter(h, Streak(outcome, n)) % Pow2(k) == HistoryAfter(h, Streak(outcome, k)) % Pow2(k)
  {
    HistoryRemembersLast(h, Streak(outcome, n), k);
    HistoryRemembersLast(h, Streak(outcome, k), k);
    assert Streak(outcome, n)[n - k..] == Streak(outcome, k);
    assert Streak(outcome, k)[0..] == Streak(outcome, k);
  }

  /** `n` taken outcomes encode as `n` one-bits. */
  lemma {:induction false} EncodeAllTaken(n: nat)
    ensures Encode(Streak(TAKEN, n)) == Pow2(n) - 1
  {
    if n > 0 {
      EncodeAllTaken(n - 1);
      assert Streak(TAKEN, n)[..n - 1] == Streak(TAKEN, n - 1);
    }
  }

  /** The local pattern is masked with the global-history width. When that
      width exceeds the local-history width, `bits` taken branches at one PC
      drive a freshly zeroed pattern to 2^bits - 1, past the last slot of a
      local table with 2^lbits entries. */
  lemma PatternOutgrowsLocalTable(bits: nat, lbits: nat)
    requires lbits < bits <= 30
    ensures PatternAfter(0, Streak(TAKEN, bits), bits) == Pow2(bits) - 1
    ensures PatternAfter(0, Streak(TAKEN, bits), bits) >= Pow2(lbits)
  {
    var run := Streak(TAKEN, bits);
    var x := PatternAfter(0, run, bits);
    assert x < Pow2(bits) by {
      assert run != [];
    }
    ModUnique(x, 0, x, Pow2(bits));
    PatternRemembersLast(0, run, bits, bits);
    assert run[|run| - bits..] == run;
    EncodeAllTaken(bits);
    Pow2Monotone(lbits + 1, bits);
    assert Pow2(lbits + 1) == 2 * Pow2(lbits);
  }
}
