/** Unsigned 32-bit words and the C bitwise operators the predictor uses
    (`^`, `&`, `|`, `<<`), written out on mathematical integers so that the
    width and the wrap-around of `uint32_t` are explicit. */
module Bits {

  /** 2^32, one more than the largest `uint32_t`. */
  const WORD: nat := 0x1_0000_0000

  /** A C `uint32_t`. */
  type uint32 = x: int | 0 <= x < 0x1_0000_0000

  function Pow2(n: nat): (r: nat)
    ensures r >= 1
  {
    if n == 0 then 1 else 2 * Pow2(n - 1)
  }

  lemma {:induction false} Pow2Add(a: nat, b: nat)
    ensures Pow2(a + b) == Pow2(a) * Pow2(b)
  {
    if b > 0 {
      Pow2Add(a, b - 1);
      assert Pow2(a + b) == 2 * Pow2(a + b - 1);
    }
  }

  lemma {:induction false} Pow2Monotone(a: nat, b: nat)
    requires a <= b
    ensures Pow2(a) <= Pow2(b)
  {
    if a < b {
      Pow2Monotone(a, b - 1);
    }
  }

  lemma Pow2Word()
    ensures Pow2(30) == 0x4000_0000 && Pow2(31) == 0x8000_0000 && Pow2(32) == WORD
  {
    assert Pow2(10) == 0x400;
    Pow2Add(10, 10);
    Pow2Add(20, 10);
  }

  /** `1 << bits` is 2^bits and fits in a C `int` (and a `uint32_t`) for every
      width the predictor is configured with. */
  lemma Pow2Fits(bits: nat)
    requires bits <= 30
    ensures Pow2(bits) <= 0x4000_0000 < WORD
  {
    Pow2Monotone(bits, 30);
    Pow2Word();
  }

  /** `(1 << bits) - 1`: the all-ones mask on the low `bits` bits. */
  function LowMask(bits: nat): (m: uint32)
    requires bits <= 30
    ensures m < Pow2(bits)
  {
    Pow2Fits(bits);
    Pow2(bits) - 1
  }

  /** `x << 1` on a `uint32_t`: the top bit is lost. */
  function ShiftLeft1(x: uint32): (r: uint32)
    ensures r % 2 == 0
    ensures x < WORD / 2 ==> r == 2 * x
  {
    (2 * x) % WORD
  }

  /** Bitwise `&`, one bit at a time from the least significant. */
  function And(a: nat, b: nat): (r: nat)
    ensures r <= a && r <= b
    decreases a
  {
    if a == 0 || b == 0 then 0
    else 2 * And(a / 2, b / 2) + (if a % 2 == 1 && b % 2 == 1 then 1 else 0)
  }

  /** Bitwise `|`: it sets every bit either operand has, so it is at least
      each operand and at most their sum. */
  function Or(a: nat, b: nat): (r: nat)
    ensures a <= r && b <= r && r <= a + b
    decreases a + b
  {
    if a == 0 && b == 0 then 0
    else 2 * Or(a / 2, b / 2) + (if a % 2 == 1 || b % 2 == 1 then 1 else 0)
  }

  /** Bitwise `^`: at most the sum of the operands, and zero exactly when
      they are equal. */
  function Xor(a: nat, b: nat): (r: nat)
    ensures r <= a + b
    ensures r == 0 <==> a == b
    decreases a + b
  {
    if a == 0 && b == 0 then 0
    else 2 * Xor(a / 2, b / 2) + (if a % 2 != b % 2 then 1 else 0)
  }

  // ---------------------------------------------------------------------
  // Division facts used below
  // ---------------------------------------------------------------------

  /** A positive multiple of `p` is at least `p`. */
  lemma MulAtLeast(d: int, p: int)
    requires d >= 1 && p > 0
    ensures d * p >= p
  {
  }

  /** Quotient and remainder are unique. */
  lemma ModUnique(x: int, q: int, r: int, p: int)
    requires p > 0 && 0 <= r < p && x == q * p + r
    ensures x % p == r && x / p == q
  {
    var q0, r0 := x / p, x % p;
    assert (q - q0) * p == r0 - r;
    if q > q0 {
      MulAtLeast(q - q0, p);
    } else if q < q0 {
      MulAtLeast(q0 - q, p);
    }
  }

  /** Taking the low bits of `x` keeps its lowest bit and the low bits of `x / 2`. */
  lemma ModDouble(x: nat, p: nat)
    requires p > 0
    ensures x % (2 * p) == 2 * ((x / 2) % p) + x % 2
    ensures (x % (2 * p)) / 2 == (x / 2) % p
    ensures (x % (2 * p)) % 2 == x % 2
  {
    var q, r := (x / 2) / p, (x / 2) % p;
    assert x == q * (2 * p) + (2 * r + x % 2);
    ModUnique(x, q, 2 * r + x % 2, 2 * p);
  }

  /** Reducing modulo a multiple of `p` first does not change the remainder modulo `p`. */
  lemma ModOfMultiple(x: nat, p: nat, c: nat)
    requires p > 0 && c > 0
    ensures (x % (p * c)) % p == x % p
  {
    var big, rest := x / (p * c), x % (p * c);
    var q, r := rest / p, rest % p;
    assert x == big * (p * c) + rest;
    assert rest == q * p + r;
    assert big * (p * c) == (big * c) * p;
    assert (big * c + q) * p == (big * c) * p + q * p;
    ModUnique(x, big * c + q, r, p);
  }

  /** The low `a` bits of the low `b` bits are the low `a` bits. */
  lemma ModOfMod(x: nat, a: nat, b: nat)
    requires a <= b
    ensures (x % Pow2(b)) % Pow2(a) == x % Pow2(a)
  {
    Pow2Add(a, b - a);
    ModOfMultiple(x, Pow2(a), Pow2(b - a));
  }

  // ---------------------------------------------------------------------
  // Bitwise facts
  // ---------------------------------------------------------------------

  /** `x & ((1 << k) - 1)` keeps exactly the low `k` bits of `x`. */
  lemma {:induction false} AndLowMask(x: nat, k: nat)
    ensures And(x, Pow2(k) - 1) == x % Pow2(k)
  {
    if k > 0 && x > 0 {
      var p := Pow2(k - 1);
      var m := Pow2(k) - 1;
      assert Pow2(k) == 2 * p;
      assert m == 2 * (p - 1) + 1;
      ModUnique(m, p - 1, 1, 2);
      var low := And(x / 2, p - 1);
      calc {
        And(x, m);
        { assert m / 2 == p - 1 && m % 2 == 1; }
        2 * low + x % 2;
        { AndLowMask(x / 2, k - 1); }
        2 * ((x / 2) % p) + x % 2;
        { ModDouble(x, p); }
        x % (2 * p);
      }
    } else if k == 0 {
      assert Pow2(k) == 1;
    } else {
      assert x == 0;
      ModUnique(0, 0, 0, Pow2(k));
    }
  }

  /** `^` of two `k`-bit values is a `k`-bit value. */
  lemma {:induction false} XorBelow(a: nat, b: nat, k: nat)
    requires a < Pow2(k) && b < Pow2(k)
    ensures Xor(a, b) < Pow2(k)
  {
    if k > 0 && !(a == 0 && b == 0) {
      XorBelow(a / 2, b / 2, k - 1);
    }
  }

  /** `^` of two `uint32_t` values is a `uint32_t`. */
  lemma XorWord(a: uint32, b: uint32)
    ensures Xor(a, b) < WORD
  {
    Pow2Word();
    XorBelow(a, b, 32);
  }

  /** The low `k` bits of `a ^ b` depend only on the low `k` bits of `a` and of `b`. */
  lemma {:induction false} XorLowBits(a: nat, b: nat, k: nat)
    ensures Xor(a, b) % Pow2(k) == Xor(a % Pow2(k), b % Pow2(k))
  {
    if k == 0 {
      assert Pow2(k) == 1;
    } else {
      var p := Pow2(k - 1);
      assert Pow2(k) == 2 * p;
      var x := Xor(a, b);
      var e := if a % 2 != b % 2 then 1 else 0;
      assert x == 2 * Xor(a / 2, b / 2) + e;
      ModUnique(x, Xor(a / 2, b / 2), e, 2);
      ModDouble(a, p);
      ModDouble(b, p);
      calc {
        x % (2 * p);
        { ModDouble(x, p); }
        2 * ((x / 2) % p) + x % 2;
        2 * (Xor(a / 2, b / 2) % p) + e;
        { XorLowBits(a / 2, b / 2, k - 1); }
        2 * Xor((a / 2) % p, (b / 2) % p) + e;
        2 * Xor((a % (2 * p)) / 2, (b % (2 * p)) / 2) + e;
        Xor(a % (2 * p), b % (2 * p));
      }
    }
  }

  lemma {:induction false} OrZero(y: nat)
    ensures Or(y, 0) == y
  {
    if y > 0 {
      OrZero(y / 2);
    }
  }

  /** `|`-ing a single bit into an even number adds it. */
  lemma OrLowBit(y: nat, c: nat)
    requires y % 2 == 0 && c <= 1
    ensures Or(y, c) == y + c
  {
    if y > 0 || c > 0 {
      OrZero(y / 2);
    }
  }
}
