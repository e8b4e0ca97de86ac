/** The unsigned C types that requests and registers carry, and the bitwise operators on them,
    defined on binary expansions. */
module Bits {

  const WORD := 0x1_0000_0000

  /** uint32_t */
  type word = n: nat | n < WORD

  /** uint8_t */
  type byte = n: nat | n < 256

  function Pow2(k: nat): (p: nat)
    ensures p > 0
  {
    if k == 0 then 1 else 2 * Pow2(k - 1)
  }

  /** `v >> k`: k halvings. */
  function ShiftRight(v: nat, k: nat): (r: nat)
    ensures r <= v
  {
    if k == 0 then v else ShiftRight(v / 2, k - 1)
  }

  /** `(v >> k) & 1` */
  predicate Bit(v: nat, k: nat) {
    ShiftRight(v, k) % 2 == 1
  }

  /** `a | b` */
  function Or(a: nat, b: nat): nat
  {
    if a == 0 then b else (if a % 2 == 1 || b % 2 == 1 then 1 else 0) + 2 * Or(a / 2, b / 2)
  }

  /** `a & b` */
  function And(a: nat, b: nat): (r: nat)
    ensures r <= a && r <= b
  {
    if a == 0 then 0 else (if a % 2 == 1 && b % 2 == 1 then 1 else 0) + 2 * And(a / 2, b / 2)
  }

  /** `a & ~b` */
  function AndNot(a: nat, b: nat): (r: nat)
    ensures r <= a
  {
    if a == 0 then 0 else (if a % 2 == 1 && b % 2 == 0 then 1 else 0) + 2 * AndNot(a / 2, b / 2)
  }

  /** `1 << k`, shifted as an int; Pow2Bound keeps it a word for k up to 30. */
  function Mask(k: nat): nat {
    Pow2(k)
  }

  lemma {:induction false} BitStep(v: nat, k: nat)
    ensures Bit(v, k) == if k == 0 then v % 2 == 1 else Bit(v / 2, k - 1)
  {
  }

  // ---- every operator, bit by bit ----------------------------------------------------------

  lemma {:induction false} BitOfZero(k: nat)
    ensures !Bit(0, k)
  {
    if k > 0 {
      BitOfZero(k - 1);
    }
  }

  lemma {:induction false} OrBits(a: nat, b: nat, j: nat)
    ensures Bit(Or(a, b), j) <==> Bit(a, j) || Bit(b, j)
    decreases j
  {
    hide Bit;
    BitStep(a, j);
    BitStep(b, j);
    BitStep(Or(a, b), j);
    if a == 0 {
      BitOfZero(j);
    } else if j > 0 {
      OrBits(a / 2, b / 2, j - 1);
    }
  }

  lemma {:induction false} AndBits(a: nat, b: nat, j: nat)
    ensures Bit(And(a, b), j) <==> Bit(a, j) && Bit(b, j)
    decreases j
  {
    hide Bit;
    BitStep(a, j);
    BitStep(b, j);
    BitStep(And(a, b), j);
    if a == 0 {
      BitOfZero(j);
    } else if j > 0 {
      AndBits(a / 2, b / 2, j - 1);
    }
  }

  lemma {:induction false} AndNotBits(a: nat, b: nat, j: nat)
    ensures Bit(AndNot(a, b), j) <==> Bit(a, j) && !Bit(b, j)
    decreases j
  {
    hide Bit;
    BitStep(a, j);
    BitStep(b, j);
    BitStep(AndNot(a, b), j);
    if a == 0 {
      BitOfZero(j);
    } else if j > 0 {
      AndNotBits(a / 2, b / 2, j - 1);
    }
  }

  lemma {:induction false} MaskBits(k: nat, j: nat)
    ensures Bit(Mask(k), j) <==> j == k
    decreases k
  {
    hide Bit;
    BitStep(Mask(k), j);
    if k == 0 {
      if j > 0 {
        BitOfZero(j - 1);
      }
    } else if j > 0 {
      MaskBits(k - 1, j - 1);
    }
  }

  /** `v |= 1 << k` sets bit k and keeps the others. */
  lemma {:induction false} SetBit(v: nat, k: nat, j: nat)
    ensures Bit(Or(v, Mask(k)), j) <==> j == k || Bit(v, j)
  {
    OrBits(v, Mask(k), j);
    MaskBits(k, j);
  }

  /** `v &= ~(1 << k)` clears bit k and keeps the others. */
  lemma {:induction false} ClearBit(v: nat, k: nat, j: nat)
    ensures Bit(AndNot(v, Mask(k)), j) <==> j != k && Bit(v, j)
  {
    AndNotBits(v, Mask(k), j);
    MaskBits(k, j);
  }

  /** The lowest n bits determine a number below 2^n. */
  lemma {:induction false} BitsDetermine(v: nat, w: nat, n: nat)
    requires v < Pow2(n) && w < Pow2(n)
    requires forall k :: 0 <= k < n ==> Bit(v, k) == Bit(w, k)
    ensures v == w
    decreases n
  {
    if n > 0 {
      hide Bit;
      BitStep(v, 0);
      BitStep(w, 0);
      forall k | 0 <= k < n - 1
        ensures Bit(v / 2, k) == Bit(w / 2, k)
      {
        BitStep(v, k + 1);
        BitStep(w, k + 1);
      }
      BitsDetermine(v / 2, w / 2, n - 1);
    }
  }

  lemma {:induction false} LowBits(v: nat, n: nat, j: nat)
    requires j < n
    ensures Bit(v % Pow2(n), j) == Bit(v, j)
    decreases j
  {
    hide Bit;
    HalfOfRemainder(v, n);
    BitStep(v, j);
    BitStep(v % Pow2(n), j);
    if j > 0 {
      LowBits(v / 2, n - 1, j - 1);
    }
  }

  lemma {:induction false} HalfOfRemainder(v: nat, n: nat)
    requires n > 0
    ensures (v % Pow2(n)) / 2 == (v / 2) % Pow2(n - 1) && (v % Pow2(n)) % 2 == v % 2
  {
    var m, q, r := Pow2(n - 1), v / Pow2(n), v % Pow2(n);
    assert v == 2 * (m * q) + r;
    assert v / 2 == m * q + r / 2 && r / 2 < m;
    RemainderIs(v / 2, m, q, r / 2);
  }

  lemma {:induction false} RemainderIs(v: nat, m: nat, q: nat, r: nat)
    requires m > 0 && v == m * q + r && r < m
    ensures v % m == r
  {
    MultipleBound(m, (q as int) - (v / m));
    assert v % m == m * ((q as int) - (v / m)) + r;
  }

  lemma {:induction false} MultipleBound(m: nat, k: int)
    ensures k >= 1 ==> m * k >= m
    ensures k <= -1 ==> m * k + m <= 0
  {
  }

  // ---- ranges ----------------------------------------------------------------------------------

  lemma {:induction false} Pow2Bound(k: nat, n: nat)
    requires k <= n
    ensures Pow2(k) <= Pow2(n)
    decreases n - k
  {
    if k < n {
      Pow2Bound(k + 1, n);
    }
  }

  lemma {:induction false} Pow2Values()
    ensures Pow2(8) == 256 && Pow2(16) == 0x1_0000 && Pow2(30) == 0x4000_0000 && Pow2(32) == WORD
  {
    assert Pow2(8) == 256;
    assert Pow2(12) == 0x1000;
    assert Pow2(16) == 0x1_0000;
    assert Pow2(20) == 0x10_0000;
    assert Pow2(24) == 0x100_0000;
    assert Pow2(28) == 0x1000_0000;
    assert Pow2(30) == 0x4000_0000;
  }

  lemma {:induction false} OrBound(a: nat, b: nat, n: nat)
    requires a < Pow2(n) && b < Pow2(n)
    ensures Or(a, b) < Pow2(n)
    decreases n
  {
    if n > 0 {
      OrBound(a / 2, b / 2, n - 1);
    }
  }

  /** `v | (1 << k)` on a uint32_t, for the shifts the program makes. */
  function SetMask(v: word, k: nat): (r: word)
    requires k < 31
  {
    Pow2Values();
    Pow2Bound(k, 30);
    OrBound(v, Mask(k), 32);
    Or(v, Mask(k))
  }

  // ---- bytes ---------------------------------------------------------------------------------------

  function Low(v: nat): byte { v % 256 }

  function High(v: nat): byte { v / 256 % 256 }

  /** `a | (b << 8)` */
  function Join(a: byte, b: byte): nat { Or(a, 256 * b) }

  lemma {:induction false} OrDisjoint(a: nat, b: nat, n: nat)
    requires a < Pow2(n)
    ensures Or(a, Pow2(n) * b) == a + Pow2(n) * b
    decreases n
  {
    if a != 0 {
      var m := Pow2(n - 1);
      assert Pow2(n) * b == 2 * (m * b);
      OrDisjoint(a / 2, b, n - 1);
    }
  }

  lemma {:induction false} LowHigh(v: nat)
    ensures Low(v) + 256 * High(v) == v % 0x1_0000
  {
  }

  lemma {:induction false} JoinValue(a: byte, b: byte)
    ensures Join(a, b) == a + 256 * b < 0x1_0000
    ensures Low(Join(a, b)) == a && High(Join(a, b)) == b
  {
    hide Or, Pow2;
    Pow2Values();
    OrDisjoint(a, b, 8);
  }

  /** The level of eight pins: an output pin shows its latch, an input pin the level outside. */
  function PinLevels(latch: byte, outside: byte, inputs: byte): byte
  {
    Pow2Values();
    OrBound(AndNot(latch, inputs), And(outside, inputs), 8);
    Or(AndNot(latch, inputs), And(outside, inputs))
  }

  function OrByte(a: byte, b: byte): byte
  {
    Pow2Values();
    OrBound(a, b, 8);
    Or(a, b)
  }

  lemma {:induction false} AndNotZero(a: nat)
    ensures AndNot(a, 0) == a && And(a, 0) == 0 && Or(a, 0) == a
  {
    if a > 0 {
      AndNotZero(a / 2);
    }
  }

  lemma {:induction false} AndOnes(a: nat, n: nat)
    requires a < Pow2(n)
    ensures And(a, Pow2(n) - 1) == a && AndNot(a, Pow2(n) - 1) == 0
    decreases n
  {
    if a > 0 {
      assert Pow2(n) - 1 == 2 * (Pow2(n - 1) - 1) + 1;
      AndOnes(a / 2, n - 1);
    }
  }

  lemma {:induction false} PinLevelsSpec(latch: byte, outside: byte)
    ensures PinLevels(latch, outside, 0x00) == latch
    ensures PinLevels(latch, outside, 0xFF) == outside
  {
    AndNotZero(latch);
    AndNotZero(outside);
    Pow2Values();
    AndOnes(latch, 8);
    AndOnes(outside, 8);
  }
}
