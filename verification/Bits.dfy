/**
 Bit-level arithmetic shared by the rings, the page handles and the ring layout.

 Machine words are naturals; `And` and `Or` are the bitwise operators on them.
 The lemmas turn the masks of the source (`x & (c - 1)`, `x & !(c - 1)`,
 `id << 56 | offset`) into division and remainder.
 */
module Bits {

  function Pow2(k: nat): (p: nat)
    ensures p >= 1
  {
    if k == 0 then 1 else 2 * Pow2(k - 1)
  }

  ghost predicate IsPow2(c: nat) {
    exists k: nat :: c == Pow2(k)
  }

  function And(x: nat, y: nat): nat {
    if x == 0 || y == 0 then 0
    else (if x % 2 == 1 && y % 2 == 1 then 1 else 0) + 2 * And(x / 2, y / 2)
  }

  function Or(x: nat, y: nat): nat {
    if x == 0 then y
    else if y == 0 then x
    else (if x % 2 == 1 || y % 2 == 1 then 1 else 0) + 2 * Or(x / 2, y / 2)
  }

  /** Bitwise complement of a 64-bit word. */
  function Not64(x: nat): nat
    requires x < Pow2(64)
  {
    Pow2(64) - 1 - x
  }

  lemma MulStep(a: nat, b: nat, m: nat)
    requires a < b
    ensures a * m + m <= b * m
  {
    var d := b - a - 1;
    assert b == a + 1 + d;
    assert b * m == (a + 1) * m + d * m;
  }

  lemma DivModUnique(x: nat, m: nat, q: nat, r: nat)
    requires 0 < m && r < m && x == q * m + r
    ensures x / m == q && x % m == r
  {
    var q', r' := x / m, x % m;
    assert x == q' * m + r';
    if q < q' {
      MulStep(q, q', m);
    } else if q' < q {
      MulStep(q', q, m);
    }
  }

  lemma ModDouble(x: nat, m: nat)
    requires 0 < m
    ensures x % (2 * m) == x % 2 + 2 * (x / 2 % m)
    ensures x / (2 * m) == x / 2 / m
  {
    var h := x / 2;
    assert h == (h / m) * m + h % m;
    assert x == (h / m) * (2 * m) + (2 * (h % m) + x % 2);
    DivModUnique(x, 2 * m, h / m, 2 * (h % m) + x % 2);
  }

  /** Masking with a power of two minus one is the remainder. */
  lemma {:induction false} AndMask(x: nat, k: nat)
    ensures And(x, Pow2(k) - 1) == x % Pow2(k)
  {
    if k != 0 {
      AndMask(x / 2, k - 1);
      ModDouble(x, Pow2(k - 1));
      assert (Pow2(k) - 1) / 2 == Pow2(k - 1) - 1;
    }
  }

  /** Masking the low bits away rounds down to a multiple of the power of two. */
  lemma {:induction false} AndHigh(x: nat, k: nat, w: nat)
    requires k <= w && x < Pow2(w)
    ensures Pow2(k) <= Pow2(w)
    ensures And(x, Pow2(w) - Pow2(k)) == x - x % Pow2(k)
  {
    Pow2Monotone(k, w);
    if k == 0 {
      AndAll(x, w);
    } else {
      var p, q := Pow2(k - 1), Pow2(w - 1);
      assert Pow2(k) == 2 * p && Pow2(w) == 2 * q && 0 < p;
      hide And, Pow2;
      AndHigh(x / 2, k - 1, w - 1);
      HighStep(x, p, q);
    }
  }

  lemma AndAll(x: nat, w: nat)
    requires x < Pow2(w)
    ensures And(x, Pow2(w) - Pow2(0)) == x - x % Pow2(0)
  {
    AndMask(x, w);
    DivModUnique(x, Pow2(w), 0, x);
  }

  lemma HighStep(x: nat, p: nat, q: nat)
    requires 0 < p <= q && And(x / 2, q - p) == x / 2 - x / 2 % p
    ensures And(x, 2 * q - 2 * p) == x - x % (2 * p)
  {
    hide And;
    ModDouble(x, p);
    AndEven(x, q - p);
  }

  lemma AndEven(x: nat, y: nat)
    ensures And(x, 2 * y) == 2 * And(x / 2, y)
  {
    assert 2 * y / 2 == y && 2 * y % 2 == 0;
  }

  lemma {:induction false} Pow2Monotone(k: nat, w: nat)
    requires k <= w
    ensures Pow2(k) <= Pow2(w)
    decreases w
  {
    if k < w { Pow2Monotone(k, w - 1); }
  }

  lemma Doubles(a: nat, p: nat)
    ensures a * (2 * p) == 2 * (a * p)
  {
  }

  lemma OrEven(y: nat, b: nat)
    ensures Or(2 * y, b) == b % 2 + 2 * Or(y, b / 2)
  {
    var x := 2 * y;
    assert x / 2 == y && x % 2 == 0;
  }

  /** Or-ing a shifted word into a word that fits below the shift adds them. */
  lemma {:induction false} OrShifted(a: nat, b: nat, k: nat)
    requires b < Pow2(k)
    ensures Or(a * Pow2(k), b) == a * Pow2(k) + b
  {
    if k != 0 {
      var p := Pow2(k - 1);
      assert Pow2(k) == 2 * p;
      hide Or, Pow2;
      OrShifted(a, b / 2, k - 1);
      Doubles(a, p);
      OrEven(a * p, b);
    }
  }

  // ---------------------------------------------------------------- ring indices

  /** `(idx + 1) & mask`, as both sides of every ring compute it. */
  function Advance(idx: nat, cap: nat): nat
    requires cap > 0
  {
    And(idx + 1, cap - 1)
  }

  /** A ring position at most one lap past the end of the ring, brought back into it. */
  function Wrap(pos: nat, cap: nat): (p: nat)
    requires pos < 2 * cap
    ensures p < cap
  {
    if pos < cap then pos else pos - cap
  }

  /** A power-of-two ring wraps exactly at its capacity. */
  lemma AdvanceWraps(idx: nat, cap: nat)
    requires IsPow2(cap) && idx < cap
    ensures Advance(idx, cap) == Wrap(idx + 1, cap)
  {
    var k: nat :| cap == Pow2(k);
    AndMask(idx + 1, k);
    if idx + 1 == cap {
      DivModUnique(idx + 1, cap, 1, 0);
    } else {
      DivModUnique(idx + 1, cap, 0, idx + 1);
    }
  }
}
