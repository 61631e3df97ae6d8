/** Comparing fractions by cross-multiplication. */
module Fractions {

  lemma MulMonotone(x: int, y: int, k: nat)
    requires x <= y
    ensures x * k <= y * k
  {
    assert (y - x) * k >= 0;
  }

  lemma MulStrict(x: int, y: int, k: nat)
    requires x < y && k > 0
    ensures x * k < y * k
  {
    MulMonotone(x + 1, y, k);
    assert (x + 1) * k == x * k + k;
  }

  lemma Rearrange(x: int, y: int, z: int)
    ensures x * y * z == x * z * y
  {
  }

  /** `a/p <= b/q` and `b/q <= c/r` give `a/p <= c/r`, strictly if either is strict. */
  lemma Transitive(a: int, p: nat, b: int, q: nat, c: int, r: nat)
    requires p > 0 && q > 0 && r > 0 && a * q <= b * p && b * r <= c * q
    ensures a * r <= c * p
    ensures a * q < b * p || b * r < c * q ==> a * r < c * p
  {
    var ar, cp := a * r, c * p;
    assert a * q * r <= b * p * r && b * r * p <= c * q * p by {
      MulMonotone(a * q, b * p, r);
      MulMonotone(b * r, c * q, p);
    }
    assert a * q * r == ar * q && b * p * r == b * r * p && c * q * p == cp * q by {
      Rearrange(a, q, r);
      Rearrange(b, p, r);
      Rearrange(c, q, p);
    }
    if ar > cp { MulStrict(cp, ar, q); }
    if a * q < b * p { MulStrict(a * q, b * p, r); if ar >= cp { MulMonotone(cp, ar, q); } }
    if b * r < c * q { MulStrict(b * r, c * q, p); if ar >= cp { MulMonotone(cp, ar, q); } }
  }

  // ------------------------------------------------------------ as 64-bit floats

  /** Totals for which a double tells any two fractions apart: the product of two is less than 2^53. */
  const EXACT: nat := 94_906_265

  /** Half a unit in the last place of a double just below one. */
  const HALF_ULP: real := 1.0 / 18014398509481984.0

  /** `fl` rounds fractions to the nearest double. */
  ghost predicate Rounds(fl: real -> real) {
    forall x: real :: 0.0 <= x <= 1.0 ==> -HALF_ULP <= fl(x) - x <= HALF_ULP
  }

  lemma RealMulMonotone(x: real, y: real, k: real)
    requires x <= y && k >= 0.0
    ensures x * k <= y * k
  {
    assert (y - x) * k >= 0.0;
  }

  lemma RealMulStrict(x: real, y: real, k: real)
    requires x < y && k > 0.0
    ensures x * k < y * k
  {
    assert (y - x) * k > 0.0;
  }

  /** Distinct fractions with small totals are further apart than rounding can bring together. */
  lemma Apart(a: nat, p: nat, b: nat, q: nat)
    requires 0 < p <= EXACT && 0 < q <= EXACT && a * q < b * p
    ensures b as real / q as real - a as real / p as real > 2.0 * HALF_ULP
  {
    var x, y := a as real / p as real, b as real / q as real;
    var pq := p as real * q as real;
    assert x * p as real == a as real && y * q as real == b as real;
    var d := y - x;
    assert d * pq >= 1.0 by {
      assert d * pq == y * q as real * p as real - x * p as real * q as real;
      assert (b * p) as real - (a * q) as real >= 1.0;
      assert (b * p) as real == b as real * p as real && (a * q) as real == a as real * q as real;
    }
    assert pq <= 9007199136250225.0 by {
      RealMulMonotone(p as real, EXACT as real, q as real);
      RealMulMonotone(q as real, EXACT as real, EXACT as real);
    }
    if d <= 2.0 * HALF_ULP {
      RealMulMonotone(d, 2.0 * HALF_ULP, pq);
      RealMulMonotone(pq, 9007199136250225.0, 2.0 * HALF_ULP);
      assert false;
    }
  }

  lemma InUnit(a: nat, p: nat)
    requires 0 < p && a <= p
    ensures 0.0 <= a as real / p as real <= 1.0
  {
  }

  lemma SameFraction(a: nat, p: nat, b: nat, q: nat)
    requires 0 < p && 0 < q && a * q == b * p
    ensures a as real / p as real == b as real / q as real
  {
    var x, y := a as real / p as real, b as real / q as real;
    assert x * p as real == a as real && y * q as real == b as real;
    assert a as real * q as real == (a * q) as real == (b * p) as real == b as real * p as real;
    var pq := p as real * q as real;
    assert x * pq == y * pq;
    assert (x - y) * pq == 0.0 && pq > 0.0;
  }

  /** Dividing as doubles orders utilisations exactly as cross-multiplication does. */
  lemma FloatsAgree(fl: real -> real, a: nat, p: nat, b: nat, q: nat)
    requires Rounds(fl) && 0 < p <= 94_906_265 && 0 < q <= 94_906_265 && a <= p && b <= q
    ensures fl(a as real / p as real) < fl(b as real / q as real) <==> a * q < b * p
    ensures fl(a as real / p as real) == fl(b as real / q as real) <==> a * q == b * p
  {
    InUnit(a, p);
    InUnit(b, q);
    if a * q < b * p {
      Apart(a, p, b, q);
    } else if b * p < a * q {
      Apart(b, q, a, p);
    } else {
      SameFraction(a, p, b, q);
    }
  }

  /** Rounding that keeps order. */
  ghost predicate Monotone(fl: real -> real) {
    forall x: real, y: real :: x <= y ==> fl(x) <= fl(y)
  }

  /** Whatever the totals, a lesser utilisation is never taken for a greater one; at worst the two tie. */
  lemma NeverReversed(fl: real -> real, a: nat, p: nat, b: nat, q: nat)
    requires Monotone(fl) && 0 < p && 0 < q && a * q <= b * p
    ensures fl(a as real / p as real) <= fl(b as real / q as real)
  {
    var x, y := a as real / p as real, b as real / q as real;
    assert x * p as real == a as real && y * q as real == b as real;
    CrossOrder(x, p, y, q, a, b);
  }

  lemma CrossOrder(x: real, p: nat, y: real, q: nat, a: nat, b: nat)
    requires 0 < p && 0 < q && x * p as real == a as real && y * q as real == b as real && a * q <= b * p
    ensures x <= y
  {
    assert y * p as real * q as real == b as real * p as real;
    if y < x {
      RealMulStrict(y, x, p as real);
      RealMulStrict(y * p as real, a as real, q as real);
    }
  }

  /** The doubles between a half and one. */
  function Grid(n: int): real {
    n as real / 9007199254740992.0
  }

  /** `fl` rounds to one of them. */
  ghost predicate Nearest(fl: real -> real) {
    Rounds(fl) && forall x: real :: 0.5 <= x <= 1.0 ==> exists n :: fl(x) == Grid(n)
  }

  lemma OnGrid(fl: real -> real, x: real, n: int)
    requires Nearest(fl) && 0.5 <= x <= 1.0 && -HALF_ULP < x - Grid(n) < HALF_ULP
    ensures fl(x) == Grid(n)
  {
    var m :| fl(x) == Grid(m);
    assert -1.0 < (m - n) as real < 1.0;
  }

  /** The limit on totals is nearly the best possible: a little above it, two different utilisations round to one double. */
  lemma Collide(fl: real -> real)
    requires Nearest(fl)
    ensures var a, p, b, q := 94_911_150, 94_911_151, 94_911_151, 94_911_152;
      a * q < b * p && fl(a as real / p as real) == fl(b as real / q as real)
  {
    OnGrid(fl, 94_911_150.0 / 94_911_151.0, 9007199159839612);
    OnGrid(fl, 94_911_151.0 / 94_911_152.0, 9007199159839612);
  }
}
