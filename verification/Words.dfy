/** Bit operations on 64-bit words, over the natural numbers below 2^64. */
module Words {
  import opened Machine

  function Xor(x: nat, y: nat): nat
    decreases x + y
  {
    if x == 0 && y == 0 then 0 else 2 * Xor(x / 2, y / 2) + (if x % 2 != y % 2 then 1 else 0)
  }

  function Or(x: nat, y: nat): nat
    decreases x + y
  {
    if x == 0 && y == 0 then 0 else 2 * Or(x / 2, y / 2) + (if x % 2 == 1 || y % 2 == 1 then 1 else 0)
  }

  /** x >> k. */
  function ShiftRight(x: nat, k: nat): nat
    decreases k
  {
    if k == 0 then x else ShiftRight(x / 2, k - 1)
  }

  function Pow2(k: nat): nat {
    if k == 0 then 1 else 2 * Pow2(k - 1)
  }

  /** x << k, as far as it stays inside the word. */
  function ShiftLeft(x: nat, k: nat): nat {
    x * Pow2(k) % U64_LIMIT
  }

  /** x * c in 64-bit arithmetic. */
  function Times(x: nat, c: nat): nat {
    x * c % U64_LIMIT
  }

  lemma {:induction false} PowersMultiply(a: nat, b: nat)
    ensures Pow2(a + b) == Pow2(a) * Pow2(b)
  {
    if a > 0 {
      PowersMultiply(a - 1, b);
      DoubleProduct(Pow2(a - 1), Pow2(b));
    }
  }

  lemma DoubleProduct(a: nat, b: nat)
    ensures 2 * (a * b) == (2 * a) * b
  {
  }

  lemma WordPowers()
    ensures Pow2(12) == 0x1000 && Pow2(22) == 0x40_0000 && Pow2(64) == U64_LIMIT
  {
    assert Pow2(8) == 256;
    PowersMultiply(8, 4);
    PowersMultiply(12, 10);
    PowersMultiply(8, 8);
    PowersMultiply(16, 16);
    PowersMultiply(32, 32);
  }

  lemma {:induction false} ShiftOfHalf(x: nat, k: nat)
    ensures ShiftRight(x, k) / 2 == ShiftRight(x / 2, k)
    decreases k
  {
    if k > 0 {
      ShiftOfHalf(x / 2, k - 1);
    }
  }

  lemma {:induction false} XorBound(x: nat, y: nat, n: nat)
    requires x < Pow2(n) && y < Pow2(n)
    ensures Xor(x, y) < Pow2(n)
    decreases n
  {
    if n > 0 {
      XorBound(x / 2, y / 2, n - 1);
    }
  }

  lemma {:induction false} ShiftShrinks(x: nat, k: nat)
    ensures ShiftRight(x, k) <= x
    decreases k
  {
    if k > 0 {
      ShiftShrinks(x / 2, k - 1);
    }
  }

  /** A word determines itself from its xor with a copy shifted right: bit by bit from the
      top, because the shifted copy only brings in higher bits. */
  lemma {:induction false} XorShiftIsInjective(x: nat, y: nat, k: nat)
    requires k > 0
    requires Xor(x, ShiftRight(x, k)) == Xor(y, ShiftRight(y, k))
    ensures x == y
    decreases x + y
  {
    if x + y > 0 {
      XorHalves(x, ShiftRight(x, k));
      XorHalves(y, ShiftRight(y, k));
      ShiftOfHalf(x, k);
      ShiftOfHalf(y, k);
      XorShiftIsInjective(x / 2, y / 2, k);
    }
  }

  lemma XorHalves(x: nat, y: nat)
    ensures Xor(x, y) / 2 == Xor(x / 2, y / 2)
    ensures Xor(x, y) % 2 == if x % 2 != y % 2 then 1 else 0
  {
  }

  /** A product with an odd factor is undone by the inverse of the factor. */
  lemma ProductIsInvertible(x: nat, c: nat, inverse: nat)
    requires x < U64_LIMIT && c * inverse % U64_LIMIT == 1
    ensures Times(Times(x, c), inverse) == x
  {
    var q, r := x * c / U64_LIMIT, x * c % U64_LIMIT;
    var t := c * inverse / U64_LIMIT;
    Regroup(x, c, inverse, q, r, t);
    RemainderIsUnique(r * inverse, x, x * t - q * inverse);
  }

  lemma Regroup(x: nat, c: nat, inverse: nat, q: nat, r: nat, t: nat)
    requires x * c == q * U64_LIMIT + r && c * inverse == t * U64_LIMIT + 1
    ensures r * inverse == x + U64_LIMIT * (x * t - q * inverse)
  {
    calc {
      r * inverse;
      (x * c - q * U64_LIMIT) * inverse;
      x * c * inverse - q * U64_LIMIT * inverse;
      { assert x * c * inverse == x * (c * inverse); }
      x * (t * U64_LIMIT + 1) - q * U64_LIMIT * inverse;
      { assert x * (t * U64_LIMIT + 1) == U64_LIMIT * (x * t) + x; }
      { assert q * U64_LIMIT * inverse == U64_LIMIT * (q * inverse); }
      x + U64_LIMIT * (x * t - q * inverse);
    }
  }

  lemma RemainderIsUnique(z: nat, x: nat, k: int)
    requires x < U64_LIMIT && z == x + U64_LIMIT * k
    ensures z % U64_LIMIT == x
  {
  }

  /** Fields that do not overlap: or is addition. */
  lemma {:induction false} OrOfDisjointFields(high: nat, low: nat, k: nat)
    requires low < Pow2(k)
    ensures Or(high * Pow2(k), low) == high * Pow2(k) + low
    decreases k
  {
    if k == 0 {
      OrZero(high);
    } else {
      var x := high * Pow2(k - 1);
      assert high * Pow2(k) == 2 * x;
      OrOfDisjointFields(high, low / 2, k - 1);
      assert Or(2 * x, low) == 2 * Or(x, low / 2) + low % 2;
    }
  }

  lemma {:induction false} OrZero(x: nat)
    ensures Or(x, 0) == x
  {
    if x > 0 {
      OrZero(x / 2);
    }
  }
}
