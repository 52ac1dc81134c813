/** Bitwise operations on unbounded integers in two's complement, as Python has them, and their
    arithmetic meaning. */
module PyInt {
  import Arith

  function Pow2(k: nat): (r: nat)
    ensures r >= 1
  {
    if k == 0 then 1 else 2 * Pow2(k - 1)
  }

  function Shr(x: int, k: nat): int {
    x / Pow2(k)
  }

  function Shl(x: int, k: nat): int {
    x * Pow2(k)
  }

  function Not(x: int): int {
    -1 - x
  }

  function And(x: int, y: int): int
    decreases if x < 0 then -x else x
  {
    if x == 0 then 0
    else if x == -1 then y
    else 2 * And(x / 2, y / 2) + (if x % 2 == 1 && y % 2 == 1 then 1 else 0)
  }

  function Or(x: int, y: int): int
    decreases if x < 0 then -x else x
  {
    if x == 0 then y
    else if x == -1 then -1
    else 2 * Or(x / 2, y / 2) + (if x % 2 == 1 || y % 2 == 1 then 1 else 0)
  }

  lemma PowersSum(j: nat, k: nat)
    ensures Pow2(j + k) == Pow2(j) * Pow2(k)
  {
    if j > 0 {
      PowersSum(j - 1, k);
      assert Pow2(j + k) == 2 * Pow2(j - 1 + k);
    }
  }

  lemma PowersGrow(j: nat, k: nat)
    requires j <= k
    ensures Pow2(j) <= Pow2(k)
  {
    if j < k {
      PowersGrow(j, k - 1);
    }
  }

  lemma WordSizes()
    ensures Pow2(32) == 0x1_0000_0000 && Pow2(63) == 0x8000_0000_0000_0000 && Pow2(64) == 0x1_0000_0000_0000_0000
    ensures Pow2(70) == 0x40_0000_0000_0000_0000
  {
    assert Pow2(6) == 0x40;
    assert Pow2(15) == 0x8000;
    PowersSum(16, 15);
    PowersSum(16, 16);
    PowersSum(32, 31);
    PowersSum(32, 32);
    PowersSum(64, 6);
  }

  /** Splitting off the lowest bit. */
  lemma LowBit(x: int, p: int)
    requires p >= 1
    ensures x % (2 * p) == 2 * ((x / 2) % p) + x % 2 && x / (2 * p) == (x / 2) / p
  {
    var q, r := (x / 2) / p, (x / 2) % p;
    assert x == 2 * (x / 2) + x % 2;
    assert x / 2 == p * q + r;
    assert 2 * (p * q) == (2 * p) * q;
    Arith.DivModUnique(x, 2 * p, q, 2 * r + x % 2);
  }

  lemma Doubled(p: int, b: int)
    ensures 2 * (p * b) == (2 * p) * b && 2 * (b * p) == b * (2 * p)
  {
  }

  lemma {:induction false} AndZero(x: int)
    ensures And(x, 0) == 0
    decreases if x < 0 then -x else x
  {
    if x != 0 && x != -1 {
      AndZero(x / 2);
    }
  }

  /** One more binary digit of an and. */
  lemma AndStep(x: int, y: int)
    ensures And(x, y) == 2 * And(x / 2, y / 2) + (if x % 2 == 1 && y % 2 == 1 then 1 else 0)
  {
    if x == -1 {
      assert x / 2 == -1;
    }
  }

  lemma AndOnesStep(x: int, p: int)
    requires p >= 1 && And(x / 2, p - 1) == (x / 2) % p
    ensures And(x, 2 * p - 1) == x % (2 * p)
  {
    LowBit(x, p);
    AndStep(x, 2 * p - 1);
    assert (2 * p - 1) / 2 == p - 1 && (2 * p - 1) % 2 == 1;
  }

  /** Masking with k ones is the remainder by 2^k. */
  lemma {:induction false} AndOnes(x: int, k: nat)
    ensures And(x, Pow2(k) - 1) == x % Pow2(k)
    decreases k
  {
    if k == 0 {
      AndZero(x);
    } else {
      AndOnes(x / 2, k - 1);
      AndOnesStep(x, Pow2(k - 1));
    }
  }

  lemma AndBitStep(x: int, p: int, b: int)
    requires p >= 1 && b == ((x / 2) / p) % 2 && And(x / 2, p) == p * b
    ensures And(x, 2 * p) == 2 * p * b && (x / (2 * p)) % 2 == b
  {
    LowBit(x, p);
    AndStep(x, 2 * p);
    assert (2 * p) / 2 == p && (2 * p) % 2 == 0;
    Doubled(p, b);
  }

  /** Masking with one bit. */
  lemma {:induction false} AndBit(x: int, k: nat)
    ensures And(x, Pow2(k)) == Pow2(k) * ((x / Pow2(k)) % 2)
    decreases k
  {
    if k == 0 {
      AndStep(x, 1);
      AndZero(x / 2);
    } else {
      AndBit(x / 2, k - 1);
      AndBitStep(x, Pow2(k - 1), ((x / 2) / Pow2(k - 1)) % 2);
    }
  }

  /** One more binary digit of an or. */
  lemma OrStep(x: int, y: int)
    ensures Or(x, y) == 2 * Or(x / 2, y / 2) + (if x % 2 == 1 || y % 2 == 1 then 1 else 0)
  {
    if x == -1 {
      assert x / 2 == -1;
    }
  }

  /** Numbers without a common bit: or is addition. */
  lemma {:induction false} OrIsSum(x: int, y: int, k: nat)
    requires 0 <= x < Pow2(k)
    ensures Or(x, y * Pow2(k)) == x + y * Pow2(k)
    decreases k
  {
    if x != 0 {
      assert y * Pow2(k) == 2 * (y * Pow2(k - 1));
      OrIsSum(x / 2, y, k - 1);
    }
  }

  lemma {:induction false} OrZero(x: int)
    ensures Or(x, 0) == x
    decreases if x < 0 then -x else x
  {
    if x != 0 && x != -1 {
      OrZero(x / 2);
    }
  }

  lemma OrHighStep(z: int, x: int)
    requires Or(z, x / 2) == z + x / 2
    ensures Or(2 * z, x) == 2 * z + x
  {
    OrStep(2 * z, x);
    assert (2 * z) / 2 == z && (2 * z) % 2 == 0;
  }

  lemma {:induction false} OrIsSumHighFirst(x: int, y: int, k: nat)
    requires 0 <= x < Pow2(k)
    ensures Or(y * Pow2(k), x) == y * Pow2(k) + x
    decreases k
  {
    if k == 0 {
      OrZero(y);
    } else {
      OrIsSumHighFirst(x / 2, y, k - 1);
      OrHighStep(y * Pow2(k - 1), x);
      Doubled(Pow2(k - 1), y);
    }
  }

  lemma {:induction false} OrMinusOne(x: int)
    ensures Or(x, -1) == -1
    decreases if x < 0 then -x else x
  {
    if x != 0 && x != -1 {
      OrMinusOne(x / 2);
    }
  }

  lemma OrHighOnesStep(x: int, p: int)
    requires p >= 1 && Or(x / 2, 0 - p) == (x / 2) % p - p
    ensures Or(x, 0 - 2 * p) == x % (2 * p) - 2 * p
  {
    LowBit(x, p);
    assert (0 - 2 * p) / 2 == 0 - p && (0 - 2 * p) % 2 == 0;
  }

  /** Setting all bits from the k-th on. */
  lemma {:induction false} OrHighOnes(x: int, k: nat)
    ensures Or(x, 0 - Pow2(k)) == x % Pow2(k) - Pow2(k)
    decreases k
  {
    if k == 0 {
      OrMinusOne(x);
    } else {
      OrHighOnes(x / 2, k - 1);
      OrHighOnesStep(x, Pow2(k - 1));
    }
  }
}
