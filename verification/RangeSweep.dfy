/** The working-set sizes of the latency sweep: from 4 kByte up, with a step that doubles at
    every power of two. */
module RangeSweep {
  import opened PyInt
  import Arith

  /** The test for a power of two: only its highest bit differs from its predecessor's. */
  predicate IsPow2(n: int) {
    n != 0 && And(n, n - 1) == 0
  }

  lemma {:induction false} AndSelf(x: int)
    ensures And(x, x) == x
    decreases if x < 0 then -x else x
  {
    if x != 0 && x != -1 {
      AndSelf(x / 2);
    }
  }

  lemma EvenPow2(m: int)
    ensures IsPow2(2 * m) <==> IsPow2(m)
  {
    AndStep(2 * m, 2 * m - 1);
    assert (2 * m) / 2 == m && (2 * m - 1) / 2 == m - 1 && (2 * m) % 2 == 0;
  }

  lemma OddPow2(n: int)
    requires n % 2 == 1
    ensures IsPow2(n) <==> n == 1
  {
    AndStep(n, n - 1);
    assert (n - 1) / 2 == n / 2 && (n - 1) % 2 == 0;
    AndSelf(n / 2);
  }

  lemma {:induction false} PowersPass(k: nat)
    ensures IsPow2(Pow2(k))
  {
    if k == 0 {
      OddPow2(1);
    } else {
      PowersPass(k - 1);
      EvenPow2(Pow2(k - 1));
    }
  }

  lemma {:induction false} OnlyPowersPass(n: int) returns (k: nat)
    requires IsPow2(n)
    ensures n == Pow2(k)
    decreases if n < 0 then -n else n
  {
    if n % 2 == 1 {
      OddPow2(n);
      k := 0;
    } else {
      assert n == 2 * (n / 2);
      EvenPow2(n / 2);
      k := OnlyPowersPass(n / 2);
      k := k + 1;
    }
  }

  /** The bit trick is exact, on all integers. */
  lemma IsPow2Iff(n: int)
    ensures IsPow2(n) <==> exists k :: n == Pow2(k)
  {
    if IsPow2(n) {
      var k := OnlyPowersPass(n);
    }
    if k :| n == Pow2(k) {
      PowersPass(k);
    }
  }

  lemma {:induction false} TimesPower(c: int, k: nat)
    ensures IsPow2(c * Pow2(k)) <==> IsPow2(c)
  {
    if k > 0 {
      TimesPower(c, k - 1);
      EvenPow2(c * Pow2(k - 1));
      Doubled(Pow2(k - 1), c);
    }
  }

  /** The closed form: four sizes between one power of two and the next. */
  function Size(i: nat): nat {
    (4 + i % 4) * Pow2(10 + i / 4)
  }

  function Step(i: nat): nat {
    Pow2(10 + i / 4)
  }

  lemma NextSize(i: nat)
    ensures Size(i + 1) == Size(i) + Step(i)
    ensures IsPow2(Size(i + 1)) <==> i % 4 == 3
    ensures Step(i + 1) == if i % 4 == 3 then 2 * Step(i) else Step(i)
  {
    var q := 10 + i / 4;
    Arith.DivModStep(i, 4);
    SmallPow2(4 + (i + 1) % 4);
    TimesPower(4 + (i + 1) % 4, 10 + (i + 1) / 4);
    OneStep(4 + i % 4, Pow2(q));
    assert 4 * (2 * Pow2(q)) == 8 * Pow2(q);
  }

  lemma OneStep(c: nat, p: nat)
    ensures (c + 1) * p == c * p + p
  {
  }

  lemma SmallPow2(c: nat)
    requires 4 <= c <= 7
    ensures IsPow2(c) <==> c == 4
  {
    OddPow2(1);
    OddPow2(3);
    OddPow2(5);
    OddPow2(7);
    EvenPow2(1);
    EvenPow2(2);
    EvenPow2(3);
  }

  lemma FirstSize()
    ensures Size(0) == 4096 && Step(0) == 1024
  {
    assert Pow2(10) == 1024;
  }

  /** The sizes so far, and the step to the next one. */
  ghost predicate Sweeping(ranges: seq<nat>, step: nat, max: int) {
    && |ranges| >= 1 && step == Step(|ranges| - 1)
    && (forall i | 0 <= i < |ranges| :: ranges[i] == Size(i))
    && forall i | 0 <= i < |ranges| - 1 :: ranges[i] < max
  }

  lemma SweepStep(ranges: seq<nat>, step: nat, max: int)
    requires Sweeping(ranges, step, max) && ranges[|ranges| - 1] < max
    ensures var next := ranges[|ranges| - 1] + step;
            Sweeping(ranges + [next], if IsPow2(next) then step * 2 else step, max)
    ensures step > 0
  {
    NextSize(|ranges| - 1);
  }

  /** The sizes follow the closed form, all but the last are below the maximum, and the last
      one reaches it. */
  method Ranges(max: int) returns (ranges: seq<nat>)
    ensures |ranges| >= 1 && forall i | 0 <= i < |ranges| :: ranges[i] == Size(i)
    ensures forall i | 0 <= i < |ranges| - 1 :: ranges[i] < max
    ensures ranges[|ranges| - 1] >= max
  {
    FirstSize();
    ranges := [4096];
    var step := 1024;
    while ranges[|ranges| - 1] < max
      invariant Sweeping(ranges, step, max)
      decreases max - ranges[|ranges| - 1]
    {
      SweepStep(ranges, step, max);
      var next := ranges[|ranges| - 1] + step;
      if IsPow2(next) {
        step := step * 2;
      }
      ranges := ranges + [next];
    }
  }

  lemma {:induction false} SizesGrow(i: nat, j: nat)
    requires i < j
    ensures Size(i) < Size(j)
    decreases j
  {
    NextSize(j - 1);
    if i < j - 1 {
      SizesGrow(i, j - 1);
    }
  }

  lemma EveryFourth(m: nat)
    ensures Size(4 * m) == Pow2(m + 12)
  {
    assert (4 * m) % 4 == 0 && (4 * m) / 4 == m;
    assert Pow2(m + 12) == 2 * Pow2(m + 11) == 4 * Pow2(m + 10);
  }

  /** Every power of two from 4096 up to the last size is one of the sizes. */
  lemma PowersAppear(n: nat, k: nat)
    requires k >= 12 && Pow2(k) <= Size(n)
    ensures 4 * (k - 12) <= n && Size(4 * (k - 12)) == Pow2(k)
  {
    EveryFourth(k - 12);
    if n < 4 * (k - 12) {
      SizesGrow(n, 4 * (k - 12));
    }
  }
}
