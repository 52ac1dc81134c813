/** Facts about quotient, remainder and powers that the solver does not find alone. */
module Arith {

  lemma MulMonotone(a: int, x: int, y: int)
    requires 0 <= a && x <= y
    ensures a * x <= a * y
  {
  }

  /** Quotient and remainder are determined by n == b * q + r with 0 <= r < b. */
  lemma DivModUnique(n: int, b: int, q: int, r: int)
    requires 0 < b && 0 <= r < b && n == b * q + r
    ensures n / b == q && n % b == r
  {
    var q', r' := n / b, n % b;
    assert n == b * q' + r';
    assert b * (q - q') == r' - r;
    if q - q' >= 1 {
      MulMonotone(b, 1, q - q');
      assert false;
    }
    if q - q' <= -1 {
      MulMonotone(b, q - q', -1);
      assert false;
    }
  }

  lemma DivModStep(n: int, b: int)
    requires 0 < b
    ensures n % b == b - 1 ==> (n + 1) / b == n / b + 1 && (n + 1) % b == 0
    ensures n % b != b - 1 ==> (n + 1) / b == n / b && (n + 1) % b == n % b + 1
  {
    var q, r := n / b, n % b;
    assert n == b * q + r;
    if r == b - 1 {
      assert n + 1 == b * (q + 1) + 0;
      DivModUnique(n + 1, b, q + 1, 0);
    } else {
      assert n + 1 == b * q + (r + 1);
      DivModUnique(n + 1, b, q, r + 1);
    }
  }

  lemma DivMonotone(x: int, y: int, b: int)
    requires 0 < b && x <= y
    ensures x / b <= y / b
  {
    var qx, rx, qy, ry := x / b, x % b, y / b, y % b;
    assert x == b * qx + rx && y == b * qy + ry;
    if qx > qy {
      MulMonotone(b, qy + 1, qx);
      assert false;
    }
  }
}
