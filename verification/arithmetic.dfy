/** Facts about products and floor division by a positive number. */
module Arithmetic {
  lemma {:induction false} MulOrder(a: int, b: int, d: int)
    requires 0 < d
    ensures a <= b <==> a * d <= b * d
    ensures a < b <==> a * d < b * d
  {
  }

  lemma {:induction false} DivFloor(a: int, d: int)
    requires 0 < d
    ensures a == (a / d) * d + a % d && 0 <= a % d < d
  {
  }

  // q is the quotient when q * d is the last multiple not above a.
  lemma {:induction false} DivUnique(a: int, d: int, q: int)
    requires 0 < d && q * d <= a < (q + 1) * d
    ensures a / d == q
  {
    DivFloor(a, d);
    MulOrder(a / d, q + 1, d);
    MulOrder(q, a / d + 1, d);
  }

  // Being at most the quotient is being a multiple not above a.
  lemma {:induction false} DivBound(a: int, d: int, q: int)
    requires 0 < d
    ensures q <= a / d <==> q * d <= a
  {
    DivFloor(a, d);
    MulOrder(q, a / d, d);
    MulOrder(a / d + 1, q, d);
  }

  lemma {:induction false} MultipleMod(k: int, d: int)
    requires 0 < d
    ensures (k * d) % d == 0
  {
    DivUnique(k * d, d, k);
    DivFloor(k * d, d);
  }

  // The quotient grows at the multiples.
  lemma {:induction false} DivStep(a: int, d: int)
    requires 0 < d
    ensures (a + 1) / d == a / d + (if (a + 1) % d == 0 then 1 else 0)
  {
    DivFloor(a + 1, d);
    if (a + 1) % d == 0 {
      DivUnique(a, d, (a + 1) / d - 1);
    } else {
      DivUnique(a, d, (a + 1) / d);
    }
  }

  lemma {:induction false} ModShift(a: int, d: int, k: int)
    requires 0 < d
    ensures (a - k * d) % d == a % d
  {
    DivFloor(a, d);
    DivUnique(a - k * d, d, a / d - k);
    DivFloor(a - k * d, d);
  }

  lemma {:induction false} MultipleSum(a: int, b: int, d: int)
    requires 0 < d && a % d == 0 && b % d == 0
    ensures (a + b) % d == 0
  {
    var p, q := a / d, b / d;
    assert a == p * d by { DivFloor(a, d); }
    assert b == q * d by { DivFloor(b, d); }
    assert a + b == (p + q) * d;
    MultipleMod(p + q, d);
  }
}
