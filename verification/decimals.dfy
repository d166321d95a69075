/** Decimal texts as sequences of digits. */
module Decimals {
  type Digit = d: int | 0 <= d <= 9

  // The number a decimal text stands for.
  function Value(ds: seq<Digit>): nat {
    if ds == [] then 0 else Value(ds[..|ds| - 1]) * 10 + ds[|ds| - 1]
  }

  // The decimal text of a number.
  function Digits(n: nat): (ds: seq<Digit>)
    ensures ds != []
  {
    if n < 10 then [n] else Digits(n / 10) + [n % 10]
  }

  // padStart(2, "0").
  function PadTwo(n: nat): seq<Digit> {
    if |Digits(n)| < 2 then [0] + Digits(n) else Digits(n)
  }

  lemma {:induction false} ValueDigits(n: nat)
    ensures Value(Digits(n)) == n && (n > 0 ==> Digits(n)[0] != 0)
  {
    if n >= 10 { ValueDigits(n / 10); }
  }

  // A text without a leading zero is the text of its number.
  lemma {:induction false} DigitsValue(ds: seq<Digit>)
    requires ds != [] && ds[0] != 0
    ensures Value(ds) > 0 && Digits(Value(ds)) == ds
    decreases |ds|
  {
    if |ds| == 1 {
      assert Value(ds[..0]) == 0;
    } else {
      DigitsValue(ds[..|ds| - 1]);
      assert Value(ds) / 10 == Value(ds[..|ds| - 1]) && Value(ds) % 10 == ds[|ds| - 1];
    }
  }

  // Appending a number below 100 in two digits.
  lemma {:induction false} AppendTwo(ds: seq<Digit>, k: nat)
    requires k < 100
    ensures Value(ds + PadTwo(k)) == Value(ds) * 100 + k
  {
    var all := ds + PadTwo(k);
    if k >= 10 { assert Digits(k) == Digits(k / 10) + [k % 10] == [k / 10, k % 10]; }
    assert PadTwo(k) == [k / 10, k % 10];
    assert all[..|all| - 1] == ds + [k / 10];
    assert (ds + [k / 10])[..|ds|] == ds;
    assert Value(ds + [k / 10]) == Value(ds) * 10 + k / 10;
  }

  lemma {:induction false} AppendOne(ds: seq<Digit>, d: Digit)
    ensures Value(ds + [d]) == Value(ds) * 10 + d
  {
  }

  lemma {:induction false} ValueOfFour(ds: seq<Digit>)
    requires |ds| == 4
    ensures var a: int, b: int, c: int, d: int := ds[0], ds[1], ds[2], ds[3];
      Value(ds) == a * 1000 + b * 100 + c * 10 + d < 10_000
  {
    assert Value(ds[..0]) == 0;
    assert ds[..1][..0] == ds[..0] && ds[..2][..1] == ds[..1] && ds[..3][..2] == ds[..2];
    assert Value(ds[..1]) == ds[0];
    assert Value(ds[..2]) == Value(ds[..1]) * 10 + ds[1];
    assert Value(ds[..3]) == Value(ds[..2]) * 10 + ds[2];
  }
}
