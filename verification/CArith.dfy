/** Integer division and remainder as C++ computes them: truncating toward zero,
    the remainder taking the sign of the dividend. */
module CArith {

  function Abs(x: int): nat {
    if x < 0 then -x else x
  }

  function CDiv(a: int, b: int): int
    requires b != 0
  {
    if a >= 0 then a / b else -((-a) / b)
  }

  function CMod(a: int, b: int): int
    requires b != 0
  {
    a - b * CDiv(a, b)
  }

  /** A total split into whole units and a rest: the rest is less than a unit and
      has the total's own direction. */
  ghost predicate Splits(total: int, unit: int, whole: int, rest: int) {
    && unit * whole + rest == total && Abs(rest) < Abs(unit)
    && (total >= 0 ==> rest >= 0) && (total <= 0 ==> rest <= 0)
  }

  const TWO_TO_THE_32 := 0x1_0000_0000

  /** A value cut to a signed 32-bit integer. */
  function Int32(x: int): (r: int)
    ensures -0x8000_0000 <= r < 0x8000_0000
  {
    (x + 0x8000_0000) % TWO_TO_THE_32 - 0x8000_0000
  }

  predicate Fits32(x: int) {
    -0x8000_0000 <= x < 0x8000_0000
  }

  // The cut changes nothing exactly on what fits, and forgets earlier cuts.
  lemma CutOnce(x: int, y: int)
    ensures Int32(x) == x <==> Fits32(x)
    ensures Int32(Int32(x) + y) == Int32(x + y)
    ensures Int32(Int32(x) - y) == Int32(x - y)
  {
    var k := (x + 0x8000_0000) / TWO_TO_THE_32;
    assert Int32(x) == x - TWO_TO_THE_32 * k;
    CutMultiple(x + y, k);
    CutMultiple(x - y, k);
  }

  lemma CutMultiple(x: int, k: int)
    ensures Int32(x - TWO_TO_THE_32 * k) == Int32(x)
  {
    var a, q := x + 0x8000_0000, (x + 0x8000_0000) / TWO_TO_THE_32;
    assert a - TWO_TO_THE_32 * k == TWO_TO_THE_32 * (q - k) + a % TWO_TO_THE_32;
  }

  lemma Euclid(a: nat, b: int)
    requires b != 0
    ensures 0 <= a - b * (a / b) < Abs(b) && (b > 0 ==> a / b >= 0)
  {
    assert a == b * (a / b) + a % b;
  }

  // Truncated division splits the dividend, and its quotient never has the opposite
  // sign for a positive divisor.
  lemma CDivMod(a: int, b: int)
    requires b != 0
    ensures Splits(a, b, CDiv(a, b), CMod(a, b)) && CDiv(-a, b) == -CDiv(a, b)
    ensures b > 0 && a >= 0 ==> CDiv(a, b) >= 0
    ensures b > 0 && a <= 0 ==> CDiv(a, b) <= 0
  {
    Euclid(Abs(a), b);
    assert a < 0 ==> b * CDiv(a, b) == -(b * (Abs(a) / b));
  }

  // A total splits in one way only.
  lemma SplitsOnce(total: int, unit: int, whole: int, rest: int, whole': int, rest': int)
    requires Splits(total, unit, whole, rest) && Splits(total, unit, whole', rest')
    ensures whole == whole' && rest == rest'
  {
    Subtract(unit, whole, whole');
    SmallMultiple(unit, whole - whole');
  }

  lemma Subtract(m: int, a: int, b: int)
    ensures m * (a - b) == m * a - m * b
  {
  }

  lemma SmallMultiple(d: int, e: int)
    requires Abs(d * e) < Abs(d)
    ensures e == 0
  {
    if d > 0 {
      MultipleApart(d, e);
    } else {
      assert d * e == -d * -e;
      MultipleApart(-d, -e);
    }
  }

  lemma MultipleApart(d: int, e: int)
    requires d > 0
    ensures e >= 1 ==> d * e >= d
    ensures e <= -1 ==> d * e <= -d
  {
  }

  lemma MultiplyMonotone(m: nat, a: nat, b: nat)
    requires a <= b
    ensures m * a <= m * b
  {
  }

  lemma DivideMonotone(a: nat, b: nat, d: nat)
    requires a <= b && d > 0
    ensures a / d <= b / d
  {
    assert a == d * (a / d) + a % d && b == d * (b / d) + b % d;
    var e := a / d - b / d;
    assert d * e == d * (a / d) - d * (b / d);
    MultipleApart(d, e);
  }

  lemma QuotientAtMost(a: nat, m: nat, d: nat)
    requires a <= m * d && d > 0
    ensures a / d <= m
  {
    assert a == d * (a / d) + a % d;
    var e := a / d - m;
    assert d * e == d * (a / d) - d * m;
    MultipleApart(d, e);
  }

  lemma SquareBound(d: int, m: int)
    requires -m <= d <= m
    ensures 0 <= d * d <= m * m
  {
    MultiplyMonotone(Abs(d), Abs(d), m);
    MultiplyMonotone(m, Abs(d), m);
    assert d * d == Abs(d) * Abs(d);
  }
}
