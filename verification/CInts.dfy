/** Integer division as C defines it. */
module CInts {

  function Abs(a: int): nat { if a >= 0 then a else -a }

  /** Truncates toward zero. */
  function Quotient(a: int, b: int): int
    requires b != 0
  {
    if (a >= 0) == (b > 0) then Abs(a) / Abs(b) else -(Abs(a) / Abs(b))
  }

  /** Takes the sign of the dividend. */
  function Remainder(a: int, b: int): int
    requires b != 0
  {
    a - b * Quotient(a, b)
  }

  /** Without negative numbers it is plain division. */
  lemma NaturalDivision(a: int, b: int)
    requires a >= 0 && b > 0
    ensures Quotient(a, b) == a / b && Remainder(a, b) == a % b
  {
    var q := a / b;
    assert Abs(a) == a && Abs(b) == b;
    assert Quotient(a, b) == q;
    hide Quotient, Abs;
    assert a == b * q + a % b;
  }

  lemma MulGap(a: int, x: int, y: int)
    requires a > 0 && x < y
    ensures a * x + a <= a * y
  {
    assert a * (y - x) == a * y - a * x;
    assert a * (y - x) >= a * 1 by { MulOrder(a, 1, y - x); }
  }

  lemma MulOrder(a: int, x: int, y: int)
    requires a > 0 && x <= y
    ensures a * x <= a * y
  {
  }

  /** There is only one way to divide with remainder. */
  lemma DivIs(n: int, b: int, q: int, r: int)
    requires b > 0 && n == b * q + r && 0 <= r < b
    ensures n / b == q && n % b == r
  {
    var p := n / b;
    assert n == b * p + n % b;
    if p < q { MulGap(b, p, q); }
    if q < p { MulGap(b, q, p); }
  }

  /** The defining property: the remainder is smaller than the divisor and has the dividend's sign. */
  lemma QuotientIs(a: int, b: int)
    requires b != 0
    ensures a == b * Quotient(a, b) + Remainder(a, b)
    ensures Abs(Remainder(a, b)) < Abs(b)
    ensures a >= 0 ==> Remainder(a, b) >= 0
    ensures a <= 0 ==> Remainder(a, b) <= 0
  {
    var x, y := Abs(a), Abs(b);
    var q: int := x / y;
    assert x == y * q + x % y;
    assert y * q == b * q || y * q == -(b * q);
    assert b * -q == -(b * q);
  }

  /** Adjusting a negative dividend first turns truncation into rounding down. */
  lemma FloorQuotient(a: int, b: int)
    requires b > 0
    ensures Quotient(if a >= 0 then a else a - (b - 1), b) == a / b
  {
    var q := a / b;
    assert a == b * q + a % b;
    if a < 0 {
      var n := -(a - (b - 1));
      assert n == b * -q + (b - 1 - a % b);
      DivIs(n, b, -q, b - 1 - a % b);
    }
  }
}
