/** Amounts are integers in units of 1e-8; exact intermediate results are reals in the same unit. */
module Decimals {
  /** One, in units of 1e-8. */
  const UNIT: int := 1_0000_0000

  /** decimal8, and ROUND(x, 8) in a workbook: to the nearest unit, ties away from zero. */
  function Round(x: real): int {
    if x >= 0.0 then (x + 0.5).Floor else -((0.5 - x).Floor)
  }

  /** Half way between two units. */
  predicate Tie(x: real) {
    (x - 0.5).Floor as real == x - 0.5
  }

  lemma FloorIs(x: real, n: int)
    requires n as real <= x < n as real + 1.0
    ensures x.Floor == n
  {
  }

  /** Round is within half a unit, and is the only integer that is, ties aside. */
  lemma RoundIsNearest(x: real, n: int)
    ensures -0.5 <= Round(x) as real - x <= 0.5
    ensures -0.5 < n as real - x < 0.5 ==> Round(x) == n
    ensures Tie(x) ==> Round(x) as real - x == (if x >= 0.0 then 0.5 else -0.5)
    ensures !Tie(x) ==> -0.5 < Round(x) as real - x < 0.5
  {
    var f := (x + 0.5).Floor;
    assert f as real <= x + 0.5 < f as real + 1.0;
    var g := (0.5 - x).Floor;
    assert g as real <= 0.5 - x < g as real + 1.0;
    if Round(x) as real - x == 0.5 {
      FloorIs(x - 0.5, Round(x) - 1);
    }
    if Round(x) as real - x == -0.5 {
      FloorIs(x - 0.5, Round(x));
    }
    if Tie(x) {
      var k := (x - 0.5).Floor;
      if x >= 0.0 { FloorIs(x + 0.5, k + 1); } else { FloorIs(0.5 - x, -k); }
    }
  }

  lemma RoundOfAmount(n: int)
    ensures Round(n as real) == n
  {
    RoundIsNearest(n as real, n);
  }

  lemma RoundIsMonotone(x: real, y: real)
    requires x <= y
    ensures Round(x) <= Round(y)
  {
    RoundIsNearest(x, Round(y));
    RoundIsNearest(y, Round(x));
  }

  /** How far rounding the two parts of an amount misses the amount: only when both parts are ties of the
      same sign, and then by one unit. */
  function SplitError(n: int, x: real): int {
    if Tie(x) && x > 0.0 && n as real > x then 1
    else if Tie(x) && x < 0.0 && n as real < x then -1
    else 0
  }

  lemma RoundOfParts(n: int, x: real)
    ensures Round(x) + Round(n as real - x) == n + SplitError(n, x)
  {
    var y := n as real - x;
    RoundIsNearest(x, 0);
    RoundIsNearest(y, 0);
    if Tie(x) {
      FloorIs(y - 0.5, n - (x - 0.5).Floor - 1);
    } else if Tie(y) {
      FloorIs(x - 0.5, n - (y - 0.5).Floor - 1);
    }
  }

  /** An error of at most half the bound, in whole numbers. */
  predicate WithinHalf(error: int, bound: int) {
    -bound <= 2 * error <= bound
  }

  /** Rounding a fraction is off by at most half its denominator. */
  lemma RoundOfFraction(x: real, numerator: int, denominator: int)
    requires denominator > 0 && x * denominator as real == numerator as real
    ensures WithinHalf(Round(x) * denominator - numerator, denominator)
  {
    hide Round, WithinHalf;
    RoundIsNearest(x, 0);
    HalfUnits(Round(x) as real, x, numerator as real, denominator as real);
    WithinHalfByReals(Round(x), numerator, denominator);
  }

  lemma HalfUnits(rounded: real, exact: real, product: real, y: real)
    requires -0.5 <= rounded - exact <= 0.5 && y > 0.0 && exact * y == product
    ensures -y <= 2.0 * (rounded * y - product) <= y
  {
    var gap := rounded - exact;
    var part := gap * y;
    Bounded(gap, y);
    assert rounded * y == product + part by { assert rounded == exact + gap; Distributes(exact, gap, y); }
  }

  lemma WithinHalfByReals(rounded: int, numerator: int, denominator: int)
    requires -(denominator as real) <= 2.0 * (rounded as real * denominator as real - numerator as real)
             <= denominator as real
    ensures WithinHalf(rounded * denominator - numerator, denominator)
  {
    assert (rounded * denominator) as real == rounded as real * denominator as real;
  }

  lemma Bounded(gap: real, y: real)
    requires -0.5 <= gap <= 0.5 && y > 0.0
    ensures -0.5 * y <= gap * y <= 0.5 * y
  {
    assert (0.5 - gap) * y >= 0.0 && (gap + 0.5) * y >= 0.0;
  }

  lemma Distributes(a: real, b: real, y: real)
    ensures (a + b) * y == a * y + b * y
  {
  }

  /** The product of an amount and a rate in units of 1e-8, in units of 1e-16. */
  lemma ShareTimesUnit(amount: int, rate: int)
    ensures amount as real * (rate as real / UNIT as real) * UNIT as real == (amount * rate) as real
  {
    var share := rate as real / UNIT as real;
    assert share * UNIT as real == rate as real;
    Regroup(amount as real, share, UNIT as real, rate as real);
    assert (amount * rate) as real == amount as real * rate as real;
  }

  lemma Regroup(a: real, b: real, c: real, product: real)
    requires b * c == product
    ensures a * b * c == a * product
  {
    assert a * b * c == a * (b * c);
  }
}
