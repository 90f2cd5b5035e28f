/**
 * Rounding of integer amounts (`applyBasisPoints`, `convertAmount`,
 * src/core/utils/money.js). Operators of the source that truncate toward zero
 * are written out.
 */
module Money {

  function Abs(x: int): nat { if x < 0 then -x else x }

  function Sign(x: int): int { if x > 0 then 1 else if x < 0 then -1 else 0 }

  /** `Math.trunc(a / n)`. */
  function Quotient(a: int, n: int): int
    requires n > 0
  {
    if a >= 0 then a / n else -(-a / n)
  }

  /** `a % n`: it takes the sign of `a`. */
  function Remainder(a: int, n: int): int
    requires n > 0
  {
    a - n * Quotient(a, n)
  }

  function ApplyBasisPoints(amount: int, basisPoints: int): int {
    var numerator := amount * basisPoints;
    var quotient := Quotient(numerator, 10000);
    var remainder := Remainder(numerator, 10000);
    if Abs(remainder) * 2 >= 10000 then quotient + Sign(numerator) else quotient
  }

  /** `scaled` is the rate in hundred-millionths. */
  function ConvertScaled(amount: int, scaled: nat): int {
    var rounded := (Abs(amount) * scaled + 50000000) / 100000000;
    if amount < 0 then -rounded else rounded
  }

  /** The rate rounded to 8 decimal places. */
  function Scaled(rate: real): nat
    requires rate >= 0.0
  {
    (rate * 100000000.0 + 0.5).Floor
  }

  function ConvertAmount(amount: int, rate: real): int
    requires rate >= 0.0
  {
    ConvertScaled(amount, Scaled(rate))
  }

  // ------------------------------------------------------- nearest integer

  /** Of the multiples of `d`, `x` is the one nearest to `n`; of two as near, the one farther from zero. */
  predicate Near(x: int, n: int, d: int) {
    2 * Abs(x - n) <= d && (2 * Abs(x - n) == d ==> Abs(x) > Abs(n))
  }

  /** `r` is n / d rounded to the nearest integer, halves away from zero. */
  predicate Nearest(r: int, n: int, d: int) { Near(r * d, n, d) }

  lemma AtLeast(k: int, least: int, d: int)
    requires d > 0 && k >= least
    ensures k * d >= least * d
  {
    assert (k - least) * d >= 0;
  }

  lemma Multiples(r: int, s: int, d: int)
    requires d > 0 && r > s
    ensures r * d >= s * d + d && (r * d == s * d + d ==> s * d >= 0 || r * d <= 0)
  {
    AtLeast(r, s + 1, d);
    if r == s + 1 {
      if s >= 0 { AtLeast(s, 0, d); } else { AtLeast(0, r, d); }
    } else {
      AtLeast(r, s + 2, d);
    }
  }

  lemma NearestIsMonotone(r: int, n: int, s: int, m: int, d: int)
    requires d > 0 && Nearest(r, n, d) && Nearest(s, m, d) && n <= m
    ensures r <= s
  {
    if r > s { Multiples(r, s, d); }
  }

  /** There is one such integer. */
  lemma OneNearest(r: int, s: int, n: int, d: int)
    requires d > 0 && Nearest(r, n, d) && Nearest(s, n, d)
    ensures r == s
  {
    NearestIsMonotone(r, n, s, n, d);
    NearestIsMonotone(s, n, r, n, d);
  }

  lemma AppliesNearest(amount: int, basisPoints: int)
    ensures forall r: int :: r == ApplyBasisPoints(amount, basisPoints) <==> Nearest(r, amount * basisPoints, 10000)
  {
    var n := amount * basisPoints;
    var r := ApplyBasisPoints(amount, basisPoints);
    NearestOf(n);
    forall s: int | Nearest(s, n, 10000) ensures s == r {
      OneNearest(s, r, n, 10000);
    }
  }

  lemma NearestOf(n: int)
    ensures var q, m := Quotient(n, 10000), Remainder(n, 10000);
      Nearest(if Abs(m) * 2 >= 10000 then q + Sign(n) else q, n, 10000)
  {
  }

  lemma ConvertsNearest(amount: int, scaled: nat)
    ensures forall r: int :: r == ConvertScaled(amount, scaled) <==> Nearest(r, amount * scaled, 100000000)
  {
    var n := amount * scaled;
    var r := ConvertScaled(amount, scaled);
    assert Abs(amount) * scaled == Abs(n);
    assert Nearest(r, n, 100000000);
    forall s: int | Nearest(s, n, 100000000) ensures s == r {
      OneNearest(s, r, n, 100000000);
    }
  }

  /** How far a converted amount can be from the amount times the rate: half a unit, and the rate's ninth decimal. */
  lemma ConversionError(amount: int, rate: real)
    requires rate >= 0.0
    ensures var error := ConvertAmount(amount, rate) as real - amount as real * rate;
      var most := 0.5 + Abs(amount) as real * 0.000000005;
      -most <= error <= most
  {
    var scaled := Scaled(rate);
    ConvertsNearest(amount, scaled);
    var r := ConvertAmount(amount, rate);
    var off := scaled as real - rate * 100000000.0;
    assert -0.5 <= off <= 0.5;
    assert 2 * Abs(r * 100000000 - amount * scaled) <= 100000000;
    var product := amount as real * off;
    assert -0.5 * Abs(amount) as real <= product <= 0.5 * Abs(amount) as real by { HalfTimes(amount, off); }
    assert (amount * scaled) as real == amount as real * scaled as real;
    assert amount as real * scaled as real == amount as real * (rate * 100000000.0) + product;
    assert amount as real * (rate * 100000000.0) == (amount as real * rate) * 100000000.0;
  }

  lemma HalfTimes(amount: int, off: real)
    requires -0.5 <= off <= 0.5
    ensures -0.5 * Abs(amount) as real <= amount as real * off <= 0.5 * Abs(amount) as real
  {
  }

  // ------------------------------------------------------------- symmetry

  lemma NearestIsOdd(r: int, n: int, d: int)
    requires Nearest(r, n, d)
    ensures Nearest(-r, -n, d)
  {
    assert (-r) * d == -(r * d);
  }

  /** A refund of an amount is the charge turned round. */
  lemma RoundingIsOdd(amount: int, basisPoints: int)
    ensures ApplyBasisPoints(-amount, basisPoints) == -ApplyBasisPoints(amount, basisPoints)
  {
    AppliesNearest(amount, basisPoints);
    AppliesNearest(-amount, basisPoints);
    NearestIsOdd(ApplyBasisPoints(amount, basisPoints), amount * basisPoints, 10000);
    assert (-amount) * basisPoints == -(amount * basisPoints);
  }

  lemma ConversionIsOdd(amount: int, rate: real)
    requires rate >= 0.0
    ensures ConvertAmount(-amount, rate) == -ConvertAmount(amount, rate)
  {
  }

  /** A larger amount never gets the smaller share. */
  lemma RoundingIsMonotone(amount: int, more: int, basisPoints: int)
    requires amount <= more && basisPoints >= 0
    ensures ApplyBasisPoints(amount, basisPoints) <= ApplyBasisPoints(more, basisPoints)
  {
    AppliesNearest(amount, basisPoints);
    AppliesNearest(more, basisPoints);
    assert (more - amount) * basisPoints >= 0;
    assert (more - amount) * basisPoints == more * basisPoints - amount * basisPoints;
    NearestIsMonotone(ApplyBasisPoints(amount, basisPoints), amount * basisPoints,
                      ApplyBasisPoints(more, basisPoints), more * basisPoints, 10000);
  }

  lemma ConversionIsMonotone(amount: int, more: int, rate: real)
    requires amount <= more && rate >= 0.0
    ensures ConvertAmount(amount, rate) <= ConvertAmount(more, rate)
  {
    var scaled := Scaled(rate);
    ConvertsNearest(amount, scaled);
    ConvertsNearest(more, scaled);
    assert (more - amount) * scaled >= 0;
    assert (more - amount) * scaled == more * scaled - amount * scaled;
    NearestIsMonotone(ConvertScaled(amount, scaled), amount * scaled, ConvertScaled(more, scaled), more * scaled, 100000000);
  }

  // ------------------------------------------------- splitting and summing

  /** What the two parts of an amount differ from it by: a unit when both round away from zero on an exact tie. */
  lemma SplitIsOffByATie(amount: int, basisPoints: int)
    ensures var first, second := amount * basisPoints, amount * (10000 - basisPoints);
      ApplyBasisPoints(amount, basisPoints) + ApplyBasisPoints(amount, 10000 - basisPoints) - amount ==
        if first % 10000 == 5000 && Sign(first) == Sign(second) then Sign(amount) else 0
  {
    var first, second := amount * basisPoints, amount * (10000 - basisPoints);
    assert second == 10000 * amount - first;
    var off := if first % 10000 == 5000 && Sign(first) == Sign(second) then Sign(amount) else 0;
    AppliesNearest(amount, basisPoints);
    AppliesNearest(amount, 10000 - basisPoints);
    OtherPart(ApplyBasisPoints(amount, basisPoints), first, amount, second, off);
  }

  lemma OtherPart(r: int, first: int, amount: int, second: int, off: int)
    requires Nearest(r, first, 10000) && second == 10000 * amount - first
    requires off == if first % 10000 == 5000 && Sign(first) == Sign(second) then Sign(amount) else 0
    ensures Nearest(amount - r + off, second, 10000)
  {
  }

  function Total(amounts: seq<int>): int {
    if amounts == [] then 0 else amounts[0] + Total(amounts[1..])
  }

  function TotalByLine(amounts: seq<int>, basisPoints: int): int {
    if amounts == [] then 0 else ApplyBasisPoints(amounts[0], basisPoints) + TotalByLine(amounts[1..], basisPoints)
  }

  lemma Distribute(a: int, b: int, c: int)
    ensures (a + b) * c == a * c + b * c
  {
  }

  lemma AddLine(r: int, n: int, rest: int, total: int, lines: nat)
    requires Nearest(r, n, 10000) && 2 * Abs(rest * 10000 - total) <= lines * 10000
    ensures 2 * Abs((r + rest) * 10000 - (n + total)) <= (lines + 1) * 10000
  {
  }

  lemma {:induction false} LinesNearTotal(amounts: seq<int>, basisPoints: int)
    ensures 2 * Abs(TotalByLine(amounts, basisPoints) * 10000 - Total(amounts) * basisPoints) <= |amounts| * 10000
  {
    if amounts != [] {
      LinesNearTotal(amounts[1..], basisPoints);
      AppliesNearest(amounts[0], basisPoints);
      Distribute(amounts[0], Total(amounts[1..]), basisPoints);
      AddLine(ApplyBasisPoints(amounts[0], basisPoints), amounts[0] * basisPoints,
              TotalByLine(amounts[1..], basisPoints), Total(amounts[1..]) * basisPoints, |amounts| - 1);
    }
  }

  /** Rounding line by line and rounding the total differ by (n + 1) / 2 at most, over n lines. */
  lemma LinesAgainstTotal(amounts: seq<int>, basisPoints: int)
    ensures 2 * Abs(TotalByLine(amounts, basisPoints) - ApplyBasisPoints(Total(amounts), basisPoints)) <= |amounts| + 1
  {
    LinesNearTotal(amounts, basisPoints);
    AppliesNearest(Total(amounts), basisPoints);
  }

  // ------------------------------------------------------- the division

  /**
   * Below 2^53 the quotient the source divides in floating point, within half a
   * unit in the last place of the true one (2^-14 below 2^40) and exact where
   * the true one is whole, is cut to the same integer.
   */
  lemma DivisionIsSafe(n: int, q: real)
    requires -9007199254740992 < n < 9007199254740992
    requires -1.0 / 16384.0 <= q - n as real / 10000.0 <= 1.0 / 16384.0
    requires n % 10000 == 0 ==> q == n as real / 10000.0
    ensures Quotient(n, 10000) == if q >= 0.0 then q.Floor else -(-q).Floor
  {
    var d, m := Quotient(n, 10000), Remainder(n, 10000);
    assert n == 10000 * d + m && -10000 < m < 10000;
    assert n as real / 10000.0 == d as real + m as real / 10000.0;
    if m == 0 {
      assert q == d as real;
    } else if n > 0 {
      assert 1 <= m <= 9999;
      assert d as real < q < d as real + 1.0;
      assert q.Floor == d;
    } else {
      assert -9999 <= m <= -1;
      assert d as real - 1.0 < q < d as real;
      assert (-q).Floor == -d;
    }
  }
}
