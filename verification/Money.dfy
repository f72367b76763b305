/** Exact decimal amounts and their rounding to cents (libs/domain/accounting/domain/src/value-objects/money.vo.ts;
    the two-place `toFixed` of decimal numbers and of JavaScript numbers, both half away from zero). */
module Money {

  /** A decimal keeps its sign even at zero. */
  datatype Decimal = Decimal(negative: bool, magnitude: real) {
    function Value(): real {
      if negative then -magnitude else magnitude
    }
  }

  function RoundCents(x: real): int {
    if x >= 0.0 then (x * 100.0 + 0.5).Floor else -((-x * 100.0 + 0.5).Floor)
  }

  function Cents(n: int): real {
    n as real / 100.0
  }

  /** The two-place text: it keeps the minus sign of whatever was below zero, also of what rounds to zero. */
  function ToFixed(x: real): Decimal {
    Decimal(x < 0.0, if x < 0.0 then Cents(-RoundCents(x)) else Cents(RoundCents(x)))
  }

  predicate IsWhole(x: real) {
    x * 100.0 == (x * 100.0).Floor as real
  }

  /** What is left of `x` below the cent, in cents. */
  function Fraction(x: real): real {
    x * 100.0 - (x * 100.0).Floor as real
  }

  lemma FloorIs(x: real, n: int)
    requires n as real <= x < n as real + 1.0
    ensures x.Floor == n
  {}

  /** Rounding picks the nearest cent, and of two the one farther from zero. */
  lemma RoundsToNearest(x: real, n: int)
    ensures RoundCents(x) == n <==>
            (if x >= 0.0 then -0.5 <= x * 100.0 - n as real < 0.5 else -0.5 < x * 100.0 - n as real <= 0.5)
  {}

  lemma RoundOfCents(n: int)
    ensures RoundCents(Cents(n)) == n
  {
    RoundsToNearest(Cents(n), n);
  }

  lemma RoundIsMonotone(x: real, y: real)
    requires x <= y
    ensures RoundCents(x) <= RoundCents(y)
  {
    RoundsToNearest(x, RoundCents(x));
    RoundsToNearest(y, RoundCents(y));
  }

  lemma ToFixedIsNearest(x: real)
    ensures ToFixed(x).Value() == Cents(RoundCents(x)) && ToFixed(x).magnitude >= 0.0
  {
    RoundsToNearest(x, RoundCents(x));
  }

  /** A sum and its rounded parts are never more than a cent apart. */
  lemma SumOffByACent(x: real, y: real)
    ensures -1 <= RoundCents(x + y) - RoundCents(x) - RoundCents(y) <= 1
  {}

  /** When two fractions of a cent disagree with their sum about rounding. */
  predicate FractionsClash(x: real, y: real) {
    var f, g := Fraction(x), Fraction(y);
    (f < 0.5 && g < 0.5 && f + g >= 0.5) || (f >= 0.5 && g >= 0.5 && f + g < 1.5)
  }

  lemma RoundByFraction(x: real)
    requires x >= 0.0
    ensures RoundCents(x) == (x * 100.0).Floor + if Fraction(x) >= 0.5 then 1 else 0
  {
    RoundsToNearest(x, (x * 100.0).Floor + if Fraction(x) >= 0.5 then 1 else 0);
  }

  /** Amounts round like their sum exactly when their fractions of a cent do not clash. */
  lemma RoundedSumIff(x: real, y: real)
    requires x >= 0.0 && y >= 0.0
    ensures RoundCents(x + y) == RoundCents(x) + RoundCents(y) <==> !FractionsClash(x, y)
  {
    var f, g, a, b := Fraction(x), Fraction(y), (x * 100.0).Floor, (y * 100.0).Floor;
    RoundByFraction(x);
    RoundByFraction(y);
    var carry := if f + g < 0.5 then 0 else if f + g < 1.5 then 1 else 2;
    RoundsToNearest(x + y, a + b + carry);
    assert (x + y) * 100.0 == a as real + b as real + f + g;
  }

  lemma WholeCentsNeverClash(x: real, y: real)
    requires x >= 0.0 && y >= 0.0 && (IsWhole(x) || IsWhole(y))
    ensures RoundCents(x + y) == RoundCents(x) + RoundCents(y)
  {
    RoundedSumIff(x, y);
  }
}
