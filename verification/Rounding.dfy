// Rounding to a double (IEEE 754-2019, section 4.3.1, roundTiesToEven).
module Rounding {
  const MIN_EXPONENT: int := -1074
  const MAX_EXPONENT: int := 971
  const MAX_SIGNIFICAND: int := 0x20_0000_0000_0000
  const BINADE: int := 0x10_0000_0000_0000

  // Two to the power `e`.
  function Scale(e: int): (r: real)
    ensures r > 0.0
    decreases if e < 0 then -e else e
  {
    if e == 0 then 1.0 else if e > 0 then 2.0 * Scale(e - 1) else Scale(e + 1) / 2.0
  }

  // `a` steps of size `u`.
  function Times(a: real, u: real): real {
    a * u
  }

  // The finite doubles: a significand below 2^53 times a power of two.
  ghost predicate IsDoubleAt(d: real, significand: int, e: int) {
    && -MAX_SIGNIFICAND < significand < MAX_SIGNIFICAND
    && MIN_EXPONENT <= e <= MAX_EXPONENT
    && d == Times(significand as real, Scale(e))
  }

  ghost predicate IsDouble(d: real) {
    exists significand: int, e: int :: IsDoubleAt(d, significand, e)
  }

  // The doubles reach from the smallest step, 2^-1074, to the largest number, (2^53 - 1) * 2^971.
  lemma DoubleRange(d: real)
    ensures IsDouble(Scale(-1074)) && IsDouble(Times(9_007_199_254_740_991.0, Scale(971)))
    ensures IsDouble(d) ==>
      -Times(9_007_199_254_740_991.0, Scale(971)) <= d <= Times(9_007_199_254_740_991.0, Scale(971))
    ensures IsDouble(d) && d > 0.0 ==> d >= Scale(-1074)
  {
    assert IsDoubleAt(Scale(-1074), 1, -1074);
    assert IsDoubleAt(Times(9_007_199_254_740_991.0, Scale(971)), 9_007_199_254_740_991, 971);
    if IsDouble(d) {
      var significand, e :| IsDoubleAt(d, significand, e);
      DoubleIsInRange(d, significand, e);
    }
  }

  lemma DoubleIsInRange(d: real, significand: int, e: int)
    requires IsDoubleAt(d, significand, e)
    ensures -Times(9_007_199_254_740_991.0, Scale(971)) <= d <= Times(9_007_199_254_740_991.0, Scale(971))
    ensures d > 0.0 ==> d >= Scale(-1074)
  {
    assert -9_007_199_254_740_991 <= significand <= 9_007_199_254_740_991;
    ScaleGrows(e, 971);
    ScaleGrows(-1074, e);
    SignificandInRange(significand as real, 9_007_199_254_740_991.0, Scale(e), Scale(971));
    if significand >= 1 {
      Scaled(1.0, significand as real, Scale(e));
    } else {
      Scaled(significand as real, 0.0, Scale(e));
    }
  }

  lemma SignificandInRange(a: real, most: real, u: real, v: real)
    requires -most <= a <= most && 0.0 < u <= v
    ensures -Times(most, v) <= Times(a, u) <= Times(most, v)
  {
    Scaled(a, most, u);
    Scaled(-most, a, u);
    Scaled(u, v, most);
  }

  function Distance(a: real, b: real): real {
    if a < b then b - a else a - b
  }

  // No double is nearer to `x` than `d`.
  ghost predicate IsNearestDouble(x: real, d: real) {
    IsDouble(d) && forall other: real :: IsDouble(other) ==> Distance(x, d) <= Distance(x, other)
  }

  // Another double is equally near.
  ghost predicate IsTie(x: real, d: real) {
    exists other: real :: IsDouble(other) && other != d && Distance(x, other) == Distance(x, d)
  }

  // The significand of a double in its normal form is even: it has all 53 digits, or the smallest exponent.
  ghost predicate IsEven(d: real) {
    forall significand: int, e: int ::
      IsDoubleAt(d, significand, e) && IsNormalForm(significand, e) ==> significand % 2 == 0
  }

  predicate IsNormalForm(significand: int, e: int) {
    BINADE <= significand || significand <= -BINADE || e == MIN_EXPONENT
  }

  // roundTiesToEven
  ghost predicate IsRounded(x: real, d: real) {
    IsNearestDouble(x, d) && (IsTie(x, d) ==> IsEven(d))
  }

  // The nearest integer, and the even one of two that are equally near.
  function RoundHalfEven(x: real): (r: int)
    ensures Distance(x, r as real) <= 0.5
  {
    var low := x.Floor;
    var rest := x - low as real;
    if rest < 0.5 || (rest == 0.5 && low % 2 == 0) then low else low + 1
  }

  // The binade of a positive number.
  function Exponent(x: real): (e: int)
    requires x > 0.0
    ensures Scale(e) <= x < Scale(e + 1)
    decreases x < 1.0, if x < 1.0 then (1.0 / x).Floor else x.Floor
  {
    if x >= 2.0 then
      1 + Exponent(x / 2.0)
    else if x < 1.0 then
      HalvingShrinks(x);
      Exponent(2.0 * x) - 1
    else 0
  }

  lemma HalvingShrinks(x: real)
    requires 0.0 < x < 1.0
    ensures 2.0 * x < 1.0 ==> (1.0 / (2.0 * x)).Floor < (1.0 / x).Floor
  {
  }

  lemma QuotientIs(x: real, u: real, q: real)
    requires u != 0.0 && q * u == x
    ensures x / u == q
  {
  }

  // The spacing of the doubles around `x`.
  function UlpExponent(x: real): int
    requires x > 0.0
  {
    if Exponent(x) - 52 < MIN_EXPONENT then MIN_EXPONENT else Exponent(x) - 52
  }

  function Spacing(x: real): (u: real)
    requires x > 0.0
    ensures u > 0.0
  {
    Scale(UlpExponent(x))
  }

  // The number of spacings that `x` rounds to.
  function Steps(x: real): int
    requires x > 0.0
  {
    RoundHalfEven(x / Spacing(x))
  }

  function RoundToDouble(x: real): real
    requires x >= 0.0
  {
    if x == 0.0 then 0.0 else Times(Steps(x) as real, Spacing(x))
  }

  lemma {:induction false} ScaleAdds(a: int, b: nat)
    ensures Scale(a + b) == Times(Scale(b), Scale(a))
    decreases b
  {
    if b > 0 {
      ScaleAdds(a, b - 1);
      ScaleStep(a + b - 1);
      Associates(2.0, Scale(b - 1), Scale(a));
    }
  }

  lemma Associates(a: real, b: real, c: real)
    ensures Times(Times(a, b), c) == Times(a, Times(b, c))
  {
  }

  lemma ScaleStep(e: int)
    ensures Scale(e + 1) == 2.0 * Scale(e)
  {
  }

  lemma ScaleGrows(a: int, b: int)
    requires a <= b
    ensures Scale(a) <= Scale(b)
    decreases b - a
  {
    if a < b {
      ScaleGrows(a, b - 1);
      ScaleStep(b - 1);
    }
  }

  // The power of two as an integer.
  function Power(n: nat): (r: int)
    ensures r >= 1 && r as real == Scale(n)
  {
    if n == 0 then 1 else 2 * Power(n - 1)
  }

  // Rounding picks an integer that no other integer is nearer than.
  lemma RoundHalfEvenIsNearest(x: real, other: int)
    ensures Distance(x, RoundHalfEven(x) as real) <= Distance(x, other as real)
  {
    var low := x.Floor;
    if other <= low {
      assert other as real <= low as real;
    } else {
      assert other as real >= (low + 1) as real;
    }
  }

  lemma RoundHalfEvenIsMonotone(x: real, y: real)
    requires x <= y
    ensures RoundHalfEven(x) <= RoundHalfEven(y)
  {
  }

  lemma Scale52()
    ensures Scale(52) == 0x10_0000_0000_0000 as real && Scale(53) == MAX_SIGNIFICAND as real
  {
    assert Scale(13) == 8192.0;
    ScaleAdds(13, 13);
    ScaleAdds(26, 13);
    ScaleAdds(39, 13);
    ScaleStep(52);
  }

  lemma Scaled(a: real, b: real, u: real)
    requires a <= b && u >= 0.0
    ensures Times(a, u) <= Times(b, u)
  {
  }

  lemma TimesQuotient(x: real, u: real)
    requires u > 0.0
    ensures x == Times(x / u, u)
  {
  }

  // Rounding to a grid of spacing `u`: no grid point is nearer, and the error is at most half of `u`.
  lemma GridRounding(x: real, u: real, k: int, j: int)
    requires u > 0.0 && k == RoundHalfEven(x / u)
    ensures Distance(x, Times(k as real, u)) <= Distance(x, Times(j as real, u))
    ensures Distance(x, Times(k as real, u)) <= Times(0.5, u)
  {
    var y := x / u;
    TimesQuotient(x, u);
    DistanceScales(x, u, y, k as real);
    DistanceScales(x, u, y, j as real);
    RoundHalfEvenIsNearest(y, j);
    Scaled(Distance(y, k as real), Distance(y, j as real), u);
    Scaled(Distance(y, k as real), 0.5, u);
  }

  lemma DistanceScales(x: real, u: real, y: real, j: real)
    requires u > 0.0 && x == Times(y, u)
    ensures Distance(x, Times(j, u)) == Times(Distance(y, j), u)
  {
  }

  // The rounded number stays between the grid points around `x`.
  lemma GridOrder(x: real, u: real, k: int, j: int)
    requires u > 0.0 && k == RoundHalfEven(x / u)
    ensures Times(j as real, u) <= x ==> j <= k
    ensures x <= Times(j as real, u) ==> k <= j
  {
    QuotientOrder(x, Times(j as real, u), u);
    QuotientIs(Times(j as real, u), u, j as real);
    if Times(j as real, u) <= x {
      RoundHalfEvenIsMonotone(j as real, x / u);
    }
    if x <= Times(j as real, u) {
      RoundHalfEvenIsMonotone(x / u, j as real);
    }
  }

  lemma QuotientOrder(x: real, y: real, u: real)
    requires u > 0.0
    ensures x <= y ==> x / u <= y / u
    ensures y <= x ==> y / u <= x / u
  {
  }

  // A positive number is below 2^53 spacings, and at least 2^52 unless the spacing is the smallest one.
  lemma SignificandBounds(x: real)
    requires x > 0.0
    ensures x < Times(MAX_SIGNIFICAND as real, Spacing(x))
    ensures UlpExponent(x) > MIN_EXPONENT ==> x >= Times(BINADE as real, Spacing(x))
  {
    Scale52();
    var t := UlpExponent(x);
    ScaleAdds(t, 52);
    ScaleAdds(t, 53);
    ScaleGrows(Exponent(x) + 1, t + 53);
  }

  // The number of steps is at most 2^53, and at least 2^52 unless the spacing is the smallest one.
  lemma StepsBounds(x: real)
    requires x > 0.0
    ensures 0 <= Steps(x) <= MAX_SIGNIFICAND
    ensures UlpExponent(x) > MIN_EXPONENT ==> Steps(x) >= BINADE
  {
    SignificandBounds(x);
    GridOrder(x, Spacing(x), Steps(x), 0);
    GridOrder(x, Spacing(x), Steps(x), MAX_SIGNIFICAND);
    GridOrder(x, Spacing(x), Steps(x), BINADE);
  }

  // The rounded number is itself a double.
  lemma RoundedIsDouble(x: real)
    requires x > 0.0 && UlpExponent(x) < MAX_EXPONENT
    ensures IsDouble(RoundToDouble(x))
  {
    StepsBounds(x);
    var t := UlpExponent(x);
    if Steps(x) < MAX_SIGNIFICAND {
      assert IsDoubleAt(RoundToDouble(x), Steps(x), t);
    } else {
      ScaleStep(t);
      assert IsDoubleAt(RoundToDouble(x), BINADE, t + 1);
    }
  }

  // A double with a smaller exponent lies at or below 2^52 spacings.
  lemma SmallDoubleIsBelow(d: real, significand: int, e: int, t: int)
    requires IsDoubleAt(d, significand, e) && e < t
    ensures d <= Times(BINADE as real, Scale(t))
  {
    ScaleGrows(e, t - 1);
    ScaleStep(t - 1);
    Scaled(significand as real, MAX_SIGNIFICAND as real, Scale(e));
  }

  lemma LargeDoubleIsMultiple(d: real, significand: int, e: int, t: int)
    requires IsDoubleAt(d, significand, e) && e >= t
    ensures d == Times((significand * Power(e - t)) as real, Scale(t))
  {
    PowerSplits(t, e - t);
    Regroup(significand, Power(e - t), Scale(t), Scale(e));
  }

  lemma PowerSplits(t: int, n: nat)
    ensures Scale(t + n) == Times(Power(n) as real, Scale(t))
  {
    ScaleAdds(t, n);
  }

  lemma Regroup(a: int, b: int, u: real, v: real)
    requires v == Times(b as real, u)
    ensures Times(a as real, v) == Times((a * b) as real, u)
  {
  }

  // Rounding agrees with the definition of the standard: no double is nearer, and a tie goes to the even one.
  lemma RoundingIsNearest(x: real)
    requires x > 0.0 && UlpExponent(x) < MAX_EXPONENT
    ensures IsRounded(x, RoundToDouble(x))
  {
    RoundedIsDouble(x);
    forall other: real | IsDouble(other)
      ensures Distance(x, RoundToDouble(x)) <= Distance(x, other)
    {
      var significand, e :| IsDoubleAt(other, significand, e);
      OneDoubleIsNoNearer(x, other, significand, e);
    }
    if IsTie(x, RoundToDouble(x)) {
      var d := RoundToDouble(x);
      var other: real :| IsDouble(other) && other != d && Distance(x, other) == Distance(x, d);
      var significand, e :| IsDoubleAt(other, significand, e);
      TieHasEvenSteps(x, other, significand, e);
      EvenStepsAreEven(x);
    }
  }

  lemma OneDoubleIsNoNearer(x: real, other: real, significand: int, e: int)
    requires x > 0.0 && IsDoubleAt(other, significand, e)
    ensures Distance(x, RoundToDouble(x)) <= Distance(x, other)
  {
    var t := UlpExponent(x);
    if e >= t {
      LargeDoubleIsMultiple(other, significand, e, t);
      GridRounding(x, Spacing(x), Steps(x), significand * Power(e - t));
    } else {
      SmallDoubleIsBelow(other, significand, e, t);
      SignificandBounds(x);
      GridRounding(x, Spacing(x), Steps(x), BINADE);
    }
  }

  // Of two grid points that are equally near, rounding picks the even one.
  lemma GridTie(x: real, u: real, k: int, j: int)
    requires u > 0.0 && k == RoundHalfEven(x / u) && j != k
    requires Distance(x, Times(j as real, u)) == Distance(x, Times(k as real, u))
    ensures k % 2 == 0
  {
    var y := x / u;
    TimesQuotient(x, u);
    DistanceScales(x, u, y, k as real);
    DistanceScales(x, u, y, j as real);
    Cancels(Distance(y, k as real), Distance(y, j as real), u);
  }

  lemma Cancels(a: real, b: real, u: real)
    requires u > 0.0 && Times(a, u) == Times(b, u)
    ensures a == b
  {
  }

  lemma TieHasEvenSteps(x: real, other: real, significand: int, e: int)
    requires x > 0.0 && IsDoubleAt(other, significand, e) && other != RoundToDouble(x)
    requires Distance(x, other) == Distance(x, RoundToDouble(x))
    ensures Steps(x) % 2 == 0
  {
    var t := UlpExponent(x);
    if e >= t {
      LargeDoubleIsMultiple(other, significand, e, t);
      GridTie(x, Spacing(x), Steps(x), significand * Power(e - t));
    } else {
      SmallDoubleIsBelow(other, significand, e, t);
      SignificandBounds(x);
      GridRounding(x, Spacing(x), Steps(x), BINADE);
      GridTie(x, Spacing(x), Steps(x), BINADE);
    }
  }

  lemma EvenStepsAreEven(x: real)
    requires x > 0.0 && Steps(x) % 2 == 0
    ensures IsEven(RoundToDouble(x))
  {
    StepsBounds(x);
    forall significand: int, e: int
      | IsDoubleAt(RoundToDouble(x), significand, e) && IsNormalForm(significand, e)
      ensures significand % 2 == 0
    {
      EvenInNormalForm(Steps(x), UlpExponent(x), significand, e);
    }
  }

  // An even number of steps has an even significand in normal form.
  lemma EvenInNormalForm(k: int, t: int, significand: int, e: int)
    requires 0 <= k <= MAX_SIGNIFICAND && k % 2 == 0 && MIN_EXPONENT <= t
    requires IsDoubleAt(Times(k as real, Scale(t)), significand, e) && IsNormalForm(significand, e)
    ensures significand % 2 == 0
  {
    if e <= t {
      PowerSplits(e, t - e);
      Regroup(k, Power(t - e), Scale(e), Scale(t));
      Cancels(significand as real, (k * Power(t - e)) as real, Scale(e));
      EvenProduct(k, Power(t - e));
    } else {
      LargeDoubleIsMultiple(Times(k as real, Scale(t)), significand, e, t);
      Cancels(k as real, (significand * Power(e - t)) as real, Scale(t));
      FullProduct(k, significand, Power(e - t - 1));
    }
  }

  lemma EvenProduct(k: int, p: int)
    requires k % 2 == 0
    ensures (k * p) % 2 == 0
  {
    assert k * p == 2 * (k / 2 * p);
  }

  lemma FullProduct(k: int, significand: int, p: int)
    requires 0 <= k <= MAX_SIGNIFICAND && p >= 1 && k == significand * (2 * p)
    requires BINADE <= significand || significand <= -BINADE
    ensures significand == BINADE
  {
    ProductGrows(if significand < 0 then -significand else significand, p);
  }

  lemma ProductGrows(a: int, p: int)
    requires a >= 0 && p >= 1
    ensures a * (2 * p) >= 2 * a
  {
  }

  lemma NegatedIsDoubleAt(d: real, significand: int, e: int)
    requires IsDoubleAt(d, significand, e)
    ensures IsDoubleAt(-d, -significand, e)
  {
  }

  lemma NegatedIsDouble(d: real)
    requires IsDouble(d)
    ensures IsDouble(-d)
  {
    var significand, e :| IsDoubleAt(d, significand, e);
    NegatedIsDoubleAt(d, significand, e);
  }

  // Rounding is symmetric.
  lemma NegatedIsRounded(x: real, d: real)
    requires IsRounded(x, d)
    ensures IsRounded(-x, -d)
  {
    NegatedIsDouble(d);
    forall other: real | IsDouble(other)
      ensures Distance(-x, -d) <= Distance(-x, other)
    {
      NegatedIsDouble(other);
      assert Distance(x, d) <= Distance(x, -other);
    }
    if IsTie(-x, -d) {
      var other: real :| IsDouble(other) && other != -d && Distance(-x, other) == Distance(-x, -d);
      NegatedIsDouble(other);
      assert -other != d && Distance(x, -other) == Distance(x, d);
      forall significand: int, e: int | IsDoubleAt(-d, significand, e) && IsNormalForm(significand, e)
        ensures significand % 2 == 0
      {
        NegatedIsDoubleAt(-d, significand, e);
      }
    }
  }

  lemma ZeroIsRounded()
    ensures IsRounded(0.0, 0.0)
  {
    assert IsDoubleAt(0.0, 0, MIN_EXPONENT);
  }

  lemma ExponentIsMonotone(x: real, y: real)
    requires 0.0 < x <= y
    ensures Exponent(x) <= Exponent(y)
  {
    if Exponent(y) < Exponent(x) {
      ScaleGrows(Exponent(y) + 1, Exponent(x));
    }
  }

  lemma StepsAreMonotone(x: real, y: real)
    requires 0.0 < x <= y && UlpExponent(x) == UlpExponent(y)
    ensures Steps(x) <= Steps(y)
  {
    var u := Spacing(x);
    QuotientOrder(x, y, u);
    RoundHalfEvenIsMonotone(x / u, y / u);
  }

  lemma NextSpacing(s: int, t: int)
    requires s < t
    ensures Times(MAX_SIGNIFICAND as real, Scale(s)) <= Times(BINADE as real, Scale(t))
  {
    ScaleGrows(s + 1, t);
    ScaleStep(s);
  }

  lemma RoundingIsMonotone(x: real, y: real)
    requires 0.0 <= x <= y
    ensures 0.0 <= RoundToDouble(x) <= RoundToDouble(y)
  {
    if y > 0.0 {
      StepsBounds(y);
      Scaled(0.0, Steps(y) as real, Spacing(y));
    }
    if x > 0.0 {
      StepsBounds(x);
      Scaled(0.0, Steps(x) as real, Spacing(x));
      ExponentIsMonotone(x, y);
      if UlpExponent(x) == UlpExponent(y) {
        StepsAreMonotone(x, y);
        Scaled(Steps(x) as real, Steps(y) as real, Spacing(x));
      } else {
        Scaled(Steps(x) as real, MAX_SIGNIFICAND as real, Spacing(x));
        Scaled(BINADE as real, Steps(y) as real, Spacing(y));
        NextSpacing(UlpExponent(x), UlpExponent(y));
      }
    }
  }
}
