// src/number.rs: durations from JavaScript numbers. The rounded division by 1000 is followed by the conversion
// of seconds to the nearest nanosecond.
module Durations {
  import opened Prelude
  import opened Numbers
  import opened Rounding

  const NANOS_PER_SECOND: real := 1_000_000_000.0

  datatype DurationError = Negative | TooLarge

  // Division of a double by 1000, rounded once.
  function DivideBy1000(n: Number): Number {
    match n
    case NaN => NaN
    case Infinity(positive) => n
    case Finite(value) =>
      if value >= 0.0 then Finite(RoundToDouble(value / 1000.0))
      else Finite(-RoundToDouble(-value / 1000.0))
  }

  // Duration::try_from_secs_f64, as nanoseconds.
  function Seconds(n: Number): Result<nat, DurationError> {
    match n
    case NaN => Failure(TooLarge)
    case Infinity(positive) => Failure(if positive then TooLarge else Negative)
    case Finite(value) =>
      if value < 0.0 then Failure(Negative)
      else if value >= USIZE_LIMIT as real then Failure(TooLarge)
      else
        var nanos := RoundHalfEven(value * NANOS_PER_SECOND);
        assert nanos >= 0;
        Success(nanos)
  }

  function Milliseconds(n: Number): Result<nat, DurationError> {
    Seconds(DivideBy1000(n))
  }

  const NANOS_PER_MILLISECOND: int := 1_000_000

  // How far a number is from the nearest multiple of 1000.
  function OffThousand(n: nat): nat {
    var rest := n % 1000;
    if rest <= 500 then rest else 1000 - rest
  }

  // The condition for an exact duration. Below 2^53 seconds the doubles around the number of seconds are `Power(-e)`
  // to the second, and the count must be close enough to one of them. From there on a double is a whole number of
  // seconds, a multiple of `Power(e)`, and the count must be one.
  predicate IsExact(m: nat) {
    m == 0 ||
    var e := UlpExponent(m as real / 1000.0);
    if e <= 0 then 2_000_000 * OffThousand(m * Power(-e)) <= Power(-e)
    else m % (1000 * Power(e)) == 0 && m < 1000 * USIZE_LIMIT
  }

  lemma NearestEven(z: real, j: int)
    requires j % 2 == 0
    ensures RoundHalfEven(z) == j <==> Distance(z, j as real) <= 0.5
  {
  }

  // The nearest multiple of 1000 is as far as `OffThousand` says.
  lemma NearestThousand(n: nat)
    ensures var k := RoundHalfEven(n as real / 1000.0);
      OffThousand(n) == if 1000 * k < n then n - 1000 * k else 1000 * k - n
  {
    var low := n / 1000;
    assert (n as real / 1000.0).Floor == low;
  }

  lemma StepsPerSecond(e: int)
    requires e <= 0
    ensures Times(Power(-e) as real, Scale(e)) == 1.0
  {
    ScaleAdds(e, -e);
  }

  lemma CountInSteps(m: nat, e: int)
    requires e <= 0
    ensures m as real / 1000.0 / Scale(e) == (m * Power(-e)) as real / 1000.0
  {
    StepsPerSecond(e);
    Thousandth(m, Power(-e));
    DivideByInverse(m as real / 1000.0, Power(-e) as real, Scale(e));
  }

  lemma DivideByInverse(x: real, p: real, u: real)
    requires u > 0.0 && Times(p, u) == 1.0
    ensures x / u == Times(x, p)
  {
    Associates(x, p, u);
    QuotientIs(x, u, Times(x, p));
  }

  lemma Thousandth(m: int, p: int)
    ensures Times(m as real / 1000.0, p as real) == (m * p) as real / 1000.0
  {
    assert (m * p) as real == m as real * p as real;
  }

  // The error of `k` steps as a duration, in steps: a thousandth of the distance of the scaled count.
  lemma NanoError(m: nat, k: int, e: int)
    requires e <= 0
    ensures var n := m * Power(-e);
      Times(Distance(Times(k as real, Scale(e)) * NANOS_PER_SECOND, (m * NANOS_PER_MILLISECOND) as real),
            Power(-e) as real)
      == ((if 1000 * k < n then n - 1000 * k else 1000 * k - n) * NANOS_PER_MILLISECOND) as real
  {
    StepsPerSecond(e);
    var u, p := Scale(e), Power(-e);
    Associates(k as real, u, p as real);
    var q := Times(k as real, u);
    assert Times(q, p as real) == k as real;
    assert (m * p) as real == Times(m as real, p as real);
    ErrorScales(q, m as real, p as real);
  }

  lemma ErrorScales(q: real, m: real, p: real)
    requires p > 0.0
    ensures Times(Distance(q * NANOS_PER_SECOND, m * 1_000_000.0), p)
         == Distance(Times(q, p) * 1000.0, Times(m, p)) * 1_000_000.0
  {
    DistanceScales(Times(q * NANOS_PER_SECOND, p), p, q * NANOS_PER_SECOND, m * 1_000_000.0);
    assert Times(q * NANOS_PER_SECOND, p) == Times(q, p) * NANOS_PER_SECOND;
    assert Times(m * 1_000_000.0, p) == Times(m, p) * 1_000_000.0;
  }

  // The conversion of a count, when the rounded quotient is in range.
  lemma RoundedQuotient(m: nat)
    requires m > 0
    ensures var q := RoundToDouble(m as real / 1000.0);
      if q < USIZE_LIMIT as real then
        Milliseconds(Finite(m as real)) == Success(RoundHalfEven(q * NANOS_PER_SECOND))
      else
        Milliseconds(Finite(m as real)).Failure?
  {
    RoundingIsMonotone(0.0, m as real / 1000.0);
    Scaled(0.0, RoundToDouble(m as real / 1000.0), NANOS_PER_SECOND);
  }

  lemma HalfScales(d: real, off: nat, p: int)
    requires p >= 1 && Times(d, p as real) == (off * NANOS_PER_MILLISECOND) as real
    ensures d <= 0.5 <==> 2_000_000 * off <= p
  {
    if d <= 0.5 {
      Scaled(d, 0.5, p as real);
    } else {
      assert Times(d - 0.5, p as real) > 0.0;
    }
  }

  lemma FineQuotientFits(x: real)
    requires x > 0.0 && UlpExponent(x) <= 0
    ensures RoundToDouble(x) < USIZE_LIMIT as real
  {
    StepsBounds(x);
    ScaleGrows(UlpExponent(x), 0);
    Scaled(Steps(x) as real, MAX_SIGNIFICAND as real, Spacing(x));
    Scaled(Spacing(x), 1.0, MAX_SIGNIFICAND as real);
  }

  // How many nanoseconds the rounded quotient of a count is off.
  function NanosOff(m: nat): real {
    Distance(RoundToDouble(m as real / 1000.0) * NANOS_PER_SECOND, (m * NANOS_PER_MILLISECOND) as real)
  }

  lemma FineError(m: nat, e: int)
    requires m > 0 && e == UlpExponent(m as real / 1000.0) <= 0
    ensures Times(NanosOff(m), Power(-e) as real) == (OffThousand(m * Power(-e)) * NANOS_PER_MILLISECOND) as real
  {
    CountInSteps(m, e);
    NearestThousand(m * Power(-e));
    NanoError(m, Steps(m as real / 1000.0), e);
  }

  // An even number of nanoseconds is reached exactly from at most half a nanosecond away.
  lemma EvenNanos(n: Number, seconds: real, expected: nat)
    requires DivideBy1000(n) == Finite(seconds) && 0.0 <= seconds < USIZE_LIMIT as real && expected % 2 == 0
    ensures Milliseconds(n) == Success(expected)
       <==> Distance(seconds * NANOS_PER_SECOND, expected as real) <= 0.5
  {
    NearestEven(seconds * NANOS_PER_SECOND, expected);
  }

  lemma NanosAreEven(m: nat)
    ensures (m * NANOS_PER_MILLISECOND) % 2 == 0
  {
  }

  lemma QuotientIsRounded(m: nat)
    ensures DivideBy1000(Finite(m as real)) == Finite(RoundToDouble(m as real / 1000.0))
    ensures RoundToDouble(m as real / 1000.0) >= 0.0
  {
    RoundingIsMonotone(0.0, m as real / 1000.0);
  }

  lemma ExactIsHalfNano(m: nat)
    requires m > 0 && RoundToDouble(m as real / 1000.0) < USIZE_LIMIT as real
    ensures Milliseconds(Finite(m as real)) == Success(m * NANOS_PER_MILLISECOND) <==> NanosOff(m) <= 0.5
  {
    QuotientIsRounded(m);
    NanosAreEven(m);
    EvenNanos(Finite(m as real), RoundToDouble(m as real / 1000.0), m * NANOS_PER_MILLISECOND);
  }

  lemma FineIsHalfNano(m: nat, e: int)
    requires m > 0 && e == UlpExponent(m as real / 1000.0) <= 0
    ensures NanosOff(m) <= 0.5 <==> 2_000_000 * OffThousand(m * Power(-e)) <= Power(-e)
  {
    FineError(m, e);
    HalfScales(NanosOff(m), OffThousand(m * Power(-e)), Power(-e));
  }

  // A count below 2^53 seconds.
  lemma FineCount(m: nat, e: int)
    requires m > 0 && e == UlpExponent(m as real / 1000.0) <= 0
    ensures Milliseconds(Finite(m as real)) == Success(m * NANOS_PER_MILLISECOND)
       <==> 2_000_000 * OffThousand(m * Power(-e)) <= Power(-e)
  {
    FineQuotientFits(m as real / 1000.0);
    ExactIsHalfNano(m);
    FineIsHalfNano(m, e);
  }

  // A longer count: the rounded quotient is a whole number of steps, which are whole seconds.
  lemma CoarseQuotient(m: nat, e: int)
    requires m > 0 && e == UlpExponent(m as real / 1000.0) > 0
    ensures RoundToDouble(m as real / 1000.0) == (Steps(m as real / 1000.0) * Power(e)) as real
  {
  }

  lemma WholeSteps(m: nat, e: int, j: int)
    requires m > 0 && e == UlpExponent(m as real / 1000.0) > 0 && m == 1000 * (j * Power(e))
    ensures Steps(m as real / 1000.0) == j
  {
    QuotientIs(m as real / 1000.0, Scale(e), j as real);
    RoundHalfEvenIsNearest(j as real, j);
  }

  lemma Rest(n: int, s: int, d: int)
    requires d > 0 && n == s * d
    ensures n % d == 0
  {
    RestIsZero(s - n / d, n % d, d);
  }

  lemma RestIsZero(q: int, rest: int, d: int)
    requires d > 0 && q * d == rest && 0 <= rest < d
    ensures rest == 0
  {
  }

  lemma WholeMultiple(n: int, d: int)
    requires d > 0 && n % (1000 * d) == 0
    ensures n == 1000 * (n / (1000 * d) * d)
  {
    var q := n / (1000 * d);
    assert n == q * (1000 * d);
  }

  lemma CoarseCount(m: nat, e: int)
    requires m > 0 && e == UlpExponent(m as real / 1000.0) > 0
    ensures Milliseconds(Finite(m as real)) == Success(m * NANOS_PER_MILLISECOND)
       <==> m == 1000 * (Steps(m as real / 1000.0) * Power(e)) && m < 1000 * USIZE_LIMIT
  {
    var seconds := Steps(m as real / 1000.0) * Power(e);
    CoarseQuotient(m, e);
    RoundedQuotient(m);
    RoundHalfEvenIsNearest((seconds * 1_000_000_000) as real, seconds * 1_000_000_000);
  }

  lemma CoarseSteps(m: nat, e: int)
    requires m > 0 && e == UlpExponent(m as real / 1000.0) > 0
    ensures m == 1000 * (Steps(m as real / 1000.0) * Power(e)) <==> m % (1000 * Power(e)) == 0
  {
    var p := Power(e);
    if m % (1000 * p) == 0 {
      WholeMultiple(m, p);
      WholeSteps(m, e, m / (1000 * p));
    }
    IsMultiple(m, Steps(m as real / 1000.0), p);
  }

  lemma IsMultiple(m: nat, steps: int, p: int)
    requires p > 0 && (m % (1000 * p) == 0 ==> steps == m / (1000 * p))
    ensures m == 1000 * (steps * p) <==> m % (1000 * p) == 0
  {
    if m == 1000 * (steps * p) {
      Rest(m, steps, 1000 * p);
    }
    if m % (1000 * p) == 0 {
      WholeMultiple(m, p);
    }
  }

  // A whole number of milliseconds converts to exactly that many milliseconds if and only if it satisfies the
  // integer condition.
  lemma MillisecondsAreExact(m: nat)
    ensures Milliseconds(Finite(m as real)) == Success(m * NANOS_PER_MILLISECOND) <==> IsExact(m)
  {
    if m > 0 {
      var e := UlpExponent(m as real / 1000.0);
      if e <= 0 {
        FineCount(m, e);
      } else {
        CoarseCount(m, e);
        CoarseSteps(m, e);
      }
    }
  }

  // The exponent of a count in integers: the power of two that brings its number of seconds to 53 binary digits.
  lemma FineExponent(m: nat, t: nat)
    requires m > 0 && 1000 * BINADE <= m * Power(t) < 1000 * MAX_SIGNIFICAND
    ensures UlpExponent(m as real / 1000.0) == 0 - t
  {
    var e := 0 - t;
    var x := m as real / 1000.0;
    FineBounds(m, e);
    ExponentIs(x, e + 52);
    assert Scale(-10) == 1.0 / 1024.0;
    if e + 53 < -10 {
      ScaleGrows(e + 53, -10);
    }
  }

  lemma FineBounds(m: nat, e: int)
    requires e <= 0 && 1000 * BINADE <= m * Power(-e) < 1000 * MAX_SIGNIFICAND
    ensures Scale(e + 52) <= m as real / 1000.0 < Scale(e + 53)
  {
    var x, y := m as real / 1000.0, Times(m as real / 1000.0, Power(-e) as real);
    assert Times(y, Scale(e)) == x by {
      StepsPerSecond(e);
      Associates(x, Power(-e) as real, Scale(e));
    }
    assert BINADE as real <= y < MAX_SIGNIFICAND as real by {
      Thousandth(m, Power(-e));
    }
    Scaled(BINADE as real, y, Scale(e));
    Below(y, MAX_SIGNIFICAND as real, Scale(e));
    Scale52();
    ScaleAdds(e, 52);
    ScaleAdds(e, 53);
  }

  lemma CoarseExponent(m: nat, t: nat)
    requires m > 0 && 1000 * (BINADE * Power(t)) <= m < 1000 * (MAX_SIGNIFICAND * Power(t))
    ensures UlpExponent(m as real / 1000.0) == t
  {
    Scale52();
    ScaleAdds(t, 52);
    ScaleAdds(t, 53);
    ExponentIs(m as real / 1000.0, t + 52);
  }

  lemma Below(a: real, b: real, u: real)
    requires a < b && u > 0.0
    ensures Times(a, u) < Times(b, u)
  {
  }

  lemma ExponentIs(x: real, e: int)
    requires x > 0.0 && Scale(e) <= x < Scale(e + 1)
    ensures Exponent(x) == e
  {
    if Exponent(x) < e {
      ScaleGrows(Exponent(x) + 1, e);
    } else if Exponent(x) > e {
      ScaleGrows(e + 1, Exponent(x));
    }
  }

  // The condition in integers, for every count below 2^53 seconds. With at least 30 binary digits after the
  // point every count is exact. With at most 20 a count is exact only when its number of seconds is a double.
  lemma ExactBySize(m: nat, t: nat)
    requires m > 0 && 1000 * BINADE <= m * Power(t) < 1000 * MAX_SIGNIFICAND
    ensures IsExact(m) <==> 2_000_000 * OffThousand(m * Power(t)) <= Power(t)
    ensures t >= 30 ==> IsExact(m)
    ensures t <= 20 ==> (IsExact(m) <==> (m * Power(t)) % 1000 == 0)
  {
    FineExponent(m, t);
    Powers();
    OffDecides(m * Power(t), Power(t));
    if t >= 30 {
      PowerGrows(30, t);
    } else if t <= 20 {
      PowerGrows(t, 20);
    }
  }

  lemma OffDecides(n: nat, p: nat)
    ensures p >= 1_000_000_000 ==> 2_000_000 * OffThousand(n) <= p
    ensures p < 2_000_000 ==> (2_000_000 * OffThousand(n) <= p <==> n % 1000 == 0)
  {
  }

  lemma Powers()
    ensures Power(20) == 1_048_576 && Power(23) == 8_388_608
    ensures Power(29) == 536_870_912 && Power(30) == 1_073_741_824
  {
    assert Power(10) == 1024;
    assert Power(20) == 1_048_576 by {
      ScaleAdds(10, 10);
    }
    assert Power(23) == 8_388_608;
    assert Power(26) == 67_108_864;
    assert Power(29) == 536_870_912;
  }

  // The condition in integers, for longer counts.
  lemma ExactWhenLong(m: nat, t: nat)
    requires m > 0 && t > 0 && 1000 * (BINADE * Power(t)) <= m < 1000 * (MAX_SIGNIFICAND * Power(t))
    ensures IsExact(m) <==> m % (1000 * Power(t)) == 0 && m < 1000 * USIZE_LIMIT
  {
    CoarseExponent(m, t);
  }

  lemma PowerGrows(a: nat, b: nat)
    requires a <= b
    ensures Power(a) <= Power(b)
  {
    ScaleGrows(a, b);
  }

  // Between 2^23 and 2^24 seconds.
  lemma FirstInexactBinade(m: nat)
    requires 8_388_608_000 <= m < 16_777_216_000
    ensures IsExact(m) <==> OffThousand(m * 536_870_912) <= 268
  {
    Powers();
    ExactBySize(m, 29);
  }

  // Every count up to the bound is exact. The next one is not, and some later ones are.
  lemma FirstInexactCount(m: nat)
    ensures m <= 8_388_608_003 ==> IsExact(m)
    ensures m == 8_388_608_004 ==> !IsExact(m)
    ensures m == 8_388_608_009 ==> IsExact(m)
  {
    if 0 < m < 8_388_608_000 {
      ShortCount(m);
    } else if 8_388_608_000 <= m <= 8_388_608_009 {
      FirstInexactBinade(m);
      EarlyOffsets(m);
    }
  }

  lemma EarlyOffsets(m: nat)
    ensures 8_388_608_000 <= m <= 8_388_608_003 ==> OffThousand(m * 536_870_912) <= 268
    ensures m == 8_388_608_004 ==> OffThousand(m * 536_870_912) > 268
    ensures m == 8_388_608_009 ==> OffThousand(m * 536_870_912) <= 268
  {
    if 8_388_608_000 <= m <= 8_388_608_003 {
      assert OffThousand(8_388_608_000 * 536_870_912) == 0;
      assert OffThousand(8_388_608_001 * 536_870_912) == 88;
      assert OffThousand(8_388_608_002 * 536_870_912) == 176;
      assert OffThousand(8_388_608_003 * 536_870_912) == 264;
    }
  }

  lemma ShortCount(m: nat)
    requires 0 < m < 8_388_608_000
    ensures IsExact(m)
  {
    var x := m as real / 1000.0;
    Powers();
    if Exponent(x) >= 23 {
      ScaleGrows(23, Exponent(x));
    }
    PowerGrows(30, -UlpExponent(x));
  }

  // A longer number of milliseconds never becomes a shorter duration.
  lemma MillisecondsAreMonotone(a: real, b: real)
    requires a <= b
    ensures Milliseconds(Finite(a)).Success? && Milliseconds(Finite(b)).Success?
        ==> Milliseconds(Finite(a)).value <= Milliseconds(Finite(b)).value
  {
    var x, y := DivideBy1000(Finite(a)).value, DivideBy1000(Finite(b)).value;
    if a >= 0.0 {
      RoundingIsMonotone(a / 1000.0, b / 1000.0);
    } else {
      RoundingIsMonotone(0.0, -a / 1000.0);
    }
    if 0.0 <= x && 0.0 <= y {
      Scaled(x, y, NANOS_PER_SECOND);
      RoundHalfEvenIsMonotone(x * NANOS_PER_SECOND, y * NANOS_PER_SECOND);
    }
  }

  // The division is the one the standard prescribes: a double becomes the double that its exact quotient rounds
  // to.
  lemma DivisionIsNearest(value: real)
    requires IsDouble(value)
    ensures IsRounded(value / 1000.0, DivideBy1000(Finite(value)).value)
  {
    if value > 0.0 {
      PositiveDivision(value);
    } else if value < 0.0 {
      NegativeDivision(value);
    } else {
      ZeroIsRounded();
    }
  }

  lemma NegativeDivision(value: real)
    requires IsDouble(value) && value < 0.0
    ensures IsRounded(value / 1000.0, -RoundToDouble(-value / 1000.0))
  {
    NegatedIsDouble(value);
    PositiveDivision(-value);
    NegatedIsRounded(-value / 1000.0, RoundToDouble(-value / 1000.0));
  }

  lemma PositiveDivision(value: real)
    requires IsDouble(value) && value > 0.0
    ensures IsRounded(value / 1000.0, RoundToDouble(value / 1000.0))
  {
    var significand, e :| IsDoubleAt(value, significand, e);
    SmallDoubleIsBelow(value, significand, e, MAX_EXPONENT + 1);
    QuotientIsBelow(value, Scale(MAX_EXPONENT + 1));
    RoundingIsNearest(value / 1000.0);
  }

  lemma QuotientIsBelow(value: real, u: real)
    requires value > 0.0 && u == Scale(MAX_EXPONENT + 1) && value <= Times(BINADE as real, u)
    ensures UlpExponent(value / 1000.0) < MAX_EXPONENT
  {
    var x := value / 1000.0;
    Scale52();
    ScaleAdds(MAX_EXPONENT + 1, 52);
    assert x < Scale(MAX_EXPONENT + 53);
    ScaleStep(MAX_EXPONENT + 52);
    ScaleStep(MAX_EXPONENT + 51);
    ScaleStep(MAX_EXPONENT + 50);
    assert x < Scale(MAX_EXPONENT + 50);
    if Exponent(x) >= MAX_EXPONENT + 50 {
      ScaleGrows(MAX_EXPONENT + 50, Exponent(x));
    }
  }

  lemma RoundsToZero(x: real)
    requires x > 0.0
    ensures 0.0 <= RoundToDouble(x)
    ensures RoundToDouble(x) == 0.0 <==> x <= Times(0.5, Scale(MIN_EXPONENT))
  {
    var u, tiny := Spacing(x), Scale(MIN_EXPONENT);
    StepsBounds(x);
    Scaled(0.0, Steps(x) as real, u);
    if UlpExponent(x) > MIN_EXPONENT {
      SignificandBounds(x);
      ScaleGrows(MIN_EXPONENT, UlpExponent(x));
      Scaled(1.0, Steps(x) as real, u);
      Scaled(1.0, BINADE as real, u);
    } else {
      QuotientOrder(x, Times(0.5, tiny), tiny);
      QuotientIs(Times(0.5, tiny), tiny, 0.5);
      if Steps(x) > 0 {
        Scaled(1.0, Steps(x) as real, u);
      }
    }
  }

  // A negative number of milliseconds is rejected, except down to 500 of the smallest steps of a double:
  // those divide to negative zero, which converts to an empty duration.
  lemma NegativeMilliseconds(value: real)
    requires value < 0.0
    ensures Milliseconds(Finite(value)).Success? <==> value >= -Times(500.0, Scale(-1074))
    ensures Milliseconds(Finite(value)).Success? ==> Milliseconds(Finite(value)) == Success(0)
  {
    RoundsToZero(-value / 1000.0);
    NearestEven(0.0, 0);
  }

  // ----- Which numbers are accepted -----

  // Seconds are accepted exactly from zero up to 2^64, and become the nearest number of nanoseconds. Not a number and
  // the infinities are errors.
  lemma SecondsAreAccepted(n: Number, other: int)
    ensures Seconds(n).Success? <==> n.Finite? && 0.0 <= n.value < 18_446_744_073_709_551_616.0
    ensures Seconds(n) == Failure(Negative) <==> n == Infinity(false) || (n.Finite? && n.value < 0.0)
    ensures Seconds(n).Success? ==>
      var nanos := n.value * 1_000_000_000.0;
      Distance(nanos, Seconds(n).value as real) <= Distance(nanos, other as real)
  {
    if Seconds(n).Success? {
      RoundHalfEvenIsNearest(n.value * NANOS_PER_SECOND, other);
    }
  }

  lemma TopBinade(x: real)
    requires 9_223_372_036_854_775_808.0 <= x < 18_446_744_073_709_551_616.0
    ensures Spacing(x) == 2048.0
  {
    assert Scale(10) == 1024.0 && Scale(11) == 2048.0;
    Scale52();
    ScaleAdds(53, 10);
    ScaleAdds(53, 11);
    ExponentIs(x, 63);
  }

  // The last doubles below 2^64 are 2048 apart, and the halfway point to 2^64 rounds up.
  lemma TopRounding(x: real)
    requires 9_223_372_036_854_775_808.0 <= x < 18_446_744_073_709_551_616.0
    ensures RoundToDouble(x) < 18_446_744_073_709_551_616.0 <==> x < 18_446_744_073_709_550_592.0
  {
    TopBinade(x);
    var y := x / 2048.0;
    assert RoundToDouble(x) == Times(RoundHalfEven(y) as real, 2048.0);
    if x < 18_446_744_073_709_550_592.0 {
      assert y < 9_007_199_254_740_991.5;
    } else {
      assert y.Floor == 9_007_199_254_740_991;
    }
  }

  lemma RoundsBelowLimit(x: real)
    requires x >= 0.0
    ensures RoundToDouble(x) < 18_446_744_073_709_551_616.0 <==> x < 18_446_744_073_709_550_592.0
  {
    if x < 9_223_372_036_854_775_808.0 {
      TopRounding(9_223_372_036_854_775_808.0);
      RoundingIsMonotone(x, 9_223_372_036_854_775_808.0);
    } else if x < 18_446_744_073_709_551_616.0 {
      TopRounding(x);
    } else {
      TopRounding(18_446_744_073_709_550_592.0);
      RoundingIsMonotone(18_446_744_073_709_550_592.0, x);
    }
  }

  lemma NonNegativeIsAccepted(value: real)
    requires value >= 0.0
    ensures Milliseconds(Finite(value)).Success? <==> value < 18_446_744_073_709_550_592_000.0
    ensures Milliseconds(Finite(value)) != Failure(Negative)
  {
    RoundsBelowLimit(value / 1000.0);
    RoundingIsMonotone(0.0, value / 1000.0);
    SecondsAreAccepted(Finite(RoundToDouble(value / 1000.0)), 0);
  }

  lemma NegativeIsNegative(value: real)
    requires value < 0.0
    ensures Milliseconds(Finite(value)).Success? || Milliseconds(Finite(value)) == Failure(Negative)
  {
    RoundingIsMonotone(0.0, -value / 1000.0);
  }

  // Milliseconds are accepted exactly from -500 of the smallest steps of a double up to 1000 times the point halfway
  // between 2^64 and the double below it. Not a number and the infinities are errors.
  lemma MillisecondsAreAccepted(n: Number)
    ensures Milliseconds(n).Success? <==>
      n.Finite? && -Times(500.0, Scale(-1074)) <= n.value < 18_446_744_073_709_550_592_000.0
    ensures Milliseconds(n) == Failure(Negative) <==>
      n == Infinity(false) || (n.Finite? && n.value < -Times(500.0, Scale(-1074)))
  {
    assert Times(500.0, Scale(-1074)) > 0.0;
    if n.Finite? {
      if n.value < 0.0 {
        NegativeMilliseconds(n.value);
        NegativeIsNegative(n.value);
      } else {
        NonNegativeIsAccepted(n.value);
      }
    }
  }
}
