// src/number.rs: JavaScript numbers become machine integers and durations.
module Numbers {
  import opened Prelude

  // A JavaScript number: a 64-bit IEEE 754 value. Negative zero compares equal to zero.
  datatype Number = NaN | Infinity(positive: bool) | Finite(value: real)

  const USIZE_LIMIT: int := 0x1_0000_0000_0000_0000
  const MAX_SAFE_INTEGER: int := 0x1F_FFFF_FFFF_FFFF

  predicate IsWhole(value: real) {
    value.Floor as real == value
  }

  // Number.isSafeInteger
  predicate IsSafeInteger(n: Number) {
    n.Finite? && IsWhole(n.value) && -MAX_SAFE_INTEGER <= n.value.Floor <= MAX_SAFE_INTEGER
  }

  // The values that a target integer type takes from a `usize`.
  datatype Target = Target(min: nat, max: nat)

  const USIZE := Target(0, USIZE_LIMIT - 1)
  const NON_ZERO_USIZE := Target(1, USIZE_LIMIT - 1)
  const U32 := Target(0, 0xFFFF_FFFF)

  function TryFrom(target: Target, n: nat): Option<nat> {
    if target.min <= n <= target.max then Some(n) else None
  }

  datatype ConversionError = NotInRange

  function Whole(n: Number, target: Target): Result<nat, ConversionError> {
    if n.Finite? && 0.0 <= n.value && n.value < USIZE_LIMIT as real && IsWhole(n.value) then
      match TryFrom(target, n.value.Floor)
      case Some(converted) => Success(converted)
      case None => Failure(NotInRange)
    else
      Failure(NotInRange)
  }

  // A conversion succeeds exactly on the numbers that equal an integer of the target type, and it
  // yields that integer. It never wraps, truncates, or saturates.
  lemma WholeIsExact(n: Number, target: Target, result: nat)
    requires target.max < USIZE_LIMIT
    ensures Whole(n, target) == Success(result)
       <==> n == Finite(result as real) && target.min <= result <= target.max
  {
  }

  // Every whole number that a JavaScript check accepts has an exact native form.
  lemma SafeIntegersConvert(n: Number, target: Target)
    requires IsSafeInteger(n) && target.min <= n.value.Floor && MAX_SAFE_INTEGER <= target.max
    ensures Whole(n, target).Success? && Finite(Whole(n, target).value as real) == n
  {
  }
}
