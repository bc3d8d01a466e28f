// `at` on a deque (lib/state/query.js, lib/state/deque.js, lib/state/published.js, src/state/mod.rs).
module DequeAt {
  import opened Prelude
  import opened Numbers

  const MAX_U32: int := 0xFFFF_FFFF

  // Both reject as transient state errors.
  datatype AtError = NotSafeInteger | LengthTooLarge

  // The native length, which JavaScript receives as a u32.
  function Length(length: nat): Result<nat, AtError> {
    match TryFrom(U32, length) case Some(n) => Success(n) case None => Failure(LengthTooLarge)
  }

  // The front position of an index, or None outside the positions that the native read takes.
  function DequePosition(index: Number, length: nat): Result<Option<nat>, AtError> {
    if !IsSafeInteger(index) then Failure(NotSafeInteger)
    else if index.value < 0.0 then
      var n :- Length(length);
      Success(InRange(index.value.Floor + n))
    else
      Success(InRange(index.value.Floor))
  }

  function InRange(position: int): (r: Option<nat>)
    ensures r.Some? ==> r.value <= MAX_U32
  {
    if position < 0 || position > MAX_U32 then None else Some(position)
  }

  function NativeGet<V>(values: seq<V>, position: nat): Option<V>
    requires position <= MAX_U32
  {
    if position < |values| then Some(values[position]) else None
  }

  function PeekBack<V>(values: seq<V>): Option<V> {
    if values == [] then None else Some(values[|values| - 1])
  }

  function At<V>(values: seq<V>, index: Number): Result<Option<V>, AtError> {
    if index == Finite(-1.0) then Success(PeekBack(values))
    else
      var position :- DequePosition(index, |values|);
      Success(match position case None => None case Some(p) => NativeGet(values, p))
  }

  // Array.prototype.at (ECMA-262, section 23.1.3.1), with None for undefined.
  function ArrayAt<V>(values: seq<V>, index: int): Option<V> {
    var k := if index >= 0 then index else |values| + index;
    if 0 <= k < |values| then Some(values[k]) else None
  }

  // For a safe integer `at` agrees with Array.prototype.at on every deque whose length fits a u32. On a
  // longer one it agrees exactly at -1, at the positions that fit a u32, and past the end.
  lemma AtAgreesWithArrays<V>(values: seq<V>, index: int)
    requires -MAX_SAFE_INTEGER <= index <= MAX_SAFE_INTEGER
    ensures At(values, Finite(index as real)) == Success(ArrayAt(values, index))
       <==> |values| <= 0xFFFF_FFFF || -1 <= index <= 0xFFFF_FFFF || index >= |values|
  {
  }

  ghost predicate IsInteger(n: Number, i: int) {
    n == Finite(i as real)
  }

  // Anything but a safe integer rejects. A negative index other than -1 rejects when the length does not fit a
  // u32. Nothing else rejects.
  lemma AtRejects<V>(values: seq<V>, index: Number)
    ensures At(values, index) == Failure(NotSafeInteger)
       <==> !(exists i :: IsInteger(index, i) && -0x1F_FFFF_FFFF_FFFF <= i <= 0x1F_FFFF_FFFF_FFFF)
    ensures At(values, index) == Failure(LengthTooLarge)
       <==> |values| > 0xFFFF_FFFF && exists i :: IsInteger(index, i) && -0x1F_FFFF_FFFF_FFFF <= i < -1
  {
    if index.Finite? && IsWhole(index.value) {
      assert IsInteger(index, index.value.Floor);
    }
  }
}
