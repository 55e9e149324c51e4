/** `clamp(value, min_value, max_value)` of src/clamp.js. */
module Clamping {
  import opened JsMath

  /**
   * Restricts `value` to `[minValue, maxValue]` as `Math.min(Math.max(value, minValue), maxValue)`.
   * The upper bound wins when the range is empty.
   */
  function Clamp(value: real, minValue: real, maxValue: real): (r: real)
    ensures r <= maxValue
    ensures minValue <= maxValue ==> minValue <= r
    ensures minValue <= value <= maxValue ==> r == value
    ensures value < minValue && minValue <= maxValue ==> r == minValue
    ensures maxValue < value ==> r == maxValue
    ensures maxValue < minValue ==> r == maxValue
  {
    Min(Max(value, minValue), maxValue)
  }

  /** Clamping an already clamped value changes nothing. */
  lemma ClampIdempotent(value: real, minValue: real, maxValue: real)
    ensures Clamp(Clamp(value, minValue, maxValue), minValue, maxValue) == Clamp(value, minValue, maxValue)
  {
  }

  /** Clamping keeps the order of its inputs. */
  lemma ClampMonotone(v1: real, v2: real, minValue: real, maxValue: real)
    requires v1 <= v2
    ensures Clamp(v1, minValue, maxValue) <= Clamp(v2, minValue, maxValue)
  {
  }
}
