/** MathUtilities (src/utilities/internal/math-utilities.ts), over the reals. */
module MathUtilities {

  /** `calculatePercentage(value, totalValue)` */
  function CalculatePercentage(value: real, totalValue: real): real {
    if totalValue == 0.0 then 0.0 else value / totalValue * 100.0
  }

  /**
   * The share of `value` in `totalValue` as a percentage, 0 when the total is 0 rather than
   * a division by zero; a whole total is 100, and a part of a positive total lies in 0..100.
   */
  lemma CalculatePercentageSpec(value: real, totalValue: real)
    ensures var r := CalculatePercentage(value, totalValue);
            && (totalValue == 0.0 ==> r == 0.0)
            && (totalValue != 0.0 ==> r * totalValue == value * 100.0)
            && (totalValue != 0.0 && value == totalValue ==> r == 100.0)
            && (0.0 < totalValue && 0.0 <= value <= totalValue ==> 0.0 <= r <= 100.0)
  {
    if totalValue != 0.0 {
      var q := value / totalValue;
      assert q * totalValue == value;
      if 0.0 < totalValue && 0.0 <= value <= totalValue {
        QuotientBounds(q, totalValue, value);
      }
    }
  }

  lemma QuotientBounds(q: real, t: real, v: real)
    requires 0.0 < t && 0.0 <= v <= t && q * t == v
    ensures 0.0 <= q <= 1.0
  {
    assert (1.0 - q) * t == t - v;
  }
}
