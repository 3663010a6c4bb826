/** The trend line under a chart: how the last value compares with the one
    before it, as the percentage `((last - previous) / previous) * 100`. */
module Trends {
  /** Up or down by a percentage, steady, up from zero, still zero, or no
      trend line at all. */
  datatype Trend = NoTrend | Rising(percent: real) | Falling(percent: real) | Steady | FromZero | StaysZero

  /** `percentageChange` */
  function Change(last: int, previous: int): real
    requires previous > 0
  {
    ((last - previous) as real / previous as real) * 100.0
  }

  /** The three-way choice on the sign of the change; a fall is shown by
      its absolute value. */
  function Compare(last: int, previous: int): Trend
    requires previous > 0
  {
    var change := Change(last, previous);
    if change > 0.0 then Rising(change)
    else if change < 0.0 then Falling(-change)
    else Steady
  }

  /** The trend rises exactly when the last value is larger, falls exactly
      when it is smaller, and the percentage shown is the change relative
      to the previous value. */
  lemma CompareSpec(last: int, previous: int)
    requires previous > 0
    ensures Compare(last, previous).Rising? <==> last > previous
    ensures Compare(last, previous).Falling? <==> last < previous
    ensures Compare(last, previous) == Steady <==> last == previous
    ensures Compare(last, previous).Rising? || Compare(last, previous).Falling? ==>
      Compare(last, previous).percent * previous as real
      == (if last > previous then last - previous else previous - last) as real * 100.0
  {
    var d, p := (last - previous) as real, previous as real;
    assert d / p * p == d;
    if last > previous {
      assert d > 0.0;
      assert d / p > 0.0;
    } else if last < previous {
      assert d < 0.0;
      assert d / p < 0.0;
    } else {
      assert d == 0.0;
    }
  }
}
