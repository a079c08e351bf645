/** The guarded averages of the pages, kept as exact fractions. */
module Averages {

  /** The value `num / den`. */
  datatype Ratio = Ratio(num: int, den: int)

  /**
   * `count > 0 ? sum / count : 0`: the denominator is never zero; with nothing to
   * average the value is 0, and otherwise it is `sum / count`.
   */
  function Average(sum: int, count: int): (r: Ratio)
    ensures r.den > 0
    ensures count <= 0 ==> r.num == 0
    ensures count > 0 ==> r.num * count == sum * r.den
  {
    if count > 0 then Ratio(sum, count) else Ratio(0, 1)
  }
}
