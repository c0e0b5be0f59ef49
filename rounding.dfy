/** The integer percentages of the report page. */
module Rounding {

  /**
   * `total > 0 ? Math.round((part / total) * 100) : 0` in exact arithmetic: the integer
   * nearest to `100 * part / total`, halves rounded up, and 0 for an empty total.
   */
  function Percent(part: nat, total: nat): (r: nat)
    ensures total == 0 ==> r == 0
    ensures total > 0 ==> 2 * total * r <= 200 * part + total < 2 * total * (r + 1)
    ensures part <= total ==> r <= 100
  {
    if total > 0 then (200 * part + total) / (2 * total) else 0
  }
}
