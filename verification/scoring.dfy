/** The score arithmetic the stores share. */
module Scoring {

  /** `Math.max(a, b)`. */
  function Max(a: int, b: int): (r: int)
    ensures r >= a && r >= b
    ensures r == a || r == b
  {
    if a >= b then a else b
  }
}
