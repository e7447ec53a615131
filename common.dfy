/** Small helper datatypes shared by the model. */
module Wrappers {

  /** An optional value: the model's stand-in for a nullable field or a parse that may yield NaN. */
  datatype Option<+T> = None | Some(value: T)
}

/**
 * The two JavaScript rounding operations the shift logic relies on, on integers.
 * Dafny's `/` on `int` with a positive divisor rounds toward negative infinity,
 * so `p / q` is exactly `Math.floor(p / q)`; `RoundDiv` is `Math.round(p / q)`
 * (half-way cases round up, towards positive infinity, as in JavaScript).
 */
module Rounding {

  /** `Math.round(p / q)` for a positive integer divisor `q`. */
  function RoundDiv(p: int, q: int): (r: int)
    requires q > 0
    ensures 2 * q * r - q <= 2 * p < 2 * q * r + q
  {
    var r := (2 * p + q) / (2 * q);
    DivBounds(2 * p + q, 2 * q);
    r
  }

  /** Euclidean division brackets its dividend. */
  lemma DivBounds(a: int, b: int)
    requires b > 0
    ensures b * (a / b) <= a < b * (a / b) + b
  {
  }

  /** Rounding to the nearest whole minute: a multiple of 60 no further than 30 seconds from `s`. */
  function RoundToMinute(s: int): (r: int)
    ensures r % 60 == 0
    ensures r - 30 <= s < r + 30
    ensures s >= 0 ==> r >= 0
  {
    RoundDiv(s, 60) * 60
  }

  /** Rounding down to a whole minute (`Math.floor(s / 60) * 60`). */
  function FloorToMinute(s: int): (r: int)
    ensures r % 60 == 0
    ensures r <= s < r + 60
    ensures s >= 0 ==> r >= 0
  {
    (s / 60) * 60
  }
}
