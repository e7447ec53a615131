/**
 * The hours/minutes view of an allocation that both the fixed-allocation card
 * and the tracked+manual `TimeInput` use: decomposition of a duration into
 * whole hours and minutes, clamping of typed entries, and conversion back to
 * seconds. A typed entry is the result of `parseInt(value, 10)`, `None` when
 * that is NaN.
 */
module HoursMinutes {
  import opened Wrappers

  /** `Math.floor(s / 3600)`: the whole hours of a duration. */
  function Hours(s: nat): (h: nat)
    ensures h * 3600 <= s < h * 3600 + 3600
  {
    s / 3600
  }

  /** `Math.floor((s % 3600) / 60)`: always a valid minutes field. */
  function Minutes(s: nat): (m: nat)
    ensures m < 60
  {
    (s % 3600) / 60
  }

  /**
   * `h * 3600 + m * 60`: a whole number of minutes which, for a valid minutes
   * field, decomposes back into the pair it was built from.
   */
  function ToSeconds(h: nat, m: nat): (s: nat)
    ensures s % 60 == 0
    ensures m < 60 ==> Hours(s) == h && Minutes(s) == m
  {
    var s := h * 3600 + m * 60;
    assert s == (h * 60 + m) * 60;
    assert m < 60 ==> s / 3600 == h && s % 3600 == m * 60;
    s
  }

  /** Hours entry: NaN or negative becomes 0, anything else is kept. */
  function ClampHours(entry: Option<int>): (h: nat)
    ensures entry.Some? && entry.value >= 0 ==> h == entry.value
    ensures entry.None? || entry.value < 0 ==> h == 0
  {
    if entry.None? || entry.value < 0 then 0 else entry.value
  }

  /** Minutes entry: NaN or negative becomes 0, above 59 becomes 59, anything else is kept. */
  function ClampMinutes(entry: Option<int>): (m: nat)
    ensures m < 60
    ensures entry.Some? && 0 <= entry.value < 60 ==> m == entry.value
    ensures entry.Some? && entry.value >= 60 ==> m == 59
    ensures entry.None? || entry.value < 0 ==> m == 0
  {
    if entry.None? || entry.value < 0 then 0
    else if entry.value > 59 then 59
    else entry.value
  }

  /** Converting the displayed fields back to seconds rounds the duration down to a whole minute. */
  lemma ToSecondsOfFields(s: nat)
    ensures ToSeconds(Hours(s), Minutes(s)) == (s / 60) * 60
    ensures ToSeconds(Hours(s), Minutes(s)) <= s < ToSeconds(Hours(s), Minutes(s)) + 60
  {
    var h, r := s / 3600, s % 3600;
    var m, sec := r / 60, r % 60;
    assert s == 3600 * h + 60 * m + sec;
    assert s / 60 == 60 * h + m;
  }
}
