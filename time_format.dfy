/**
 * `formatTime` and the elapsed-time display rule of the `useTimer` hook.
 * A duration in whole seconds is printed as `H:MM` or `H:MM:SS`: hours
 * unpadded and unbounded, minutes and seconds zero-padded to two digits.
 * The parse functions below are the inverses used to state that the printed
 * fields encode the duration exactly.
 */
module TimeFormat {
  import opened Wrappers

  predicate IsDigit(c: char) {
    '0' <= c <= '9'
  }

  predicate AllDigits(s: string) {
    forall i :: 0 <= i < |s| ==> IsDigit(s[i])
  }

  function DigitChar(d: nat): (c: char)
    requires d < 10
    ensures IsDigit(c)
  {
    (48 + d) as char
  }

  function DigitValue(c: char): (d: nat)
    requires IsDigit(c)
    ensures d < 10
  {
    c as int - 48
  }

  /** `n.toString()` for a non-negative integer: decimal digits, no leading zeros. */
  function NatToString(n: nat): (s: string)
    ensures 1 <= |s| && AllDigits(s)
    ensures n < 10 <==> |s| == 1
    ensures 10 <= n < 100 ==> |s| == 2
    decreases n
  {
    if n < 10 then [DigitChar(n)] else NatToString(n / 10) + [DigitChar(n % 10)]
  }

  /** The value of a string of decimal digits. */
  function DecimalValue(s: string): nat
    requires AllDigits(s)
    decreases |s|
  {
    if |s| == 0 then 0 else DecimalValue(s[..|s| - 1]) * 10 + DigitValue(s[|s| - 1])
  }

  /** `num.toString().padStart(2, '0')`. */
  function Pad2(n: nat): (s: string)
    ensures AllDigits(s)
  {
    var t := NatToString(n);
    if |t| < 2 then ['0'] + t else t
  }

  /** Reading back a decimal string gives the number printed. */
  lemma {:induction false} NatToStringRoundTrip(n: nat)
    ensures DecimalValue(NatToString(n)) == n
    decreases n
  {
    if n >= 10 {
      var s := NatToString(n);
      assert s[..|s| - 1] == NatToString(n / 10);
      NatToStringRoundTrip(n / 10);
    }
  }

  /** A padded field below 100 is exactly two digits and reads back as the number. */
  lemma Pad2RoundTrip(n: nat)
    requires n < 100
    ensures |Pad2(n)| == 2
    ensures DecimalValue(Pad2(n)) == n
  {
    NatToStringRoundTrip(n);
    var t := NatToString(n);
    if |t| < 2 {
      var p := ['0'] + t;
      assert p[..1] == ['0'];
      assert p[..1][..0] == [];
    }
  }

  /** The hours, minutes and seconds fields of a duration (lines 4, 5 and 10 of the hook). */
  function Fields(totalSeconds: nat): (f: (nat, nat, nat))
    ensures f.1 < 60 && f.2 < 60
    ensures f.0 * 3600 + f.1 * 60 + f.2 == totalSeconds
  {
    (totalSeconds / 3600, (totalSeconds % 3600) / 60, totalSeconds % 60)
  }

  /** `formatTime(totalSeconds, { showSeconds })`. */
  function FormatTime(totalSeconds: nat, showSeconds: bool): string {
    var f := Fields(totalSeconds);
    if showSeconds then NatToString(f.0) + ":" + Pad2(f.1) + ":" + Pad2(f.2)
    else NatToString(f.0) + ":" + Pad2(f.1)
  }

  /** Reads `H:MM:SS` back into seconds; `None` for any other shape. */
  function ParseHms(t: string): Option<nat> {
    var n := |t|;
    if n >= 7 && t[n - 6] == ':' && t[n - 3] == ':'
       && AllDigits(t[..n - 6]) && AllDigits(t[n - 5..n - 3]) && AllDigits(t[n - 2..])
    then Some(DecimalValue(t[..n - 6]) * 3600 + DecimalValue(t[n - 5..n - 3]) * 60 + DecimalValue(t[n - 2..]))
    else None
  }

  /** Reads `H:MM` back into whole minutes; `None` for any other shape. */
  function ParseHm(t: string): Option<nat> {
    var n := |t|;
    if n >= 4 && t[n - 3] == ':' && AllDigits(t[..n - 3]) && AllDigits(t[n - 2..])
    then Some(DecimalValue(t[..n - 3]) * 60 + DecimalValue(t[n - 2..]))
    else None
  }

  /** With seconds shown, the printed fields encode the duration exactly. */
  lemma FormatWithSecondsRoundTrip(totalSeconds: nat)
    ensures ParseHms(FormatTime(totalSeconds, true)) == Some(totalSeconds)
  {
    var f := Fields(totalSeconds);
    var h, m, s := NatToString(f.0), Pad2(f.1), Pad2(f.2);
    NatToStringRoundTrip(f.0);
    Pad2RoundTrip(f.1);
    Pad2RoundTrip(f.2);
    var t := h + ":" + m + ":" + s;
    assert t == FormatTime(totalSeconds, true);
    var n := |t|;
    assert n == |h| + 6;
    assert t[..n - 6] == h;
    assert t[n - 5..n - 3] == m;
    assert t[n - 2..] == s;
  }

  /** Without seconds, the output is `H:MM` and encodes the whole minutes of the duration. */
  lemma FormatWithoutSecondsRoundTrip(totalSeconds: nat)
    ensures ParseHm(FormatTime(totalSeconds, false)) == Some(totalSeconds / 60)
  {
    var f := Fields(totalSeconds);
    var h, m := NatToString(f.0), Pad2(f.1);
    NatToStringRoundTrip(f.0);
    Pad2RoundTrip(f.1);
    var t := h + ":" + m;
    assert t == FormatTime(totalSeconds, false);
    var n := |t|;
    assert t[..n - 3] == h;
    assert t[n - 2..] == m;
  }

  /** Two durations print the same `H:MM` text exactly when they have the same whole minutes. */
  lemma FormatWithoutSecondsInjective(a: nat, b: nat)
    ensures FormatTime(a, false) == FormatTime(b, false) <==> a / 60 == b / 60
  {
    FormatWithoutSecondsRoundTrip(a);
    FormatWithoutSecondsRoundTrip(b);
    if a / 60 == b / 60 {
      assert Fields(a) == (a / 60 / 60, (a / 60) % 60, a % 60) by { MinuteFields(a); }
      assert Fields(b) == (b / 60 / 60, (b / 60) % 60, b % 60) by { MinuteFields(b); }
    }
  }

  /** The hours and minutes fields depend only on the whole minutes of a duration. */
  lemma MinuteFields(s: nat)
    ensures s / 3600 == s / 60 / 60
    ensures (s % 3600) / 60 == (s / 60) % 60
  {
  }

  /** Hours are printed unpadded and without an upper bound. */
  lemma TwentyFiveHours()
    ensures FormatTime(90000, false) == "25:00"
    ensures FormatTime(3599, true) == "0:59:59"
  {
  }

  /** `Math.floor((now - start) / 1000)`: the whole real seconds since `startMs` (hook line 33). */
  function TickElapsed(startMs: int, nowMs: int): (r: int)
    ensures 1000 * r <= nowMs - startMs < 1000 * r + 1000
  {
    (nowMs - startMs) / 1000
  }

  /**
   * The effect of the hook when its inputs change (lines 26-27): elapsed time
   * is reset to 0 whenever the timer is not running, otherwise kept until the next tick.
   */
  function EffectElapsed(elapsed: int, isRunning: bool): (r: int)
    ensures !isRunning ==> r == 0
    ensures isRunning ==> r == elapsed
  {
    if !isRunning then 0 else elapsed
  }

  /** The string the hook returns: elapsed real seconds scaled by the multiplier (line 40). */
  function Displayed(elapsed: nat, multiplier: nat, showSeconds: bool): (t: string)
    ensures showSeconds ==> ParseHms(t) == Some(elapsed * multiplier)
    ensures !showSeconds ==> ParseHm(t) == Some(elapsed * multiplier / 60)
  {
    FormatWithSecondsRoundTrip(elapsed * multiplier);
    FormatWithoutSecondsRoundTrip(elapsed * multiplier);
    FormatTime(elapsed * multiplier, showSeconds)
  }

  /**
   * A stopped timer shows zero whatever it had counted, and a timer that is
   * stopped and started again keeps showing zero until its first tick.
   */
  lemma StoppedTimerShowsZero(elapsed: int, multiplier: nat, showSeconds: bool)
    ensures Displayed(EffectElapsed(elapsed, false), multiplier, showSeconds)
         == (if showSeconds then "0:00:00" else "0:00")
    ensures Displayed(EffectElapsed(EffectElapsed(elapsed, false), true), multiplier, showSeconds)
         == (if showSeconds then "0:00:00" else "0:00")
  {
    assert Fields(0) == (0, 0, 0);
    assert NatToString(0) == "0";
    assert Pad2(0) == "00";
  }

  /**
   * After a tick of a running timer, the displayed duration is the simulated
   * time since the start, short of it by less than one real second's worth
   * (`multiplier` simulated seconds).
   */
  lemma RunningTimerShowsTick(startMs: int, nowMs: int, multiplier: nat)
    requires startMs <= nowMs
    ensures var e := TickElapsed(startMs, nowMs);
      ParseHms(Displayed(EffectElapsed(e, true), multiplier, true)) == Some(e * multiplier)
    ensures var v := TickElapsed(startMs, nowMs) * multiplier;
      1000 * v <= (nowMs - startMs) * multiplier
      && (multiplier > 0 ==> (nowMs - startMs) * multiplier < 1000 * (v + multiplier))
  {
    var e, d := TickElapsed(startMs, nowMs), nowMs - startMs;
    ScaleBounds(e, d, multiplier);
  }

  /** Scaling `1000e <= d < 1000e + 1000` by a non-negative factor. */
  lemma ScaleBounds(e: int, d: int, k: nat)
    requires 1000 * e <= d < 1000 * e + 1000
    ensures 1000 * (e * k) <= d * k
    ensures k > 0 ==> d * k < 1000 * (e * k + k)
  {
    var p := d - 1000 * e;
    assert d * k == 1000 * (e * k) + p * k;
    assert 0 <= p * k <= 999 * k by { MulBounds(p, 999, k); }
  }

  lemma MulBounds(p: int, b: int, k: nat)
    requires 0 <= p <= b
    ensures 0 <= p * k <= b * k
  {
  }
}
