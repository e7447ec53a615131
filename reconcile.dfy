/**
 * The reconciliation rule shared by both allocation screens: what remains to
 * allocate, the exact-match submission gate, the footer button's text and the
 * clamped "Remaining" figure.
 */
module Reconcile {
  import opened Wrappers
  import opened TimeFormat

  /** Task ids in the order the screen lists them; no task appears twice. */
  predicate Distinct(tasks: seq<int>) {
    forall i, j :: 0 <= i < j < |tasks| ==> tasks[i] != tasks[j]
  }

  /**
   * The footer button's text: the screen's approval label when nothing remains,
   * otherwise the unallocated or overallocated amount printed as `H:MM`.
   */
  function ButtonText(approvalLabel: string, remaining: int): string {
    if remaining == 0 then approvalLabel
    else if remaining > 0 then UnderMessage + FormatTime(remaining, false)
    else OverMessage + FormatTime(-remaining, false)
  }

  const UnderMessage: string := "Allocate remaining "
  const OverMessage: string := "Overallocated by "

  /**
   * A delta text starts with its message and ends with the amount short or
   * over, in `H:MM`, which reads back as that amount's whole minutes.
   */
  lemma ButtonTextCarriesAmount(approvalLabel: string, remaining: int)
    ensures remaining == 0 ==> ButtonText(approvalLabel, remaining) == approvalLabel
    ensures remaining > 0 ==> var t, k := ButtonText(approvalLabel, remaining), |UnderMessage|;
      |t| > k && t[..k] == UnderMessage && ParseHm(t[k..]) == Some(remaining / 60)
    ensures remaining < 0 ==> var t, k := ButtonText(approvalLabel, remaining), |OverMessage|;
      |t| > k && t[..k] == OverMessage && ParseHm(t[k..]) == Some(-remaining / 60)
  {
    if remaining > 0 {
      PrefixedAmount(UnderMessage, remaining);
    } else if remaining < 0 {
      var over: nat := -remaining;
      assert ButtonText(approvalLabel, remaining) == OverMessage + FormatTime(over, false);
      PrefixedAmount(OverMessage, over);
    }
  }

  /** A message followed by an amount in `H:MM`: the message, then text that reads back as the whole minutes. */
  lemma PrefixedAmount(prefix: string, amount: nat)
    ensures var t := prefix + FormatTime(amount, false);
      |t| > |prefix| && t[..|prefix|] == prefix && ParseHm(t[|prefix|..]) == Some(amount / 60)
  {
    var d := FormatTime(amount, false);
    FormatWithoutSecondsRoundTrip(amount);
    assert (prefix + d)[|prefix|..] == d;
  }

  /** A label that cannot be mistaken for either delta message. */
  predicate DistinctLabel(approvalLabel: string) {
    |approvalLabel| > 0 && approvalLabel[0] != 'A' && approvalLabel[0] != 'O'
  }

  /** The first letter of the button text tells the three states apart. */
  lemma ButtonTextFirstLetter(approvalLabel: string, remaining: int)
    requires DistinctLabel(approvalLabel)
    ensures |ButtonText(approvalLabel, remaining)| > 0
    ensures ButtonText(approvalLabel, remaining)[0]
         == if remaining == 0 then approvalLabel[0] else if remaining > 0 then 'A' else 'O'
  {
  }

  /** The approval label is shown exactly when the allocation matches the shift total. */
  lemma ButtonTextApprovalIffExact(approvalLabel: string, remaining: int)
    requires DistinctLabel(approvalLabel)
    ensures ButtonText(approvalLabel, remaining) == approvalLabel <==> remaining == 0
  {
    ButtonTextFirstLetter(approvalLabel, remaining);
  }

  /**
   * For whole-minute amounts the button text tells apart every state: exact,
   * the amount still to allocate, and the amount overallocated.
   */
  lemma ButtonTextDeterminesRemaining(approvalLabel: string, r1: int, r2: int)
    requires DistinctLabel(approvalLabel)
    requires r1 % 60 == 0 && r2 % 60 == 0
    ensures ButtonText(approvalLabel, r1) == ButtonText(approvalLabel, r2) <==> r1 == r2
  {
    if ButtonText(approvalLabel, r1) == ButtonText(approvalLabel, r2) {
      ButtonTextFirstLetter(approvalLabel, r1);
      ButtonTextFirstLetter(approvalLabel, r2);
      if r1 == 0 || r2 == 0 {
        ButtonTextApprovalIffExact(approvalLabel, r1);
        ButtonTextApprovalIffExact(approvalLabel, r2);
      } else if r1 > 0 {
        DeltaTextDeterminesAmount(UnderMessage, r1, r2);
      } else {
        DeltaTextDeterminesAmount(OverMessage, -r1, -r2);
      }
    }
  }

  /** Behind one fixed prefix, the printed `H:MM` of whole-minute amounts determines the amount. */
  lemma DeltaTextDeterminesAmount(prefix: string, a: nat, b: nat)
    requires a % 60 == 0 && b % 60 == 0
    requires prefix + FormatTime(a, false) == prefix + FormatTime(b, false)
    ensures a == b
  {
    var t1, t2 := prefix + FormatTime(a, false), prefix + FormatTime(b, false);
    assert t1[|prefix|..] == FormatTime(a, false);
    assert t2[|prefix|..] == FormatTime(b, false);
    FormatWithoutSecondsInjective(a, b);
  }

  /** `Math.max(0, remaining)`: the "Remaining" figure never shows a negative amount. */
  function DisplayedRemaining(remaining: int): (d: nat)
    ensures d >= remaining
    ensures d == remaining || d == 0
  {
    if remaining > 0 then remaining else 0
  }

  /** What the allocation screen renders from its totals. */
  datatype Summary = Summary(
    allocatedSeconds: int,
    remaining: int,
    submissionDisabled: bool,
    buttonText: string,
    displayedRemaining: nat)

  /**
   * The screen's derived figures: `remaining = total - allocated`, submission
   * blocked unless the difference is exactly zero (under- and over-allocation
   * alike), and the button's text agreeing with the gate.
   */
  function Summarize(approvalLabel: string, totalShiftSeconds: int, allocatedSeconds: int): (s: Summary)
    requires DistinctLabel(approvalLabel)
    ensures s.allocatedSeconds == allocatedSeconds
    ensures s.allocatedSeconds + s.remaining == totalShiftSeconds
    ensures s.submissionDisabled <==> allocatedSeconds != totalShiftSeconds
    ensures s.buttonText == approvalLabel <==> !s.submissionDisabled
    ensures s.buttonText == ButtonText(approvalLabel, s.remaining)
    ensures s.displayedRemaining == DisplayedRemaining(s.remaining)
  {
    var remaining := totalShiftSeconds - allocatedSeconds;
    ButtonTextApprovalIffExact(approvalLabel, remaining);
    Summary(allocatedSeconds, remaining, remaining != 0, ButtonText(approvalLabel, remaining), DisplayedRemaining(remaining))
  }
}
