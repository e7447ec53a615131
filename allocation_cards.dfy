/**
 * The fixed-allocation task card: the allocated amount is shown as hours and
 * minutes, and editing either field re-emits the whole amount in seconds for
 * this card's task.
 */
module AllocationCardV1 {
  import opened Wrappers
  import opened HoursMinutes

  /** `handleHoursChange`: the clamped hours entry with the current minutes, in seconds. */
  function HoursChanged(allocatedSeconds: nat, entry: Option<int>): (r: nat)
    ensures r % 60 == 0
    ensures Hours(r) == ClampHours(entry)
    ensures Minutes(r) == Minutes(allocatedSeconds)
  {
    ToSeconds(ClampHours(entry), Minutes(allocatedSeconds))
  }

  /** `handleMinutesChange`: the current hours with the clamped minutes entry, in seconds. */
  function MinutesChanged(allocatedSeconds: nat, entry: Option<int>): (r: nat)
    ensures r % 60 == 0
    ensures Hours(r) == Hours(allocatedSeconds)
    ensures Minutes(r) == ClampMinutes(entry)
  {
    ToSeconds(Hours(allocatedSeconds), ClampMinutes(entry))
  }

  /** Re-entering the hours already shown rounds the amount down to a whole minute. */
  lemma ReenterHours(allocatedSeconds: nat)
    ensures HoursChanged(allocatedSeconds, Some(Hours(allocatedSeconds))) == (allocatedSeconds / 60) * 60
  {
    ToSecondsOfFields(allocatedSeconds);
  }
}

/**
 * The tracked-plus-manual task card: one `TimeInput` per half of the
 * allocation, each emitting (hours, minutes) that the card converts to seconds
 * and reports for the input's field; the card's total; and when the note
 * section is offered.
 */
module AllocationCardV4 {
  import opened Wrappers
  import opened HoursMinutes
  import AllocationV2
  import Reconcile

  /** `TimeInput.handleHoursChange`: (clamped hours entry, current minutes). */
  function HoursEntered(totalSeconds: nat, entry: Option<int>): (hm: (nat, nat))
    ensures hm.0 == ClampHours(entry) && hm.1 == Minutes(totalSeconds)
    ensures hm.1 < 60
  {
    (ClampHours(entry), Minutes(totalSeconds))
  }

  /** `TimeInput.handleMinutesChange`: (current hours, clamped minutes entry). */
  function MinutesEntered(totalSeconds: nat, entry: Option<int>): (hm: (nat, nat))
    ensures hm.0 == Hours(totalSeconds) && hm.1 == ClampMinutes(entry)
    ensures hm.1 < 60
  {
    (Hours(totalSeconds), ClampMinutes(entry))
  }

  /** What `handleTimeChange` reports: which field of this card's task, and its new seconds. */
  datatype Edit = Edit(field: AllocationV2.Field, seconds: nat)

  /** `handleTimeChange(field, h, m)`: reports `h * 3600 + m * 60` for the given field only. */
  function TimeChange(field: AllocationV2.Field, hm: (nat, nat)): (e: Edit)
    requires hm.1 < 60
    ensures e.field == field
    ensures e.seconds % 60 == 0
    ensures Hours(e.seconds) == hm.0 && Minutes(e.seconds) == hm.1
  {
    Edit(field, ToSeconds(hm.0, hm.1))
  }

  /** Re-emitting the fields a `TimeInput` shows gives its amount rounded down to a whole minute. */
  lemma ReemitShownFields(field: AllocationV2.Field, totalSeconds: nat)
    ensures TimeChange(field, (Hours(totalSeconds), Minutes(totalSeconds))).seconds == (totalSeconds / 60) * 60
  {
    ToSecondsOfFields(totalSeconds);
  }

  /** The card's total: tracked plus manual, the task's share of the screen's allocated total. */
  function TaskTotal(trackedSeconds: int, manualSeconds: int): (t: int)
    ensures t - manualSeconds == trackedSeconds
    ensures t == AllocationV2.AllocationSeconds(AllocationV2.Allocation(trackedSeconds, manualSeconds))
  {
    trackedSeconds + manualSeconds
  }

  /** The card totals of the listed tasks, added up. */
  function CardTotals(tasks: seq<AllocationV2.TaskId>, allocations: map<AllocationV2.TaskId, AllocationV2.Allocation>): int
    requires forall id :: id in tasks ==> id in allocations
  {
    if tasks == [] then 0
    else
      var last := tasks[|tasks| - 1];
      assert last in tasks;
      CardTotals(tasks[..|tasks| - 1], allocations) + TaskTotal(allocations[last].tracked, allocations[last].manual)
  }

  /** The card totals add up to the allocated total the screen checks against the shift. */
  lemma {:induction false} CardTotalsAddUp(tasks: seq<AllocationV2.TaskId>, allocations: map<AllocationV2.TaskId, AllocationV2.Allocation>)
    requires forall id :: id in tasks ==> id in allocations
    ensures CardTotals(tasks, allocations) == AllocationV2.TotalAllocated(tasks, allocations)
  {
    if tasks != [] {
      CardTotalsAddUp(tasks[..|tasks| - 1], allocations);
    }
  }

  /**
   * An edit entered on one card moves the screen's allocated total by exactly
   * as much as it moves that card's total.
   */
  lemma CardEditMovesScreenTotal(tasks: seq<AllocationV2.TaskId>, allocations: map<AllocationV2.TaskId, AllocationV2.Allocation>,
                                 id: AllocationV2.TaskId, field: AllocationV2.Field, hm: (nat, nat))
    requires Reconcile.Distinct(tasks)
    requires forall t :: t in tasks ==> t in allocations
    requires id in tasks && hm.1 < 60
    ensures var a := allocations[id];
      var e := TimeChange(field, hm);
      var b := AllocationV2.SetField(a, e.field, e.seconds);
      AllocationV2.TotalAllocated(tasks, allocations[id := b]) - AllocationV2.TotalAllocated(tasks, allocations)
        == TaskTotal(b.tracked, b.manual) - TaskTotal(a.tracked, a.manual)
  {
    var e := TimeChange(field, hm);
    AllocationV2.TotalAfterChange(tasks, allocations, id, AllocationV2.SetField(allocations[id], e.field, e.seconds));
  }

  /** The note section is offered when time was added by hand or tracked time was cut. */
  predicate ShowsNote(originalTrackedSeconds: int, trackedSeconds: int, manualSeconds: int) {
    manualSeconds > 0 || trackedSeconds < originalTrackedSeconds
  }

  /** An edit reports 0 seconds exactly when both of its fields are 0. */
  lemma ZeroEditIffZeroFields(field: AllocationV2.Field, hm: (nat, nat))
    requires hm.1 < 60
    ensures TimeChange(field, hm).seconds == 0 <==> hm.0 == 0 && hm.1 == 0
  {
    var h, m := hm.0, hm.1;
    assert TimeChange(field, hm).seconds == h * 3600 + m * 60;
  }

  /**
   * What one edit does to the note section: setting the manual time offers it
   * exactly when that time is above 0 or tracked time was already cut below the
   * original; setting the tracked time offers it exactly when manual time was
   * already added or the new tracked time is below the original.
   */
  lemma NoteOnlyForAdjustments(original: int, a: AllocationV2.Allocation, field: AllocationV2.Field, seconds: nat)
    ensures var b := AllocationV2.SetField(a, field, seconds);
      field == AllocationV2.Manual ==> (ShowsNote(original, b.tracked, b.manual) <==> seconds > 0 || a.tracked < original)
    ensures var b := AllocationV2.SetField(a, field, seconds);
      field == AllocationV2.Tracked ==> (ShowsNote(original, b.tracked, b.manual) <==> a.manual > 0 || seconds < original)
  {
  }

  /**
   * A card seeded by the v2 allocation rules, against whatever original tracked
   * time its host passes: the note is offered exactly when that original exceeds
   * the seeded tracked time. So a host passing the seeded time shows no note,
   * while one passing a payload value that seeding rounded down shows it.
   */
  lemma SeededCardShowsNoNote(tasks: seq<AllocationV2.TaskId>, initialAllocations: map<AllocationV2.TaskId, int>,
                              id: AllocationV2.TaskId, original: int)
    requires id in tasks
    ensures id in AllocationV2.InitialAllocations(tasks, initialAllocations)
    ensures var a := AllocationV2.InitialAllocations(tasks, initialAllocations)[id];
      ShowsNote(original, a.tracked, a.manual) <==> a.tracked < original
    ensures var a := AllocationV2.InitialAllocations(tasks, initialAllocations)[id];
      !ShowsNote(a.tracked, a.tracked, a.manual)
  {
    var seeded := AllocationV2.InitialAllocations(tasks, initialAllocations);
    assert id in seeded.Keys;
  }
}

/**
 * The slider card: dragging sets a task's manual time. The candidate amount
 * comes from the cursor position; it is clamped to the task's manual budget,
 * rounded to the nearest whole minute, and reported only when it changes.
 */
module AllocationCardV3 {
  import opened Wrappers
  import Rounding

  function MinReal(a: real, b: real): real {
    if a <= b then a else b
  }

  /**
   * `(Math.max(0, cursorX - trackedPixels) / totalPixels) * totalShiftSeconds`:
   * the manual seconds the cursor position stands for.
   */
  function CandidateSeconds(cursorX: real, trackedPixels: real, totalPixels: real, totalShiftSeconds: int): (c: real)
    requires totalPixels > 0.0
    ensures totalShiftSeconds >= 0 ==> c >= 0.0
  {
    var manualPixels := if cursorX - trackedPixels > 0.0 then cursorX - trackedPixels else 0.0;
    var ratio := manualPixels / totalPixels;
    assert ratio >= 0.0;
    NonNegativeProduct(ratio, totalShiftSeconds as real);
    ratio * totalShiftSeconds as real
  }

  lemma NonNegativeProduct(a: real, b: real)
    requires a >= 0.0
    ensures b >= 0.0 ==> a * b >= 0.0
  {
  }

  /** `Math.round(x / 60) * 60` for a real number of seconds. */
  function RoundRealToMinute(x: real): (r: int)
    ensures r % 60 == 0
    ensures r as real - 30.0 <= x < r as real + 30.0
  {
    var k := (x / 60.0 + 0.5).Floor;
    assert k as real <= x / 60.0 + 0.5 < k as real + 1.0;
    k * 60
  }

  /** The clamp-then-round step: a whole minute within half a minute of `min(candidate, maxManualSeconds)`. */
  function SliderValue(candidate: real, maxManualSeconds: int): (r: int)
    ensures r % 60 == 0
    ensures r <= maxManualSeconds + 30
    ensures candidate >= 0.0 && maxManualSeconds >= 0 ==> r >= 0
    ensures r as real - 30.0 <= MinReal(candidate, maxManualSeconds as real) < r as real + 30.0
  {
    RoundRealToMinute(MinReal(candidate, maxManualSeconds as real))
  }

  /**
   * `handleMouseMove`: nothing unless a drag is in progress; otherwise the
   * rounded value is reported exactly when it differs from the current manual time.
   */
  function MouseMove(isDragging: bool, candidate: real, maxManualSeconds: int, manualSeconds: int): (report: Option<int>)
    ensures !isDragging ==> report == None
    ensures report.Some? ==> report.value == SliderValue(candidate, maxManualSeconds)
    ensures report.Some? ==> report.value != manualSeconds && report.value % 60 == 0
    ensures report.Some? ==> report.value <= maxManualSeconds + 30
    ensures isDragging ==> (report.Some? <==> SliderValue(candidate, maxManualSeconds) != manualSeconds)
  {
    if !isDragging then None
    else
      var rounded := SliderValue(candidate, maxManualSeconds);
      if rounded != manualSeconds then Some(rounded) else None
  }

  /** A move to the same position after the reported change has been applied reports nothing. */
  lemma MoveIsIdempotent(candidate: real, maxManualSeconds: int, manualSeconds: int)
    ensures var report := MouseMove(true, candidate, maxManualSeconds, manualSeconds);
      report.Some? ==> MouseMove(true, candidate, maxManualSeconds, report.value) == None
  {
  }

  /**
   * A drag reads its candidate from the cursor: on a slider of positive width,
   * with a non-negative shift total and budget, any reported value is non-negative.
   */
  lemma DragReportsNonNegative(cursorX: real, trackedPixels: real, totalPixels: real, totalShiftSeconds: int,
                               maxManualSeconds: int, manualSeconds: int)
    requires totalPixels > 0.0 && totalShiftSeconds >= 0 && maxManualSeconds >= 0
    ensures var report := MouseMove(true, CandidateSeconds(cursorX, trackedPixels, totalPixels, totalShiftSeconds),
                                    maxManualSeconds, manualSeconds);
      report.Some? ==> 0 <= report.value <= maxManualSeconds + 30
  {
  }

  /** On a whole number of seconds the slider's rounding agrees with the integer rounding of the screens. */
  lemma RoundingsAgree(s: int)
    ensures RoundRealToMinute(s as real) == Rounding.RoundToMinute(s)
  {
    var r1, r2 := RoundRealToMinute(s as real), Rounding.RoundToMinute(s);
    assert r1 - 30 <= s < r1 + 30;
    assert r1 == 60 * (r1 / 60) && r2 == 60 * (r2 / 60);
    assert -60 < r1 - r2 < 60;
    assert -1 < r1 / 60 - r2 / 60 < 1;
  }
}
