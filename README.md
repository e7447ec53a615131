# Crew-time shift timing and reconciliation, modelled in Dafny

The crew-time app lets a worker clock in to a shift only when inside the job
site's geofence, or when a testing override is on. While clocked in, it can
time individual tasks. On clock-out it reports the shift length in whole
simulated minutes. An allocation screen then makes the worker split that total
across tasks until the split matches the total exactly.

The app ships several UI versions. This model covers the timing and
reconciliation logic those versions contain:

- `common.dfy`
  - `Wrappers`: `Option`.
  - `Rounding`: JavaScript `Math.round` and `Math.floor` on integers, and rounding to a minute.
- `time_format.dfy` (`TimeFormat`): `formatTime` and the elapsed-time rule of the `useTimer` hook.
- `clock_v1.dfy` (`ClockV1`): the single-timer screen. It is a class `ClockSession` with the clock toggle and the automatic clock-out effect. The effective-inside gate `isInside || isGeofenceOverridden` is written out in its contracts.
- `task_timer_v2.dfy` (`TaskTimerV2`): the per-task timer screen, as a class `TaskTimerScreen`. It holds the clock session, one counter per task, at most one running task, and the shift-end payload.
- `reconcile.dfy` (`Reconcile`): the reconciliation rules both allocation screens share. These are the remaining amount, the exact-match gate, the button text and the clamped "Remaining" figure.
- `allocation_v1.dfy` (`AllocationV1`): the fixed-amount allocation screen.
- `allocation_v2.dfy` (`AllocationV2`): the tracked-plus-manual allocation screen.
- `hours_minutes.dfy` (`HoursMinutes`): the hours/minutes decomposition and entry clamping. The v1 card and the v4 `TimeInput` use this same code.
- `allocation_cards.dfy`
  - `AllocationCardV1`: the v1 card.
  - `AllocationCardV4`: the v4 card.
  - `AllocationCardV3`: the v3 slider's cursor-to-seconds ratio and its clamp-and-round step.

Modelling choices:

- Time is an explicit integer `now` in milliseconds.
- The time multiplier is a natural number. The testing panel offers 1, 10, 100 and 1000.
- `Math.floor(p / q)` on integers is Dafny's `p / q` with `q > 0`.
- `Math.round(p / q)` is `(2p + q) / (2q)`. This is proved to be the round-half-up value.
- `parseInt` yields an `Option<int>`, where `None` stands for NaN.
- The screens' `alert` and `onShiftEnd` side effects become method results.
- The React state updates within one handler are treated as one atomic step.
- The "at most one running task" invariant is structural: `activeTask` is an `Option`.

Behaviour of the code that the model keeps as written, though a reader might expect otherwise:

- The v1 automatic clock-out on leaving the site emits no shift-end payload. `ClockV1.LeaveSiteShift` shows that such a shift is never reported.
- A successful clock-in does not clear the "must be on site" warning.
- None of the modelled screens enforces a maximum shift length.
- None of the modelled screens asks for a second confirmation on short shifts.

## Model

| member | source | states |
|---|---|---|
| `Rounding.RoundDiv` | v2/screens/TaskTimerScreen.tsx:50 | `Math.round(p/q)`: the unique integer r with 2qr − q ≤ 2p < 2qr + q (nearest, halves up) |
| `Rounding.RoundToMinute` | v2/screens/TaskTimerScreen.tsx:84-85 | nearest whole minute: a multiple of 60 within [s−30, s+30), non-negative for s ≥ 0 |
| `Rounding.FloorToMinute` | screens/TaskTimerScreen.tsx:59-60 | whole minutes rounded down: a multiple of 60, ≤ s and > s − 60, non-negative for s ≥ 0 |
| `TimeFormat.NatToString` | hooks/useTimer.ts:11 | `toString` of a non-negative integer is non-empty, all digits, one digit exactly below 10, two digits for 10..99 |
| `TimeFormat.NatToStringRoundTrip` | hooks/useTimer.ts:11 | reading the printed hours back as a decimal gives the hours |
| `TimeFormat.Pad2` | hooks/useTimer.ts:7 | the padded field is all digits |
| `TimeFormat.Pad2RoundTrip` | hooks/useTimer.ts:7 | a padded value below 100 is exactly two digits and reads back as the value |
| `TimeFormat.Fields` | hooks/useTimer.ts:4-10 | minutes and seconds fields lie in 0..59 and hours×3600 + minutes×60 + seconds equals the input |
| `TimeFormat.FormatWithSecondsRoundTrip` | hooks/useTimer.ts:9-11 | with `showSeconds`, the output has the form `H:MM:SS` and its fields encode the duration exactly |
| `TimeFormat.FormatWithoutSecondsRoundTrip` | hooks/useTimer.ts:13-14 | without `showSeconds`, the output has the form `H:MM` and encodes ⌊s/60⌋ total minutes |
| `TimeFormat.FormatWithoutSecondsInjective` | hooks/useTimer.ts:3-15 | two durations print the same `H:MM` iff they have the same whole minutes |
| `TimeFormat.MinuteFields` | hooks/useTimer.ts:4-5 | the hours and minutes fields depend only on the whole minutes of the duration |
| `TimeFormat.TwentyFiveHours` | hooks/useTimer.ts:11-14 | hours are unpadded and unbounded: 90000 s prints `25:00`, 3599 s prints `0:59:59` |
| `TimeFormat.TickElapsed` | hooks/useTimer.ts:33 | a tick records ⌊(now − start)/1000⌋ whole real seconds |
| `TimeFormat.Displayed` | hooks/useTimer.ts:40-42 | the displayed string encodes elapsed × multiplier (its whole minutes without seconds) |
| `TimeFormat.StoppedTimerShowsZero` | hooks/useTimer.ts:25-28 | a stopped timer displays `0:00:00` (or `0:00`) whatever it had counted, and still does after it is started again, until its first tick |
| `TimeFormat.RunningTimerShowsTick` | hooks/useTimer.ts:31-35 | after a tick of a running timer, the display reads back as exactly ⌊(now − start)/1000⌋ × multiplier seconds. That value is at most the simulated time since the start and less than one real second's worth (`multiplier` seconds) below it |
| `ClockV1.ShiftSeconds` | screens/TaskTimerScreen.tsx:56-60 | the reported shift is a multiple of 60, never above ⌊elapsed ms/1000⌋ × multiplier and less than a minute below it, non-negative when now ≥ clock-in |
| `ClockV1.ClockSession.constructor` | screens/TaskTimerScreen.tsx:18-19 | a session starts clocked out with no clock-in time and no warning |
| `ClockV1.ClockSession.ClockToggle` | screens/TaskTimerScreen.tsx:41-66 | clocked out and not effectively inside: refused, warning set, state unchanged. Clocked out and effectively inside: clocked in with `clockInTime = now`. Clocked in: clock-out (never gated) emits the rounded-down shift only when a clock-in time exists, and clears it. Keeps `Valid()` |
| `ClockV1.ClockSession.LocationChanged` | screens/TaskTimerScreen.tsx:68-76 | clocked in and not effectively inside: clocked out, clock-in time cleared, alert raised, and no payload. Otherwise nothing changes |
| `ClockV1.LeaveSiteShift` | screens/TaskTimerScreen.tsx:41-76 | after an automatic clock-out, the next press off site is a refused clock-in, so the auto-ended shift is never reported |
| `TaskTimerV2.RunSeconds` | v2/screens/TaskTimerScreen.tsx:49-50 | a task run adds round((now − start) × multiplier / 1000) seconds, non-negative when now ≥ start |
| `TaskTimerV2.Flush` | v2/screens/TaskTimerScreen.tsx:48-51 | flushing adds the run's seconds to the running task only. Every other task is unchanged, the key set is unchanged, and no counter decreases when time has not gone backwards |
| `TaskTimerV2.NextActive` | v2/screens/TaskTimerScreen.tsx:53-57 | toggling the running task leaves none running. Toggling any other task (or any task when none runs) makes it the running task with `startTime = now` |
| `TaskTimerV2.ShiftSeconds` | v2/screens/TaskTimerScreen.tsx:79-85 | the shift total is a multiple of 60 within 30 s of ⌊elapsed ms × multiplier / 1000⌋. It is 0 without a clock-in time and non-negative when now ≥ clock-in |
| `TaskTimerV2.ZeroTimers` | v2/screens/TaskTimerScreen.tsx:92 | the reset gives exactly one counter per listed task, each 0 |
| `TaskTimerV2.NextShiftStartsFromZero` | v2/screens/TaskTimerScreen.tsx:44-51 | after the reset, a task's first run of the next shift is credited exactly its run time, and every other task reports 0, so no time carries over between shifts |
| `TaskTimerV2.TaskTimerScreen.constructor` | v2/screens/TaskTimerScreen.tsx:18-27 | every task timer at 0, no running task, clocked out |
| `TaskTimerV2.TaskTimerScreen.TaskTimerToggle` | v2/screens/TaskTimerScreen.tsx:41-60 | when not clocked in, nothing changes. Otherwise the timers become `Flush(old timers)` and the running task becomes `NextActive`. Keeps `Valid()` (a running task only while clocked in) |
| `TaskTimerV2.TaskTimerScreen.ClockToggle` | v2/screens/TaskTimerScreen.tsx:63-101 | a refused clock-in only sets the warning. Clock-in records `now`. Clock-out (never gated) emits `ShiftSeconds` with the flushed timers, then resets every timer to 0 and clears the running task and the clock-in time |
| `TaskTimerV2.SwitchingShift` | v2/screens/TaskTimerScreen.tsx:41-101 | worked shift: switching after a 125 s run credits task 1 with exactly 125 s, and the 186 s shift is reported as 180 s with per-task times {1: 125, 2: 60} |
| `Reconcile.ButtonTextCarriesAmount` | v2/screens/TimeAllocationScreen.tsx:60-69 | exact: the approval label. Under-allocated: "Allocate remaining " followed by `H:MM` that reads back as the remaining whole minutes. Over-allocated: "Overallocated by " followed by `H:MM` of the absolute amount |
| `Reconcile.PrefixedAmount` | v2/screens/TimeAllocationScreen.tsx:65 | a message followed by a formatted amount splits back into the message and the amount's whole minutes |
| `Reconcile.ButtonTextFirstLetter` | v2/screens/TimeAllocationScreen.tsx:60-69 | the button text is non-empty and its first letter is the label's (exact), `A` (under) or `O` (over) |
| `Reconcile.ButtonTextApprovalIffExact` | v2/screens/TimeAllocationScreen.tsx:60-69 | the button shows the approval label iff remaining is exactly 0 |
| `Reconcile.ButtonTextDeterminesRemaining` | v2/screens/TimeAllocationScreen.tsx:60-69 | for whole-minute amounts, the button text distinguishes exact, every under-allocated amount and every over-allocated amount (printed as its absolute value) |
| `Reconcile.DeltaTextDeterminesAmount` | v2/screens/TimeAllocationScreen.tsx:64-68 | behind one prefix, the printed `H:MM` of whole-minute amounts determines the amount |
| `Reconcile.DisplayedRemaining` | v2/screens/TimeAllocationScreen.tsx:91 | the "Remaining" figure is `max(0, remaining)` |
| `Reconcile.Summarize` | v2/screens/TimeAllocationScreen.tsx:47-69 | remaining = total − allocated. Submission is disabled iff allocated ≠ total (both under and over). The button text is `ButtonText` of the remaining amount, so it agrees with the gate and carries the amount short or over. The "Remaining" figure is the clamped amount |
| `AllocationV2.SeedTracked` | v2/screens/TimeAllocationScreen.tsx:27-31 | tracked time is seeded to the nearest whole minute of the reported time, or to 0 for a task absent from the payload |
| `AllocationV2.InitialAllocations` | v2/screens/TimeAllocationScreen.tsx:25-36 | one allocation per listed task and no other: tracked time in whole minutes within half a minute of the payload (0 when the payload omits the task), manual time 0 |
| `AllocationV2.TotalAllocated` | v2/screens/TimeAllocationScreen.tsx:41-45 | the tracked+manual sum is never negative when no tracked or manual entry is |
| `AllocationV2.InitialTotalIsWholeMinutes` | v2/screens/TimeAllocationScreen.tsx:25-45 | the seeded allocations add up to whole minutes, like the rounded shift total they are reconciled against |
| `AllocationV2.SetField` | v2/screens/TimeAllocationScreen.tsx:53-56 | an edit replaces only the named field and keeps the other |
| `AllocationV2.TotalIgnoresUnlisted` | v2/screens/TimeAllocationScreen.tsx:41-45 | the allocated total depends only on the listed tasks |
| `AllocationV2.TotalAfterChange` | v2/screens/TimeAllocationScreen.tsx:41-58 | replacing one task's allocation changes the tracked+manual sum by exactly the difference |
| `AllocationV2.TotalOfWholeMinutes` | v2/screens/TimeAllocationScreen.tsx:41-45 | allocations in whole minutes sum to whole minutes |
| `AllocationV2.TimeAllocationScreen.constructor` | v2/screens/TimeAllocationScreen.tsx:25-36 | one allocation per task: the seeded tracked time and 0 manual time |
| `AllocationV2.TimeAllocationScreen.AllocationChange` | v2/screens/TimeAllocationScreen.tsx:50-58 | replaces field `type` of task `id` only, and the allocated total moves by the difference |
| `AllocationV2.TimeAllocationScreen.Summary` | v2/screens/TimeAllocationScreen.tsx:41-69 | the rendered allocated total is the tracked+manual sum. Submission is enabled iff it equals the shift total, and the approval text appears exactly then. The whole summary is `Summarize` of the shift total and that sum, so the delta texts and the "Remaining" figure follow |
| `AllocationV1.TotalAllocated` | screens/TimeAllocationScreen.tsx:23-26 | the sum of the amounts is never negative when no amount is |
| `AllocationV1.TotalOfEmpty` | screens/TimeAllocationScreen.tsx:19-26 | with no allocations the total is 0 |
| `AllocationV1.TotalIgnoresUnlisted` | screens/TimeAllocationScreen.tsx:23-26 | the allocated total depends only on the listed tasks |
| `AllocationV1.TotalAfterChange` | screens/TimeAllocationScreen.tsx:23-36 | setting one task's amount changes the total by exactly the difference |
| `AllocationV1.TimeAllocationScreen.constructor` | screens/TimeAllocationScreen.tsx:19 | allocations start empty, so the allocated total is 0 |
| `AllocationV1.TimeAllocationScreen.AllocationChange` | screens/TimeAllocationScreen.tsx:31-36 | sets task `id` to `seconds`, leaves every other entry unchanged, and the total moves by the difference |
| `AllocationV1.TimeAllocationScreen.Summary` | screens/TimeAllocationScreen.tsx:23-47 | allocated = sum of amounts. Submission is enabled iff the sum equals the shift total, and "Confirm Allocation" is shown exactly then. The whole summary is `Summarize` of the shift total and that sum |
| `HoursMinutes.Hours` | v4/components/AllocationTaskCard.tsx:13 | the displayed hours are the whole hours: h×3600 ≤ s < h×3600 + 3600 |
| `HoursMinutes.Minutes` | v4/components/AllocationTaskCard.tsx:14 | the displayed minutes lie in 0..59 |
| `HoursMinutes.ClampHours` | v4/components/AllocationTaskCard.tsx:17-18 | a NaN or negative hours entry becomes 0; any other entry is kept |
| `HoursMinutes.ClampMinutes` | v4/components/AllocationTaskCard.tsx:23-28 | a minutes entry is clamped to [0, 59], and NaN becomes 0 |
| `HoursMinutes.ToSeconds` | v4/components/AllocationTaskCard.tsx:83 | h×3600 + m×60 is whole minutes and, for m < 60, decomposes back into hours h and minutes m |
| `HoursMinutes.ToSecondsOfFields` | v4/components/AllocationTaskCard.tsx:13-14 | re-emitting the displayed (hours, minutes) gives the amount rounded down to a whole minute |
| `AllocationCardV1.HoursChanged` | components/AllocationTaskCard.tsx:24-28 | an hours edit emits whole minutes whose hours are the clamped entry and whose minutes are the current ones |
| `AllocationCardV1.MinutesChanged` | components/AllocationTaskCard.tsx:30-38 | a minutes edit emits whole minutes whose minutes are the clamped entry and whose hours are the current ones |
| `AllocationCardV1.ReenterHours` | components/AllocationTaskCard.tsx:16-28 | re-entering the shown hours rounds the amount down to a whole minute |
| `AllocationCardV4.HoursEntered` | v4/components/AllocationTaskCard.tsx:16-20 | an hours edit passes the clamped hours and the current minutes (< 60) |
| `AllocationCardV4.MinutesEntered` | v4/components/AllocationTaskCard.tsx:22-30 | a minutes edit passes the current hours and the clamped minutes |
| `AllocationCardV4.TimeChange` | v4/components/AllocationTaskCard.tsx:82-85 | reports h×3600 + m×60 for the given field only: whole minutes that decompose back to (h, m) |
| `AllocationCardV4.ReemitShownFields` | v4/components/AllocationTaskCard.tsx:13-14 | re-emitting the shown fields gives the amount rounded down to a whole minute |
| `AllocationCardV4.TaskTotal` | v4/components/AllocationTaskCard.tsx:87 | the card total is the allocation's seconds as the screen counts them |
| `AllocationCardV4.CardTotalsAddUp` | v4/components/AllocationTaskCard.tsx:87 | hosted by a screen with the v2 allocation rules, the card totals of the listed tasks add up to that screen's allocated total |
| `AllocationCardV4.CardEditMovesScreenTotal` | v4/components/AllocationTaskCard.tsx:82-85 | hosted by a screen with the v2 allocation rules, an edit entered on one card moves that screen's allocated total by exactly as much as the card's total |
| `AllocationCardV4.ZeroEditIffZeroFields` | v4/components/AllocationTaskCard.tsx:82-84 | an edit reports 0 seconds iff both entered fields are 0 |
| `AllocationCardV4.NoteOnlyForAdjustments` | v4/components/AllocationTaskCard.tsx:134 | after a manual edit the note shows iff the new manual time is above 0 or tracked time was already cut. After a tracked edit it shows iff manual time was already added or the new tracked time is below the original |
| `AllocationCardV4.SeededCardShowsNoNote` | v4/components/AllocationTaskCard.tsx:134 | a card seeded by the v2 allocation rules shows the note iff the original tracked time its host passes exceeds the seeded tracked time. So there is no note when the host passes the seeded time, and there is one when it passes a payload value that seeding rounded down |
| `AllocationCardV3.CandidateSeconds` | v3/components/AllocationTaskCard.tsx:37-39 | the cursor-derived manual amount is never negative (it comes from `max(0, …)` pixels) |
| `AllocationCardV3.RoundRealToMinute` | v3/components/AllocationTaskCard.tsx:44-45 | `Math.round(x/60)×60` on a real: a multiple of 60 within half a minute of x |
| `AllocationCardV3.SliderValue` | v3/components/AllocationTaskCard.tsx:41-45 | clamp to `maxManualSeconds`, then round: a multiple of 60, at most max + 30, non-negative for non-negative inputs |
| `AllocationCardV3.RoundingsAgree` | v3/components/AllocationTaskCard.tsx:45 | on a whole number of seconds the slider's rounding equals the screens' integer `Rounding.RoundToMinute` |
| `AllocationCardV3.MouseMove` | v3/components/AllocationTaskCard.tsx:28-50 | nothing unless dragging. While dragging, the reported value is exactly `SliderValue` of the candidate (whole minutes, at most max + 30), and it is reported iff it differs from the current manual seconds |
| `AllocationCardV3.DragReportsNonNegative` | v3/components/AllocationTaskCard.tsx:37-48 | with the candidate taken from the cursor on a slider of positive width, a drag reports a value between 0 and the budget + 30 |
| `AllocationCardV3.MoveIsIdempotent` | v3/components/AllocationTaskCard.tsx:47-49 | once a reported change is applied, a move to the same position reports nothing |

## Left out

- The geofence distance computation. It is in `useGeolocation`, which is not part of this model. The simulated-location latitude offset is floating-point. The model takes `isInside` as a boolean, with an unresolved location as `false`.
- The `setTimeout` that hides the geofence warning after 5 s (v1) or 3 s (v2). The model only records that the warning is shown.
- The `setInterval` ticks of `useTimer` and of the v2 screen. Time is passed as `now`, and the hook's state updates are modelled as the functions `EffectElapsed` and `TickElapsed`.
- TimeFormat.FormatTime: does not model negative or fractional inputs. Every modelled caller passes a non-negative whole number of seconds.
- TaskTimerV2.ShiftSeconds: models `Math.floor((ms / 1000) × multiplier)` in exact rational arithmetic. It does not model floating-point rounding of that product.
- TaskTimerV2.TaskTimerScreen.TaskTimerToggle: requires the toggled id to be one of the screen's tasks. Adding to a missing key would give NaN in the source, and the task list only offers listed ids.
- AllocationV2.TimeAllocationScreen.AllocationChange: requires a listed task id, since each card reports its own task. NaN allocations, which `|| 0` maps to 0, are not modelled.
- AllocationV1.TimeAllocationScreen.AllocationChange: requires a listed task id, for the same reason.
- The v4 allocation screen (`v4/screens/TimeAllocationScreen.tsx`) that hosts the v4 card is not part of this model, and neither is the card the v2 screen draws. `CardTotalsAddUp`, `CardEditMovesScreenTotal` and `SeededCardShowsNoNote` relate the v4 card to a host with the v2 screen's allocation rules. `SeededCardShowsNoNote` takes the `originalTrackedSeconds` the host passes as a parameter.
- The percentages of the visual allocation bars, including their unguarded division by `totalShiftSeconds`. The slider's tracked-edge position (v3 line 35) is a parameter of `CandidateSeconds`, which models the cursor-to-seconds ratio of lines 37-39.
- AllocationCardV3.CandidateSeconds: requires a slider of positive width. With zero width the source divides by 0. The result is NaN when the cursor is at or left of the tracked edge (0/0), and the move then reports NaN. Otherwise it is +Infinity, which `Math.min` clamps to `maxManualSeconds`, so a finite value is reported.
- AllocationCardV3.SliderValue: computes in exact real arithmetic where the source uses IEEE doubles. Rounding errors of the pixel ratio, of the product and of `Math.round` on values near a half minute are not modelled. The same holds for `CandidateSeconds` and `RoundRealToMinute`.
- The v3 drag listeners, the `sliderRef` null check, and the note text and its expansion state (UI only).
- The confirm and cancel handlers. They belong to the hosting app, which only clears its pending shift data, and both buttons call the same handler.
- Navigation, the testing panel, drag-to-scroll, control-centre styling and the task list accordion. These are presentation only.
