/**
 * The single-timer shift screen: a clock session gated by the geofence, which
 * reports the shift length, rounded down to whole simulated minutes, when the
 * worker clocks out, and which clocks the worker out without a report when
 * they leave the job site.
 */
module ClockV1 {
  import opened Wrappers
  import opened Rounding

  /**
   * The reported shift length: whole real seconds since clock-in, scaled by the
   * multiplier, rounded down to a whole minute.
   */
  function ShiftSeconds(clockInTime: int, now: int, multiplier: nat): (r: int)
    ensures r % 60 == 0
    ensures r <= ((now - clockInTime) / 1000) * multiplier < r + 60
    ensures now >= clockInTime ==> r >= 0
  {
    FloorToMinute(((now - clockInTime) / 1000) * multiplier)
  }

  /** What a press of the clock button did. */
  datatype ToggleOutcome =
    | Refused                                   // outside the job site: warning shown, nothing else changes
    | ClockedIn
    | ClockedOut(shiftSeconds: Option<int>)     // the `onShiftEnd` payload, if one was emitted

  class ClockSession {
    var isClockedIn: bool
    var clockInTime: Option<int>
    var showGeofenceWarning: bool

    /** A clock-in time is recorded exactly while clocked in. */
    ghost predicate Valid()
      reads this
    {
      isClockedIn <==> clockInTime.Some?
    }

    constructor ()
      ensures Valid()
      ensures !isClockedIn && clockInTime == None && !showGeofenceWarning
    {
      isClockedIn := false;
      clockInTime := None;
      showGeofenceWarning := false;
    }

    /** `handleClockToggle` at time `now` (ms). */
    method ClockToggle(isInside: bool, isGeofenceOverridden: bool, now: int, multiplier: nat) returns (outcome: ToggleOutcome)
      modifies this
      ensures old(Valid()) ==> Valid()
      // clock-in is refused outside the job site; the warning is the only change
      ensures !old(isClockedIn) && !(isInside || isGeofenceOverridden) ==>
        outcome == Refused && showGeofenceWarning
        && isClockedIn == old(isClockedIn) && clockInTime == old(clockInTime)
      // a permitted clock-in records the time
      ensures !old(isClockedIn) && (isInside || isGeofenceOverridden) ==>
        outcome == ClockedIn && isClockedIn && clockInTime == Some(now)
        && showGeofenceWarning == old(showGeofenceWarning)
      // clock-out is never gated; the shift is reported only if a clock-in time was recorded
      ensures old(isClockedIn) ==>
        outcome == ClockedOut(if old(clockInTime).Some? then Some(ShiftSeconds(old(clockInTime).value, now, multiplier)) else None)
        && !isClockedIn && clockInTime == None
        && showGeofenceWarning == old(showGeofenceWarning)
    {
      if !(isInside || isGeofenceOverridden) && !isClockedIn {
        showGeofenceWarning := true;
        return Refused;
      }
      if !isClockedIn {
        clockInTime := Some(now);
        isClockedIn := true;
        outcome := ClockedIn;
      } else {
        var shift: Option<int> := None;
        if clockInTime.Some? {
          shift := Some(ShiftSeconds(clockInTime.value, now, multiplier));
        }
        clockInTime := None;
        isClockedIn := false;
        outcome := ClockedOut(shift);
      }
    }

    /**
     * The effect that runs when the clock state or the location changes:
     * leaving the job site while clocked in clocks the worker out, with an
     * alert and no shift report. Returns whether the alert was raised.
     */
    method LocationChanged(isInside: bool, isGeofenceOverridden: bool) returns (alerted: bool)
      modifies this
      ensures old(Valid()) ==> Valid()
      ensures alerted <==> old(isClockedIn) && !(isInside || isGeofenceOverridden)
      ensures alerted ==> !isClockedIn && clockInTime == None
      ensures !alerted ==> isClockedIn == old(isClockedIn) && clockInTime == old(clockInTime)
      ensures showGeofenceWarning == old(showGeofenceWarning)
    {
      alerted := isClockedIn && !(isInside || isGeofenceOverridden);
      if alerted {
        isClockedIn := false;
        clockInTime := None;
      }
    }
  }

  /**
   * A shift ended by leaving the job site is never reported: after the
   * automatic clock-out, the next press of the clock button (still off site)
   * is a refused clock-in, not a clock-out.
   */
  method LeaveSiteShift(now: int, multiplier: nat) returns (alerted: bool, next: ToggleOutcome)
    ensures alerted && next == Refused
  {
    var session := new ClockSession();
    var outcome := session.ClockToggle(true, false, 0, multiplier);
    alerted := session.LocationChanged(false, false);
    next := session.ClockToggle(false, false, now, multiplier);
  }
}
