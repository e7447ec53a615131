/**
 * The per-task timer screen: a clock session gated by the geofence, plus one
 * accrued-seconds counter per task of which at most one runs at a time. At
 * clock-out the running task is flushed, the shift length (rounded to the
 * nearest simulated minute) and the per-task times are reported, and every
 * counter is reset.
 */
module TaskTimerV2 {
  import opened Wrappers
  import opened Rounding

  type TaskId = int

  /** The running task and the time (ms) its current run started. */
  datatype ActiveTask = ActiveTask(id: TaskId, startTime: int)

  /** The `onShiftEnd` payload. */
  datatype ShiftEnd = ShiftEnd(totalSeconds: int, finalTaskTimes: map<TaskId, int>)

  /** What a press of the clock button did. */
  datatype ClockOutcome = Refused | ClockedIn | ClockedOut(payload: ShiftEnd)

  /**
   * `Math.round((now - startTime) * multiplier / 1000)`: the simulated seconds
   * a task run contributes, to the nearest second.
   */
  function RunSeconds(startTime: int, now: int, multiplier: nat): (r: int)
    ensures 2000 * r - 1000 <= 2 * (now - startTime) * multiplier < 2000 * r + 1000
    ensures now >= startTime ==> r >= 0
  {
    RoundDiv((now - startTime) * multiplier, 1000)
  }

  /**
   * The timers after flushing the running task (if any) at `now`: that task
   * gains its run's seconds, every other task keeps its count.
   */
  function Flush(timers: map<TaskId, int>, active: Option<ActiveTask>, now: int, multiplier: nat): (r: map<TaskId, int>)
    requires active.Some? ==> active.value.id in timers
    ensures r.Keys == timers.Keys
    ensures forall id :: id in timers && (active.None? || id != active.value.id) ==> r[id] == timers[id]
    ensures active.Some? ==>
      r[active.value.id] == timers[active.value.id] + RunSeconds(active.value.startTime, now, multiplier)
    ensures (active.Some? ==> now >= active.value.startTime) ==> forall id :: id in timers ==> r[id] >= timers[id]
  {
    match active
    case None => timers
    case Some(a) => timers[a.id := timers[a.id] + RunSeconds(a.startTime, now, multiplier)]
  }

  /**
   * The running task after a toggle of `taskId` at `now`: pressing the running
   * task pauses it; pressing any other task (or any task while none runs) starts it.
   */
  function NextActive(active: Option<ActiveTask>, taskId: TaskId, now: int): (r: Option<ActiveTask>)
    ensures r.Some? ==> r.value == ActiveTask(taskId, now)
    ensures r.None? <==> active.Some? && active.value.id == taskId
  {
    if active.Some? && active.value.id == taskId then None else Some(ActiveTask(taskId, now))
  }

  /**
   * The reported shift length: simulated seconds since clock-in, rounded down
   * to a whole second and then to the nearest minute; 0 without a clock-in time.
   */
  function ShiftSeconds(clockInTime: Option<int>, now: int, multiplier: nat): (r: int)
    ensures r % 60 == 0
    ensures clockInTime.None? ==> r == 0
    ensures clockInTime.Some? ==>
      r - 30 <= ((now - clockInTime.value) * multiplier) / 1000 < r + 30
    ensures clockInTime.Some? && now >= clockInTime.value ==> r >= 0
  {
    match clockInTime
    case None => 0
    case Some(t) => RoundToMinute(((now - t) * multiplier) / 1000)
  }

  /** Every listed task at 0 seconds. */
  function ZeroTimers(tasks: set<TaskId>): (r: map<TaskId, int>)
    ensures r.Keys == tasks
    ensures forall id :: id in r ==> r[id] == 0
  {
    map id | id in tasks :: 0
  }

  /**
   * After the reset at clock-out, the next shift's payload holds only what was
   * timed in that shift: a task's first run there is credited exactly its run
   * time, and every other task reports 0.
   */
  lemma NextShiftStartsFromZero(tasks: set<TaskId>, id: TaskId, startTime: int, now: int, multiplier: nat)
    requires id in tasks
    ensures var r := Flush(ZeroTimers(tasks), Some(ActiveTask(id, startTime)), now, multiplier);
      r.Keys == tasks && r[id] == RunSeconds(startTime, now, multiplier)
      && forall t :: t in tasks && t != id ==> r[t] == 0
  {
  }

  class TaskTimerScreen {
    const tasks: set<TaskId>
    var isClockedIn: bool
    var clockInTime: Option<int>
    var taskTimers: map<TaskId, int>
    var activeTask: Option<ActiveTask>
    var showGeofenceWarning: bool

    /**
     * One counter per task; a clock-in time exactly while clocked in; a task
     * runs only while clocked in, and it is one of the listed tasks.
     * At most one task runs: `activeTask` holds at most one.
     */
    ghost predicate Valid()
      reads this
    {
      && taskTimers.Keys == tasks
      && (isClockedIn <==> clockInTime.Some?)
      && (activeTask.Some? ==> isClockedIn && activeTask.value.id in tasks)
    }

    constructor (tasks: set<TaskId>)
      ensures Valid()
      ensures this.tasks == tasks
      ensures !isClockedIn && clockInTime == None && activeTask == None && !showGeofenceWarning
      ensures taskTimers == ZeroTimers(tasks)
    {
      this.tasks := tasks;
      isClockedIn := false;
      clockInTime := None;
      taskTimers := ZeroTimers(tasks);
      activeTask := None;
      showGeofenceWarning := false;
    }

    /** `handleTaskTimerToggle(taskId)` at time `now` (ms). */
    method TaskTimerToggle(taskId: TaskId, now: int, multiplier: nat)
      requires Valid() && taskId in tasks
      modifies this
      ensures Valid()
      ensures !old(isClockedIn) ==> taskTimers == old(taskTimers) && activeTask == old(activeTask)
      ensures old(isClockedIn) ==>
        taskTimers == Flush(old(taskTimers), old(activeTask), now, multiplier)
        && activeTask == NextActive(old(activeTask), taskId, now)
      ensures isClockedIn == old(isClockedIn) && clockInTime == old(clockInTime)
      ensures showGeofenceWarning == old(showGeofenceWarning)
    {
      if !isClockedIn {
        return;
      }
      taskTimers := Flush(taskTimers, activeTask, now, multiplier);
      activeTask := NextActive(activeTask, taskId, now);
    }

    /** `handleClockToggle` at time `now` (ms). */
    method ClockToggle(isInside: bool, isGeofenceOverridden: bool, now: int, multiplier: nat) returns (outcome: ClockOutcome)
      requires Valid()
      modifies this
      ensures Valid()
      // clock-in is refused outside the job site; the warning is the only change
      ensures !old(isClockedIn) && !(isInside || isGeofenceOverridden) ==>
        outcome == Refused && showGeofenceWarning
        && !isClockedIn && clockInTime == old(clockInTime)
        && taskTimers == old(taskTimers) && activeTask == old(activeTask)
      // a permitted clock-in records the time and leaves the task timers as they are
      ensures !old(isClockedIn) && (isInside || isGeofenceOverridden) ==>
        outcome == ClockedIn && isClockedIn && clockInTime == Some(now)
        && taskTimers == old(taskTimers) && activeTask == old(activeTask)
        && showGeofenceWarning == old(showGeofenceWarning)
      // clock-out is never gated: it reports the shift and the flushed timers, then resets everything
      ensures old(isClockedIn) ==>
        outcome == ClockedOut(ShiftEnd(
          ShiftSeconds(old(clockInTime), now, multiplier),
          Flush(old(taskTimers), old(activeTask), now, multiplier)))
        && !isClockedIn && clockInTime == None && activeTask == None
        && taskTimers == ZeroTimers(tasks)
        && showGeofenceWarning == old(showGeofenceWarning)
    {
      if !(isInside || isGeofenceOverridden) && !isClockedIn {
        showGeofenceWarning := true;
        return Refused;
      }
      if isClockedIn {
        var finalTaskTimes := Flush(taskTimers, activeTask, now, multiplier);
        var totalSeconds := ShiftSeconds(clockInTime, now, multiplier);
        clockInTime := None;
        activeTask := None;
        taskTimers := ZeroTimers(tasks);
        isClockedIn := false;
        outcome := ClockedOut(ShiftEnd(totalSeconds, finalTaskTimes));
      } else {
        clockInTime := Some(now);
        isClockedIn := true;
        outcome := ClockedIn;
      }
    }
  }

  /**
   * A worked shift at multiplier 1: clock in at 0 ms, start task 1 at 1 s,
   * switch to task 2 at 126 s, clock out at 186 s (after walking off site,
   * which does not gate clock-out). Task 1 is credited exactly its 125 s,
   * task 2 its 60 s, and the 186 s shift is reported as 3 whole minutes.
   */
  method SwitchingShift() returns (payload: ShiftEnd)
    ensures payload == ShiftEnd(180, map[1 := 125, 2 := 60])
  {
    var screen := new TaskTimerScreen({1, 2});
    var outcome := screen.ClockToggle(true, false, 0, 1);
    screen.TaskTimerToggle(1, 1000, 1);
    screen.TaskTimerToggle(2, 126000, 1);
    assert screen.taskTimers == map[1 := 125, 2 := 0];
    assert screen.activeTask == Some(ActiveTask(2, 126000));
    outcome := screen.ClockToggle(false, false, 186000, 1);
    assert screen.taskTimers == map[1 := 0, 2 := 0];
    payload := outcome.payload;
  }
}
