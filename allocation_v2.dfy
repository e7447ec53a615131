/**
 * The tracked-plus-manual allocation screen. Each task's allocation is the
 * time its timer tracked (seeded from the shift-end payload and rounded to a
 * whole minute) plus manually added time; the shift can be sent for approval
 * only when the allocations add up to the shift total exactly.
 */
module AllocationV2 {
  import opened Rounding
  import opened Reconcile

  type TaskId = int

  /** One task's allocation, in seconds. */
  datatype Allocation = Allocation(tracked: int, manual: int)

  /** Which half of an allocation an edit replaces. */
  datatype Field = Tracked | Manual

  const ApprovalLabel: string := "Send for approval"

  /** `Math.round((initialAllocations[id] || 0) / 60) * 60`: tracked time seeded to the nearest minute. */
  function SeedTracked(initialAllocations: map<TaskId, int>, id: TaskId): (r: int)
    ensures r % 60 == 0
    ensures id !in initialAllocations ==> r == 0
    ensures id in initialAllocations ==> r - 30 <= initialAllocations[id] < r + 30
  {
    RoundToMinute(if id in initialAllocations then initialAllocations[id] else 0)
  }

  /**
   * One allocation per listed task and no other: tracked time within half a
   * minute of the payload (0 for a task the payload omits), in whole minutes,
   * and no manual time.
   */
  function InitialAllocations(tasks: seq<TaskId>, initialAllocations: map<TaskId, int>): (r: map<TaskId, Allocation>)
    ensures r.Keys == set id | id in tasks
    ensures forall id :: id in r ==> r[id].manual == 0 && r[id].tracked % 60 == 0
    ensures forall id :: id in r && id !in initialAllocations ==> r[id].tracked == 0
    ensures forall id :: id in r && id in initialAllocations ==>
      r[id].tracked - 30 <= initialAllocations[id] < r[id].tracked + 30
  {
    map id | id in tasks :: Allocation(SeedTracked(initialAllocations, id), 0)
  }

  function AllocationSeconds(a: Allocation): int {
    a.tracked + a.manual
  }

  /** The sum of tracked plus manual time over the listed tasks; never negative when no entry is. */
  function TotalAllocated(tasks: seq<TaskId>, allocations: map<TaskId, Allocation>): (r: int)
    requires forall id :: id in tasks ==> id in allocations
    ensures (forall id :: id in tasks ==> allocations[id].tracked >= 0 && allocations[id].manual >= 0) ==> r >= 0
  {
    if tasks == [] then 0
    else
      var last := tasks[|tasks| - 1];
      assert last in tasks;
      TotalAllocated(tasks[..|tasks| - 1], allocations) + AllocationSeconds(allocations[last])
  }

  /** `{ ...a, [field]: seconds }`: replaces one half of an allocation and keeps the other. */
  function SetField(a: Allocation, field: Field, seconds: int): (r: Allocation)
    ensures field == Tracked ==> r.tracked == seconds && r.manual == a.manual
    ensures field == Manual ==> r.manual == seconds && r.tracked == a.tracked
  {
    match field
    case Tracked => a.(tracked := seconds)
    case Manual => a.(manual := seconds)
  }

  function FieldValue(a: Allocation, field: Field): int {
    match field
    case Tracked => a.tracked
    case Manual => a.manual
  }

  /** Replacing the allocation of a task that is not listed leaves the total alone. */
  lemma {:induction false} TotalIgnoresUnlisted(tasks: seq<TaskId>, allocations: map<TaskId, Allocation>, id: TaskId, a: Allocation)
    requires forall t :: t in tasks ==> t in allocations
    requires id !in tasks
    ensures TotalAllocated(tasks, allocations[id := a]) == TotalAllocated(tasks, allocations)
  {
    if tasks != [] {
      TotalIgnoresUnlisted(tasks[..|tasks| - 1], allocations, id, a);
    }
  }

  /** Replacing one listed task's allocation changes the total by exactly the difference. */
  lemma {:induction false} TotalAfterChange(tasks: seq<TaskId>, allocations: map<TaskId, Allocation>, id: TaskId, a: Allocation)
    requires Distinct(tasks)
    requires forall t :: t in tasks ==> t in allocations
    requires id in tasks
    ensures TotalAllocated(tasks, allocations[id := a])
         == TotalAllocated(tasks, allocations) - AllocationSeconds(allocations[id]) + AllocationSeconds(a)
  {
    var init, last := tasks[..|tasks| - 1], tasks[|tasks| - 1];
    if last == id {
      assert id !in init by {
        forall k | 0 <= k < |init| ensures init[k] != id {
          assert tasks[k] != tasks[|tasks| - 1];
        }
      }
      TotalIgnoresUnlisted(init, allocations, id, a);
    } else {
      assert id in init by {
        var k :| 0 <= k < |tasks| && tasks[k] == id;
        assert k < |tasks| - 1;
        assert init[k] == id;
      }
      TotalAfterChange(init, allocations, id, a);
    }
  }

  /** Allocations in whole minutes add up to whole minutes. */
  lemma {:induction false} TotalOfWholeMinutes(tasks: seq<TaskId>, allocations: map<TaskId, Allocation>)
    requires forall t :: t in tasks ==> t in allocations
    requires forall t :: t in tasks ==> allocations[t].tracked % 60 == 0 && allocations[t].manual % 60 == 0
    ensures TotalAllocated(tasks, allocations) % 60 == 0
  {
    if tasks != [] {
      var last := tasks[|tasks| - 1];
      assert last in tasks;
      TotalOfWholeMinutes(tasks[..|tasks| - 1], allocations);
    }
  }

  /**
   * The seeded allocations add up to a whole number of minutes, as the shift
   * total they are reconciled against does.
   */
  lemma InitialTotalIsWholeMinutes(tasks: seq<TaskId>, initialAllocations: map<TaskId, int>)
    ensures TotalAllocated(tasks, InitialAllocations(tasks, initialAllocations)) % 60 == 0
  {
    var seeded := InitialAllocations(tasks, initialAllocations);
    assert forall t :: t in tasks ==> t in seeded.Keys;
    TotalOfWholeMinutes(tasks, seeded);
  }

  /** The screen's state: the listed tasks, the shift total it reconciles, and the allocations. */
  class TimeAllocationScreen {
    const tasks: seq<TaskId>
    const totalShiftSeconds: int
    var allocations: map<TaskId, Allocation>

    ghost predicate Valid()
      reads this
    {
      Distinct(tasks) && allocations.Keys == set id | id in tasks
    }

    /** The allocated seconds the screen shows, summed over all tasks. */
    function Allocated(): int
      reads this
      requires Valid()
    {
      TotalAllocated(tasks, allocations)
    }

    constructor (tasks: seq<TaskId>, totalShiftSeconds: int, initialAllocations: map<TaskId, int>)
      requires Distinct(tasks)
      ensures Valid()
      ensures this.tasks == tasks && this.totalShiftSeconds == totalShiftSeconds
      ensures forall id :: id in tasks ==> allocations[id] == Allocation(SeedTracked(initialAllocations, id), 0)
    {
      this.tasks := tasks;
      this.totalShiftSeconds := totalShiftSeconds;
      allocations := InitialAllocations(tasks, initialAllocations);
    }

    /** `handleAllocationChange(taskId, field, seconds)`: replaces one field of one task. */
    method AllocationChange(taskId: TaskId, field: Field, seconds: int)
      requires Valid() && taskId in tasks
      modifies this
      ensures Valid()
      ensures allocations == old(allocations)[taskId := SetField(old(allocations)[taskId], field, seconds)]
      ensures Allocated() == old(Allocated()) - FieldValue(old(allocations)[taskId], field) + seconds
    {
      TotalAfterChange(tasks, allocations, taskId, SetField(allocations[taskId], field, seconds));
      allocations := allocations[taskId := SetField(allocations[taskId], field, seconds)];
    }

    /** The totals, gate and button text the screen renders. */
    method Summary() returns (s: Reconcile.Summary)
      requires Valid()
      ensures s.allocatedSeconds == TotalAllocated(tasks, allocations)
      ensures s.remaining == totalShiftSeconds - TotalAllocated(tasks, allocations)
      ensures !s.submissionDisabled <==> TotalAllocated(tasks, allocations) == totalShiftSeconds
      ensures s.buttonText == ApprovalLabel <==> !s.submissionDisabled
      ensures s == Summarize(ApprovalLabel, totalShiftSeconds, TotalAllocated(tasks, allocations))
    {
      s := Summarize(ApprovalLabel, totalShiftSeconds, TotalAllocated(tasks, allocations));
    }
  }
}
