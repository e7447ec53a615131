/**
 * The fixed-allocation screen: each task gets one allocated amount, entered
 * on its card, and the allocation can be confirmed only when the amounts add
 * up to the shift total exactly.
 */
module AllocationV1 {
  import opened Reconcile

  type TaskId = int

  const ApprovalLabel: string := "Confirm Allocation"

  /** `allocations[id] || 0`: a task nobody has allocated to counts as 0. */
  function AllocatedTo(allocations: map<TaskId, int>, id: TaskId): int {
    if id in allocations then allocations[id] else 0
  }

  /** The sum of the per-task amounts over the listed tasks; never negative when no amount is. */
  function TotalAllocated(tasks: seq<TaskId>, allocations: map<TaskId, int>): (r: int)
    ensures (forall id :: id in allocations ==> allocations[id] >= 0) ==> r >= 0
  {
    if tasks == [] then 0
    else TotalAllocated(tasks[..|tasks| - 1], allocations) + AllocatedTo(allocations, tasks[|tasks| - 1])
  }

  /** With nothing allocated yet the total is 0. */
  lemma {:induction false} TotalOfEmpty(tasks: seq<TaskId>)
    ensures TotalAllocated(tasks, map[]) == 0
  {
    if tasks != [] {
      TotalOfEmpty(tasks[..|tasks| - 1]);
    }
  }

  /** Setting the amount of a task that is not listed leaves the total alone. */
  lemma {:induction false} TotalIgnoresUnlisted(tasks: seq<TaskId>, allocations: map<TaskId, int>, id: TaskId, seconds: int)
    requires id !in tasks
    ensures TotalAllocated(tasks, allocations[id := seconds]) == TotalAllocated(tasks, allocations)
  {
    if tasks != [] {
      TotalIgnoresUnlisted(tasks[..|tasks| - 1], allocations, id, seconds);
    }
  }

  /** Setting one listed task's amount changes the total by exactly the difference. */
  lemma {:induction false} TotalAfterChange(tasks: seq<TaskId>, allocations: map<TaskId, int>, id: TaskId, seconds: int)
    requires Distinct(tasks)
    requires id in tasks
    ensures TotalAllocated(tasks, allocations[id := seconds])
         == TotalAllocated(tasks, allocations) - AllocatedTo(allocations, id) + seconds
  {
    var init, last := tasks[..|tasks| - 1], tasks[|tasks| - 1];
    if last == id {
      assert id !in init by {
        forall k | 0 <= k < |init| ensures init[k] != id {
          assert tasks[k] != tasks[|tasks| - 1];
        }
      }
      TotalIgnoresUnlisted(init, allocations, id, seconds);
    } else {
      assert id in init by {
        var k :| 0 <= k < |tasks| && tasks[k] == id;
        assert k < |tasks| - 1;
        assert init[k] == id;
      }
      TotalAfterChange(init, allocations, id, seconds);
    }
  }

  /** The screen's state: the listed tasks, the shift total and the amounts entered so far. */
  class TimeAllocationScreen {
    const tasks: seq<TaskId>
    const totalShiftSeconds: int
    var allocations: map<TaskId, int>

    ghost predicate Valid()
      reads this
    {
      Distinct(tasks) && forall id :: id in allocations ==> id in tasks
    }

    /** The allocated seconds the screen shows, summed over all tasks. */
    function Allocated(): int
      reads this
    {
      TotalAllocated(tasks, allocations)
    }

    constructor (tasks: seq<TaskId>, totalShiftSeconds: int)
      requires Distinct(tasks)
      ensures Valid()
      ensures this.tasks == tasks && this.totalShiftSeconds == totalShiftSeconds
      ensures allocations == map[] && Allocated() == 0
    {
      this.tasks := tasks;
      this.totalShiftSeconds := totalShiftSeconds;
      allocations := map[];
      TotalOfEmpty(tasks);
    }

    /** `handleAllocationChange(taskId, seconds)`: sets one task's amount, every other entry unchanged. */
    method AllocationChange(taskId: TaskId, seconds: int)
      requires Valid() && taskId in tasks
      modifies this
      ensures Valid()
      ensures allocations == old(allocations)[taskId := seconds]
      ensures Allocated() == old(Allocated()) - AllocatedTo(old(allocations), taskId) + seconds
    {
      TotalAfterChange(tasks, allocations, taskId, seconds);
      allocations := allocations[taskId := seconds];
    }

    /** The totals, gate and button text the screen renders. */
    method Summary() returns (s: Reconcile.Summary)
      ensures s.allocatedSeconds == TotalAllocated(tasks, allocations)
      ensures s.remaining == totalShiftSeconds - TotalAllocated(tasks, allocations)
      ensures !s.submissionDisabled <==> TotalAllocated(tasks, allocations) == totalShiftSeconds
      ensures s.buttonText == ApprovalLabel <==> !s.submissionDisabled
      ensures s == Summarize(ApprovalLabel, totalShiftSeconds, TotalAllocated(tasks, allocations))
    {
      s := Summarize(ApprovalLabel, totalShiftSeconds, TotalAllocated(tasks, allocations));
    }
  }
}
