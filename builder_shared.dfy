/** What the two async-method builders share: the `_task` slot, its success
    sentinel, and `SetException` on the slot. */
module BuilderShared {
  import opened Errors
  import opened Tasks

  /** The builder's `_task` slot: null until the method finishes or spills,
      then the success sentinel, a captured exception, or the task that backs
      the method once it was queued. */
  datatype TaskSlot = Null | Sentinel | Edi(exn: Exn) | Task(task: RecursiveTask)

  /** The objects a completion through the slot may change: the task and its
      runner's stack. */
  function SlotFootprint(slot: TaskSlot): set<object>
  {
    if slot.Task? then {slot.task, slot.task.runner.workItemsToRun} else {}
  }

  /** `SetException` on a slot that holds no task: a null slot captures the
      exception; a slot that already finished refuses with invalid-use. */
  function SetExceptionSlot(slot: TaskSlot, exception: Exn): (r: (TaskSlot, Outcome))
    requires !slot.Task?
    ensures r.1.Pass? <==> slot.Null?
    ensures r.1.Pass? ==> r.0 == Edi(exception)
    ensures r.1.Fail? ==> r.1.error == InvalidUse && r.0 == slot
  {
    if slot.Null? then (Edi(exception), Pass) else (slot, Fail(InvalidUse))
  }

  /** `SetException` through `ref object? task`: the new slot comes back as
      `newSlot`. A task slot is left as it is and the task is faulted. */
  method SetException(slot: TaskSlot, exception: Exn) returns (newSlot: TaskSlot, outcome: Outcome)
    requires slot.Task? ==> slot.task.Valid()
    modifies SlotFootprint(slot)
    ensures !slot.Task? ==> (newSlot, outcome) == SetExceptionSlot(slot, exception)
    ensures slot.Task? ==>
      var t := slot.task;
      var step := CompleteStep(old(t.State()), Faulted(exception));
      newSlot == slot && t.Valid() && outcome == step.outcome && t.State() == step.after &&
      t.runner.workItemsToRun.items == old(t.runner.workItemsToRun.items) + Pushed(step.queued)
  {
    newSlot := slot;
    match slot
    case Null =>
      newSlot := Edi(exception);
      outcome := Pass;
    case Task(t) =>
      outcome := t.SetException(exception);
    case _ =>
      outcome := Fail(InvalidUse);
  }
}
