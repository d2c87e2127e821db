/** The awaiter the compiler obtains from an op: it forwards to the op, and it
    refuses the plain callbacks used by awaits outside recursive functions. */
module OpAwaiters {
  import opened Errors
  import opened Runners
  import opened Tasks
  import opened Ops

  datatype RecursiveOpAwaiter = RecursiveOpAwaiter(op: RecursiveOp) {

    /** Exactly the wrapped op's answer. */
    function IsCompleted(): (r: Result<bool>)
      reads op.Footprint()
      ensures r == op.IsCompleted()
    {
      op.IsCompleted()
    }

    /** Exactly the wrapped op's resolution, including the task's reset. */
    method GetResult() returns (outcome: Outcome)
      modifies op.Footprint()
      ensures outcome == old(op.ResultOutcome())
      ensures op.taskOrEdi.Task? ==>
        op.taskOrEdi.task.Valid() && op.taskOrEdi.task.State() == ResetState(old(op.taskOrEdi.task.State()))
    {
      outcome := op.GetResult();
    }

    /** A plain callback is never accepted. */
    method OnCompleted(continuation: Action) returns (outcome: Outcome)
      ensures outcome == Fail(CannotAwaitOutsideRecursiveFunction)
    {
      outcome := Fail(CannotAwaitOutsideRecursiveFunction);
    }

    /** A plain callback is never accepted, on the unsafe path either. */
    method UnsafeOnCompletedAction(continuation: Action) returns (outcome: Outcome)
      ensures outcome == Fail(CannotAwaitOutsideRecursiveFunction)
    {
      outcome := Fail(CannotAwaitOutsideRecursiveFunction);
    }

    /** The wrapped op's runner. */
    function Runner(): (r: RecursiveRunner)
      requires op.taskOrEdi.Task?
      reads op.Footprint()
      ensures r == op.Runner()
    {
      op.Runner()
    }

    /** The work-item path: forwards to the wrapped op. */
    method UnsafeOnCompleted(workItem: WorkItem) returns (outcome: Outcome)
      requires op.taskOrEdi.Task? ==> op.taskOrEdi.task.Valid()
      modifies if op.taskOrEdi.Task? then {op.taskOrEdi.task, op.taskOrEdi.task.runner.workItemsToRun} else {}
      ensures !op.taskOrEdi.Task? ==> outcome == Fail(InvalidUse)
      ensures op.taskOrEdi.Task? ==>
        var t := op.taskOrEdi.task;
        var step := OnCompletedStep(old(t.State()), t.runner, workItem, op.token);
        t.Valid() && outcome == step.outcome && t.State() == step.after &&
        t.runner.workItemsToRun.items == old(t.runner.workItemsToRun.items) + Pushed(step.queued)
    {
      outcome := op.UnsafeOnCompleted(workItem);
    }
  }

  /** `RecursiveOp.GetAwaiter`: wraps the op unchanged. */
  function GetAwaiter(op: RecursiveOp): (r: RecursiveOpAwaiter)
    ensures r.op == op
  {
    RecursiveOpAwaiter(op)
  }
}
