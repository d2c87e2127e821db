/** The handle callers hold and await: a completed op, a faulted op carrying a
    captured exception, or a pending op naming a task and the token that was
    current when the op was made. */
module Ops {
  import opened Errors
  import opened Runners
  import opened Tasks

  /** The op's payload: null, a captured exception, or a task. */
  datatype TaskOrEdi = Null | Edi(exn: Exn) | Task(task: RecursiveTask)

  datatype RecursiveOp = RecursiveOp(taskOrEdi: TaskOrEdi, token: u16) {

    /** The objects the op forwards to: its task, if it has one. */
    function Footprint(): set<object>
    {
      if taskOrEdi.Task? then {taskOrEdi.task} else {}
    }

    /** Completed and faulted ops are complete; a task op asks its task,
        passing the token it was made with. */
    function IsCompleted(): (r: Result<bool>)
      reads Footprint()
      ensures !taskOrEdi.Task? ==> r == Ok(true)
      ensures taskOrEdi.Task? ==> r == GetIsCompleted(taskOrEdi.task.State(), token)
    {
      match taskOrEdi
      case Task(t) => GetIsCompleted(t.State(), token)
      case _ => Ok(true)
    }

    /** How `GetResult` would end now: normally for a completed op, by
        rethrowing the captured exception for a faulted one, and as the task
        decides, with the op's token, for a task op. */
    function ResultOutcome(): (r: Outcome)
      reads Footprint()
      ensures taskOrEdi.Null? ==> r == Pass
      ensures taskOrEdi.Edi? ==> r == Fail(Rethrown(taskOrEdi.exn))
      ensures taskOrEdi.Task? ==> r == GetResultOutcome(taskOrEdi.task.State(), token)
    {
      match taskOrEdi
      case Null => Pass
      case Edi(e) => Fail(Rethrown(e))
      case Task(t) => GetResultOutcome(t.State(), token)
    }

    /** The runner of a task op; asked only of task ops (a debug assertion
        in the source). */
    function Runner(): (r: RecursiveRunner)
      requires taskOrEdi.Task?
      reads Footprint()
      ensures r == taskOrEdi.task.runner
    {
      taskOrEdi.task.runner
    }

    /** Resolves the op. A task op forwards to its task, which resets itself
        whatever the outcome. */
    method GetResult() returns (outcome: Outcome)
      modifies Footprint()
      ensures outcome == old(ResultOutcome())
      ensures taskOrEdi.Task? ==>
        taskOrEdi.task.Valid() && taskOrEdi.task.State() == ResetState(old(taskOrEdi.task.State()))
    {
      match taskOrEdi
      case Null => outcome := Pass;
      case Task(t) => outcome := t.GetResult(token);
      case Edi(e) => outcome := Fail(Rethrown(e));
    }

    /** Registers a continuation. Only a task op can be awaited this way; on a
        completed or faulted op this is invalid use. */
    method UnsafeOnCompleted(workItem: WorkItem) returns (outcome: Outcome)
      requires taskOrEdi.Task? ==> taskOrEdi.task.Valid()
      modifies if taskOrEdi.Task? then {taskOrEdi.task, taskOrEdi.task.runner.workItemsToRun} else {}
      ensures !taskOrEdi.Task? ==> outcome == Fail(InvalidUse)
      ensures taskOrEdi.Task? ==>
        var t := taskOrEdi.task;
        var step := OnCompletedStep(old(t.State()), t.runner, workItem, token);
        t.Valid() && outcome == step.outcome && t.State() == step.after &&
        t.runner.workItemsToRun.items == old(t.runner.workItemsToRun.items) + Pushed(step.queued)
    {
      if taskOrEdi.Task? {
        outcome := taskOrEdi.task.UnsafeOnCompleted(workItem, token);
        return;
      }
      outcome := Fail(InvalidUse);
    }
  }

  /** The default op: null payload, token 0. It is complete and resolves
      normally. */
  function CompletedOp(): (r: RecursiveOp)
    ensures r.IsCompleted() == Ok(true)
    ensures r.ResultOutcome() == Pass
  {
    RecursiveOp(Null, 0)
  }

  /** A faulted op; a missing exception is an argument-null error. The op is
      complete and resolving it rethrows the exception. */
  function FromException(exception: Option<Exn>): (r: Result<RecursiveOp>)
    ensures r.Err? <==> exception.None?
    ensures r.Err? ==> r.error == ArgumentNull
    ensures r.Ok? ==> r.value.IsCompleted() == Ok(true)
    ensures r.Ok? ==> r.value.ResultOutcome() == Fail(Rethrown(exception.value))
  {
    match exception
    case None => Err(ArgumentNull)
    case Some(e) => Ok(RecursiveOp(Edi(e), 0))
  }

  /** An op for `task` carrying the task's current token, so the op is not
      stale when it is made: asking it forwards to the task and succeeds. */
  function AsRecursiveOp(task: RecursiveTask): (r: RecursiveOp)
    reads task
    ensures r.taskOrEdi == Task(task)
    ensures r.IsCompleted() == Ok(task.completionObject != Pending)
    ensures r.ResultOutcome().Pass? <==> task.completionObject == Succeeded
  {
    RecursiveOp(Task(task), task.token)
  }
}
