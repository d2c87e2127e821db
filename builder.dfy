/** The builder behind an async method returning an op: it is bound to the
    current runner when created, and its `_task` slot records how the method
    finished, which `Task` turns into the op handed to the caller. */
module Builders {
  import opened Errors
  import opened Runners
  import opened Tasks
  import Ops
  import opened BuilderShared

  /** `SetResult` on a slot that holds no task: a null slot takes the success
      sentinel; a slot that already finished refuses with invalid-use. */
  function SetResultSlot(slot: TaskSlot): (r: (TaskSlot, Outcome))
    requires !slot.Task?
    ensures r.1.Pass? <==> slot.Null?
    ensures r.1.Pass? ==> r.0 == Sentinel
    ensures r.1.Fail? ==> r.1.error == InvalidUse && r.0 == slot
  {
    if slot.Null? then (Sentinel, Pass) else (slot, Fail(InvalidUse))
  }

  class AsyncRecursiveOpMethodBuilder {
    const runner: RecursiveRunner
    var task: TaskSlot

    /** A task in the slot keeps its own invariant. */
    ghost predicate Valid()
      reads this, if task.Task? then {task.task} else {}
    {
      task.Task? ==> task.task.Valid()
    }

    constructor (runner: RecursiveRunner)
      ensures this.runner == runner && task == Null && Valid()
    {
      this.runner := runner;
      task := Null;
    }

    /** Binds a new builder to the thread's current runner, or fails with the
        no-current-runner error. */
    static method Create(thread: ThreadState) returns (r: Result<AsyncRecursiveOpMethodBuilder>)
      ensures r.Err? <==> thread.currentRunner == null
      ensures r.Err? ==> r.error == NoCurrentRunner
      ensures r.Ok? ==> fresh(r.value) && r.value.runner == thread.currentRunner && r.value.task == Null && r.value.Valid()
    {
      var current := GetCurrentRunner(thread);
      if current.Err? {
        return Err(current.error);
      }
      var builder := new AsyncRecursiveOpMethodBuilder(current.value);
      r := Ok(builder);
    }

    /** The op for the caller: the completed op after a synchronous success, a
        faulted op after a synchronous exception, the task's op (with its
        current token) once the method was queued; invalid-use before the
        method has finished or spilled. */
    function Task(): (r: Result<Ops.RecursiveOp>)
      reads this, if task.Task? then {task.task} else {}
      ensures r.Err? <==> task.Null?
      ensures r.Err? ==> r.error == InvalidUse
      ensures task.Sentinel? ==> r == Ok(Ops.CompletedOp())
      ensures task.Edi? ==> r.value.IsCompleted() == Ok(true) && r.value.ResultOutcome() == Fail(Rethrown(task.exn))
      ensures task.Task? ==> r == Ok(Ops.AsRecursiveOp(task.task)) && r.value.IsCompleted().Ok?
    {
      match task
      case Sentinel => Ok(Ops.CompletedOp())
      case Task(t) => Ok(Ops.AsRecursiveOp(t))
      case Edi(e) => Ops.FromException(Some(e))
      case Null => Err(InvalidUse)
    }

    /** Records a synchronous exception in the slot, or faults the task. */
    method SetException(exception: Exn) returns (outcome: Outcome)
      requires Valid()
      modifies this, SlotFootprint(task)
      ensures Valid()
      ensures !old(task).Task? ==> (task, outcome) == SetExceptionSlot(old(task), exception)
      ensures old(task).Task? ==>
        var t := old(task).task;
        var step := CompleteStep(old(t.State()), Faulted(exception));
        task == old(task) && outcome == step.outcome && t.State() == step.after &&
        t.runner.workItemsToRun.items == old(t.runner.workItemsToRun.items) + Pushed(step.queued)
    {
      task, outcome := BuilderShared.SetException(task, exception);
    }

    /** Records a synchronous success in the slot, or completes the task. */
    method SetResult() returns (outcome: Outcome)
      requires Valid()
      modifies this, SlotFootprint(task)
      ensures Valid()
      ensures !old(task).Task? ==> (task, outcome) == SetResultSlot(old(task))
      ensures old(task).Task? ==>
        var t := old(task).task;
        var step := CompleteStep(old(t.State()), Succeeded);
        task == old(task) && outcome == step.outcome && t.State() == step.after &&
        t.runner.workItemsToRun.items == old(t.runner.workItemsToRun.items) + Pushed(step.queued)
    {
      match task
      case Null =>
        task := Sentinel;
        outcome := Pass;
      case Task(t) =>
        outcome := t.SetResult();
      case _ =>
        outcome := Fail(InvalidUse);
    }
  }

  /** A synchronous completion of the builder: `SetResult` or `SetException`. */
  datatype Completer = ResultCompleter | ExceptionCompleter(exception: Exn)

  /** The slot after completions of a method that never spilled, and how many
      of them were accepted. */
  function CompleteAll(slot: TaskSlot, calls: seq<Completer>): (TaskSlot, nat)
    requires !slot.Task?
    decreases |calls|
  {
    if calls == [] then (slot, 0)
    else
      var (next, outcome) := match calls[0]
        case ResultCompleter => SetResultSlot(slot)
        case ExceptionCompleter(e) => SetExceptionSlot(slot, e);
      var (final, accepted) := CompleteAll(next, calls[1..]);
      (final, accepted + if outcome.Pass? then 1 else 0)
  }

  /** A builder that never spilled is completed at most once: of any sequence
      of `SetResult`/`SetException` calls at most the first is accepted, none
      is once the slot has left null, and the slot keeps the first outcome. */
  lemma {:induction false} SynchronousCompletionAtMostOnce(slot: TaskSlot, calls: seq<Completer>)
    requires !slot.Task?
    ensures CompleteAll(slot, calls).1 <= 1
    ensures !slot.Null? ==> CompleteAll(slot, calls) == (slot, 0)
    ensures slot.Null? && calls != [] ==>
      CompleteAll(slot, calls).1 == 1 &&
      CompleteAll(slot, calls).0 == (match calls[0]
        case ResultCompleter => Sentinel
        case ExceptionCompleter(e) => Edi(e))
    decreases |calls|
  {
    if calls != [] {
      var next := match calls[0]
        case ResultCompleter => SetResultSlot(slot).0
        case ExceptionCompleter(e) => SetExceptionSlot(slot, e).0;
      SynchronousCompletionAtMostOnce(next, calls[1..]);
    }
  }
}
