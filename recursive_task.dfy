/** The single-assignment completion cell behind a pending op: its completion
    state, its one continuation slot and its 16-bit generation token. */
module Tasks {
  import opened Errors
  import opened Runners

  /** The source's `ushort`. */
  newtype u16 = x: int | 0 <= x < 0x1_0000

  /** `Token++` on a `ushort`: wraps from 65535 to 0. */
  function NextToken(t: u16): u16
  {
    if t == 0xFFFF then 0 else t + 1
  }

  /** The completion object: null while pending, the success sentinel, or the
      captured exception. */
  datatype Completion = Pending | Succeeded | Faulted(exn: Exn)

  /** The mutable fields of a task, as one value. */
  datatype TaskState = TaskState(completion: Completion, continuation: Option<WorkItem>, token: u16)

  /** What a state-changing task operation ended with, the fields it left and
      the work item it pushed on its runner's stack, if any. */
  datatype Step = Step(outcome: Outcome, after: TaskState, queued: Option<WorkItem>)

  function Pushed(queued: Option<WorkItem>): seq<WorkItem>
  {
    if queued.Some? then [queued.value] else []
  }

  /** A token is accepted only if it is the task's current generation. */
  function ValidateToken(s: TaskState, token: u16): (r: Outcome)
    ensures r.Pass? <==> token == s.token
    ensures r.Fail? ==> r.error == MultipleAwaits
  {
    if token != s.token then Fail(MultipleAwaits) else Pass
  }

  /** A continuation is accepted only from the task's own runner. */
  function ValidateSameRunners(runner: RecursiveRunner, workItem: WorkItem): (r: Outcome)
    ensures r.Pass? <==> workItem.runner == runner
    ensures r.Fail? ==> r.error == MixedRunners
  {
    if workItem.runner != runner then Fail(MixedRunners) else Pass
  }

  /** Whether the task has completed, asked with `token`; reads only. */
  function GetIsCompleted(s: TaskState, token: u16): (r: Result<bool>)
    ensures r.Ok? <==> token == s.token
    ensures r.Ok? ==> (r.value <==> s.completion != Pending)
    ensures r.Err? ==> r.error == MultipleAwaits
  {
    match ValidateToken(s, token)
    case Fail(e) => Err(e)
    case Pass => Ok(s.completion != Pending)
  }

  /** Clears the completion and the continuation and starts a new generation:
      the token moves on by one modulo 2^16, so it differs from the old one. */
  function ResetState(s: TaskState): (r: TaskState)
    ensures r.completion == Pending && r.continuation == None
    ensures r.token as int == (s.token as int + 1) % 0x1_0000
    ensures r.token != s.token
  {
    TaskState(Pending, None, NextToken(s.token))
  }

  /** How reading the result with `token` ends; whatever the ending, the task
      is reset afterwards (see `RecursiveTask.GetResult`). It returns normally
      only when the token is current and the task succeeded. */
  function GetResultOutcome(s: TaskState, token: u16): (r: Outcome)
    ensures r.Pass? <==> token == s.token && s.completion == Succeeded
    ensures token != s.token ==> r == Fail(MultipleAwaits)
    ensures token == s.token && s.completion == Pending ==> r == Fail(NotCompleted)
    ensures token == s.token && s.completion.Faulted? ==> r == Fail(Rethrown(s.completion.exn))
  {
    match ValidateToken(s, token)
    case Fail(e) => Fail(e)
    case Pass =>
      match s.completion
      case Pending => Fail(NotCompleted)
      case Faulted(e) => Fail(Rethrown(e))
      case Succeeded => Pass
  }

  /** `SetResult` (with `Succeeded`) and `SetException` (with `Faulted`): the
      completion is stored at most once. A second attempt fails with invalid-use
      and leaves everything as it was; the first one pushes the registered
      continuation, if there is one, and nothing else. */
  function CompleteStep(s: TaskState, c: Completion): (r: Step)
    requires c != Pending
    ensures r.outcome.Pass? <==> s.completion == Pending
    ensures r.outcome.Fail? ==> r.outcome.error == InvalidUse && r.after == s && r.queued == None
    ensures r.outcome.Pass? ==> r.after == s.(completion := c) && r.queued == s.continuation
  {
    if s.completion != Pending then Step(Fail(InvalidUse), s, None)
    else Step(Pass, s.(completion := c), s.continuation)
  }

  /** Registering `workItem` as the continuation, asked with `token`. The
      runner is checked before the token; a second registration fails with
      multiple-awaits; a registration on a completed task pushes the item at
      once. A failed registration changes nothing. */
  function OnCompletedStep(s: TaskState, runner: RecursiveRunner, workItem: WorkItem, token: u16): (r: Step)
    ensures workItem.runner != runner ==> r.outcome == Fail(MixedRunners)
    ensures workItem.runner == runner && token != s.token ==> r.outcome == Fail(MultipleAwaits)
    ensures workItem.runner == runner && token == s.token && s.continuation.Some? ==> r.outcome == Fail(MultipleAwaits)
    ensures r.outcome.Pass? <==> workItem.runner == runner && token == s.token && s.continuation == None
    ensures r.outcome.Fail? ==> r.after == s && r.queued == None
    ensures r.outcome.Pass? ==>
      r.after == s.(continuation := Some(workItem)) &&
      r.queued == (if s.completion != Pending then Some(workItem) else None)
  {
    if workItem.runner != runner then Step(Fail(MixedRunners), s, None)
    else if token != s.token then Step(Fail(MultipleAwaits), s, None)
    else if s.continuation.Some? then Step(Fail(MultipleAwaits), s, None)
    else Step(Pass, s.(continuation := Some(workItem)), if s.completion != Pending then Some(workItem) else None)
  }

  class RecursiveTask {
    const runner: RecursiveRunner
    var completionObject: Completion
    var continuation: Option<WorkItem>
    var token: u16

    /** A registered continuation always belongs to this task's runner. */
    ghost predicate Valid()
      reads this
    {
      continuation.Some? ==> continuation.value.runner == runner
    }

    function State(): TaskState
      reads this
    {
      TaskState(completionObject, continuation, token)
    }

    /** A new task is pending, has no continuation and starts at token 0. */
    constructor (runner: RecursiveRunner)
      ensures this.runner == runner
      ensures State() == TaskState(Pending, None, 0)
      ensures Valid()
    {
      this.runner := runner;
      completionObject := Pending;
      continuation := None;
      token := 0;
    }

    /** Reads the result and resets the task on every path (a `finally`). */
    method GetResult(token: u16) returns (outcome: Outcome)
      modifies this
      ensures Valid()
      ensures outcome == GetResultOutcome(old(State()), token)
      ensures State() == ResetState(old(State()))
    {
      outcome := Pass;
      var valid := ValidateToken(State(), token);
      if valid.Fail? {
        outcome := valid;
      } else if completionObject == Pending {
        outcome := Fail(NotCompleted);
      } else if completionObject.Faulted? {
        outcome := Fail(Rethrown(completionObject.exn));
      }
      Reset();
    }

    /** Pushes the registered continuation, if any, on the runner's stack. */
    method InvokeContinuationIfExists()
      requires Valid()
      modifies runner.workItemsToRun
      ensures runner.workItemsToRun.items == old(runner.workItemsToRun.items) + Pushed(continuation)
    {
      if continuation.Some? {
        runner.QueueWorkItem(continuation.value);
      }
    }

    method Reset()
      modifies this
      ensures Valid()
      ensures State() == ResetState(old(State()))
    {
      token := NextToken(token);
      continuation := None;
      completionObject := Pending;
    }

    method SetException(exception: Exn) returns (outcome: Outcome)
      requires Valid()
      modifies this, runner.workItemsToRun
      ensures Valid()
      ensures var step := CompleteStep(old(State()), Faulted(exception));
        outcome == step.outcome && State() == step.after &&
        runner.workItemsToRun.items == old(runner.workItemsToRun.items) + Pushed(step.queued)
    {
      var stored := TrySetCompletionObject(Faulted(exception));
      if !stored {
        return Fail(InvalidUse);
      }
      InvokeContinuationIfExists();
      outcome := Pass;
    }

    method SetResult() returns (outcome: Outcome)
      requires Valid()
      modifies this, runner.workItemsToRun
      ensures Valid()
      ensures var step := CompleteStep(old(State()), Succeeded);
        outcome == step.outcome && State() == step.after &&
        runner.workItemsToRun.items == old(runner.workItemsToRun.items) + Pushed(step.queued)
    {
      var stored := TrySetCompletionObject(Succeeded);
      if !stored {
        return Fail(InvalidUse);
      }
      InvokeContinuationIfExists();
      outcome := Pass;
    }

    /** The compare-and-exchange of the source, read sequentially: stores
        `completion` if the task is pending and reports whether it was. */
    method TrySetCompletionObject(completion: Completion) returns (stored: bool)
      requires completion != Pending
      modifies this
      ensures stored <==> old(completionObject) == Pending
      ensures completionObject == (if stored then completion else old(completionObject))
      ensures continuation == old(continuation) && token == old(token)
    {
      stored := completionObject == Pending;
      if stored {
        completionObject := completion;
      }
    }

    /** Registers `workItem` as the continuation, asked with `token`. */
    method UnsafeOnCompleted(workItem: WorkItem, token: u16) returns (outcome: Outcome)
      requires Valid()
      modifies this, runner.workItemsToRun
      ensures Valid()
      ensures var step := OnCompletedStep(old(State()), runner, workItem, token);
        outcome == step.outcome && State() == step.after &&
        runner.workItemsToRun.items == old(runner.workItemsToRun.items) + Pushed(step.queued)
    {
      outcome := ValidateSameRunners(runner, workItem);
      if outcome.Fail? {
        return;
      }
      outcome := ValidateToken(State(), token);
      if outcome.Fail? {
        return;
      }
      if continuation.Some? {
        return Fail(MultipleAwaits);
      }
      continuation := Some(workItem);
      if completionObject != Pending {
        runner.QueueWorkItem(continuation.value);
      }
    }
  }
}
