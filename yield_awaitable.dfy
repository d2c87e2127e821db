/** The awaitable behind a forced yield: it never completes synchronously, so
    awaiting it always suspends and queues the caller on the runner. */
module YieldAwaitables {
  import opened Errors
  import opened Runners

  datatype YieldAwaitable = YieldAwaitable(runner: RecursiveRunner) {

    /** The awaiter for the runner this awaitable was made with. */
    function GetAwaiter(): (r: YieldAwaiter)
      ensures r.Runner() == runner
    {
      YieldAwaiter(runner)
    }
  }

  datatype YieldAwaiter = YieldAwaiter(runner: RecursiveRunner) {

    /** Never complete: a yield always suspends. */
    predicate IsCompleted()
      ensures !IsCompleted()
    {
      false
    }

    /** Resuming after a yield has nothing to report and never fails. */
    method GetResult() returns (outcome: Outcome)
      ensures outcome == Pass
    {
      outcome := Pass;
    }

    function Runner(): (r: RecursiveRunner)
      ensures r == runner
    {
      runner
    }

    /** A plain callback is never accepted. */
    method OnCompleted(continuation: Action) returns (outcome: Outcome)
      ensures outcome == Fail(CannotAwaitOutsideRecursiveFunction)
    {
      outcome := Fail(CannotAwaitOutsideRecursiveFunction);
    }

    /** A plain callback is never accepted, on the unsafe path either. */
    method UnsafeOnCompletedAction(continuation: Action) returns (outcome: Outcome)
      ensures outcome == Fail(CannotAwaitOutsideRecursiveFunction)
    {
      outcome := Fail(CannotAwaitOutsideRecursiveFunction);
    }

    /** The work-item path: the item goes on top of the runner's stack. */
    method UnsafeOnCompleted(workItem: WorkItem)
      requires workItem.runner == runner
      modifies runner.workItemsToRun
      ensures runner.workItemsToRun.items == old(runner.workItemsToRun.items) + [workItem]
    {
      runner.QueueWorkItem(workItem);
    }
  }
}
