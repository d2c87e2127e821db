/** Whole hand-offs played through the imperative model, from the op a caller
    receives to the work item the runner's drain loop pops. */
module Scenarios {
  import opened Errors
  import opened Stacks
  import opened Runners
  import opened Tasks
  import opened Ops

  /** A pending op is awaited, its task then completes, and the runner's drain
      pops the awaiting work item, once. Resolving the op succeeds once; a
      second resolution of the same op is refused as a multiple await. */
  method AwaitCompleteDrainResolve() returns (awaiting: WorkItem, registered: Outcome, completed: Outcome,
                                              popped: Option<WorkItem>, poppedAgain: bool,
                                              first: Outcome, second: Outcome)
    ensures registered == Pass && completed == Pass
    ensures popped == Some(awaiting) && !poppedAgain
    ensures first == Pass && second == Fail(MultipleAwaits)
  {
    var runner := new RecursiveRunner();
    var task := new RecursiveTask(runner);
    awaiting := new WorkItem(runner);
    var op := AsRecursiveOp(task);
    registered := op.UnsafeOnCompleted(awaiting);
    completed := task.SetResult();
    assert runner.workItemsToRun.items == [awaiting];
    var ok, nothing;
    ok, popped := TryPop(runner.workItemsToRun);
    assert ok;
    poppedAgain, nothing := TryPop(runner.workItemsToRun);
    assert nothing == None;
    first := op.GetResult();
    second := op.GetResult();
  }

  /** The other order: the task completes before anyone awaits, and the
      continuation is queued by the registration itself. */
  method CompleteThenAwait() returns (awaiting: WorkItem, completed: Outcome, registered: Outcome, queued: seq<WorkItem>)
    ensures completed == Pass && registered == Pass
    ensures queued == [awaiting]
  {
    var runner := new RecursiveRunner();
    var task := new RecursiveTask(runner);
    awaiting := new WorkItem(runner);
    var op := AsRecursiveOp(task);
    completed := task.SetResult();
    assert runner.workItemsToRun.items == [];
    registered := op.UnsafeOnCompleted(awaiting);
    queued := runner.workItemsToRun.items;
  }

  /** An op produced under one runner cannot be awaited by a work item of
      another runner, and nothing is queued anywhere. */
  method MixRunners() returns (outcome: Outcome, queuedA: nat, queuedB: nat)
    ensures outcome == Fail(MixedRunners)
    ensures queuedA == 0 && queuedB == 0
  {
    var a := new RecursiveRunner();
    var b := new RecursiveRunner();
    var task := new RecursiveTask(a);
    var foreign := new WorkItem(b);
    var op := AsRecursiveOp(task);
    outcome := op.UnsafeOnCompleted(foreign);
    queuedA := a.workItemsToRun.Count();
    queuedB := b.workItemsToRun.Count();
  }

  /** A scope installs its runner for the code inside and, disposed, puts the
      previous runner back, so nested scopes unwind in order. */
  method NestedScopes(thread: ThreadState, outer: RecursiveRunner, inner: RecursiveRunner)
    returns (insideInner: Result<RecursiveRunner>, betweenScopes: Result<RecursiveRunner>)
    modifies thread
    ensures insideInner == Ok(inner) && betweenScopes == Ok(outer)
    ensures thread.currentRunner == old(thread.currentRunner)
  {
    var outerScope := outer.SetCurrentRunner(thread);
    var innerScope := inner.SetCurrentRunner(thread);
    insideInner := GetCurrentRunner(thread);
    innerScope.Dispose(thread);
    betweenScopes := GetCurrentRunner(thread);
    outerScope.Dispose(thread);
  }
}
