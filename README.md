# Recursion't: the op/task/runner protocol in Dafny

Recursion't lets deep recursion written as `async` methods returning
`RecursiveOp` run on the heap instead of the native stack. When the stack runs
low, a call is parked as a work item on its runner's stack. A pending
`RecursiveOp` points at a `RecursiveTask` together with the token that was
current when the op was made. This project models the protocol between those
pieces:

- **`RecursiveTask`** is a single-assignment completion cell. It is pending,
  succeeded or faulted. It has one continuation slot and a 16-bit generation
  token.
- **`RecursiveOp`** is the handle that callers await. It is completed (null
  payload), faulted (a captured exception) or pending (a task and a token).
- **`RecursiveRunner`** holds a LIFO stack of work items. It also provides the
  thread's ambient "current runner", which a scope installs and later restores.
- **`StackExtensions.TryPop`** drains that stack without ever failing.
- **The async builder's `_task` slot** goes from null to the success sentinel,
  a captured exception or a task. The `Task` getter turns the slot into the
  op handed to the caller.
- **The two awaiters** (`RecursiveOpAwaiter`, `YieldAwaiter`) route `await`
  into the runner's stack.

Every misuse ends in a deterministic error. The `Error` datatype has one
constructor per throw helper: mixed runners, multiple awaits, invalid use,
not completed, no current runner, and awaiting outside a recursive function.
It also has a constructor for an argument-null error and one for rethrowing
a user exception.

Layout: one module per source file. The value-level rules are pure functions
on a `TaskState` value in `recursive_task.dfy`. The classes `RecursiveTask`,
`RecursiveRunner` and `AsyncRecursiveOpMethodBuilder` change their fields in
place, and each method's postcondition ties its outcome and new state to
those functions. `task_protocol.dfy` proves the protocol over arbitrary
sequences of calls. `scenarios.dfy` plays whole hand-offs through the classes.

Modelling choices:
- Every `Interlocked.CompareExchange` is read as a sequential "store if null,
  report whether it was null".
- The thread-static `t_currentRunner` becomes a `ThreadState` object that is
  passed explicitly.
- `Stack<T>` is a class over a `seq`, with the top at the end.
- Exceptions and `Action` callbacks are opaque values.
- `Token` is a `u16` newtype, and `Token++` wraps from 65535 to 0.

`QueueWorkItem` (`src/Recursiont/RecursiveRunner.cs:23`, `:35-39`) pushes onto
an unbounded `Stack`. Its only check is a debug assertion that the item
belongs to the runner, and that assertion is its precondition here.

## Model

| member | source | states |
|---|---|---|
| `Stacks.TryPopped` | src/Recursiont/Compatibility/StackExtensions.cs:11-23 | pops exactly when the stack is non-empty: it hands out the top element and leaves the rest; on an empty stack it hands out nothing and leaves the stack alone |
| `Stacks.TryPop` | src/Recursiont/Compatibility/StackExtensions.cs:11-23 | never fails (the count is checked before `Pop`); its result and the new stack are those of `TryPopped` |
| `Stacks.DrainAfterPushes` | src/Recursiont/Compatibility/StackExtensions.cs:13-17 | last in, first out: after pushing `xs`, as many pops hand `xs` back in reverse order and restore the earlier stack |
| `Runners.WorkItem.constructor` | src/Recursiont/RecursiveWorkItem.cs:9-14 | a work item's runner is fixed at creation |
| `Runners.ThreadState.constructor` | src/Recursiont/RecursiveRunner.cs:20-21 | a thread starts with no current runner |
| `Runners.RecursiveRunner.constructor` | src/Recursiont/RecursiveRunner.cs:23 | a new runner owns a fresh, empty work-item stack |
| `Runners.RecursiveRunner.QueueWorkItem` | src/Recursiont/RecursiveRunner.cs:35-39 | needs the item to belong to this runner; pushes it on top and leaves the rest of the stack unchanged |
| `Runners.RecursiveRunner.SetCurrentRunner` | src/Recursiont/RecursiveRunner.cs:41 | opens a scope that saved the previous runner; afterwards `GetCurrentRunner` returns this runner |
| `Runners.RecursiveRunner.ValidateSameRunner` | src/Recursiont/RecursiveRunner.cs:43-49 | fails with mixed-runners exactly when the other runner is a different one |
| `Runners.GetCurrentRunner` | src/Recursiont/RecursiveRunner.cs:25-33 | returns the current runner, or fails with no-current-runner exactly when none is set |
| `Runners.CurrentRunnerScope.Enter` | src/Recursiont/RecursiveRunner.cs:55-60 | saves the current runner in the scope and installs the new one |
| `Runners.CurrentRunnerScope.Dispose` | src/Recursiont/RecursiveRunner.cs:62 | restores exactly the runner saved by the scope |
| `Runners.ScopesNest` | src/Recursiont/RecursiveRunner.cs:51-63 | over any sequence of scope opens and disposals, the current runner is always that of the innermost open scope, and each open scope saved the runner of the one around it; once all are closed, the starting runner is back |
| `Tasks.ValidateToken` | src/Recursiont/RecursiveTask.cs:132-138 | passes exactly when the token is the current generation, otherwise fails with multiple-awaits |
| `Tasks.ValidateSameRunners` | src/Recursiont/RecursiveTask.cs:124-130 | passes exactly when the work item belongs to the task's runner, otherwise fails with mixed-runners |
| `Tasks.GetIsCompleted` | src/Recursiont/RecursiveTask.cs:39-43 | with a stale token fails with multiple-awaits; otherwise answers whether the task completed; it changes nothing |
| `Tasks.ResetState` | src/Recursiont/RecursiveTask.cs:74-79 | clears completion and continuation and advances the token by one modulo 2^16, so the new token differs from the old one |
| `Tasks.GetResultOutcome` | src/Recursiont/RecursiveTask.cs:45-64 | returns normally only with the current token on a succeeded task; a stale token gives multiple-awaits, a pending task gives not-completed, a faulted task rethrows its exception |
| `Tasks.CompleteStep` | src/Recursiont/RecursiveTask.cs:81-106 | completion is set only on a pending task, and then only the registered continuation (if any) is queued; a second completion fails with invalid-use and changes nothing |
| `Tasks.OnCompletedStep` | src/Recursiont/RecursiveTask.cs:108-122 | the runner is checked before the token; a stale token or a second registration gives multiple-awaits and changes nothing; a registration on a completed task queues the item at once |
| `Tasks.RecursiveTask.constructor` | src/Recursiont/RecursiveTask.cs:30-35 | a new task is pending, has no continuation, has token 0 and belongs to the given runner |
| `Tasks.RecursiveTask.GetResult` | src/Recursiont/RecursiveTask.cs:45-64 | ends as `GetResultOutcome` says, and on every path leaves the task reset |
| `Tasks.RecursiveTask.InvokeContinuationIfExists` | src/Recursiont/RecursiveTask.cs:66-72 | pushes the registered continuation on the runner's stack if there is one, and nothing otherwise |
| `Tasks.RecursiveTask.Reset` | src/Recursiont/RecursiveTask.cs:74-79 | the fields become `ResetState` of the old ones |
| `Tasks.RecursiveTask.SetException` | src/Recursiont/RecursiveTask.cs:81-89 | faults the task as `CompleteStep` says, pushing exactly what it says onto the runner's stack |
| `Tasks.RecursiveTask.SetResult` | src/Recursiont/RecursiveTask.cs:91-99 | completes the task as `CompleteStep` says, pushing exactly what it says onto the runner's stack |
| `Tasks.RecursiveTask.TrySetCompletionObject` | src/Recursiont/RecursiveTask.cs:101-106 | stores the completion only if the task was pending, reports whether it was, and leaves token and continuation alone |
| `Tasks.RecursiveTask.UnsafeOnCompleted` | src/Recursiont/RecursiveTask.cs:108-122 | registers the continuation as `OnCompletedStep` says, pushing exactly what it says onto the runner's stack; the continuation always belongs to the task's runner |
| `TaskProtocol.StepQueuesOnHandOff` | src/Recursiont/RecursiveTask.cs:66-122 | no call undoes a completion or a registration or moves the token; a call queues a work item exactly when it completes the hand-off, and the item is the registered continuation |
| `TaskProtocol.CompletesAtMostOnce` | src/Recursiont/RecursiveTask.cs:81-106 | in any sequence of calls between two resets at most one completion succeeds, none does once the task is complete, and the first outcome stays: a run on a pending task whose first call completes it ends with that completion |
| `TaskProtocol.QueuedExactlyOnce` | src/Recursiont/RecursiveTask.cs:66-122 | in any sequence of calls between two resets the runner receives the registered continuation exactly once if registration and completion both happen, in either order, and nothing otherwise |
| `TaskProtocol.ContinuationKept` | src/Recursiont/RecursiveTask.cs:108-116 | between two resets a registered continuation is never replaced |
| `TaskProtocol.EitherOrderQueuesOnce` | src/Recursiont/RecursiveTask.cs:66-122 | "register, then complete" and "complete, then register" both queue the continuation exactly once |
| `TaskProtocol.ResetTimesToken` | src/Recursiont/RecursiveTask.cs:74-79 | k resets advance the token by k modulo 2^16 |
| `TaskProtocol.StaleTokenRejected` | src/Recursiont/RecursiveTask.cs:132-138 | after 1 to 65535 resets, the old token is refused with multiple-awaits by `GetIsCompleted`, `GetResult` and `UnsafeOnCompleted` |
| `TaskProtocol.TokenRepeatsAfterWrap` | src/Recursiont/RecursiveTask.cs:74-79 | after any whole number of rounds of 65536 resets the old token is accepted again (the limit of a 16-bit generation) |
| `Ops.RecursiveOp.IsCompleted` | src/Recursiont/RecursiveOp.cs:33-46 | completed and faulted ops are complete; a task op forwards to the task with its own token |
| `Ops.RecursiveOp.ResultOutcome` | src/Recursiont/RecursiveOp.cs:103-112 | resolving a completed op returns normally, a faulted op rethrows its exception, and a task op ends as the task decides for the op's token |
| `Ops.RecursiveOp.Runner` | src/Recursiont/RecursiveOp.cs:48-56 | defined only for task ops; it is the task's runner |
| `Ops.RecursiveOp.GetResult` | src/Recursiont/RecursiveOp.cs:103-112 | ends as `ResultOutcome` said beforehand; a task op's task is reset |
| `Ops.RecursiveOp.UnsafeOnCompleted` | src/Recursiont/RecursiveOp.cs:114-125 | on an op without a task fails with invalid-use; on a task op registers with the op's token as the task's `UnsafeOnCompleted` does |
| `Ops.CompletedOp` | src/Recursiont/RecursiveOp.cs:31 | the default op is complete and resolves normally |
| `Ops.FromException` | src/Recursiont/RecursiveOp.cs:71-75 | a missing exception is an argument-null error; otherwise the op is complete and resolving it rethrows that exception |
| `Ops.AsRecursiveOp` | src/Recursiont/RecursiveTask.cs:37 | wraps the task with its current token, so the new op is not stale: it reports the task's completion and resolves normally exactly when the task succeeded |
| `OpAwaiters.GetAwaiter` | src/Recursiont/RecursiveOp.cs:101 | the awaiter wraps the op unchanged |
| `OpAwaiters.RecursiveOpAwaiter.IsCompleted` | src/Recursiont/Infrastructure/RecursiveOpAwaiter.cs:23 | equals the wrapped op's `IsCompleted` |
| `OpAwaiters.RecursiveOpAwaiter.GetResult` | src/Recursiont/Infrastructure/RecursiveOpAwaiter.cs:26 | behaves exactly as the wrapped op's `GetResult` |
| `OpAwaiters.RecursiveOpAwaiter.OnCompleted` | src/Recursiont/Infrastructure/RecursiveOpAwaiter.cs:28-29 | always fails with cannot-await-outside-recursive-function |
| `OpAwaiters.RecursiveOpAwaiter.UnsafeOnCompletedAction` | src/Recursiont/Infrastructure/RecursiveOpAwaiter.cs:31-32 | always fails with cannot-await-outside-recursive-function |
| `OpAwaiters.RecursiveOpAwaiter.Runner` | src/Recursiont/Infrastructure/RecursiveOpAwaiter.cs:34 | the wrapped op's runner |
| `OpAwaiters.RecursiveOpAwaiter.UnsafeOnCompleted` | src/Recursiont/Infrastructure/RecursiveOpAwaiter.cs:36-37 | behaves exactly as the wrapped op's work-item `UnsafeOnCompleted` |
| `YieldAwaitables.YieldAwaitable.GetAwaiter` | src/Recursiont/Infrastructure/YieldAwaitable.cs:13-18 | the awaiter carries the awaitable's runner unchanged |
| `YieldAwaitables.YieldAwaiter.IsCompleted` | src/Recursiont/Infrastructure/YieldAwaitable.cs:25 | never complete, so a yield always suspends |
| `YieldAwaitables.YieldAwaiter.GetResult` | src/Recursiont/Infrastructure/YieldAwaitable.cs:32 | never fails |
| `YieldAwaitables.YieldAwaiter.Runner` | src/Recursiont/Infrastructure/YieldAwaitable.cs:34 | the runner the awaiter was made with |
| `YieldAwaitables.YieldAwaiter.OnCompleted` | src/Recursiont/Infrastructure/YieldAwaitable.cs:36-37 | always fails with cannot-await-outside-recursive-function |
| `YieldAwaitables.YieldAwaiter.UnsafeOnCompletedAction` | src/Recursiont/Infrastructure/YieldAwaitable.cs:39-40 | always fails with cannot-await-outside-recursive-function |
| `YieldAwaitables.YieldAwaiter.UnsafeOnCompleted` | src/Recursiont/Infrastructure/YieldAwaitable.cs:42-43 | pushes the work item on top of the awaiter's runner's stack and changes nothing else |
| `BuilderShared.SetExceptionSlot` | src/Recursiont/Infrastructure/AsyncRecursiveOpMethodBuilderShared.cs:16-28 | a null slot captures the exception; a slot holding the sentinel or an exception fails with invalid-use and is unchanged |
| `BuilderShared.SetException` | src/Recursiont/Infrastructure/AsyncRecursiveOpMethodBuilderShared.cs:16-28 | a slot without a task changes as `SetExceptionSlot` says; a task slot is kept and the task is faulted as its `SetException` does |
| `Builders.SetResultSlot` | src/Recursiont/Infrastructure/AsyncRecursiveOpMethodBuilder.cs:74-87 | a null slot takes the success sentinel; a slot holding the sentinel or an exception fails with invalid-use and is unchanged |
| `Builders.AsyncRecursiveOpMethodBuilder.constructor` | src/Recursiont/Infrastructure/AsyncRecursiveOpMethodBuilder.cs:42-46 | binds the runner and starts with a null slot |
| `Builders.AsyncRecursiveOpMethodBuilder.Create` | src/Recursiont/Infrastructure/AsyncRecursiveOpMethodBuilder.cs:62-63 | binds a fresh builder with a null slot to the current runner, or fails with no-current-runner exactly when there is none |
| `Builders.AsyncRecursiveOpMethodBuilder.Task` | src/Recursiont/Infrastructure/AsyncRecursiveOpMethodBuilder.cs:23-40 | the sentinel gives the completed op; an exception gives a complete op that rethrows it; a task gives the task's op with its current token, which is not stale; a null slot fails with invalid-use |
| `Builders.AsyncRecursiveOpMethodBuilder.SetException` | src/Recursiont/Infrastructure/AsyncRecursiveOpMethodBuilder.cs:66-67 | updates the slot as the shared `SetException` does |
| `Builders.AsyncRecursiveOpMethodBuilder.SetResult` | src/Recursiont/Infrastructure/AsyncRecursiveOpMethodBuilder.cs:74-87 | a slot without a task changes as `SetResultSlot` says; a task slot is kept and the task completes as its `SetResult` does |
| `Builders.SynchronousCompletionAtMostOnce` | src/Recursiont/Infrastructure/AsyncRecursiveOpMethodBuilder.cs:74-87 | for a method that never spilled, of any sequence of `SetResult`/`SetException` calls only the first is accepted, and the slot keeps its outcome |
| `Scenarios.AwaitCompleteDrainResolve` | src/Recursiont/RecursiveTask.cs:45-64 | await, then complete: the drain pops the awaiting item once, the op resolves once, and a second resolution of the same op fails with multiple-awaits |
| `Scenarios.CompleteThenAwait` | src/Recursiont/RecursiveTask.cs:118-121 | complete, then await: registering queues the awaiting item, once |
| `Scenarios.MixRunners` | src/Recursiont/RecursiveTask.cs:124-130 | awaiting an op with a work item of another runner fails with mixed-runners and queues nothing |
| `Scenarios.NestedScopes` | src/Recursiont/RecursiveRunner.cs:51-63 | nested scopes install their runners and unwind back to the starting one |

## Left out

- The `Run`/`Evaluate` dispatch loop, the `QueueWorkItem(item, yielding)` overload and the stack-headroom probe are not part of this model. `YieldAwaiter.UnsafeOnCompleted` is therefore modelled with the one-argument push.
- `RecursiveOp.FromResult` is left out. It builds the generic `RecursiveOp<TResult>`, and modelling that would need the typed task (`RecursiveTask<TResult>`) and the generic builder, which are not part of this model.
- `RecursiveOp.FromException<TResult>` is left out for the same reason; the non-generic `FromException` is modelled.
- How a task gets into the builder's slot is not modelled. That happens in `GetStateMachineBox` of the generic builder, on a spill or on the first real suspension. The slot's task cases are modelled for a slot that already holds a task.
- `Start`, `AwaitOnCompleted`, `AwaitUnsafeOnCompleted` and `SetStateMachine` are left out: they drive the compiler's state machine.
- The inheritance of `RecursiveTask` from `RecursiveWorkItem` is dropped. Continuations are opaque `WorkItem`s, so the model never registers a task (a state-machine box) as another task's continuation.
- `RecursiveWorkItem.Run` is left out, because it resumes a compiler-generated state machine.
- Pooling of state-machine boxes and its trimming after garbage collection are left out: they affect memory, not behaviour.
- Tracing events are left out.
- Atomicity is not modelled: each compare-and-exchange is a sequential guarded assignment, and completion from another thread is not modelled.
- `ExceptionDispatchInfo` capture and rethrow are not modelled: a captured exception is the exception itself, and "rethrow" is the `Rethrown` error.
- `Ops.RecursiveOp.Runner`: the precondition that the op holds a task is the debug assertion of the source. In a release build the source would fail at run time instead: an invalid cast for a faulted op, a null dereference for a completed one.
- `YieldAwaitables.YieldAwaiter.UnsafeOnCompleted`: the precondition that the item belongs to the awaiter's runner is the debug assertion inside `QueueWorkItem`. The source does not check it at run time.
- `Runners.RecursiveRunner.QueueWorkItem`: the same debug assertion is a precondition here.
- The text of the no-current-runner error is not modelled: its throw helper is not among the source files modelled.
- `Builders.AsyncRecursiveOpMethodBuilder.Task`: for an exception slot, the source passes the captured `ExceptionDispatchInfo` to `FromException`. The model gives the faulted op that rethrows the same exception.
