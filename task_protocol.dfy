/** Properties of the task protocol over whole sequences of calls: a task
    completes at most once per generation, its continuation is queued exactly
    once whichever of registration and completion comes first, and a reset
    turns every earlier token stale. */
module TaskProtocol {
  import opened Errors
  import opened Runners
  import opened Tasks

  /** A call made on a task between two resets (reading the result resets,
      so it ends a generation and is not among them). */
  datatype TaskCall =
    | AskIsCompleted(token: u16)
    | SetResult
    | SetException(exception: Exn)
    | Register(workItem: WorkItem, token: u16)

  /** One call on a task owned by `runner`, as the task's methods perform it. */
  function Apply(s: TaskState, runner: RecursiveRunner, call: TaskCall): Step
  {
    match call
    case AskIsCompleted(t) =>
      Step(if GetIsCompleted(s, t).Ok? then Pass else Fail(MultipleAwaits), s, None)
    case SetResult => CompleteStep(s, Succeeded)
    case SetException(e) => CompleteStep(s, Faulted(e))
    case Register(k, t) => OnCompletedStep(s, runner, k, t)
  }

  /** The state after a sequence of calls, every work item pushed on the
      runner's stack along the way, and how many completions succeeded. */
  datatype Trace = Trace(after: TaskState, queued: seq<WorkItem>, completions: nat)

  function Run(s: TaskState, runner: RecursiveRunner, calls: seq<TaskCall>): Trace
    decreases |calls|
  {
    if calls == [] then Trace(s, [], 0)
    else
      var step := Apply(s, runner, calls[0]);
      var rest := Run(step.after, runner, calls[1..]);
      var completed := if (calls[0].SetResult? || calls[0].SetException?) && step.outcome.Pass? then 1 else 0;
      Trace(rest.after, Pushed(step.queued) + rest.queued, completed + rest.completions)
  }

  /** Both halves of the hand-off have happened: the task completed and a
      continuation is registered. */
  predicate HandedOff(s: TaskState)
  {
    s.completion != Pending && s.continuation.Some?
  }

  /** A single call never undoes a completion or a registration, and it pushes
      a work item exactly when it completes the hand-off; the item pushed is
      the registered continuation. */
  lemma StepQueuesOnHandOff(s: TaskState, runner: RecursiveRunner, call: TaskCall)
    ensures var step := Apply(s, runner, call);
      (s.completion != Pending ==> step.after.completion == s.completion) &&
      (s.continuation.Some? ==> step.after.continuation == s.continuation) &&
      step.after.token == s.token &&
      Pushed(step.queued) == (if HandedOff(step.after) && !HandedOff(s) then [step.after.continuation.value] else [])
  {
  }

  /** The completion is set at most once: over any calls within a generation
      at most one `SetResult`/`SetException` succeeds, none does once the task
      has completed, and the first outcome is never replaced. */
  lemma {:induction false} CompletesAtMostOnce(s: TaskState, runner: RecursiveRunner, calls: seq<TaskCall>)
    ensures Run(s, runner, calls).completions <= 1
    ensures s.completion != Pending ==>
      Run(s, runner, calls).completions == 0 && Run(s, runner, calls).after.completion == s.completion
    ensures Run(s, runner, calls).completions == 1 ==> Run(s, runner, calls).after.completion != Pending
    ensures s.completion == Pending && calls != [] && calls[0].SetResult? ==>
      Run(s, runner, calls).after.completion == Succeeded
    ensures s.completion == Pending && calls != [] && calls[0].SetException? ==>
      Run(s, runner, calls).after.completion == Faulted(calls[0].exception)
    decreases |calls|
  {
    if calls != [] {
      var step := Apply(s, runner, calls[0]);
      StepQueuesOnHandOff(s, runner, calls[0]);
      CompletesAtMostOnce(step.after, runner, calls[1..]);
    }
  }

  /** The continuation is queued exactly once, whichever of registration and
      completion happens first: over any calls within a generation the runner
      receives exactly the registered continuation, once, if the hand-off
      completes during them, and nothing otherwise. */
  lemma {:induction false} QueuedExactlyOnce(s: TaskState, runner: RecursiveRunner, calls: seq<TaskCall>)
    ensures HandedOff(s) ==> HandedOff(Run(s, runner, calls).after)
    ensures var t := Run(s, runner, calls);
      t.queued == (if HandedOff(t.after) && !HandedOff(s) then [t.after.continuation.value] else [])
    decreases |calls|
  {
    if calls != [] {
      var step := Apply(s, runner, calls[0]);
      StepQueuesOnHandOff(s, runner, calls[0]);
      QueuedExactlyOnce(step.after, runner, calls[1..]);
      var rest := Run(step.after, runner, calls[1..]);
      if HandedOff(step.after) {
        assert rest.queued == [];
        assert rest.after.continuation == step.after.continuation by {
          ContinuationKept(step.after, runner, calls[1..]);
        }
      }
    }
  }

  /** Within a generation a registered continuation is never replaced. */
  lemma {:induction false} ContinuationKept(s: TaskState, runner: RecursiveRunner, calls: seq<TaskCall>)
    requires s.continuation.Some?
    ensures Run(s, runner, calls).after.continuation == s.continuation
    decreases |calls|
  {
    if calls != [] {
      StepQueuesOnHandOff(s, runner, calls[0]);
      ContinuationKept(Apply(s, runner, calls[0]).after, runner, calls[1..]);
    }
  }

  /** Both orders of "register the continuation" and "complete" hand the
      continuation to the runner once. */
  lemma EitherOrderQueuesOnce(s: TaskState, runner: RecursiveRunner, workItem: WorkItem, c: Completion)
    requires s.completion == Pending && s.continuation == None
    requires workItem.runner == runner && c != Pending
    ensures var done := if c == Succeeded then SetResult else SetException(c.exn);
      Run(s, runner, [Register(workItem, s.token), done]).queued == [workItem] &&
      Run(s, runner, [done, Register(workItem, s.token)]).queued == [workItem]
  {
    var done := if c == Succeeded then SetResult else SetException(c.exn);
    QueuedExactlyOnce(s, runner, [Register(workItem, s.token), done]);
    QueuedExactlyOnce(s, runner, [done, Register(workItem, s.token)]);
  }

  /** The state after `k` resets. */
  function ResetTimes(s: TaskState, k: nat): TaskState
  {
    if k == 0 then s else ResetState(ResetTimes(s, k - 1))
  }

  /** Each reset advances the token by one, modulo 2^16. */
  lemma {:induction false} ResetTimesToken(s: TaskState, k: nat)
    ensures ResetTimes(s, k).token as int == (s.token as int + k) % 0x1_0000
  {
    if k > 0 {
      ResetTimesToken(s, k - 1);
    }
  }

  /** After one to 65535 resets, an op holding the old token is turned away by
      every token-checked entry point with the multiple-awaits error. */
  lemma StaleTokenRejected(s: TaskState, k: nat, runner: RecursiveRunner, workItem: WorkItem)
    requires 1 <= k < 0x1_0000
    requires workItem.runner == runner
    ensures var later := ResetTimes(s, k);
      GetIsCompleted(later, s.token) == Err(MultipleAwaits) &&
      GetResultOutcome(later, s.token) == Fail(MultipleAwaits) &&
      OnCompletedStep(later, runner, workItem, s.token).outcome == Fail(MultipleAwaits)
  {
    ResetTimesToken(s, k);
  }

  /** The limit of a 16-bit generation: after any whole number of rounds of
      65536 resets the old token is accepted again. */
  lemma TokenRepeatsAfterWrap(s: TaskState, rounds: nat)
    ensures ValidateToken(ResetTimes(s, 0x1_0000 * rounds), s.token) == Pass
  {
    var k := 0x1_0000 * rounds;
    ResetTimesToken(s, k);
    assert (s.token as int + k) % 0x1_0000 == s.token as int;
  }
}
