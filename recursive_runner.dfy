/** The runner: its LIFO stack of work items, the thread's ambient "current
    runner", and the scope that installs a runner and later restores the
    previous one. */
module Runners {
  import opened Errors
  import Stacks

  /** A schedulable unit. Its runner is fixed when it is created; what
      `Run()` resumes is the compiler's state machine, outside this model. */
  class WorkItem {
    const runner: RecursiveRunner

    constructor (runner: RecursiveRunner)
      ensures this.runner == runner
    {
      this.runner := runner;
    }
  }

  /** The thread-static storage of one thread: its current runner, if any. */
  class ThreadState {
    var currentRunner: RecursiveRunner?

    constructor ()
      ensures currentRunner == null
    {
      currentRunner := null;
    }
  }

  class RecursiveRunner {
    /** The stack object is fixed; its contents change. */
    const workItemsToRun: Stacks.Stack<WorkItem>

    constructor ()
      ensures fresh(workItemsToRun) && workItemsToRun.items == []
    {
      workItemsToRun := new Stacks.Stack<WorkItem>();
    }

    /** Pushes `workItem` on top of the stack; the items below are untouched.
        The item must belong to this runner (a debug assertion in the source). */
    method QueueWorkItem(workItem: WorkItem)
      requires workItem.runner == this
      modifies workItemsToRun
      ensures workItemsToRun.items == old(workItemsToRun.items) + [workItem]
    {
      workItemsToRun.Push(workItem);
    }

    /** Opens a scope in which this runner is the thread's current runner. */
    method SetCurrentRunner(thread: ThreadState) returns (scope: CurrentRunnerScope)
      modifies thread
      ensures scope.previousRunner == old(thread.currentRunner)
      ensures GetCurrentRunner(thread) == Ok(this)
    {
      scope := CurrentRunnerScope.Enter(thread, this);
    }

    /** Fails with the mixed-runners error exactly when `otherRunner` is a
        different runner; it has no other effect. */
    function ValidateSameRunner(otherRunner: RecursiveRunner): (r: Outcome)
      ensures r.Pass? <==> otherRunner == this
      ensures r.Fail? ==> r.error == MixedRunners
    {
      if otherRunner != this then Fail(MixedRunners) else Pass
    }
  }

  /** The thread's current runner, or the no-current-runner error. */
  function GetCurrentRunner(thread: ThreadState): (r: Result<RecursiveRunner>)
    reads thread
    ensures r.Ok? <==> thread.currentRunner != null
    ensures r.Ok? ==> r.value == thread.currentRunner
    ensures r.Err? ==> r.error == NoCurrentRunner
  {
    if thread.currentRunner == null then Err(NoCurrentRunner) else Ok(thread.currentRunner)
  }

  /** Remembers the runner that was current when the scope was opened. */
  datatype CurrentRunnerScope = CurrentRunnerScope(previousRunner: RecursiveRunner?) {

    /** The scope's constructor: saves the current runner and installs `runner`. */
    static method Enter(thread: ThreadState, runner: RecursiveRunner) returns (scope: CurrentRunnerScope)
      modifies thread
      ensures scope.previousRunner == old(thread.currentRunner)
      ensures thread.currentRunner == runner
    {
      scope := CurrentRunnerScope(thread.currentRunner);
      thread.currentRunner := runner;
    }

    /** Puts back exactly the runner saved by the constructor. */
    method Dispose(thread: ThreadState)
      modifies thread
      ensures thread.currentRunner == previousRunner
    {
      thread.currentRunner := previousRunner;
    }
  }

  /** A scope opened for a runner, or the innermost open scope disposed. */
  datatype ScopeEvent = Open(runner: RecursiveRunner) | Close

  datatype ScopeState = ScopeState(current: RecursiveRunner?, open: seq<CurrentRunnerScope>)

  /** The current-runner slot and the open scopes after `events`, starting
      from `start` with no scope open: `Open` does what `Enter` does, `Close`
      what `Dispose` does on the innermost open scope (the nesting that
      `using` blocks give). `None` when a `Close` finds no open scope. */
  function Replay(start: RecursiveRunner?, events: seq<ScopeEvent>): Option<ScopeState>
  {
    if events == [] then Some(ScopeState(start, []))
    else
      match Replay(start, events[..|events| - 1])
      case None => None
      case Some(st) =>
        match events[|events| - 1]
        case Open(r) => Some(ScopeState(r, st.open + [CurrentRunnerScope(st.current)]))
        case Close =>
          if st.open == [] then None
          else Some(ScopeState(st.open[|st.open| - 1].previousRunner, st.open[..|st.open| - 1]))
  }

  /** The runners of the scopes still open after `events`, innermost last. */
  function OpenRunners(events: seq<ScopeEvent>): Option<seq<RecursiveRunner>>
  {
    if events == [] then Some([])
    else
      match OpenRunners(events[..|events| - 1])
      case None => None
      case Some(rs) =>
        match events[|events| - 1]
        case Open(r) => Some(rs + [r])
        case Close => if rs == [] then None else Some(rs[..|rs| - 1])
  }

  /** Scopes restore in last-in-first-out order: at every point the current
      runner is the one of the innermost open scope (or the starting one when
      none is open), and each open scope saved the runner of the scope around
      it. Once every scope is closed again, the starting runner is back. */
  lemma {:induction false} ScopesNest(start: RecursiveRunner?, events: seq<ScopeEvent>)
    ensures Replay(start, events).Some? <==> OpenRunners(events).Some?
    ensures Replay(start, events).Some? ==>
      var st, rs := Replay(start, events).value, OpenRunners(events).value;
      |st.open| == |rs| &&
      st.current == (if rs == [] then start else rs[|rs| - 1]) &&
      forall i :: 0 <= i < |rs| ==> st.open[i].previousRunner == (if i == 0 then start else rs[i - 1])
    ensures OpenRunners(events) == Some([]) ==> Replay(start, events).value.current == start
  {
    if events != [] {
      var prefix := events[..|events| - 1];
      ScopesNest(start, prefix);
    }
  }
}
