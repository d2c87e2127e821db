/** The ways an operation of the protocol can end: normally, with one of the
    usage errors raised by ThrowHelpers, with an argument-null error, or by
    rethrowing an exception that user code raised. */
module Errors {

  /** An exception object raised by user code. Its identity is all the
      protocol looks at, so it is kept opaque. */
  datatype Exn = Exn(id: nat)

  /** A plain callback of the compiler's awaiter pattern (an `Action`); the
      protocol only refuses it, so it is opaque too. */
  datatype Action = Action(id: nat)

  /** One constructor per throw helper, plus the rethrow of a captured exception. */
  datatype Error =
    | CannotAwaitOutsideRecursiveFunction  // NotSupportedException
    | MixedRunners                         // InvalidOperationException
    | MultipleAwaits                       // InvalidOperationException
    | InvalidUse                           // InvalidOperationException
    | NotCompleted                         // InvalidOperationException
    | NoCurrentRunner
    | ArgumentNull                         // ArgumentNullException
    | Rethrown(exn: Exn)                   // ExceptionDispatchInfo.Throw()

  datatype Option<+T> = None | Some(value: T)

  /** The end of an operation that returns nothing. */
  datatype Outcome = Pass | Fail(error: Error)

  /** The end of an operation that returns a value. */
  datatype Result<+T> = Ok(value: T) | Err(error: Error)
}
