/** Failure-compatible results and the error codes the program returns. */
module Prelude {

  datatype Option<+T> = None | Some(value: T)

  /** The stable error codes of `DualKeyError` that the modelled code can return,
      plus two ways the runtime aborts an instruction: a System or Token program
      invocation failed, or an index was out of range. */
  datatype Error =
    | InvalidAccountData
    | InvalidPda
    | UnsupportedVersion
    | IntentExpired
    | InvalidEd25519
    | InvalidFalcon
    | PolicyRejected
    | PolicyNotImplemented
    | MalformedFalcon
    | MalformedEd25519Precompile
    | UnsupportedAction
    | MathOverflow
    | InsufficientFunds
    | MalformedInstructionData
    | DigestMismatch
    | MissingSigner
    | AccountAlreadyInitialized
    | InvalidProgramAccount
    | CalleeFailed
    | Panicked

  datatype Result<+T> = Ok(value: T) | Err(error: Error) {
    predicate IsFailure() {
      Err?
    }

    function PropagateFailure<U>(): Result<U>
      requires Err?
    {
      Err(error)
    }

    function Extract(): T
      requires Ok?
    {
      value
    }
  }

  datatype Unit = Done

  /** A guard: succeeds exactly when the condition holds. */
  function Require(condition: bool, error: Error): Result<Unit> {
    if condition then Ok(Done) else Err(error)
  }
}
