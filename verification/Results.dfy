/** Outcomes shared by every module: the engine's errors and optional values. */
module Results {

  datatype Option<+T> = None | Some(value: T)

  /** The error kinds callers can tell apart. */
  datatype Error =
    | NotFound
    | AlreadyExists
    | Invalid
    | Corrupt
    | VersionUnavailable(requested: nat, first: nat, last: nat)
    | LimitExceeded
    | Interrupted

  datatype Result<+T> = Ok(value: T) | Err(error: Error) {
    predicate IsFailure() {
      Err?
    }

    function PropagateFailure<U>(): Result<U>
      requires Err?
    {
      Err(error)
    }

    function Extract(): T
      requires Ok?
    {
      value
    }
  }

  const U64_MAX: nat := 0xFFFF_FFFF_FFFF_FFFF

  type byte = x: int | 0 <= x < 256
}
