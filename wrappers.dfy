/** Option and Result, and the error values the workflow engine reports. */
module Wrappers {

  datatype Option<+T> = None | Some(value: T) {
    function GetOr(default: T): T {
      match this
      case Some(v) => v
      case None => default
    }
  }

  /** The error conditions the engine distinguishes. */
  datatype Error =
    | NotFound                      // ErrNotFound: a node instance, flow instance or node is missing
    | InvalidNodeInstance           // DoneNodeInstance on an absent or already completed instance
    | UnknownNodeType(name: string) // a type code that is not one of the known node types
    | ExecFailed(message: string)   // the expression evaluator reported a fault
    | DbFailed(message: string)     // a database write, transaction begin, commit or rollback failed
    | BadVersion(text: string)      // versionTag is not an integer
    | MissingElement(tag: string)   // a nil element was dereferenced (a panic in the source)
    | MissingAttr(key: string)      // a nil attribute was dereferenced (a panic in the source)
    | DepthExceeded                 // the traversal bound of the model was reached

  datatype Result<+T> = Ok(value: T) | Err(error: Error) {
    predicate IsFailure() { Err? }
    function PropagateFailure<U>(): Result<U>
      requires Err?
    {
      Err(error)
    }
    function Extract(): T
      requires Ok?
    {
      value
    }
    /** The error a Go call returns alongside this result: nil on success. */
    function Failure(): Option<Error> {
      if Err? then Some(error) else None
    }
  }
}
