/** Failure-carrying values used wherever the modelled program calls a collaborator
    that can fail: the collaborator's outcome is an input to the model. */
module Wrappers {

  /** A value that may be absent; in the JavaScript source this is `undefined`. */
  datatype Option<+T> = None | Some(value: T) {
    function GetOr(default: T): T {
      match this
      case Some(v) => v
      case None => default
    }
  }

  /** A value or the message of the error the collaborator threw. */
  datatype Result<+T> = Ok(value: T) | Err(reason: string)

  /** Success or the message of the error a promise was rejected with. */
  datatype Outcome = Pass | Fail(reason: string)
}
