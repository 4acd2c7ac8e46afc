/** Option and Result types used for the plugin's "not found" and error paths. */
module Wrappers {

  datatype Option<+T> = None | Some(value: T) {
    function GetOr(default: T): T {
      match this
      case Some(v) => v
      case None => default
    }
  }

  /** A computation that either yields a value or the error messages the plugin reports. */
  datatype Result<+T> = Ok(value: T) | Err(errors: seq<string>)

  /** An action that either completes or fails with the messages it reports. */
  datatype Outcome = Pass | Fail(messages: seq<string>)
}
