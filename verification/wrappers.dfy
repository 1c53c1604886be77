/**
 * Small value wrappers shared by every page model: an optional value (a
 * TypeScript `T | undefined` / `T | null`) and the outcome of a remote call.
 */
module Wrappers {

  /** An optional value: `undefined`, `null` or a missing prop become None. */
  datatype Option<+T> = None | Some(value: T) {
    function GetOr(default: T): T {
      match this
      case Some(v) => v
      case None => default
    }
  }

  /**
   * The outcome of one call into the remote catalogue service. The service
   * wrapper turns every transport or HTTP failure into a rejected promise, so
   * a caller sees either the unwrapped response body or a failure.
   */
  datatype Call<+T> = Ok(value: T) | Failed
}
