/** Option, Result and Outcome: the model's stand-ins for Rust's `Option<T>`,
    `anyhow::Result<T>` and `anyhow::Result<()>`. Errors are carried as text. */
module Wrappers {

  datatype Option<+T> = None | Some(value: T) {
    /** `unwrap_or(default)` */
    function GetOr(default: T): (r: T)
      ensures Some? ==> r == value
      ensures None? ==> r == default
    {
      match this
      case Some(v) => v
      case None => default
    }
  }

  datatype Result<+T> = Ok(value: T) | Err(error: string)

  datatype Outcome = Pass | Fail(error: string)
}
