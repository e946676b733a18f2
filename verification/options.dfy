/**
 * An optional value (`None` stands for JavaScript's `undefined`) and the
 * outcome of an operation that may fail.
 */
module Options {
  datatype Option<+T> = None | Some(value: T) {
    function GetOr(default: T): T {
      if Some? then value else default
    }
  }

  datatype Result<+T, +E> = Ok(value: T) | Err(error: E)
}
