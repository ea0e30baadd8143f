/** Optional values and fallible results, shared by every other module. */
module Options {

  datatype Option<+T> = None | Some(value: T) {

    /** The value if there is one, else the given default. */
    function GetOr(default: T): T {
      if Some? then value else default
    }
  }

  datatype Result<+T, +E> = Ok(value: T) | Err(error: E)
}
