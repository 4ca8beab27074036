/** Rust's `Option`, used for calls that may fail or panic. */
module Options {

  datatype Option<+T> = None | Some(value: T) {

    /** `unwrap_or`: the carried value, or the fallback when there is none. */
    function GetOr(default: T): T
    {
      match this
      case Some(v) => v
      case None => default
    }
  }
}
