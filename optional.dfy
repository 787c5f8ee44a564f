/** A value that may be missing. A JavaScript optional string field that is
    `undefined` or `null` is `None`; both behave the same under `||` and `===`
    everywhere the modelled code uses them. */
module Optional {

  datatype Option<+T> = None | Some(value: T) {
    function GetOr(default: T): T {
      match this
      case Some(v) => v
      case None => default
    }
  }

  /** The outcome of an awaited repository call: its resolved value, or a
      rejection (the error value itself is never inspected by the model). */
  datatype Outcome<+T> = Ok(value: T) | Failed
}
