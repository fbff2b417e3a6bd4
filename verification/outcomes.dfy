/** Failure-carrying values shared by every module of the model.
    A JavaScript exception is modelled as `Err` carrying its message. */
module Outcomes {

  datatype Option<+T> = None | Some(value: T) {
    function GetOr(default: T): T {
      match this
      case Some(v) => v
      case None => default
    }
  }

  datatype Result<+T> = Ok(value: T) | Err(msg: string) {
    /** Prefixes the error message, as a `catch` that rethrows with a context prefix does. */
    function Rewrap(prefix: string): (r: Result<T>)
      ensures Ok? ==> r == this
      ensures Err? ==> r.Err? && r.msg == prefix + msg
    {
      match this
      case Ok(v) => Ok(v)
      case Err(m) => Err(prefix + m)
    }
  }
}
