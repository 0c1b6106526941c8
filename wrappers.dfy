/** Option and Result, standing for Python's `None` and for an exception a callee may raise. */
module Wrappers {

  datatype Option<+T> = None | Some(value: T)
  {
    /** `d.get(key) or default` for a value that is present or absent. */
    function GetOr(default: T): T {
      if Some? then value else default
    }
  }

  /** Python truthiness of an optional string: present and not the empty string. */
  predicate Truthy(s: Option<string>) {
    s.Some? && s.value != []
  }

  /** `Failure(msg)` stands for an exception whose `str()` is `msg`. */
  datatype Result<+T> = Success(value: T) | Failure(error: string)
}
