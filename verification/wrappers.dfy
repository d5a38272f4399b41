/** A value that may be absent: Python's `None`-able fields and lookups. */
module Wrappers {

  datatype Option<T> = None | Some(value: T) {

    /** The value, or `fallback` when absent; the ledger reads a placeholder as 0 this way. */
    function GetOr(fallback: T): (r: T)
      ensures this.Some? ==> r == value
      ensures this.None? ==> r == fallback
    {
      if this.Some? then value else fallback
    }
  }
}
