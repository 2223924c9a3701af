/** The optional-value wrapper used for the record fields that the source may leave unset. */
module Wrappers {

  datatype Option<+T> = None | Some(value: T) {

    /** The value held, or `default` when there is none. */
    function GetOr(default: T): T
    {
      if Some? then value else default
    }
  }
}
