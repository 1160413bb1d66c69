/** The optional value used for every nullable column and absent argument. */
module Prelude {
  datatype Option<+T> = None | Some(value: T) {
    /** SQL's COALESCE(this, otherwise). */
    function Or(otherwise: T): T {
      if Some? then value else otherwise
    }
  }
}
