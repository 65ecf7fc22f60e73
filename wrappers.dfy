/** The optional value used by the rule table and by the single-position matcher. */
module Wrappers {

  datatype Option<+T> = None | Some(value: T)
}
