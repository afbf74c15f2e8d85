/** The optional values the application passes around: SQL NULL columns,
    `None` results of a lookup and absent query-string arguments. */
module Wrappers {

  datatype Option<T> = None | Some(value: T)
}
