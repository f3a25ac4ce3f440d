/** Present/absent values, standing in for the `false` sentinel the registry
    returns when an identifier is unknown. */
module Wrappers {

  datatype Option<+T> = None | Some(value: T)
}
