/** Optional values: a field that the input object does not carry, or
    credentials that the request does not present. */
module Wrappers {

  datatype Option<+T> = None | Some(value: T)
}
