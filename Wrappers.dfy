/** A value that may be absent, such as a query parameter the request does
    not carry. */
module Wrappers {

  datatype Option<T> = None | Some(value: T)
}
