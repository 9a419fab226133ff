/** The usual optional value: a command argument that may be missing or
    unparsable, a reply that may not be sent, a parse that may fail. */
module Wrappers {
  datatype Option<+T> = None | Some(value: T)
}
