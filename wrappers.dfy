/** Stock optional value, used for absent map entries, an absent queue and
    failed parses. */
module Wrappers {
  datatype Option<+T> = None | Some(value: T)
}
