/** The optional value used wherever the installer returns a `java.util.Optional`
    or may leave a JSON property out. */
module Wrappers {

  datatype Option<+T> = None | Some(value: T)
}
