/** The "present or absent" value used for files that may not exist yet
    and for table cells that may be blank. */
module Wrappers {

  datatype Option<+T> = None | Some(value: T)
}
