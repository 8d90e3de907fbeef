/** The optional value used for the sword, which is either lying in the world or gone. */
module Wrappers {

  datatype Option<+T> = None | Some(value: T)
}
