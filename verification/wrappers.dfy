/** The optional value used wherever the program may find nothing: a dictionary
    lookup that misses, a JSON decode that fails. */
module Wrappers {

  datatype Option<+T> = None | Some(value: T)
}
