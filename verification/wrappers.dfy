/** The optional value used wherever the trainer holds "nothing yet" (`null` in the program). */
module Wrappers {

  datatype Option<+T> = None | Some(value: T)

}
