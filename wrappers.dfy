/** The optional value used wherever the source answers "nothing" (a failed parse, a missing entry). */
module Wrappers {

  datatype Option<+T> = None | Some(value: T)
}
