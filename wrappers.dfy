/** The optional value used for "no task is being dragged" and for the
    parts of a card that are not rendered. */
module Wrappers {

  datatype Option<+T> = None | Some(value: T)
}
