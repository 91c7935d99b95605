/** The optional value used for the "nothing hovered" state (`null` in the components). */
module Wrappers {

  datatype Option<+T> = None | Some(value: T)
}
