/** An optional value: the source's `None` for an absent powerup, an unplaced item or a missing file. */
module Wrappers {
  datatype Option<+T> = None | Some(value: T)
}
