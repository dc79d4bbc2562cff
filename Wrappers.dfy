/** Option values, used for the food tile that does not exist before the first run. */
module Wrappers {
  datatype Option<+T> = None | Some(value: T)
}
