/** Optional values: a message field that is missing or not a finite number,
    an unarmed player, a map lookup that finds nothing. */
module Wrappers {

  datatype Option<+T> = None | Some(value: T)
}
