/** Optional values: a field the source may leave undefined, or an operation
    that the source abandons (an early `return`) instead of producing a value. */
module Wrappers {

  datatype Option<+T> = None | Some(value: T)
}
