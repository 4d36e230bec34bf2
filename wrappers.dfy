/** Optional values: an absent storage item, an idle edit mode, a rejected form. */
module Wrappers {
  datatype Option<+T> = None | Some(value: T)
}
