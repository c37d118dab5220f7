/** Optional values: an absent custom attribute, a rule tag that does not parse. */
module Wrappers {

  datatype Option<+T> = None | Some(value: T)

}
