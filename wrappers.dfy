/** Optional values: absence of an entry, or a collaborator that failed. */
module Wrappers {

  datatype Option<+T> = None | Some(value: T)
}
