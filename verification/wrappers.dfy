/** Optional values: C#'s nullable `DateTimeOffset?` and a dictionary lookup that may miss. */
module Wrappers {

  datatype Option<+T> = None | Some(value: T)

}
