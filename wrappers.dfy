/** The optional value used for `Option<ObjectId>` ids and for search results. */
module Wrappers {

  datatype Option<+T> = None | Some(value: T)
}
