/** Small result types shared by the model. */
module Wrappers {

  /** An optional value. The id parsed from the request path is an `Option<int>`:
      `None` stands for a parse that yields `NaN`. */
  datatype Option<+T> = None | Some(value: T)

  /** The outcome of a lookup by id: what was found, or not-found (the 404 reply). */
  datatype Outcome<+T> = Found(value: T) | NotFound
}
