/** The optional-value datatype used across the model for JavaScript's
    `null` / missing values. */
module Wrappers {

  datatype Option<+T> = None | Some(value: T)

}
