/** The optional-value datatype shared by every module of the model. */
module Wrappers {

  /** `None` stands for JavaScript's `undefined`/`null`, or for an exception
      (a failed `JSON.parse`, a `NaN` from `parseInt`), as each use says. */
  datatype Option<+T> = None | Some(value: T)
}
