/** The optional value used for every operation of the model that can fail. */
module Wrappers {

  /** `None` stands for a failure (a thrown exception, a missing file);
      `Some(v)` for a successful result `v`. */
  datatype Option<+T> = None | Some(value: T)
}
