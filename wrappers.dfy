/** The optional-value type shared by the modules of this project. */
module Wrappers {

  /** `None` stands for "absent" (no uploaded file, no match) or for a raised exception. */
  datatype Option<+T> = None | Some(value: T)
}
