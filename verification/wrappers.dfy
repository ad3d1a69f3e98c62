/** The optional-value datatype used for readings that may be "N/A". */
module Wrappers {

  /** `None` stands for a reading the dashboard shows as "N/A". */
  datatype Option<+T> = None | Some(value: T)
}
