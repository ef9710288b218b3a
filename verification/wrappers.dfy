/** The optional-value datatype used for the ledger's optional date bounds. */
module Wrappers {

  /** A value that may be absent: `None` plays the part of an omitted argument. */
  datatype Option<+T> = None | Some(value: T)
}
