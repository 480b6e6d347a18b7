/** Java's nullable references and "no result" returns, as an Option. */
module Wrappers {

  /** `None` stands for a Java `null`. */
  datatype Option<+T> = None | Some(value: T)
}
