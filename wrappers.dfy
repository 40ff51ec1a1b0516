/** A missing value: pandas' NaN / NaT for a nullable column is `None`. */
module Wrappers {

  datatype Option<+T> = None | Some(value: T)
}
