/** A plain optional value, used for Go's nilable `error` and for decoder results. */
module Wrappers {

  datatype Option<+T> = None | Some(value: T)
}
