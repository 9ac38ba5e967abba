/** The Go code reports failure with an extra `ok bool` or `error` result; the model uses Option. */
module Optional {
  datatype Option<+T> = None | Some(value: T)
}
