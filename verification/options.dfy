/** The conventional option type, used wherever the Go code returns a pair (value, ok) or a nil-able pointer. */
module Options {
  datatype Option<+T> = None | Some(value: T)
}
