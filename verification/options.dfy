/** The optional value that stands in for a Go `nil` pointer or a "not found" index. */
module Options {

  datatype Option<+T> = None | Some(value: T)

}
