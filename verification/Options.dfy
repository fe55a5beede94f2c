/** A value that may be absent: a null link, or the outcome of a step in which an assertion failed. */
module Options {

  datatype Option<+T> = None | Some(value: T)
}
