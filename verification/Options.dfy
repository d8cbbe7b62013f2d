/** Values that may be missing. */
module Options {
  datatype Option<+T> = None | Some(value: T)

  /** The greater of an instant that may be missing and one that is not. */
  function Later(a: Option<int>, b: int): Option<int> {
    if a.Some? && a.value >= b then a else Some(b)
  }
}
