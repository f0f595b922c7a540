module Options {
  /** The greatest C int. */
  const INT_MAX := 0x7FFF_FFFF

  datatype Option<+T> = None | Some(value: T)
}
