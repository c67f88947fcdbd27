/** What every module shares: Python's None beside a value, and identifiers. */
module Options {
  datatype Option<+T> = None | Some(value: T)

  /** Identifiers are only ever compared for equality. */
  type Id = int
}
