/** Values that may be absent, and computations that may be refused. */
module Options {

  datatype Option<+T> = None | Some(value: T)

  /** A build step either yields a value or raises, as the source does with `ValueError`. */
  datatype Result<+T> = Ok(value: T) | Err(message: string)
}
