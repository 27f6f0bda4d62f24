/** Small datatypes that several modules share. */
module Options {
  datatype Option<+T> = None | Some(value: T)

  /** A floating-point number: a real, or one of the special values of IEEE 754. */
  datatype Float = NaN | PlusInfinity | MinusInfinity | Finite(value: real)

  /** What the library's routines return. */
  datatype Status = Ok | InvalidShape | InvalidArgument
}
