/** Small shared datatypes: an optional value, a value or an error, a floating-point figure. */
module Basics {

  datatype Option<+T> = None | Some(value: T)

  datatype Result<+T, +E> = Ok(value: T) | Err(error: E)

  /** A floating-point figure; comparisons with no number are false. */
  datatype Number = Finite(value: real) | PositiveInfinity | NegativeInfinity | NotANumber
  {
    predicate Above(bound: real) {
      PositiveInfinity? || (Finite? && value > bound)
    }

    predicate Below(bound: real) {
      NegativeInfinity? || (Finite? && value < bound)
    }
  }

  function Max(a: int, b: int): int {
    if a >= b then a else b
  }

  function Min(a: int, b: int): int {
    if a <= b then a else b
  }
}
