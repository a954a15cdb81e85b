/** Error-carrying results shared by the filter models.
    An ITK exception (itkExceptionMacro) or a VTK error report becomes `Fail`/`Err`
    carrying the kind of error, instead of a precondition that forbids it. */
module Common {

  /** The outcome of an operation that returns nothing but may throw. */
  datatype Outcome<E> = Pass | Fail(error: E) {
    predicate IsFailure() { Fail? }
  }

  /** The outcome of an operation that computes a value but may throw. */
  datatype Result<T, E> = Ok(value: T) | Err(error: E) {
    predicate IsFailure() { Err? }
  }

  /** An optional value: a null pointer, a missing key or an unset object is None. */
  datatype Option<T> = None | Some(value: T)

  /** A real-valued three-component point or vector. */
  datatype Point3 = Point3(x: real, y: real, z: real)
}
