/** Option and Result values standing in for C# null references and thrown exceptions. */
module Wrappers {

  /** A value that may be absent (a C# reference that may be null). */
  datatype Option<+T> = None | Some(value: T)

  /** The outcome of an operation that may throw instead of completing. */
  datatype Result<+T, +E> = Success(value: T) | Failure(error: E)

  /**
   * The exceptions the modelled code can raise: a null dereference, an array
   * index out of range, a List index out of range, a null argument, and a
   * type without the constructor Activator.CreateInstance looks for.
   */
  datatype Fault = NullReference | IndexOutOfRange | ArgumentOutOfRange | ArgumentNull | MissingConstructor
}
