/** Shared Option and Result datatypes, and Java's `int`. */
module Wrappers {

  /** A Java reference that may be null: `None` stands for null. */
  datatype Option<+T> = None | Some(value: T)

  /** The outcome of an operation that may throw: `Failure` carries the exception kind. */
  datatype Result<+R, +E> = Success(value: R) | Failure(error: E)

  /** Java's 32-bit `int`. */
  type Int32 = x: int | -0x8000_0000 <= x < 0x8000_0000
}
