/**
 * Shared result shapes of the library.
 *
 * The library's functions throw a `RangeError` for their few guarded inputs;
 * here that exception is the `RangeError` alternative of `Result`.
 * A predicate's `[boolean, number]` pair is `ProgressionResult`: `[true, p]`
 * is `Matched(p)` and `[false, NaN]` is `NotMatched`.
 */
module Types {

  datatype Result<T> = Ok(value: T) | RangeError

  datatype ProgressionResult = Matched(parameter: real) | NotMatched

}
