/** Small failure-carrying datatypes shared by the other modules. */
module Basics {

  /** A value that may be absent, as a JavaScript `null`/`undefined` binding. */
  datatype Option<T> = None | Some(value: T)

  /** The outcome of an event handler: its new state, or the exception it threw. */
  datatype Result<T, E> = Ok(value: T) | Err(error: E)

  function Min(a: int, b: int): int { if a <= b then a else b }

  function Max(a: int, b: int): int { if a >= b then a else b }

  function Abs(x: real): real { if x < 0.0 then -x else x }
}
