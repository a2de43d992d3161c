// Shared small types.
module Basics {
  type byte = x: int | 0 <= x < 0x100

  datatype Option<T> = None | Some(value: T)

  // Of an operation that carries assertions: a failed one ends the program.
  datatype Outcome = Done | Aborted
}
