/** Optional values and the ways a run of the program can stop early. */
module Wrappers {

  datatype Option<+T> = None | Some(value: T) {
    function GetOr(default: T): T {
      match this
      case Some(v) => v
      case None => default
    }
  }

  /** Why the process stopped before finishing an operation: `std::process::exit(code)`,
      a panic (`expect`, `unwrap`, `panic!`, an index out of bounds), or a stack overflow
      caused by unbounded install/update recursion (modelled with a fuel bound). */
  datatype Halt = Exit(code: int) | Panic(reason: string) | StackOverflow

  /** The result of a step that either produced a value or stopped the process. */
  datatype Step<+T> = Next(value: T) | Stop(halt: Halt)
}
