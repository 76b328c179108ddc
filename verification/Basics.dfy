/** What several modules share. */
module Basics {

  datatype Option<T> = None | Some(value: T)

  /** A value with its timestamp. */
  datatype Point<T> = Point(t: int, v: T)

  function Min(a: int, b: int): int { if a <= b then a else b }

  function Max(a: int, b: int): int { if a >= b then a else b }
}
