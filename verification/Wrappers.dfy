/** Small things that every part of the model uses. */
module Wrappers {
  /** Python's None-or-value fields. */
  datatype Option<+T> = None | Some(value: T)

  function Max(a: int, b: int): int { if a < b then b else a }

  function Min(a: int, b: int): int { if a < b then a else b }
}
