/** Types shared by every part of the model. */
module Common {
  /** A Go pointer that may be nil, or a lookup that may miss. */
  datatype Option<+T> = None | Some(value: T)

  function Min(a: int, b: int): int { if a <= b then a else b }

  function Max(a: int, b: int): int { if a <= b then b else a }
}
