/** Small value types shared by every component. */
module Common {

  datatype Option<+T> = None | Some(value: T)

  /** The outcome of a call that the program lets either return or throw. */
  datatype Result<+T, +E> = Ok(value: T) | Err(error: E)

  type byte = x: int | 0 <= x < 256
  type Bytes = seq<byte>

  ghost predicate Distinct<T>(s: seq<T>) {
    forall i, j :: 0 <= i < j < |s| ==> s[i] != s[j]
  }

  function Min(a: int, b: int): int { if a <= b then a else b }

  function Max(a: int, b: int): int { if a >= b then a else b }
}
