/** What several modules share: optional values, bounds, lengths of time and repetition. */
module Basics {

  datatype Option<+T> = None | Some(value: T)

  // A length of time, in seconds.
  type Span = x: real | 0.0 <= x

  function Max(a: int, b: int): int { if a < b then b else a }

  function Min(a: int, b: int): int { if a < b then a else b }

  function Repeat<T>(x: T, n: nat): (s: seq<T>)
    ensures |s| == n && forall i | 0 <= i < n :: s[i] == x
  {
    if n == 0 then [] else Repeat(x, n - 1) + [x]
  }
}
