/** Small vocabulary shared by every component model. */
module Prelude {

  datatype Option<+T> = None | Some(value: T)

  /** A Python call either returns or raises; the message says which check raised. */
  datatype Result<+T> = Ok(value: T) | Err(message: string)

  type Byte = x: int | 0 <= x < 256

  function Min(a: int, b: int): int { if a < b then a else b }

  function Max(a: int, b: int): int { if a < b then b else a }

  function Below(n: nat): (s: set<nat>)
    ensures |s| == n && forall i: nat :: i in s <==> i < n
  {
    if n == 0 then {} else Below(n - 1) + {n - 1}
  }

  lemma SmallerSet(a: set<nat>, b: set<nat>)
    requires a <= b
    ensures |a| <= |b|
  {
    assert b == a + (b - a);
  }
}
