/** What several modules share. */
module Prelude {
  datatype Option<+T> = None | Some(value: T)

  /** Instants and durations are nanoseconds. */
  const SECOND: int := 1_000_000_000

  /** `le(a, b)` stands for the SQL test `a <= b` on stored time text. */
  type Order = (int, int) -> bool

  function Min(a: int, b: int): int { if a < b then a else b }

  function Count(b: bool): nat { if b then 1 else 0 }

  /** 1 << n. */
  function Shl(n: nat): (p: nat)
    ensures p >= 1
  {
    if n == 0 then 1 else 2 * Shl(n - 1)
  }
}
