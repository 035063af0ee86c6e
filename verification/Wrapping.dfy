/** Indices that wrap around. */
module Wrapping {

  /** The masked increment `(i + 1) & mask` over `n` slots. */
  function Next(i: nat, n: nat): (r: nat)
    ensures i < n ==> r < n
  {
    if i + 1 < n then i + 1 else 0
  }
}
