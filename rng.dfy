/**
 * `Math.random()` as a cursor over a stream of draws fixed in advance. Every
 * component that draws shares one `Random` object, so draws are consumed in
 * program order.
 */
module Rng {

  class Random {
    /** The i-th value `Math.random()` returns. */
    const draws: nat -> real
    /** How many draws have been consumed. */
    var cursor: nat

    /** `Math.random()` returns values in [0, 1). */
    ghost predicate InUnitInterval() {
      forall i :: 0.0 <= draws(i) < 1.0
    }

    constructor(draws: nat -> real)
      ensures this.draws == draws && cursor == 0
    {
      this.draws := draws;
      cursor := 0;
    }

    method Next() returns (r: real)
      modifies this
      ensures r == draws(old(cursor)) && cursor == old(cursor) + 1
      ensures InUnitInterval() ==> 0.0 <= r < 1.0
    {
      r := draws(cursor);
      cursor := cursor + 1;
    }
  }

  /** `Math.floor(r * n)`: for a draw r in [0, 1) and n > 0, an integer in [0, n). */
  function FloorScaled(r: real, n: real): (k: int)
    ensures 0.0 <= r < 1.0 && 0.0 < n ==> 0 <= k && k as real < n
  {
    if 0.0 <= r < 1.0 && 0.0 < n then ScaledBelow(r, n); (r * n).Floor
    else (r * n).Floor
  }

  lemma ScaledBelow(r: real, n: real)
    requires 0.0 <= r < 1.0 && 0.0 < n
    ensures 0.0 <= r * n < n
  {
    assert n - r * n == (1.0 - r) * n;
  }
}
