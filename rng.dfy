// `Math.random()` as the engines and utilities use it: every call site
// computes `Math.floor(Math.random() * n)`, an index in [0, n). The
// process-wide generator is modelled as a fixed stream of outcomes that
// is consumed one draw at a time.

module Randomness {

  /** The n draws below `bound` that a stream yields from position `start`. */
  function Draws(outcomes: nat -> nat, start: nat, n: nat, bound: nat): (d: seq<nat>)
    requires bound > 0
    ensures |d| == n
    ensures forall i :: 0 <= i < n ==> d[i] < bound
  {
    seq(n, i requires 0 <= i < n => outcomes(start + i) % bound)
  }

  class Rng {
    /** The values the generator will produce, in order. */
    const outcomes: nat -> nat
    /** How many values have been used so far. */
    var drawn: nat

    constructor (outcomes: nat -> nat)
      ensures this.outcomes == outcomes && drawn == 0
    {
      this.outcomes := outcomes;
      drawn := 0;
    }

    /** The next value, reduced to an index below `bound`. */
    function Peek(bound: nat): nat
      requires bound > 0
      reads this
    {
      outcomes(drawn) % bound
    }

    /** `Math.floor(Math.random() * bound)` */
    method Below(bound: nat) returns (r: nat)
      requires bound > 0
      modifies this
      ensures r < bound
      ensures r == old(Peek(bound)) && drawn == old(drawn) + 1
    {
      r := outcomes(drawn) % bound;
      drawn := drawn + 1;
    }
  }
}
