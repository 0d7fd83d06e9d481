/** The platform's random number generator, as an oracle. Every value it
    produces lies in [0, 1); which values it produces is left open, so every
    property proved about a caller holds for every possible stream. */
module Oracle {

  /** Every draw of the stream is a value of `Math.random()`. */
  ghost predicate ValidDraws(draws: nat -> real)
  {
    forall n: nat :: 0.0 <= draws(n) < 1.0
  }

  class Random {
    /** The values the generator returns, in order. */
    const draws: nat -> real
    /** How many values have been taken so far. */
    var used: nat

    ghost predicate Valid()
    {
      ValidDraws(draws)
    }

    constructor (draws: nat -> real)
      requires ValidDraws(draws)
      ensures Valid()
      ensures this.draws == draws && used == 0
    {
      this.draws := draws;
      used := 0;
    }

    /** One call of `Math.random()`. */
    method Next() returns (r: real)
      requires Valid()
      modifies this
      ensures Valid()
      ensures r == draws(old(used)) && used == old(used) + 1
      ensures 0.0 <= r < 1.0
    {
      r := draws(used);
      used := used + 1;
    }
  }
}
