/** The C library's random-number generator, as an injected oracle.  The
    source reseeds it from the wall clock before every level generation; here
    one arbitrary stream of naturals stands for everything rand() returns, and
    every property of the model holds whatever the stream is. */
module Rng {

  /** The values rand() yields, in call order. */
  type Stream = nat -> nat

  /** The generator's hidden state: how many values have been drawn. */
  class Rand {
    const stream: Stream
    var pos: nat

    constructor (stream: Stream)
      ensures this.stream == stream && pos == 0
    {
      this.stream := stream;
      pos := 0;
    }

    /** One call of rand(). */
    method Next() returns (r: nat)
      modifies this
      ensures r == stream(old(pos)) && pos == old(pos) + 1
    {
      r := stream(pos);
      pos := pos + 1;
    }
  }
}
